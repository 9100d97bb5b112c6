/** `Array.prototype.filter` as used throughout the storefront: keeps the
    elements a predicate accepts, in their original order. */
module Seqs {

  function Filter<T>(s: seq<T>, keep: T -> bool): (r: seq<T>)
    ensures |r| <= |s|
    ensures forall i :: 0 <= i < |r| ==> keep(r[i])
  {
    if |s| == 0 then []
    else if keep(s[0]) then [s[0]] + Filter(s[1..], keep) else Filter(s[1..], keep)
  }

  /** One step of the filter: the head is kept or dropped, then the tail is
      filtered. */
  lemma FilterStep<T>(s: seq<T>, keep: T -> bool)
    requires |s| > 0
    ensures Filter(s, keep) == (if keep(s[0]) then [s[0]] else []) + Filter(s[1..], keep)
  {
  }

  /** The filter keeps exactly the accepted elements of its input. */
  lemma {:induction false} FilterMembers<T>(s: seq<T>, keep: T -> bool)
    ensures forall i :: 0 <= i < |Filter(s, keep)| ==> Filter(s, keep)[i] in s
    ensures forall i :: 0 <= i < |s| && keep(s[i]) ==> s[i] in Filter(s, keep)
  {
    if |s| > 0 {
      FilterMembers(s[1..], keep);
      assert s == [s[0]] + s[1..];
    }
  }

  /** Filtering a concatenation filters each part: the result keeps the
      input's order. */
  lemma {:induction false} FilterAppend<T>(s: seq<T>, t: seq<T>, keep: T -> bool)
    ensures Filter(s + t, keep) == Filter(s, keep) + Filter(t, keep)
  {
    if |s| == 0 {
      assert s + t == t;
    } else {
      assert (s + t)[1..] == s[1..] + t;
      FilterAppend(s[1..], t, keep);
    }
  }

  /** A filter that accepts every element returns its input unchanged. */
  lemma {:induction false} FilterKeepsAll<T>(s: seq<T>, keep: T -> bool)
    requires forall i :: 0 <= i < |s| ==> keep(s[i])
    ensures Filter(s, keep) == s
  {
    if |s| > 0 {
      FilterKeepsAll(s[1..], keep);
    }
  }

  /** A filter that rejects every element returns the empty sequence. */
  lemma {:induction false} FilterDropsAll<T>(s: seq<T>, keep: T -> bool)
    requires forall i :: 0 <= i < |s| ==> !keep(s[i])
    ensures Filter(s, keep) == []
  {
    if |s| > 0 {
      FilterDropsAll(s[1..], keep);
    }
  }

  /** Filtering by a predicate and by its negation splits the input. */
  lemma {:induction false} FilterComplementCount<T>(s: seq<T>, keep: T -> bool, drop: T -> bool)
    requires forall x :: drop(x) == !keep(x)
    ensures |Filter(s, keep)| + |Filter(s, drop)| == |s|
  {
    if |s| > 0 {
      FilterComplementCount(s[1..], keep, drop);
    }
  }

  /** When a filter can reject at most the element at `k`, the result is the
      input with at most that one element cut out. */
  lemma {:induction false} FilterAllBut<T>(s: seq<T>, k: int, keep: T -> bool)
    requires 0 <= k < |s|
    requires forall j :: 0 <= j < |s| && j != k ==> keep(s[j])
    ensures keep(s[k]) ==> Filter(s, keep) == s
    ensures !keep(s[k]) ==> Filter(s, keep) == s[..k] + s[k+1..]
  {
    var rest := s[1..];
    if k == 0 {
      assert Filter(rest, keep) == rest by {
        assert forall j :: 0 <= j < |rest| ==> rest[j] == s[j + 1];
        FilterKeepsAll(rest, keep);
      }
      assert s == [s[0]] + rest;
    } else {
      assert forall j :: 0 <= j < |rest| && j != k - 1 ==> keep(rest[j]) by {
        assert forall j :: 0 <= j < |rest| ==> rest[j] == s[j + 1];
      }
      FilterAllBut(rest, k - 1, keep);
      FilterStep(s, keep);
      assert rest[k - 1] == s[k];
      if !keep(s[k]) {
        assert s[..k] + s[k+1..] == [s[0]] + (rest[..k - 1] + rest[k..]);
      }
    }
  }

  /** Filters by predicates that agree on every element give the same result. */
  lemma {:induction false} FilterSameKeep<T>(s: seq<T>, keep: T -> bool, keep': T -> bool)
    requires forall i :: 0 <= i < |s| ==> keep(s[i]) == keep'(s[i])
    ensures Filter(s, keep) == Filter(s, keep')
  {
    if |s| > 0 {
      FilterSameKeep(s[1..], keep, keep');
    }
  }
}
