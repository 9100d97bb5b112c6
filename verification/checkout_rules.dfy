/** The field rules of the checkout schema (components/checkout-form.tsx):
    the five regular expressions, their refinements and the length bounds,
    written as predicates over strings. A regular expression anchored with
    `^...$` is modelled as a predicate on the whole string. */
module CheckoutRules {
  import opened Types

  predicate IsDigit(c: char) {
    '0' <= c <= '9'
  }

  predicate AllDigits(s: string) {
    forall i :: 0 <= i < |s| ==> IsDigit(s[i])
  }

  /** `^[0-9]{lo,hi}$` */
  predicate DigitRun(s: string, lo: nat, hi: nat) {
    lo <= |s| <= hi && AllDigits(s)
  }

  /** `String.prototype.startsWith` */
  predicate StartsWith(s: string, prefix: string) {
    |prefix| <= |s| && s[..|prefix|] == prefix
  }

  /** The UTF-16 code units of one character: a character above U+FFFF is
      stored as a surrogate pair. */
  function CodeUnits(c: char): nat {
    if c as int > 0xFFFF then 2 else 1
  }

  /** `String.prototype.length`: the number of UTF-16 code units, which is
      what zod's `.min` and `.max` compare. */
  function JsLength(s: string): (n: nat)
    ensures |s| <= n <= 2 * |s|
    ensures n == 0 <==> |s| == 0
  {
    if |s| == 0 then 0 else JsLength(s[..|s| - 1]) + CodeUnits(s[|s| - 1])
  }

  /** On text without characters above U+FFFF the code-unit length is the
      character count. */
  lemma {:induction false} JsLengthBmp(s: string)
    requires forall i :: 0 <= i < |s| ==> s[i] as int <= 0xFFFF
    ensures JsLength(s) == |s|
  {
    if |s| > 0 {
      JsLengthBmp(s[..|s| - 1]);
    }
  }

  /** The code-unit length of a joined string is the sum of the parts'. */
  lemma {:induction false} JsLengthAppend(a: string, b: string)
    ensures JsLength(a + b) == JsLength(a) + JsLength(b)
  {
    if |b| == 0 {
      assert a + b == a;
    } else {
      assert (a + b)[..|a + b| - 1] == a + b[..|b| - 1];
      JsLengthAppend(a, b[..|b| - 1]);
    }
  }

  /** zod's `.min(lo)` on a string. */
  predicate MinLength(s: string, lo: nat) {
    lo <= JsLength(s)
  }

  /** zod's `.min(lo).max(hi)` on a string. */
  predicate LengthBetween(s: string, lo: nat, hi: nat) {
    lo <= JsLength(s) <= hi
  }

  /** One emoji is two code units: it meets `.min(2)`, and 26 of them break
      `.max(50)`. */
  lemma AstralCountsTwice(e: char)
    requires e as int > 0xFFFF
    ensures LengthBetween([e], 2, 50)
    ensures !LengthBetween(seq(26, _ => e), 2, 50)
  {
    assert [e][..0] == [];
    var s := seq(26, _ => e);
    forall k | 0 <= k <= 26 ensures JsLength(s[..k]) == 2 * k {
      AstralRunLength(s, k, e);
    }
    assert s[..26] == s;
  }

  lemma {:induction false} AstralRunLength(s: string, k: int, e: char)
    requires 0 <= k <= |s|
    requires e as int > 0xFFFF
    requires forall i :: 0 <= i < |s| ==> s[i] == e
    ensures JsLength(s[..k]) == 2 * k
  {
    if k > 0 {
      AstralRunLength(s, k - 1, e);
      assert s[..k][..k - 1] == s[..k - 1];
    }
  }

  // ---------------------------------------------------------------------
  // Phone: `/^\+?[0-9]{9,15}$/` refined by `!val.startsWith("0000")`.

  predicate PhoneMatches(s: string) {
    if |s| > 0 && s[0] == '+' then DigitRun(s[1..], 9, 15) else DigitRun(s, 9, 15)
  }

  predicate PhoneValid(s: string) {
    PhoneMatches(s) && !StartsWith(s, "0000")
  }

  /** The refinement rejects a well-shaped number that starts with four zeros. */
  lemma FourZerosRejected()
    ensures PhoneMatches("000012345")
    ensures !PhoneValid("000012345")
  {
    assert "000012345"[..4] == "0000";
  }

  /** With a leading `+` the four-zero refinement never fires: any 9 to 15
      digits are accepted, zeros included. */
  lemma {:induction false} PlusPrefixSkipsZeroCheck(digits: string)
    ensures PhoneValid("+" + digits) <==> DigitRun(digits, 9, 15)
  {
    var s := "+" + digits;
    assert s[1..] == digits;
    assert s[0] == '+';
    assert !StartsWith(s, "0000") by {
      if |s| >= 4 {
        assert s[..4][0] == '+';
      }
    }
  }

  lemma PlusZerosAccepted()
    ensures PhoneValid("+000012345")
  {
    PlusPrefixSkipsZeroCheck("000012345");
    assert "+" + "000012345" == "+000012345";
  }

  // ---------------------------------------------------------------------
  // Postal code: `/^[0-9]{2}-[0-9]{3}$/` refined by
  // `parseInt(val.replace("-", ""), 10)` lying in 0..99999.

  predicate PostalMatches(s: string) {
    |s| == 6 && AllDigits(s[..2]) && s[2] == '-' && AllDigits(s[3..])
  }

  /** `indexOf`: the position of the first `c` in `s`. */
  function FirstIndex(s: string, c: char): (i: int)
    requires c in s
    ensures 0 <= i < |s| && s[i] == c && c !in s[..i]
  {
    if s[0] == c then 0
    else
      assert c in s[1..] by {
        assert s == [s[0]] + s[1..];
      }
      var j := FirstIndex(s[1..], c);
      assert s[..j + 1] == [s[0]] + s[1..][..j];
      j + 1
  }

  /** `replace` with a string pattern: deletes the first occurrence of `c`
      (stated by `ReplaceFirstDeletesFirst`). */
  function ReplaceFirst(s: string, c: char): (r: string)
    ensures c in s ==> |r| == |s| - 1
    ensures c !in s ==> r == s
  {
    if |s| == 0 then s
    else if s[0] == c then s[1..]
    else
      assert s == [s[0]] + s[1..];
      [s[0]] + ReplaceFirst(s[1..], c)
  }

  /** The `replace` deletes the first `c` and no other: the characters before
      it, which hold no `c`, and everything after it are kept in order. */
  lemma ReplaceFirstDeletesFirst(s: string, c: char)
    requires c in s
    ensures exists i :: 0 <= i < |s| && s[i] == c && c !in s[..i] && ReplaceFirst(s, c) == s[..i] + s[i+1..]
  {
    var i := FirstIndex(s, c);
    ReplaceFirstAt(s, c);
    assert s[i] == c && c !in s[..i];
  }

  lemma {:induction false} ReplaceFirstAt(s: string, c: char)
    requires c in s
    ensures ReplaceFirst(s, c) == s[..FirstIndex(s, c)] + s[FirstIndex(s, c) + 1..]
  {
    if s[0] == c {
      assert s[..0] + s[1..] == s[1..];
    } else {
      assert c in s[1..] by {
        assert s == [s[0]] + s[1..];
      }
      ReplaceFirstAt(s[1..], c);
      ReplaceFirstStep(s, c);
    }
  }

  /** The step of `ReplaceFirstAt`: deleting the first `c` of the tail,
      behind a head that is not `c`. */
  lemma ReplaceFirstStep(s: string, c: char)
    requires |s| > 0 && s[0] != c && c in s[1..]
    requires ReplaceFirst(s[1..], c) == s[1..][..FirstIndex(s[1..], c)] + s[1..][FirstIndex(s[1..], c) + 1..]
    ensures c in s && ReplaceFirst(s, c) == s[..FirstIndex(s, c)] + s[FirstIndex(s, c) + 1..]
  {
    var j := FirstIndex(s[1..], c);
    DropAfterHead(s, j);
    assert ReplaceFirst(s, c) == [s[0]] + ReplaceFirst(s[1..], c);
    assert FirstIndex(s, c) == j + 1;
  }

  /** Deleting position `j` of the tail, then putting the head back, deletes
      position `j + 1`. */
  lemma DropAfterHead(s: string, j: int)
    requires 0 <= j < |s| - 1
    ensures [s[0]] + (s[1..][..j] + s[1..][j + 1..]) == s[..j + 1] + s[j + 2..]
  {
    assert s[..j + 1] == [s[0]] + s[1..][..j];
    assert s[j + 2..] == s[1..][j + 1..];
  }

  /** The longest prefix of `s` made of digits. */
  function LeadingDigits(s: string): (d: string)
    ensures AllDigits(d)
    ensures |d| <= |s| && d == s[..|d|]
    ensures |d| < |s| ==> !IsDigit(s[|d|])
  {
    if |s| > 0 && IsDigit(s[0]) then [s[0]] + LeadingDigits(s[1..]) else []
  }

  function DigitValue(c: char): int
    requires IsDigit(c)
  {
    c as int - '0' as int
  }

  function Pow10(n: nat): (p: nat)
    ensures p >= 1
  {
    if n == 0 then 1 else 10 * Pow10(n - 1)
  }

  /** Decimal value of a digit string, most significant digit first. */
  function DigitsValue(s: string): (v: nat)
    requires AllDigits(s)
    ensures v < Pow10(|s|)
  {
    if |s| == 0 then 0
    else DigitsValue(s[..|s| - 1]) * 10 + DigitValue(s[|s| - 1])
  }

  /** `parseInt(s, 10)` on the strings the form can hold: the value of the
      leading digits, or `None` for NaN when there are none. */
  function ParseInt(s: string): (r: Option<int>)
    ensures r.None? <==> (|s| == 0 || !IsDigit(s[0]))
    ensures r.Some? ==> r.value >= 0
  {
    var d := LeadingDigits(s);
    if |d| == 0 then None else Some(DigitsValue(d))
  }

  predicate PostalRefine(s: string) {
    match ParseInt(ReplaceFirst(s, '-'))
    case None => false
    case Some(n) => 0 <= n <= 99999
  }

  predicate PostalValid(s: string) {
    PostalMatches(s) && PostalRefine(s)
  }

  /** Every string of the shape `DD-DDD` passes the numeric refinement, so the
      refinement never rejects anything the regular expression accepts. */
  lemma PostalRefineRedundant(s: string)
    requires PostalMatches(s)
    ensures PostalRefine(s)
    ensures ParseInt(ReplaceFirst(s, '-')) == Some(DigitsValue(s[..2] + s[3..]))
  {
    var digits := s[..2] + s[3..];
    assert ReplaceFirst(s, '-') == digits by {
      assert s[0] != '-' && s[1] != '-' by {
        assert IsDigit(s[..2][0]) && IsDigit(s[..2][1]);
      }
      assert s[1..][1..] == s[2..];
      assert s[2..][0] == '-' && s[2..][1..] == s[3..];
      assert ReplaceFirst(s[2..], '-') == s[3..];
      assert ReplaceFirst(s[1..], '-') == [s[1]] + s[3..];
      assert ReplaceFirst(s, '-') == [s[0]] + ([s[1]] + s[3..]);
      assert s[..2] == [s[0], s[1]];
    }
    assert AllDigits(digits) by {
      forall i | 0 <= i < |digits| ensures IsDigit(digits[i]) {
        if i < 2 { assert digits[i] == s[..2][i]; } else { assert digits[i] == s[3..][i - 2]; }
      }
    }
    assert LeadingDigits(digits) == digits;
    assert Pow10(5) == 100000;
  }

  lemma PostalValidIffShape(s: string)
    ensures PostalValid(s) <==> PostalMatches(s)
  {
    if PostalMatches(s) {
      PostalRefineRedundant(s);
    }
  }

  // ---------------------------------------------------------------------
  // Payment fields.

  /** `/^[0-9]{16}$/` */
  predicate CardNumberValid(s: string) {
    DigitRun(s, 16, 16)
  }

  /** `/^[0-9]{3,4}$/` */
  predicate CvvValid(s: string) {
    DigitRun(s, 3, 4)
  }

  /** `/^(0[1-9]|1[0-2])\/([0-9]{2})$/` */
  predicate ExpiryValid(s: string) {
    && |s| == 5
    && ((s[0] == '0' && '1' <= s[1] <= '9') || (s[0] == '1' && '0' <= s[1] <= '2'))
    && s[2] == '/'
    && IsDigit(s[3]) && IsDigit(s[4])
  }

  function ExpiryMonth(s: string): (m: int)
    requires ExpiryValid(s)
    ensures 1 <= m <= 12
  {
    DigitValue(s[0]) * 10 + DigitValue(s[1])
  }

  function ExpiryYear(s: string): (y: int)
    requires ExpiryValid(s)
    ensures 0 <= y <= 99
  {
    DigitValue(s[3]) * 10 + DigitValue(s[4])
  }

  function DigitChar(d: int): (c: char)
    requires 0 <= d <= 9
    ensures IsDigit(c) && DigitValue(c) == d
  {
    (d + '0' as int) as char
  }

  /** The two-digit `MM/YY` rendering of a month and a year. */
  function FormatExpiry(month: int, year: int): string
    requires 1 <= month <= 12 && 0 <= year <= 99
  {
    [DigitChar(month / 10), DigitChar(month % 10), '/', DigitChar(year / 10), DigitChar(year % 10)]
  }

  /** Every month 01..12 with any two-digit year is accepted and reads back
      unchanged. */
  lemma ExpiryFormatThenParse(month: int, year: int)
    requires 1 <= month <= 12 && 0 <= year <= 99
    ensures ExpiryValid(FormatExpiry(month, year))
    ensures ExpiryMonth(FormatExpiry(month, year)) == month
    ensures ExpiryYear(FormatExpiry(month, year)) == year
  {
  }

  /** Every accepted expiry date is the rendering of the month and year it
      denotes, so the accepted strings are exactly the renderings. */
  lemma ExpiryParseThenFormat(s: string)
    requires ExpiryValid(s)
    ensures FormatExpiry(ExpiryMonth(s), ExpiryYear(s)) == s
  {
    var f := FormatExpiry(ExpiryMonth(s), ExpiryYear(s));
    assert f[0] == s[0] && f[1] == s[1] && f[3] == s[3] && f[4] == s[4];
  }

  lemma ExpiryMonthBounds()
    ensures !ExpiryValid("00/27") && !ExpiryValid("13/27")
    ensures ExpiryValid("12/27") && ExpiryValid("01/00")
  {
  }

  /** `.min(3)` and `.refine(val => val.includes(" "))` */
  predicate CardHolderValid(s: string) {
    MinLength(s, 3) && ' ' in s
  }

  /** The payment data of a typical order passes every payment rule. */
  lemma SamplePaymentAccepted()
    ensures CardNumberValid("1234567890123456")
    ensures ExpiryValid("12/27")
    ensures CvvValid("123")
    ensures CardHolderValid("Jan Kowalski")
  {
    var card := "1234567890123456";
    forall i | 0 <= i < 16 ensures IsDigit(card[i]) {}
    assert "Jan Kowalski"[3] == ' ';
    JsLengthBmp("Jan Kowalski");
  }

  lemma SamplePhoneAccepted()
    ensures PhoneValid("123456789")
  {
    assert "123456789"[..4][0] == '1';
  }
}
