/** The cart store (lib/cart-store.tsx): an ordered list of line items, the
    pure reducer over the four cart actions, and the two derived totals. */
module CartStore {
  import opened Types
  import Seqs

  /** One product with how many units of it are in the cart. */
  datatype LineItem = LineItem(product: Product, quantity: int)

  datatype CartState = CartState(items: seq<LineItem>)

  datatype CartAction =
    | AddItem(product: Product)
    | RemoveItem(productId: string)
    | UpdateQuantity(productId: string, quantity: int)
    | ClearCart

  predicate PositiveQuantities(items: seq<LineItem>) {
    forall i :: 0 <= i < |items| ==> items[i].quantity >= 1
  }

  predicate DistinctIds(items: seq<LineItem>) {
    forall i, j :: 0 <= i < j < |items| ==> items[i].product.id != items[j].product.id
  }

  /** The invariant every reachable cart satisfies: each quantity is at least
      one and no two lines share a product id. */
  predicate WellFormed(items: seq<LineItem>) {
    PositiveQuantities(items) && DistinctIds(items)
  }

  predicate Contains(items: seq<LineItem>, id: string) {
    exists i :: 0 <= i < |items| && items[i].product.id == id
  }

  /** `findIndex` on the product id: the first matching position, or -1. */
  function FindIndex(items: seq<LineItem>, id: string): (k: int)
    ensures -1 <= k < |items|
    ensures k == -1 <==> !Contains(items, id)
    ensures k >= 0 ==> items[k].product.id == id
    ensures k >= 0 ==> forall j :: 0 <= j < k ==> items[j].product.id != id
  {
    if |items| == 0 then -1
    else if items[0].product.id == id then 0
    else
      var k := FindIndex(items[1..], id);
      assert forall j :: 1 <= j < |items| ==> items[j] == items[1..][j - 1];
      if k == -1 then -1 else k + 1
  }

  /** In a cart with distinct ids, any position holding `id` is the one
      `FindIndex` reports. */
  lemma FindIndexUnique(items: seq<LineItem>, k: int)
    requires DistinctIds(items)
    requires 0 <= k < |items|
    ensures FindIndex(items, items[k].product.id) == k
  {
  }

  /** Units of product `id` in the cart (0 when absent). */
  function QuantityOf(items: seq<LineItem>, id: string): int {
    var k := FindIndex(items, id);
    if k < 0 then 0 else items[k].quantity
  }

  /** ADD_ITEM: one more unit of `product`. */
  function AddLine(items: seq<LineItem>, product: Product): (r: seq<LineItem>)
    ensures |r| == if Contains(items, product.id) then |items| else |items| + 1
    ensures QuantityOf(r, product.id) == QuantityOf(items, product.id) + 1
    ensures forall j :: 0 <= j < |items| && items[j].product.id != product.id ==> r[j] == items[j]
    ensures !Contains(items, product.id) ==> r[|items|] == LineItem(product, 1)
    ensures WellFormed(items) ==> WellFormed(r)
  {
    var k := FindIndex(items, product.id);
    if k > -1 then
      BumpLine(items, k);
      items[k := items[k].(quantity := items[k].quantity + 1)]
    else
      FindIndexAfterAppend(items, LineItem(product, 1));
      AppendKeepsWellFormed(items, LineItem(product, 1));
      items + [LineItem(product, 1)]
  }

  /** One more unit on line `k` moves no product, so every lookup and the
      invariant stay as they were. */
  lemma BumpLine(items: seq<LineItem>, k: int)
    requires 0 <= k < |items|
    ensures var r := items[k := items[k].(quantity := items[k].quantity + 1)];
      && FindIndex(r, items[k].product.id) == FindIndex(items, items[k].product.id)
      && (WellFormed(items) ==> WellFormed(r))
  {
    var r := items[k := items[k].(quantity := items[k].quantity + 1)];
    FindIndexUnchangedIds(items, r);
  }

  /** REMOVE_ITEM: drops every line of product `id`. */
  function RemoveLine(items: seq<LineItem>, id: string): (r: seq<LineItem>)
    ensures !Contains(r, id)
    ensures |r| <= |items|
    ensures WellFormed(items) ==> WellFormed(r)
  {
    var r := Seqs.Filter(items, (line: LineItem) => line.product.id != id);
    FilterKeepsDistinct(items, (line: LineItem) => line.product.id != id);
    FilterKeepsPositive(items, (line: LineItem) => line.product.id != id);
    r
  }

  /** The `map` half of UPDATE_QUANTITY: every line of `id` gets
      `max(0, quantity)` units. */
  function SetQuantity(items: seq<LineItem>, id: string, quantity: int): (r: seq<LineItem>)
    ensures |r| == |items|
    ensures forall i :: 0 <= i < |r| ==> r[i].product == items[i].product
  {
    var q := if quantity > 0 then quantity else 0;
    seq(|items|, i requires 0 <= i < |items| =>
      if items[i].product.id == id then items[i].(quantity := q) else items[i])
  }

  /** UPDATE_QUANTITY: sets the quantity of `id`, then drops every line whose
      quantity is not positive. */
  function UpdateLine(items: seq<LineItem>, id: string, quantity: int): (r: seq<LineItem>)
    ensures PositiveQuantities(r)
    ensures forall i :: 0 <= i < |r| && r[i].product.id == id ==> r[i].quantity == quantity
    ensures quantity <= 0 ==> !Contains(r, id)
    ensures DistinctIds(items) ==> DistinctIds(r)
  {
    var set' := SetQuantity(items, id, quantity);
    var r := Seqs.Filter(set', (line: LineItem) => line.quantity > 0);
    Seqs.FilterMembers(set', (line: LineItem) => line.quantity > 0);
    assert forall i :: 0 <= i < |set'| ==> set'[i].product.id == items[i].product.id;
    FilterKeepsDistinct(set', (line: LineItem) => line.quantity > 0);
    r
  }

  /** `cartReducer`: the only way the cart changes. */
  function Reduce(state: CartState, action: CartAction): (r: CartState)
    ensures WellFormed(state.items) ==> WellFormed(r.items)
    ensures action.ClearCart? ==> r.items == []
  {
    match action
    case AddItem(product) => CartState(AddLine(state.items, product))
    case RemoveItem(id) => CartState(RemoveLine(state.items, id))
    case UpdateQuantity(id, quantity) => CartState(UpdateLine(state.items, id, quantity))
    case ClearCart => CartState([])
  }

  /** `totalItems`: the left fold adding up quantities. */
  function TotalItems(items: seq<LineItem>): int {
    if |items| == 0 then 0
    else TotalItems(items[..|items| - 1]) + items[|items| - 1].quantity
  }

  /** `totalPrice`: the left fold adding up price times quantity (grosze). */
  function TotalPrice(items: seq<LineItem>): int {
    if |items| == 0 then 0
    else
      var last := items[|items| - 1];
      TotalPrice(items[..|items| - 1]) + last.product.price * last.quantity
  }

  // ---------------------------------------------------------------------
  // Filtering keeps the invariant.

  lemma {:induction false} FilterKeepsDistinct(items: seq<LineItem>, keep: LineItem -> bool)
    ensures DistinctIds(items) ==> DistinctIds(Seqs.Filter(items, keep))
  {
    if |items| > 0 && DistinctIds(items) {
      var rest := items[1..];
      FilterKeepsDistinct(rest, keep);
      Seqs.FilterMembers(rest, keep);
      var fr := Seqs.Filter(rest, keep);
      forall i | 0 <= i < |fr| ensures fr[i].product.id != items[0].product.id {
        var j :| 0 <= j < |rest| && rest[j] == fr[i];
        assert rest[j] == items[j + 1];
      }
    }
  }

  lemma FilterKeepsPositive(items: seq<LineItem>, keep: LineItem -> bool)
    ensures PositiveQuantities(items) ==> PositiveQuantities(Seqs.Filter(items, keep))
  {
    Seqs.FilterMembers(items, keep);
  }

  // ---------------------------------------------------------------------
  // What each action does to a well-formed cart.

  /** Unit price of the line for `id` (0 when absent). */
  function UnitPrice(items: seq<LineItem>, id: string): int {
    var k := FindIndex(items, id);
    if k < 0 then 0 else items[k].product.price
  }

  /** REMOVE_ITEM of an id that is not in the cart leaves the items as they are. */
  lemma RemoveAbsentIsNoOp(items: seq<LineItem>, id: string)
    requires !Contains(items, id)
    ensures RemoveLine(items, id) == items
  {
    Seqs.FilterKeepsAll(items, (line: LineItem) => line.product.id != id);
  }

  /** REMOVE_ITEM cuts out exactly the line of `id`; the others keep their order. */
  lemma RemoveLineCutsOut(items: seq<LineItem>, id: string)
    requires WellFormed(items)
    requires Contains(items, id)
    ensures var k := FindIndex(items, id);
      RemoveLine(items, id) == items[..k] + items[k+1..]
  {
    var k := FindIndex(items, id);
    Seqs.FilterAllBut(items, k, (line: LineItem) => line.product.id != id);
  }

  /** UPDATE_QUANTITY on a well-formed cart: no-op for an absent id, removal
      for a quantity of zero or less, otherwise an in-place overwrite. */
  lemma UpdateLineEffect(items: seq<LineItem>, id: string, quantity: int)
    requires WellFormed(items)
    ensures var k := FindIndex(items, id);
      && (k == -1 ==> UpdateLine(items, id, quantity) == items)
      && (k >= 0 && quantity <= 0 ==> UpdateLine(items, id, quantity) == items[..k] + items[k+1..])
      && (k >= 0 && quantity >= 1 ==>
            UpdateLine(items, id, quantity) == items[k := items[k].(quantity := quantity)])
  {
    var k := FindIndex(items, id);
    var set' := SetQuantity(items, id, quantity);
    var positive := (line: LineItem) => line.quantity > 0;
    if k == -1 {
      assert set' == items;
      Seqs.FilterKeepsAll(items, positive);
    } else {
      var q := if quantity > 0 then quantity else 0;
      assert set' == items[k := items[k].(quantity := q)] by {
        forall j | 0 <= j < |items| && j != k ensures items[j].product.id != id {
          if j < k {} else { assert items[k].product.id != items[j].product.id; }
        }
      }
      Seqs.FilterAllBut(set', k, positive);
      if quantity <= 0 {
        assert set'[..k] == items[..k] && set'[k+1..] == items[k+1..];
      }
    }
  }

  /** The three actions addressed at the product of line `k` of a
      well-formed cart, stated by position. */
  lemma UpdateAt(items: seq<LineItem>, k: int, quantity: int)
    requires WellFormed(items)
    requires 0 <= k < |items|
    ensures quantity <= 0 ==> UpdateLine(items, items[k].product.id, quantity) == items[..k] + items[k+1..]
    ensures quantity >= 1 ==>
      UpdateLine(items, items[k].product.id, quantity) == items[k := items[k].(quantity := quantity)]
  {
    FindIndexUnique(items, k);
    UpdateLineEffect(items, items[k].product.id, quantity);
  }

  lemma RemoveAt(items: seq<LineItem>, k: int)
    requires WellFormed(items)
    requires 0 <= k < |items|
    ensures RemoveLine(items, items[k].product.id) == items[..k] + items[k+1..]
  {
    FindIndexUnique(items, k);
    RemoveLineCutsOut(items, items[k].product.id);
  }

  lemma AddAt(items: seq<LineItem>, k: int)
    requires WellFormed(items)
    requires 0 <= k < |items|
    ensures AddLine(items, items[k].product) == items[k := items[k].(quantity := items[k].quantity + 1)]
  {
    FindIndexUnique(items, k);
  }

  // ---------------------------------------------------------------------
  // The totals follow the items.

  lemma {:induction false} TotalsAppend(a: seq<LineItem>, b: seq<LineItem>)
    ensures TotalItems(a + b) == TotalItems(a) + TotalItems(b)
    ensures TotalPrice(a + b) == TotalPrice(a) + TotalPrice(b)
  {
    if |b| == 0 {
      assert a + b == a;
    } else {
      var b' := b[..|b| - 1];
      assert (a + b)[..|a + b| - 1] == a + b';
      assert (a + b)[|a + b| - 1] == b[|b| - 1];
      TotalsAppend(a, b');
    }
  }

  /** Replacing one line changes each total by that line's difference. */
  lemma TotalsReplace(items: seq<LineItem>, k: int, line: LineItem)
    requires 0 <= k < |items|
    ensures TotalItems(items[k := line]) == TotalItems(items) - items[k].quantity + line.quantity
    ensures TotalPrice(items[k := line]) ==
      TotalPrice(items) - items[k].product.price * items[k].quantity + line.product.price * line.quantity
  {
    var pre, post := items[..k], items[k+1..];
    SplitAt(items, k);
    SplitAt(items[k := line], k);
    TotalsAppend(pre + [items[k]], post);
    TotalsAppend(pre, [items[k]]);
    TotalsAppend(pre + [line], post);
    TotalsAppend(pre, [line]);
    TotalsSingle(items[k]);
    TotalsSingle(line);
  }

  lemma SplitAt(items: seq<LineItem>, k: int)
    requires 0 <= k < |items|
    ensures items == (items[..k] + [items[k]]) + items[k+1..]
  {
  }

  lemma TotalsSingle(line: LineItem)
    ensures TotalItems([line]) == line.quantity
    ensures TotalPrice([line]) == line.product.price * line.quantity
  {
    assert [line][..0] == [];
  }

  /** Cutting one line out lowers each total by that line's contribution. */
  lemma TotalsCut(items: seq<LineItem>, k: int)
    requires 0 <= k < |items|
    ensures TotalItems(items[..k] + items[k+1..]) == TotalItems(items) - items[k].quantity
    ensures TotalPrice(items[..k] + items[k+1..]) ==
      TotalPrice(items) - items[k].product.price * items[k].quantity
  {
    var pre, mid, post := items[..k], [items[k]], items[k+1..];
    SplitAt(items, k);
    TotalsAppend(pre + mid, post);
    TotalsAppend(pre, mid);
    TotalsAppend(pre, post);
    TotalsSingle(items[k]);
  }

  /** The item-count halves of `TotalsCut` and `TotalsReplace`. */
  lemma ItemsCut(items: seq<LineItem>, k: int)
    requires 0 <= k < |items|
    ensures TotalItems(items[..k] + items[k+1..]) == TotalItems(items) - items[k].quantity
  {
    TotalsCut(items, k);
  }

  lemma ItemsReplace(items: seq<LineItem>, k: int, quantity: int)
    requires 0 <= k < |items|
    ensures TotalItems(items[k := items[k].(quantity := quantity)]) == TotalItems(items) - items[k].quantity + quantity
  {
    TotalsReplace(items, k, items[k].(quantity := quantity));
  }

  /** ADD_ITEM raises the item count by one and the price by the unit price
      of the line that received the unit. */
  lemma AddLineTotals(items: seq<LineItem>, product: Product)
    ensures TotalItems(AddLine(items, product)) == TotalItems(items) + 1
    ensures TotalPrice(AddLine(items, product)) == TotalPrice(items) + UnitPrice(AddLine(items, product), product.id)
  {
    var k := FindIndex(items, product.id);
    if k > -1 {
      AddToExistingLineTotals(items, product, k);
    } else {
      AddNewLineTotals(items, product);
    }
  }

  lemma AddToExistingLineTotals(items: seq<LineItem>, product: Product, k: int)
    requires 0 <= k < |items| && k == FindIndex(items, product.id)
    ensures TotalItems(AddLine(items, product)) == TotalItems(items) + 1
    ensures TotalPrice(AddLine(items, product)) == TotalPrice(items) + items[k].product.price
    ensures UnitPrice(AddLine(items, product), product.id) == items[k].product.price
  {
    var r := AddLine(items, product);
    assert r == items[k := items[k].(quantity := items[k].quantity + 1)];
    BumpTotals(items, k);
    BumpUnitPrice(items, k);
  }

  /** One more unit on line `k`: one more item, one more unit price. */
  lemma BumpTotals(items: seq<LineItem>, k: int)
    requires 0 <= k < |items|
    ensures var r := items[k := items[k].(quantity := items[k].quantity + 1)];
      && TotalItems(r) == TotalItems(items) + 1
      && TotalPrice(r) == TotalPrice(items) + items[k].product.price
  {
    var p, q := items[k].product.price, items[k].quantity;
    var line := items[k].(quantity := q + 1);
    TotalsReplace(items, k, line);
    assert line.product.price == p && line.quantity == q + 1;
    MulSucc(p, q);
  }

  lemma BumpUnitPrice(items: seq<LineItem>, k: int)
    requires 0 <= k < |items| && FindIndex(items, items[k].product.id) == k
    ensures var r := items[k := items[k].(quantity := items[k].quantity + 1)];
      UnitPrice(r, items[k].product.id) == items[k].product.price
  {
    BumpLine(items, k);
  }

  lemma AddNewLineTotals(items: seq<LineItem>, product: Product)
    requires FindIndex(items, product.id) == -1
    ensures TotalItems(AddLine(items, product)) == TotalItems(items) + 1
    ensures TotalPrice(AddLine(items, product)) == TotalPrice(items) + product.price
    ensures UnitPrice(AddLine(items, product), product.id) == product.price
  {
    var r := AddLine(items, product);
    var line := LineItem(product, 1);
    assert r == items + [line];
    TotalsAppend(items, [line]);
    TotalsSingle(line);
    assert FindIndex(r, product.id) == |items| by {
      assert forall j :: 0 <= j < |items| ==> r[j] == items[j];
      assert r[|items|].product.id == product.id;
    }
  }

  lemma MulSucc(p: int, q: int)
    ensures p * (q + 1) == p * q + p
  {
  }

  /** Lines that keep their products keep `FindIndex`. */
  lemma FindIndexUnchangedIds(items: seq<LineItem>, r: seq<LineItem>)
    requires |r| == |items|
    requires forall j :: 0 <= j < |r| ==> r[j].product == items[j].product
    ensures forall id :: FindIndex(r, id) == FindIndex(items, id)
  {
    forall id ensures FindIndex(r, id) == FindIndex(items, id) {
      var a, b := FindIndex(r, id), FindIndex(items, id);
      if a == -1 || b == -1 {
        assert a == -1 <==> !Contains(r, id);
      }
    }
  }

  /** REMOVE_ITEM lowers the totals by exactly the removed line. */
  lemma RemoveLineTotals(items: seq<LineItem>, id: string)
    requires WellFormed(items)
    ensures TotalItems(RemoveLine(items, id)) == TotalItems(items) - QuantityOf(items, id)
    ensures TotalPrice(RemoveLine(items, id)) == TotalPrice(items) - UnitPrice(items, id) * QuantityOf(items, id)
  {
    if Contains(items, id) {
      RemoveLineCutsOut(items, id);
      TotalsCut(items, FindIndex(items, id));
    } else {
      RemoveAbsentIsNoOp(items, id);
    }
  }

  /** UPDATE_QUANTITY swaps the line's old quantity for `max(0, quantity)` in
      the item count. */
  lemma UpdateLineTotals(items: seq<LineItem>, id: string, quantity: int)
    requires WellFormed(items)
    ensures TotalItems(UpdateLine(items, id, quantity)) ==
      TotalItems(items) - QuantityOf(items, id)
        + (if Contains(items, id) && quantity > 0 then quantity else 0)
  {
    var k := FindIndex(items, id);
    if k == -1 {
      assert UpdateLine(items, id, quantity) == items by {
        UpdateLineEffect(items, id, quantity);
      }
    } else {
      UpdateTotalsAt(items, k, quantity);
    }
  }

  /** The same, for the line at position `k`. */
  lemma UpdateTotalsAt(items: seq<LineItem>, k: int, quantity: int)
    requires WellFormed(items)
    requires 0 <= k < |items|
    ensures TotalItems(UpdateLine(items, items[k].product.id, quantity)) ==
      TotalItems(items) - items[k].quantity + (if quantity > 0 then quantity else 0)
  {
    UpdateAt(items, k, quantity);
    if quantity >= 1 {
      ItemsReplace(items, k, quantity);
    } else {
      ItemsCut(items, k);
    }
  }

  /** UPDATE_QUANTITY swaps the line's old price contribution for the unit
      price times `max(0, quantity)`. */
  lemma UpdateLinePrice(items: seq<LineItem>, id: string, quantity: int)
    requires WellFormed(items)
    ensures TotalPrice(UpdateLine(items, id, quantity)) ==
      TotalPrice(items) - UnitPrice(items, id) * QuantityOf(items, id)
        + (if Contains(items, id) && quantity > 0 then UnitPrice(items, id) * quantity else 0)
  {
    var k := FindIndex(items, id);
    if k == -1 {
      assert UpdateLine(items, id, quantity) == items by {
        UpdateLineEffect(items, id, quantity);
      }
    } else {
      UpdatePriceAt(items, k, quantity);
    }
  }

  lemma UpdatePriceAt(items: seq<LineItem>, k: int, quantity: int)
    requires WellFormed(items)
    requires 0 <= k < |items|
    ensures TotalPrice(UpdateLine(items, items[k].product.id, quantity)) ==
      TotalPrice(items) - items[k].product.price * items[k].quantity
        + (if quantity > 0 then items[k].product.price * quantity else 0)
  {
    UpdateAt(items, k, quantity);
    if quantity >= 1 {
      TotalsReplace(items, k, items[k].(quantity := quantity));
    } else {
      TotalsCut(items, k);
    }
  }

  /** CLEAR_CART empties the cart, so both totals read 0. */
  lemma ClearCartTotals(state: CartState)
    ensures var r := Reduce(state, ClearCart);
      TotalItems(r.items) == 0 && TotalPrice(r.items) == 0
  {
  }

  /** In a well-formed cart the item count is 0 exactly when there are no lines. */
  lemma TotalItemsZeroIffEmpty(items: seq<LineItem>)
    requires WellFormed(items)
    ensures TotalItems(items) == 0 <==> |items| == 0
  {
    TotalsBounds(items);
  }

  /** Every line holds at least one unit, so the cart holds at least as many
      units as lines; with nonnegative prices the total is nonnegative. */
  lemma {:induction false} TotalsBounds(items: seq<LineItem>)
    ensures PositiveQuantities(items) ==> TotalItems(items) >= |items|
    ensures (forall i :: 0 <= i < |items| ==> items[i].product.price >= 0 && items[i].quantity >= 0) ==>
      TotalPrice(items) >= 0
  {
    if |items| > 0 {
      var init := items[..|items| - 1];
      TotalsBounds(init);
      var last := items[|items| - 1];
      assert forall i :: 0 <= i < |init| ==> init[i] == items[i];
      if last.product.price >= 0 && last.quantity >= 0 {
        assert last.product.price * last.quantity >= 0;
      }
    }
  }

  // ---------------------------------------------------------------------
  // Sequences of actions.

  /** `n` ADD_ITEM actions for the same product. */
  function AddTimes(items: seq<LineItem>, product: Product, n: nat): seq<LineItem>
  {
    if n == 0 then items else AddLine(AddTimes(items, product, n - 1), product)
  }

  /** One more ADD_ITEM of a product whose only line is the last one bumps
      that line. */
  lemma AddOneMore(items: seq<LineItem>, product: Product, m: int)
    requires !Contains(items, product.id)
    ensures AddLine(items + [LineItem(product, m)], product) == items + [LineItem(product, m + 1)]
  {
    var prev := items + [LineItem(product, m)];
    FindIndexAfterAppend(items, LineItem(product, m));
    AddLineExisting(prev, product, |items|);
    assert prev[|items| := LineItem(product, m + 1)] == items + [LineItem(product, m + 1)];
  }

  /** `n` consecutive ADD_ITEMs of a product the cart does not hold append
      exactly one line for it, with quantity `n`, and leave the other lines
      as they were. */
  lemma {:induction false} AddTimesOneLine(items: seq<LineItem>, product: Product, n: nat)
    requires !Contains(items, product.id)
    requires n >= 1
    ensures AddTimes(items, product, n) == items + [LineItem(product, n)]
  {
    if n == 1 {
      AddTimesOnce(items, product);
    } else {
      AddTimesOneLine(items, product, n - 1);
      AddTimesStep(items, product, n);
    }
  }

  /** Hence the product has exactly one line, the last, and its quantity
      is `n`. */
  lemma AddTimesQuantity(items: seq<LineItem>, product: Product, n: nat)
    requires !Contains(items, product.id)
    requires n >= 1
    ensures QuantityOf(AddTimes(items, product, n), product.id) == n
    ensures forall j :: 0 <= j < |AddTimes(items, product, n)| ==>
      (AddTimes(items, product, n)[j].product.id == product.id <==> j == |items|)
  {
    var line := LineItem(product, n);
    var r := items + [line];
    assert AddTimes(items, product, n) == r by {
      AddTimesOneLine(items, product, n);
    }
    FindIndexAfterAppend(items, line);
    assert forall j :: 0 <= j < |items| ==> r[j] == items[j];
  }

  /** The first addition. */
  lemma AddTimesOnce(items: seq<LineItem>, product: Product)
    requires !Contains(items, product.id)
    ensures AddTimes(items, product, 1) == items + [LineItem(product, 1)]
  {
    assert AddTimes(items, product, 0) == items;
    AddLineNew(items, product);
  }

  /** Each later addition, given the cart after the previous ones. */
  lemma AddTimesStep(items: seq<LineItem>, product: Product, n: nat)
    requires !Contains(items, product.id)
    requires n >= 2 && AddTimes(items, product, n - 1) == items + [LineItem(product, n - 1)]
    ensures AddTimes(items, product, n) == items + [LineItem(product, n)]
  {
    AddOneMore(items, product, n - 1);
  }

  /** ADD_ITEM of a product with no line appends a line of one unit. */
  lemma AddLineNew(items: seq<LineItem>, product: Product)
    requires !Contains(items, product.id)
    ensures AddLine(items, product) == items + [LineItem(product, 1)]
  {
  }

  /** ADD_ITEM of a product whose first line is at `k` bumps that line. */
  lemma AddLineExisting(items: seq<LineItem>, product: Product, k: int)
    requires 0 <= k < |items| && FindIndex(items, product.id) == k
    ensures AddLine(items, product) == items[k := items[k].(quantity := items[k].quantity + 1)]
  {
  }

  /** A line appended for a new product is found at the end. */
  lemma FindIndexAfterAppend(items: seq<LineItem>, line: LineItem)
    requires !Contains(items, line.product.id)
    ensures FindIndex(items + [line], line.product.id) == |items|
  {
    var r := items + [line];
    assert r[|items|].product.id == line.product.id;
    assert forall j :: 0 <= j < |items| ==> r[j] == items[j];
  }

  /** Appending a line of a new product with a positive quantity keeps the
      invariant. */
  lemma AppendKeepsWellFormed(items: seq<LineItem>, line: LineItem)
    requires !Contains(items, line.product.id)
    ensures WellFormed(items) && line.quantity >= 1 ==> WellFormed(items + [line])
  {
    var r := items + [line];
    assert forall j :: 0 <= j < |items| ==> r[j] == items[j];
  }

  /** The store dispatching `actions` in order. */
  function Run(state: CartState, actions: seq<CartAction>): CartState
    decreases |actions|
  {
    if |actions| == 0 then state else Run(Reduce(state, actions[0]), actions[1..])
  }

  /** Every cart reachable from the empty cart satisfies the invariant. */
  lemma {:induction false} RunKeepsWellFormed(state: CartState, actions: seq<CartAction>)
    requires WellFormed(state.items)
    ensures WellFormed(Run(state, actions).items)
    decreases |actions|
  {
    if |actions| > 0 {
      RunKeepsWellFormed(Reduce(state, actions[0]), actions[1..]);
    }
  }
}
