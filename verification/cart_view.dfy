/** The cart page (components/cart-view.tsx): the empty state, the item-count
    label, the per-line minus, plus and remove buttons, and the order summary
    with its shipping rule. Amounts are in grosze. */
module CartView {
  import opened Types
  import opened CartStore

  /** Orders of 500 zł or more ship free. */
  const FreeShippingThreshold := 50000

  /** Otherwise delivery costs 19.99 zł. */
  const ShippingFee := 1999

  /** The "Dostawa" line of the summary. */
  datatype ShippingLine = Free | Fee(amount: int)

  function Shipping(subtotal: int): (s: ShippingLine)
    ensures s.Free? <==> subtotal >= FreeShippingThreshold
    ensures s.Fee? ==> s.amount == ShippingFee
  {
    if subtotal >= FreeShippingThreshold then Free else Fee(ShippingFee)
  }

  function Charge(s: ShippingLine): int {
    match s
    case Free => 0
    case Fee(amount) => amount
  }

  /** The "Razem" line: the subtotal plus the fee below the threshold. */
  function GrandTotal(subtotal: int): (t: int)
    ensures t >= subtotal
    ensures t == subtotal <==> subtotal >= FreeShippingThreshold
  {
    if subtotal >= FreeShippingThreshold then subtotal else subtotal + ShippingFee
  }

  /** The grand total is the products line plus the delivery line shown above
      it, for every subtotal. */
  lemma GrandTotalIsSumOfLines(subtotal: int)
    ensures GrandTotal(subtotal) == subtotal + Charge(Shipping(subtotal))
    ensures subtotal < FreeShippingThreshold ==> GrandTotal(subtotal) == subtotal + 1999
  {
  }

  /** Crossing the threshold lowers the grand total: a basket one grosz short
      of free shipping costs more than one that reaches it. Apart from that
      step the grand total grows with the subtotal. */
  lemma GrandTotalStepAtThreshold(a: int, b: int)
    requires a <= b
    ensures GrandTotal(FreeShippingThreshold - 1) > GrandTotal(FreeShippingThreshold)
    ensures (a < FreeShippingThreshold <= b) || GrandTotal(a) <= GrandTotal(b)
    ensures GrandTotal(a) - ShippingFee <= GrandTotal(b)
  {
  }

  // ---------------------------------------------------------------------
  // Empty state and item-count label.

  /** `items.length === 0` selects the "Koszyk jest pusty" page. */
  predicate ShowsEmptyState(cart: CartState) {
    |cart.items| == 0
  }

  /** `totalItems === 1 ? "produkt" : "produktow"` */
  function CountLabel(totalItems: int): (text: string)
    ensures text == "produkt" <==> totalItems == 1
  {
    if totalItems == 1 then "produkt" else "produktow"
  }

  /** The empty page shows exactly when the store counts no units. */
  lemma EmptyStateIffNoUnits(cart: CartState)
    requires WellFormed(cart.items)
    ensures ShowsEmptyState(cart) <==> TotalItems(cart.items) == 0
  {
    TotalItemsZeroIffEmpty(cart.items);
  }

  /** The singular label shows exactly for a cart of one line holding one unit. */
  lemma SingularLabelIffOneUnit(cart: CartState)
    requires WellFormed(cart.items)
    ensures CountLabel(TotalItems(cart.items)) == "produkt" <==>
      |cart.items| == 1 && cart.items[0].quantity == 1
  {
    var items := cart.items;
    TotalsBounds(items);
    if |items| == 1 {
      assert items == [items[0]];
      TotalsSingle(items[0]);
    }
  }

  // ---------------------------------------------------------------------
  // Per-line buttons. `k` is the row the button belongs to.

  /** The minus button: `updateQuantity(id, quantity - 1)`. */
  function Decrement(cart: CartState, k: int): (r: CartState)
    requires 0 <= k < |cart.items|
    ensures WellFormed(cart.items) ==> WellFormed(r.items)
  {
    var line := cart.items[k];
    Reduce(cart, UpdateQuantity(line.product.id, line.quantity - 1))
  }

  /** The plus button: `updateQuantity(id, quantity + 1)`. */
  function Increment(cart: CartState, k: int): (r: CartState)
    requires 0 <= k < |cart.items|
    ensures WellFormed(cart.items) ==> WellFormed(r.items)
  {
    var line := cart.items[k];
    Reduce(cart, UpdateQuantity(line.product.id, line.quantity + 1))
  }

  /** The trash button: `removeItem(id)`. */
  function Trash(cart: CartState, k: int): (r: CartState)
    requires 0 <= k < |cart.items|
    ensures WellFormed(cart.items) ==> WellFormed(r.items)
  {
    Reduce(cart, RemoveItem(cart.items[k].product.id))
  }

  /** Minus on a line of one unit removes the line; on a larger line it takes
      one unit off that line only. Either way the count drops by one and the
      subtotal by that line's unit price. */
  lemma DecrementEffect(cart: CartState, k: int)
    requires WellFormed(cart.items)
    requires 0 <= k < |cart.items|
    ensures var items := cart.items;
      && (items[k].quantity == 1 ==> Decrement(cart, k).items == items[..k] + items[k+1..])
      && (items[k].quantity > 1 ==>
            Decrement(cart, k).items == items[k := items[k].(quantity := items[k].quantity - 1)])
    ensures TotalItems(Decrement(cart, k).items) == TotalItems(cart.items) - 1
    ensures TotalPrice(Decrement(cart, k).items) == TotalPrice(cart.items) - cart.items[k].product.price
  {
    var items := cart.items;
    var q := items[k].quantity - 1;
    UpdateAt(items, k, q);
    if q == 0 {
      TotalsCut(items, k);
    } else {
      TotalsReplace(items, k, items[k].(quantity := q));
      MulSucc(items[k].product.price, q);
    }
  }

  /** Plus adds one unit to that line and nothing else, so the subtotal
      rises by that line's unit price. */
  lemma IncrementEffect(cart: CartState, k: int)
    requires WellFormed(cart.items)
    requires 0 <= k < |cart.items|
    ensures Increment(cart, k).items == cart.items[k := cart.items[k].(quantity := cart.items[k].quantity + 1)]
    ensures TotalItems(Increment(cart, k).items) == TotalItems(cart.items) + 1
    ensures TotalPrice(Increment(cart, k).items) == TotalPrice(cart.items) + cart.items[k].product.price
  {
    var items := cart.items;
    var q := items[k].quantity + 1;
    var bumped := items[k := items[k].(quantity := q)];
    assert Increment(cart, k).items == bumped by {
      UpdateAt(items, k, q);
    }
    BumpTotals(items, k);
  }

  /** Plus does exactly what adding the product again from its page does. */
  lemma IncrementIsAddItem(cart: CartState, k: int)
    requires WellFormed(cart.items)
    requires 0 <= k < |cart.items|
    ensures Increment(cart, k) == Reduce(cart, AddItem(cart.items[k].product))
  {
    var items := cart.items;
    var bumped := items[k := items[k].(quantity := items[k].quantity + 1)];
    assert Increment(cart, k).items == bumped by {
      UpdateAt(items, k, items[k].quantity + 1);
    }
    assert Reduce(cart, AddItem(items[k].product)).items == bumped by {
      AddAt(items, k);
    }
  }

  /** The trash button cuts that line out and keeps the others in order. */
  lemma TrashEffect(cart: CartState, k: int)
    requires WellFormed(cart.items)
    requires 0 <= k < |cart.items|
    ensures Trash(cart, k).items == cart.items[..k] + cart.items[k+1..]
    ensures TotalItems(Trash(cart, k).items) == TotalItems(cart.items) - cart.items[k].quantity
  {
    RemoveAt(cart.items, k);
    ItemsCut(cart.items, k);
  }
}
