/** The product page (components/product-detail.tsx): the "related products"
    strip and the add-to-cart button. */
module ProductDetail {
  import opened Types
  import Seqs
  import Catalog
  import opened CartStore

  /** The products offered as related: same category, another id. */
  predicate IsRelatedTo(p: Product, product: Product) {
    p.category == product.category && p.id != product.id
  }

  function Candidates(catalog: seq<Product>, product: Product): seq<Product> {
    Seqs.Filter(catalog, (p: Product) => IsRelatedTo(p, product))
  }

  /** `.slice(0, 3)`: at most the first three. */
  function Related(catalog: seq<Product>, product: Product): (r: seq<Product>)
    ensures |r| <= 3
    ensures forall i :: 0 <= i < |r| ==> r[i].category == product.category && r[i].id != product.id
    ensures forall i :: 0 <= i < |r| ==> r[i] in catalog
  {
    var candidates := Candidates(catalog, product);
    Seqs.FilterMembers(catalog, (p: Product) => IsRelatedTo(p, product));
    if |candidates| <= 3 then candidates else candidates[..3]
  }

  /** The strip is the first `min(3, n)` of the `n` related catalogue products,
      in catalogue order, so it is empty only when there are none. */
  lemma RelatedIsLeadingCandidates(catalog: seq<Product>, product: Product)
    ensures var c := Candidates(catalog, product);
      && |Related(catalog, product)| == (if |c| < 3 then |c| else 3)
      && Related(catalog, product) == c[..|Related(catalog, product)|]
  {
  }

  /** A product never lists itself, even when its id appears twice. */
  lemma RelatedExcludesSelf(catalog: seq<Product>, product: Product)
    ensures product !in Related(catalog, product)
  {
  }

  /** When at most three other products share the category, the strip shows
      all of them. */
  lemma RelatedShowsAllFew(catalog: seq<Product>, product: Product, k: int)
    requires 0 <= k < |catalog| && IsRelatedTo(catalog[k], product)
    requires |Candidates(catalog, product)| <= 3
    ensures catalog[k] in Related(catalog, product)
  {
    Seqs.FilterMembers(catalog, (p: Product) => IsRelatedTo(p, product));
  }

  /** On the shipped catalogue the headphones' page lists only the earbuds. */
  lemma HeadphonesRelated()
    ensures Related(Catalog.Products, Catalog.Products[0]) == [Catalog.Products[2]]
  {
    var s := Catalog.Products;
    var toFirst := (p: Product) => IsRelatedTo(p, s[0]);
    Seqs.FilterDropsAll(s[3..], toFirst);
    assert Seqs.Filter(s[2..], toFirst) == [s[2]];
    assert Seqs.Filter(s[1..], toFirst) == [s[2]];
  }

  /** The (out-of-stock) leather case lists only the charging pad. */
  lemma CaseRelated()
    ensures Related(Catalog.Products, Catalog.Products[6]) == [Catalog.Products[4]]
  {
    var s := Catalog.Products;
    var toSeventh := (p: Product) => IsRelatedTo(p, s[6]);
    Seqs.FilterDropsAll(s[5..], toSeventh);
    assert Seqs.Filter(s[4..], toSeventh) == [s[4]];
    Seqs.FilterDropsAll(s[..4], toSeventh);
    assert s == s[..4] + s[4..];
    Seqs.FilterAppend(s[..4], s[4..], toSeventh);
  }

  /** `isInStock`: the button is enabled only when `inStock` is true. */
  predicate CanAddToCart(product: Product) {
    product.inStock
  }

  /** A click on the add-to-cart button: an in-stock product dispatches one
      ADD_ITEM; the disabled button of a missing product does nothing. */
  function ClickAddToCart(cart: CartState, product: Product): (r: CartState)
    ensures TotalItems(r.items) == TotalItems(cart.items) + (if product.inStock then 1 else 0)
    ensures QuantityOf(r.items, product.id) == QuantityOf(cart.items, product.id) + (if product.inStock then 1 else 0)
    ensures WellFormed(cart.items) ==> WellFormed(r.items)
    ensures !product.inStock ==> r == cart
  {
    AddLineTotals(cart.items, product);
    if CanAddToCart(product) then Reduce(cart, AddItem(product)) else cart
  }

  /** A click on an in-stock product is the cart's own ADD_ITEM and never
      touches the lines of other products. */
  lemma ClickIsAddItem(cart: CartState, product: Product)
    requires product.inStock
    ensures ClickAddToCart(cart, product) == Reduce(cart, AddItem(product))
    ensures forall j :: 0 <= j < |cart.items| && cart.items[j].product.id != product.id ==>
      ClickAddToCart(cart, product).items[j] == cart.items[j]
  {
  }
}
