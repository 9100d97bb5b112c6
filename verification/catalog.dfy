/** The static catalogue and its queries (lib/data.ts). Prices are in grosze:
    the source's whole-złoty prices times 100. */
module Catalog {
  import opened Types
  import Seqs

  const Products: seq<Product> := [
    Product("1", Audio, 129900, true, true),  // Nova Pro Headphones
    Product("2", Wearables, 189900, true, true),  // Pulse Smart Watch
    Product("3", Audio, 89900, true, false),  // AirBuds Ultra
    Product("4", Wearables, 34900, true, false),  // TechBand Fitness
    Product("5", Accessories, 19900, true, false),  // ChargePad Wireless
    Product("6", SmartHome, 69900, true, true),  // Echo Sphere Speaker
    Product("7", Accessories, 24900, false, false),  // ProCase Leather
    Product("8", SmartHome, 44900, true, false)  // LumiHub Smart Light
  ]

  const Sales: seq<SalesData> := [
    SalesData("Sty", 42000, 120),
    SalesData("Lut", 38000, 105),
    SalesData("Mar", 51000, 145),
    SalesData("Kwi", 47000, 132),
    SalesData("Maj", 59000, 168),
    SalesData("Cze", 63000, 180)
  ]

  predicate DistinctIds(catalog: seq<Product>) {
    forall i, j :: 0 <= i < j < |catalog| ==> catalog[i].id != catalog[j].id
  }

  function Ids(catalog: seq<Product>): (ids: seq<string>)
    ensures |ids| == |catalog|
    ensures forall i :: 0 <= i < |catalog| ==> ids[i] == catalog[i].id
  {
    seq(|catalog|, i requires 0 <= i < |catalog| => catalog[i].id)
  }

  /** No product before position `i` carries `id`. */
  predicate FirstWithId(catalog: seq<Product>, i: int, id: string)
    requires 0 <= i <= |catalog|
  {
    forall j :: 0 <= j < i ==> catalog[j].id != id
  }

  /** `Array.prototype.find` on the id: the first product with that id. */
  function FindById(catalog: seq<Product>, id: string): (r: Option<Product>)
    ensures r.None? <==> forall i :: 0 <= i < |catalog| ==> catalog[i].id != id
    ensures r.Some? ==> r.value.id == id
    ensures r.Some? ==>
              exists i :: 0 <= i < |catalog| && catalog[i] == r.value && FirstWithId(catalog, i, id)
  {
    if |catalog| == 0 then None
    else if catalog[0].id == id then Some(catalog[0])
    else
      var r := FindById(catalog[1..], id);
      assert forall j :: 1 <= j < |catalog| ==> catalog[j] == catalog[1..][j - 1];
      if r.Some? then
        var i :| 0 <= i < |catalog[1..]| && catalog[1..][i] == r.value && FirstWithId(catalog[1..], i, id);
        assert catalog[i + 1] == r.value;
        r
      else r
  }

  /** With distinct ids the lookup returns the one product carrying the id. */
  lemma FindByIdUnique(catalog: seq<Product>, k: int)
    requires DistinctIds(catalog)
    requires 0 <= k < |catalog|
    ensures FindById(catalog, catalog[k].id) == Some(catalog[k])
  {
  }

  /** `products.filter((p) => p.category === c)` for a known category. */
  function OfCategory(catalog: seq<Product>, c: Category): (r: seq<Product>)
    ensures forall i :: 0 <= i < |r| ==> r[i].category == c
  {
    Seqs.Filter(catalog, (p: Product) => p.category == c)
  }

  /** Each product falls under exactly one category, so the four category
      filters together hold as many products as the catalogue. */
  lemma {:induction false} OfCategoryCountsSum(catalog: seq<Product>)
    ensures |OfCategory(catalog, Audio)| + |OfCategory(catalog, Wearables)|
      + |OfCategory(catalog, Accessories)| + |OfCategory(catalog, SmartHome)| == |catalog|
  {
    if |catalog| > 0 {
      OfCategoryCountsSum(catalog[1..]);
    }
  }

  /** `getProductById` */
  function GetProductById(id: string): Option<Product> {
    FindById(Products, id)
  }

  /** `products.filter((p) => p.category === name)` for any string `name`. */
  function ByCategoryName(catalog: seq<Product>, name: string): seq<Product> {
    Seqs.Filter(catalog, (p: Product) => CategoryName(p.category) == name)
  }

  /** `getProductsByCategory`: the parameter is any string, compared with the
      category's literal. */
  function GetProductsByCategory(category: string): seq<Product> {
    ByCategoryName(Products, category)
  }

  /** `getFeaturedProducts` */
  function GetFeaturedProducts(): seq<Product> {
    Seqs.Filter(Products, (p: Product) => p.featured)
  }

  /** The catalogue's ids are pairwise distinct, so each id finds one product. */
  lemma CatalogIdsDistinct()
    ensures DistinctIds(Products)
    ensures Ids(Products) == ["1", "2", "3", "4", "5", "6", "7", "8"]
  {
  }

  /** Every catalogue price is a positive whole number of złoty. */
  lemma CatalogPricesWhole()
    ensures forall i :: 0 <= i < |Products| ==> Products[i].price > 0 && Products[i].price % 100 == 0
  {
  }

  lemma GetProductByIdFindsCatalogEntry(k: int)
    requires 0 <= k < |Products|
    ensures GetProductById(Products[k].id) == Some(Products[k])
  {
    CatalogIdsDistinct();
    FindByIdUnique(Products, k);
  }

  lemma GetProductByIdUnknown(id: string)
    requires id !in Ids(Products)
    ensures GetProductById(id) == None
  {
  }

  /** Filtering by a category's name is filtering by the category. */
  lemma ByCategoryNameIsOfCategory(catalog: seq<Product>, c: Category)
    ensures ByCategoryName(catalog, CategoryName(c)) == OfCategory(catalog, c)
  {
    var byName := (p: Product) => CategoryName(p.category) == CategoryName(c);
    var byCategory := (p: Product) => p.category == c;
    forall i | 0 <= i < |catalog| ensures byName(catalog[i]) == byCategory(catalog[i]) {
      CategoryNameInjective(catalog[i].category, c);
    }
    Seqs.FilterSameKeep(catalog, byName, byCategory);
  }

  /** Asking by a category's name returns exactly the catalogue products of
      that category, in catalogue order; a string naming no category returns
      nothing. */
  lemma GetProductsByCategoryExact(c: Category, name: string)
    ensures GetProductsByCategory(CategoryName(c)) == OfCategory(Products, c)
    ensures forall i :: 0 <= i < |Products| && Products[i].category == c ==>
      Products[i] in GetProductsByCategory(CategoryName(c))
    ensures (forall d: Category :: CategoryName(d) != name) ==> GetProductsByCategory(name) == []
  {
    ByCategoryNameIsOfCategory(Products, c);
    Seqs.FilterMembers(Products, (p: Product) => p.category == c);
    if forall d: Category :: CategoryName(d) != name {
      Seqs.FilterDropsAll(Products, (p: Product) => CategoryName(p.category) == name);
    }
  }

  /** The featured products are those with ids 1, 2 and 6, in that order. */
  lemma FeaturedProducts()
    ensures GetFeaturedProducts() == [Products[0], Products[1], Products[5]]
  {
    var featured := (p: Product) => p.featured;
    var s := Products;
    assert Seqs.Filter(s[7..], featured) == [];
    assert Seqs.Filter(s[6..], featured) == [];
    assert Seqs.Filter(s[5..], featured) == [s[5]];
    assert Seqs.Filter(s[4..], featured) == [s[5]];
    assert Seqs.Filter(s[3..], featured) == [s[5]];
    assert Seqs.Filter(s[2..], featured) == [s[5]];
    assert Seqs.Filter(s[1..], featured) == [s[1], s[5]];
  }
}
