/** The category filter of the product listing (components/products-grid.tsx):
    one button per choice, "all" first, and the grid shows the catalogue
    narrowed to the active choice. */
module ProductsGrid {
  import opened Types
  import Seqs
  import Catalog

  /** The active filter: every product, or one category. */
  datatype Selection = All | Only(category: Category)

  /** The filter buttons in display order. */
  const Choices: seq<Selection> := [All, Only(Audio), Only(Wearables), Only(Accessories), Only(SmartHome)]

  /** The products the grid shows for the active selection. */
  function Filtered(catalog: seq<Product>, sel: Selection): (r: seq<Product>)
    ensures |r| <= |catalog|
    ensures sel.Only? ==> forall i :: 0 <= i < |r| ==> r[i].category == sel.category
  {
    match sel
    case All => catalog
    case Only(c) => Catalog.OfCategory(catalog, c)
  }

  /** Every choice appears exactly once among the buttons, "all" first. */
  lemma ChoicesCoverEverySelection(sel: Selection)
    ensures sel in Choices
    ensures Choices[0] == All
    ensures forall i, j :: 0 <= i < j < |Choices| ==> Choices[i] != Choices[j]
  {
    match sel
    case All => assert Choices[0] == sel;
    case Only(c) =>
      match c
      case Audio => assert Choices[1] == sel;
      case Wearables => assert Choices[2] == sel;
      case Accessories => assert Choices[3] == sel;
      case SmartHome => assert Choices[4] == sel;
  }

  /** "all" shows the catalogue as it is. */
  lemma AllShowsEverything(catalog: seq<Product>)
    ensures Filtered(catalog, All) == catalog
  {
  }

  /** A category shows exactly the catalogue products of that category: each
      shown product comes from the catalogue, and each catalogue product of
      the category is shown. */
  lemma OnlyShowsExactlyCategory(catalog: seq<Product>, c: Category)
    ensures forall i :: 0 <= i < |Filtered(catalog, Only(c))| ==>
      Filtered(catalog, Only(c))[i] in catalog && Filtered(catalog, Only(c))[i].category == c
    ensures forall i :: 0 <= i < |catalog| && catalog[i].category == c ==>
      catalog[i] in Filtered(catalog, Only(c))
  {
    Seqs.FilterMembers(catalog, (p: Product) => p.category == c);
  }

  /** The filter keeps catalogue order: filtering two consecutive parts of the
      catalogue and joining the results equals filtering the whole. */
  lemma FilteredKeepsOrder(a: seq<Product>, b: seq<Product>, sel: Selection)
    ensures Filtered(a + b, sel) == Filtered(a, sel) + Filtered(b, sel)
  {
    if sel.Only? {
      Seqs.FilterAppend(a, b, (p: Product) => p.category == sel.category);
    }
  }

  /** Two different categories never show the same product. */
  lemma DistinctCategoriesDisjoint(catalog: seq<Product>, c: Category, d: Category)
    requires c != d
    ensures forall i, j :: 0 <= i < |Filtered(catalog, Only(c))| && 0 <= j < |Filtered(catalog, Only(d))| ==>
      Filtered(catalog, Only(c))[i] != Filtered(catalog, Only(d))[j]
  {
  }

  /** Each product is shown under its own category. */
  lemma EveryProductHasItsCategory(catalog: seq<Product>, k: int)
    requires 0 <= k < |catalog|
    ensures catalog[k] in Filtered(catalog, Only(catalog[k].category))
  {
    OnlyShowsExactlyCategory(catalog, catalog[k].category);
  }

  /** On the shipped catalogue the audio button shows the two headphone
      products, in catalogue order. */
  lemma AudioView()
    ensures Filtered(Catalog.Products, Only(Audio)) == [Catalog.Products[0], Catalog.Products[2]]
  {
    var s := Catalog.Products;
    var audio := (p: Product) => p.category == Audio;
    assert Seqs.Filter(s[1..], audio) == [s[2]] by {
      Seqs.FilterDropsAll(s[3..], audio);
    }
  }

  /** The smart-home button shows the speaker and the light. */
  lemma SmartHomeView()
    ensures Filtered(Catalog.Products, Only(SmartHome)) == [Catalog.Products[5], Catalog.Products[7]]
  {
    var s := Catalog.Products;
    var home := (p: Product) => p.category == SmartHome;
    assert Seqs.Filter(s[7..], home) == [s[7]];
    assert Seqs.Filter(s[6..], home) == [s[7]];
    assert Seqs.Filter(s[5..], home) == [s[5], s[7]];
    Seqs.FilterDropsAll(s[..5], home);
    assert s == s[..5] + s[5..];
    Seqs.FilterAppend(s[..5], s[5..], home);
  }
}
