/** The dashboard's figures (components/dashboard-view.tsx): the sales
    totals, the products-per-category chart, the in-stock count and the
    `Partial` merge of a sales row. */
module Dashboard {
  import opened Types
  import Seqs
  import Catalog

  /** `salesData.reduce((sum, d) => sum + d.revenue, 0)` */
  function TotalRevenue(rows: seq<SalesData>): (t: int)
    ensures (forall i :: 0 <= i < |rows| ==> rows[i].revenue >= 0) ==> t >= 0
  {
    if |rows| == 0 then 0 else TotalRevenue(rows[..|rows| - 1]) + rows[|rows| - 1].revenue
  }

  /** `salesData.reduce((sum, d) => sum + d.orders, 0)` */
  function TotalOrders(rows: seq<SalesData>): (t: int)
    ensures (forall i :: 0 <= i < |rows| ==> rows[i].orders >= 0) ==> t >= 0
  {
    if |rows| == 0 then 0 else TotalOrders(rows[..|rows| - 1]) + rows[|rows| - 1].orders
  }

  /** The totals of a table split in two parts are the sums of the parts'
      totals, so the fold's order does not matter to the figures. */
  lemma {:induction false} SalesTotalsAppend(a: seq<SalesData>, b: seq<SalesData>)
    ensures TotalRevenue(a + b) == TotalRevenue(a) + TotalRevenue(b)
    ensures TotalOrders(a + b) == TotalOrders(a) + TotalOrders(b)
  {
    if |b| == 0 {
      assert a + b == a;
    } else {
      var last := |b| - 1;
      assert (a + b)[..|a + b| - 1] == a + b[..last];
      SalesTotalsAppend(a, b[..last]);
    }
  }

  /** With nonnegative figures no single month exceeds the total. */
  lemma {:induction false} MonthBelowTotal(rows: seq<SalesData>, k: int)
    requires 0 <= k < |rows|
    requires forall i :: 0 <= i < |rows| ==> rows[i].revenue >= 0 && rows[i].orders >= 0
    ensures rows[k].revenue <= TotalRevenue(rows)
    ensures rows[k].orders <= TotalOrders(rows)
  {
    var init := rows[..|rows| - 1];
    if k < |rows| - 1 {
      assert rows[k] == init[k];
      MonthBelowTotal(init, k);
    }
  }

  /** The stat cards' figures other than the (fractional) average. */
  datatype Stats = Stats(totalRevenue: int, totalOrders: int, totalProducts: int)

  /** The stat cards. The products card agrees with the chart: it is the sum
      of the four bars, and it bounds the in-stock count. The revenue and
      orders cards are nonnegative on nonnegative data. */
  function DashboardStats(sales: seq<SalesData>, catalog: seq<Product>): (s: Stats)
    ensures var r := CategoryData(catalog);
      s.totalProducts == r[0].count + r[1].count + r[2].count + r[3].count
    ensures InStockCount(catalog) <= s.totalProducts
    ensures (forall i :: 0 <= i < |sales| ==> sales[i].revenue >= 0 && sales[i].orders >= 0) ==>
      s.totalRevenue >= 0 && s.totalOrders >= 0
  {
    CategoryDataAddsUp(catalog);
    Stats(TotalRevenue(sales), TotalOrders(sales), |catalog|)
  }

  /** Appending months to the table adds their revenue and orders to the
      cards and leaves the products card alone. */
  lemma StatsAddMonths(a: seq<SalesData>, b: seq<SalesData>, catalog: seq<Product>)
    ensures var before, after := DashboardStats(a, catalog), DashboardStats(a + b, catalog);
      && after.totalRevenue == before.totalRevenue + TotalRevenue(b)
      && after.totalOrders == before.totalOrders + TotalOrders(b)
      && after.totalProducts == before.totalProducts
  {
    SalesTotalsAppend(a, b);
  }

  /** With nonnegative figures each month's revenue and orders are at most
      the cards' totals. */
  lemma StatsBoundEveryMonth(sales: seq<SalesData>, catalog: seq<Product>)
    requires forall i :: 0 <= i < |sales| ==> sales[i].revenue >= 0 && sales[i].orders >= 0
    ensures forall k :: 0 <= k < |sales| ==>
      sales[k].revenue <= DashboardStats(sales, catalog).totalRevenue &&
      sales[k].orders <= DashboardStats(sales, catalog).totalOrders
  {
    forall k | 0 <= k < |sales|
      ensures sales[k].revenue <= TotalRevenue(sales) && sales[k].orders <= TotalOrders(sales)
    {
      MonthBelowTotal(sales, k);
    }
  }

  /** The shipped table: 300000 zł from 850 orders over six months, and eight
      products. */
  lemma ShippedStats()
    ensures DashboardStats(Catalog.Sales, Catalog.Products) == Stats(300000, 850, 8)
  {
    var s := Catalog.Sales;
    assert s[..1][..0] == [];
    assert s[..2][..1] == s[..1];
    assert s[..3][..2] == s[..2];
    assert s[..4][..3] == s[..3];
    assert s[..5][..4] == s[..4];
    assert s[..5] == s[..|s| - 1];
    assert TotalRevenue(s[..1]) == 42000 && TotalOrders(s[..1]) == 120;
    assert TotalRevenue(s[..2]) == 80000 && TotalOrders(s[..2]) == 225;
    assert TotalRevenue(s[..3]) == 131000 && TotalOrders(s[..3]) == 370;
    assert TotalRevenue(s[..4]) == 178000 && TotalOrders(s[..4]) == 502;
    assert TotalRevenue(s[..5]) == 237000 && TotalOrders(s[..5]) == 670;
  }

  // ---------------------------------------------------------------------
  // Products per category.

  /** The chart's category axis, in display order. */
  const CategoryOrder: seq<Category> := [Audio, Wearables, Accessories, SmartHome]

  datatype CategoryCount = CategoryCount(category: string, count: int)

  /** `categoryData`: one bar per category with its product count. */
  function CategoryData(catalog: seq<Product>): (r: seq<CategoryCount>)
    ensures |r| == |CategoryOrder|
    ensures forall i :: 0 <= i < |r| ==> r[i].category == CategoryName(CategoryOrder[i])
    ensures forall i :: 0 <= i < |r| ==> 0 <= r[i].count <= |catalog|
  {
    seq(|CategoryOrder|, i requires 0 <= i < |CategoryOrder| =>
      CategoryCount(CategoryName(CategoryOrder[i]), |Catalog.OfCategory(catalog, CategoryOrder[i])|))
  }

  /** The bars list every category once and their heights add up to the
      number of products. */
  lemma CategoryDataAddsUp(catalog: seq<Product>)
    ensures forall c: Category :: c in CategoryOrder
    ensures var r := CategoryData(catalog);
      r[0].count + r[1].count + r[2].count + r[3].count == |catalog|
  {
    Catalog.OfCategoryCountsSum(catalog);
    forall c: Category ensures c in CategoryOrder {
      match c
      case Audio => assert CategoryOrder[0] == c;
      case Wearables => assert CategoryOrder[1] == c;
      case Accessories => assert CategoryOrder[2] == c;
      case SmartHome => assert CategoryOrder[3] == c;
    }
  }

  /** A bar counts exactly the products of its category. */
  lemma CategoryDataCountsMembers(catalog: seq<Product>, i: int)
    requires 0 <= i < |CategoryOrder|
    ensures CategoryData(catalog)[i].count == |Catalog.OfCategory(catalog, CategoryOrder[i])|
    ensures forall k :: 0 <= k < |catalog| && catalog[k].category == CategoryOrder[i] ==>
      catalog[k] in Catalog.OfCategory(catalog, CategoryOrder[i])
  {
    Seqs.FilterMembers(catalog, (p: Product) => p.category == CategoryOrder[i]);
  }

  // ---------------------------------------------------------------------
  // In-stock count.

  /** `products.filter((p) => p.inStock).length` */
  function InStockCount(catalog: seq<Product>): (n: int)
    ensures 0 <= n <= |catalog|
  {
    |Seqs.Filter(catalog, (p: Product) => p.inStock)|
  }

  /** Products in stock and products out of stock together make up the
      catalogue. */
  lemma InStockPlusMissing(catalog: seq<Product>)
    ensures InStockCount(catalog) + |Seqs.Filter(catalog, (p: Product) => !p.inStock)| == |catalog|
  {
    Seqs.FilterComplementCount(catalog, (p: Product) => p.inStock, (p: Product) => !p.inStock);
  }

  /** Seven of the eight shipped products are in stock. */
  lemma ShippedInStock()
    ensures InStockCount(Catalog.Products) == 7
  {
    var s := Catalog.Products;
    var missing := (p: Product) => !p.inStock;
    assert Seqs.Filter(s[7..], missing) == [];
    assert Seqs.Filter(s[6..], missing) == [s[6]];
    assert Seqs.Filter(s[..6], missing) == [] by {
      Seqs.FilterDropsAll(s[..6], missing);
    }
    assert s == s[..6] + s[6..];
    Seqs.FilterAppend(s[..6], s[6..], missing);
    InStockPlusMissing(s);
  }

  // ---------------------------------------------------------------------
  // `mergeSalesData`: `{ ...base, ...update }` with `update: Partial<SalesData>`.

  /** A sales row whose fields may each be absent. */
  datatype PartialSalesData = PartialSalesData(month: Option<string>, revenue: Option<int>, orders: Option<int>)

  const NoChange := PartialSalesData(None, None, None)

  function Full(row: SalesData): PartialSalesData {
    PartialSalesData(Some(row.month), Some(row.revenue), Some(row.orders))
  }

  /** A present field overrides, an absent one keeps the earlier value. */
  function Override<T>(earlier: T, later: Option<T>): T {
    match later
    case Some(v) => v
    case None => earlier
  }

  function OverrideOption<T>(earlier: Option<T>, later: Option<T>): Option<T> {
    if later.Some? then later else earlier
  }

  /** `{ ...first, ...second }` on two partial rows. */
  function Combine(first: PartialSalesData, second: PartialSalesData): PartialSalesData {
    PartialSalesData(
      OverrideOption(first.month, second.month),
      OverrideOption(first.revenue, second.revenue),
      OverrideOption(first.orders, second.orders))
  }

  function MergeSalesData(base: SalesData, update: PartialSalesData): (r: SalesData)
    ensures update.month.Some? ==> r.month == update.month.value
    ensures update.revenue.Some? ==> r.revenue == update.revenue.value
    ensures update.orders.Some? ==> r.orders == update.orders.value
    ensures update.month.None? ==> r.month == base.month
    ensures update.revenue.None? ==> r.revenue == base.revenue
    ensures update.orders.None? ==> r.orders == base.orders
  {
    SalesData(
      Override(base.month, update.month),
      Override(base.revenue, update.revenue),
      Override(base.orders, update.orders))
  }

  /** An empty update returns the base row; a complete one replaces it. */
  lemma MergeIdentityAndReplace(base: SalesData, row: SalesData)
    ensures MergeSalesData(base, NoChange) == base
    ensures MergeSalesData(base, Full(row)) == row
  {
  }

  /** Merging two updates one after the other is merging their combination,
      and repeating an update changes nothing more. */
  lemma MergeComposes(base: SalesData, first: PartialSalesData, second: PartialSalesData)
    ensures MergeSalesData(MergeSalesData(base, first), second) == MergeSalesData(base, Combine(first, second))
    ensures MergeSalesData(MergeSalesData(base, first), first) == MergeSalesData(base, first)
  {
  }
}
