/** Shared entities of the storefront: the product record, its category and
    the monthly sales row (lib/types.ts). */
module Types {

  /** `T | undefined` in the source: an absent value or a present one. */
  datatype Option<+T> = None | Some(value: T)

  /** The four values of `ProductCategory`. */
  datatype Category = Audio | Wearables | Accessories | SmartHome

  /** The string literal the source uses for each category. */
  function CategoryName(c: Category): (name: string)
    ensures |name| > 0
  {
    match c
    case Audio => "audio"
    case Wearables => "wearables"
    case Accessories => "accessories"
    case SmartHome => "smart-home"
  }

  /** Distinct categories have distinct names, so filtering by name and
      filtering by category agree. */
  lemma CategoryNameInjective(a: Category, b: Category)
    ensures CategoryName(a) == CategoryName(b) <==> a == b
  {
    if a != b {
      match a
      case Audio => assert CategoryName(a)[0] == 'a';
      case Wearables => assert CategoryName(a)[0] == 'w';
      case Accessories => assert CategoryName(a)[1] == 'c';
      case SmartHome => assert CategoryName(a)[0] == 's';
    }
  }

  /** The product fields the core reads. `price` is in grosze (1/100 PLN);
      display fields (name, description, image, rating, reviews, specs,
      currency, creation date) are not part of this model. */
  datatype Product = Product(
    id: string,
    category: Category,
    price: int,
    inStock: bool,
    featured: bool)

  /** One row of the dashboard's monthly sales table; `revenue` is in whole
      złoty, as the table states it. */
  datatype SalesData = SalesData(month: string, revenue: int, orders: int)
}
