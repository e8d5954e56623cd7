/** The store's records (`Saree`, `CartItem`, `User`, `Address`, `Filter`)
    as immutable datatypes. */
module Types {

  import opened Optional

  /** The five values `Saree.category` can take. */
  datatype Category = Silk | Cotton | Georgette | PartyWear | Casual

  /** The category's string form, as stored in the catalog and compared
      against filter values. */
  function CategoryName(c: Category): string {
    match c
    case Silk => "silk"
    case Cotton => "cotton"
    case Georgette => "georgette"
    case PartyWear => "party-wear"
    case Casual => "casual"
  }

  /** Distinct categories have distinct names. */
  lemma CategoryNameInjective(a: Category, b: Category)
    ensures CategoryName(a) == CategoryName(b) <==> a == b
  {
  }

  /** A catalog product. `price` is a whole number of rupees and `rating` is
      a whole number of tenths of a star (4.5 stars is 45). Image list,
      work, length and blouse-piece flags are display-only and omitted. */
  datatype Saree = Saree(
    id: string,
    name: string,
    description: string,
    price: nat,
    originalPrice: Option<nat>,
    category: Category,
    fabric: string,
    color: string,
    inStock: bool,
    rating: nat,
    reviews: nat)

  /** A cart line. Its identity is the pair `(saree.id, size)`; an absent
      size is a value of its own (`undefined === undefined`). */
  datatype CartItem = CartItem(saree: Saree, quantity: int, size: Option<string>)

  datatype Address = Address(street: string, city: string, state: string, pincode: string, country: string)

  datatype User = User(id: string, name: string, email: string, phone: Option<string>, address: Option<Address>)

  /** The four orders the product listing offers. */
  datatype SortKey = PriceLow | PriceHigh | Rating | Newest

  /** The structured filter of the product listing. An absent field imposes
      no constraint. */
  datatype Filter = Filter(
    category: Option<string>,
    priceRange: Option<(int, int)>,
    color: Option<seq<string>>,
    fabric: Option<seq<string>>,
    sortBy: Option<SortKey>)

  /** The empty filter record `{}`. */
  const NoFilter: Filter := Filter(None, None, None, None, None)
}
