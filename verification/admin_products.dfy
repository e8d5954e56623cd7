/** The admin product list (ProductManagement.tsx): search and category
    filtering over the catalog, the sort drop-down, and the stock badge. */
module AdminProducts {

  import opened Optional
  import opened Text
  import opened Seqs
  import opened Sorting
  import opened Types
  import CatalogView

  /** The category drop-down's values; "bridal" is offered although no
      catalog category carries that name. */
  const CategoryOptions: seq<string> := ["all", "silk", "cotton", "georgette", "party-wear", "bridal", "casual"]

  /** The search matches the product name only. */
  predicate MatchesSearch(p: Saree, term: string) {
    IncludesIgnoringCase(p.name, term)
  }

  predicate MatchesCategory(p: Saree, selected: string) {
    selected == "all" || CategoryName(p.category) == selected
  }

  function Shown(term: string, selected: string): Saree -> bool {
    (p: Saree) => MatchesSearch(p, term) && MatchesCategory(p, selected)
  }

  /** `filteredProducts`. */
  function FilteredProducts(ps: seq<Saree>, term: string, selected: string): (r: seq<Saree>)
    ensures forall p :: p in r <==> p in ps && MatchesSearch(p, term) && MatchesCategory(p, selected)
    ensures |r| <= |ps|
  {
    var r := Keep(ps, Shown(term, selected));
    assert forall p :: p in r ==> Shown(term, selected)(p) by {
      forall p | p in r ensures Shown(term, selected)(p) {
        var i :| 0 <= i < |r| && r[i] == p;
      }
    }
    assert forall p :: p in ps && Shown(term, selected)(p) ==> p in r by {
      forall p | p in ps && Shown(term, selected)(p) ensures p in r {
        var i :| 0 <= i < |ps| && ps[i] == p;
      }
    }
    r
  }

  /** An empty search over all categories lists the whole catalog, in order. */
  lemma EmptySearchListsAll(ps: seq<Saree>)
    ensures FilteredProducts(ps, "", "all") == ps
  {
    forall i | 0 <= i < |ps| ensures Shown("", "all")(ps[i]) {
      EmptyTermMatches(ps[i].name);
    }
    KeepAll(ps, Shown("", "all"));
  }

  /** The "bridal" option always shows an empty list. */
  lemma BridalMatchesNothing(ps: seq<Saree>, term: string)
    ensures FilteredProducts(ps, term, "bridal") == []
  {
    forall i | 0 <= i < |ps| ensures !Shown(term, "bridal")(ps[i]) {
      assert CategoryName(ps[i].category) != "bridal";
    }
    KeepNone(ps, Shown(term, "bridal"));
  }

  predicate KnownSort(sortBy: string) {
    sortBy == "name" || sortBy == "price" || sortBy == "rating"
  }

  function NameOf(p: Saree): string {
    p.name
  }

  function Arrange(ps: seq<Saree>, sortBy: string): seq<Saree> {
    if sortBy == "name" then SortBy(ps, NameOf, LexAscending)
    else if sortBy == "price" then SortBy(ps, CatalogView.PriceOf, Ascending)
    else if sortBy == "rating" then SortBy(ps, CatalogView.RatingOf, Descending)
    else ps
  }

  /** `sortedProducts`: a stable sort of a copy. Names ascend, prices
      ascend, ratings descend; any other value keeps the input order. */
  function SortProducts(ps: seq<Saree>, sortBy: string): (r: seq<Saree>)
    ensures multiset(r) == multiset(ps)
    ensures sortBy == "name" ==> forall i, j :: 0 <= i < j < |r| ==> LexLe(r[i].name, r[j].name)
    ensures sortBy == "price" ==> forall i, j :: 0 <= i < j < |r| ==> r[i].price <= r[j].price
    ensures sortBy == "rating" ==> forall i, j :: 0 <= i < j < |r| ==> r[i].rating >= r[j].rating
    ensures !KnownSort(sortBy) ==> r == ps
  {
    ProductOrder(ps, sortBy);
    Arrange(ps, sortBy)
  }

  lemma ProductOrder(ps: seq<Saree>, sortBy: string)
    ensures var r := Arrange(ps, sortBy);
      && (sortBy == "name" ==> forall i, j :: 0 <= i < j < |r| ==> LexLe(r[i].name, r[j].name))
      && (sortBy == "price" ==> forall i, j :: 0 <= i < j < |r| ==> r[i].price <= r[j].price)
      && (sortBy == "rating" ==> forall i, j :: 0 <= i < j < |r| ==> r[i].rating >= r[j].rating)
  {
    NumericOrdersAreTotal();
    LexOrdersAreTotal();
    if sortBy == "name" {
      SortBySorted(ps, NameOf, LexAscending);
    } else if sortBy == "price" {
      SortBySorted(ps, CatalogView.PriceOf, Ascending);
    } else if sortBy == "rating" {
      SortBySorted(ps, CatalogView.RatingOf, Descending);
    }
  }

  /** The admin price order agrees with the storefront's "price-low" order
      on the same list. */
  lemma PriceSortMatchesStorefront(ps: seq<Saree>)
    ensures SortProducts(ps, "price") == CatalogView.SortView(ps, Some(PriceLow))
  {
  }

  datatype StockStatus = OutOfStock | LowStock | InStock

  /** The threshold below which stock counts as low. */
  const LowStockBelow: int := 10

  /** `getStockStatus`. */
  function GetStockStatus(stock: int): (r: StockStatus)
    ensures r == OutOfStock <==> stock == 0
    ensures r == LowStock <==> stock != 0 && stock < LowStockBelow
    ensures r == InStock <==> stock >= LowStockBelow
  {
    if stock == 0 then OutOfStock
    else if stock < LowStockBelow then LowStock
    else InStock
  }

  /** The stock figures the page draws lie in 5..29, so the badge it shows
      is never "Out of Stock". */
  lemma DrawnStockNeverOut(stock: int)
    requires 5 <= stock <= 29
    ensures GetStockStatus(stock) != OutOfStock
  {
  }
}
