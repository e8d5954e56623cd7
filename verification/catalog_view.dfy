/** The product listing's derived view (App.tsx, the filter/sort effect):
    a free-text search, four structured filters and an optional sort,
    applied to the catalog. */
module CatalogView {

  import opened Optional
  import opened Text
  import opened Seqs
  import opened Sorting
  import opened Types

  /** The lower-cased query occurs in the lower-cased name, description,
      category or colour. */
  predicate MatchesQuery(s: Saree, q: string) {
    || IncludesIgnoringCase(s.name, q)
    || IncludesIgnoringCase(s.description, q)
    || IncludesIgnoringCase(CategoryName(s.category), q)
    || IncludesIgnoringCase(s.color, q)
  }

  /** Some option, lower-cased, occurs in the lower-cased field (`options.some`). */
  predicate AnyIn(field: string, options: seq<string>) {
    exists i :: 0 <= i < |options| && IncludesIgnoringCase(field, options[i])
  }

  /** Which filter steps run: each guard is a JavaScript truthiness test. */
  predicate CategoryActive(f: Filter) {
    f.category.Some? && f.category.value != ""
  }

  predicate ColorActive(f: Filter) {
    f.color.Some? && |f.color.value| > 0
  }

  predicate FabricActive(f: Filter) {
    f.fabric.Some? && |f.fabric.value| > 0
  }

  predicate MatchesCategory(s: Saree, f: Filter) {
    CategoryName(s.category) == f.category.GetOr("")
  }

  predicate InPriceRange(s: Saree, f: Filter) {
    f.priceRange.None? || (f.priceRange.value.0 <= s.price && s.price <= f.priceRange.value.1)
  }

  predicate MatchesColor(s: Saree, f: Filter) {
    AnyIn(s.color, f.color.GetOr([]))
  }

  predicate MatchesFabric(s: Saree, f: Filter) {
    AnyIn(s.fabric, f.fabric.GetOr([]))
  }

  /** The five filter steps' per-item tests, as the callbacks passed to `filter`. */
  function QueryTest(q: string): Saree -> bool {
    s => MatchesQuery(s, q)
  }

  function CategoryTest(f: Filter): Saree -> bool {
    s => MatchesCategory(s, f)
  }

  function PriceTest(f: Filter): Saree -> bool {
    s => InPriceRange(s, f)
  }

  function ColorTest(f: Filter): Saree -> bool {
    s => MatchesColor(s, f)
  }

  function FabricTest(f: Filter): Saree -> bool {
    s => MatchesFabric(s, f)
  }

  /** One filtering pass that only runs when its guard holds. */
  function Pass(s: seq<Saree>, active: bool, p: Saree -> bool): seq<Saree> {
    if active then Keep(s, p) else s
  }

  /** The source's five successive passes: search, category, price range,
      colour, fabric. */
  function ApplyFilters(c: seq<Saree>, q: string, f: Filter): seq<Saree> {
    var afterSearch := Pass(c, q != "", QueryTest(q));
    var afterCategory := Pass(afterSearch, CategoryActive(f), CategoryTest(f));
    var afterPrice := Pass(afterCategory, f.priceRange.Some?, PriceTest(f));
    var afterColor := Pass(afterPrice, ColorActive(f), ColorTest(f));
    Pass(afterColor, FabricActive(f), FabricTest(f))
  }

  /** Reference definition: an item is admitted when it meets every
      constraint that is active, each stated independently. */
  predicate Admits(q: string, f: Filter, s: Saree) {
    && (q == "" || MatchesQuery(s, q))
    && (!CategoryActive(f) || MatchesCategory(s, f))
    && InPriceRange(s, f)
    && (!ColorActive(f) || MatchesColor(s, f))
    && (!FabricActive(f) || MatchesFabric(s, f))
  }

  /** Reference definition: the admitted items, in catalog order, in one pass. */
  function Admitted(c: seq<Saree>, q: string, f: Filter): seq<Saree> {
    if c == [] then [] else (if Admits(q, f, c[0]) then [c[0]] else []) + Admitted(c[1..], q, f)
  }

  /** The reference selection holds exactly the admitted catalog items. */
  lemma {:induction false} AdmittedMembers(c: seq<Saree>, q: string, f: Filter)
    ensures forall x :: x in Admitted(c, q, f) <==> x in c && Admits(q, f, x)
    decreases |c|
  {
    if c != [] {
      AdmittedMembers(c[1..], q, f);
      assert c == [c[0]] + c[1..];
    }
  }

  lemma PassAppend(a: seq<Saree>, b: seq<Saree>, active: bool, p: Saree -> bool)
    ensures Pass(a + b, active, p) == Pass(a, active, p) + Pass(b, active, p)
  {
    if active {
      KeepAppend(a, b, p);
    }
  }

  lemma PassSingle(x: Saree, active: bool, p: Saree -> bool)
    ensures Pass([x], active, p) == if !active || p(x) then [x] else []
  {
    assert [x][1..] == [];
  }

  /** The five passes distribute over concatenation. */
  lemma ApplyFiltersAppend(a: seq<Saree>, b: seq<Saree>, q: string, f: Filter)
    ensures ApplyFilters(a + b, q, f) == ApplyFilters(a, q, f) + ApplyFilters(b, q, f)
  {
    var p1 := QueryTest(q);
    var p2 := CategoryTest(f);
    var p3 := PriceTest(f);
    var p4 := ColorTest(f);
    var p5 := FabricTest(f);
    var a1, b1 := Pass(a, q != "", p1), Pass(b, q != "", p1);
    PassAppend(a, b, q != "", p1);
    var a2, b2 := Pass(a1, CategoryActive(f), p2), Pass(b1, CategoryActive(f), p2);
    PassAppend(a1, b1, CategoryActive(f), p2);
    var a3, b3 := Pass(a2, f.priceRange.Some?, p3), Pass(b2, f.priceRange.Some?, p3);
    PassAppend(a2, b2, f.priceRange.Some?, p3);
    var a4, b4 := Pass(a3, ColorActive(f), p4), Pass(b3, ColorActive(f), p4);
    PassAppend(a3, b3, ColorActive(f), p4);
    PassAppend(a4, b4, FabricActive(f), p5);
  }

  /** On a single item the five passes keep it exactly when it is admitted. */
  lemma ApplyFiltersSingle(x: Saree, q: string, f: Filter)
    ensures ApplyFilters([x], q, f) == if Admits(q, f, x) then [x] else []
  {
    PassesSingle(x, q, f);
    TestsMeanAdmits(x, q, f);
  }

  /** The five passes on a single item, in terms of the steps' tests. */
  lemma PassesSingle(x: Saree, q: string, f: Filter)
    ensures ApplyFilters([x], q, f)
         == if && (!(q != "") || QueryTest(q)(x))
               && (!CategoryActive(f) || CategoryTest(f)(x))
               && (!f.priceRange.Some? || PriceTest(f)(x))
               && (!ColorActive(f) || ColorTest(f)(x))
               && (!FabricActive(f) || FabricTest(f)(x))
            then [x] else []
  {
    FivePassesSingle(x, q != "", QueryTest(q), CategoryActive(f), CategoryTest(f),
      f.priceRange.Some?, PriceTest(f), ColorActive(f), ColorTest(f), FabricActive(f), FabricTest(f));
  }

  /** Passing every active step's test is being admitted. */
  lemma TestsMeanAdmits(x: Saree, q: string, f: Filter)
    ensures (&& (!(q != "") || QueryTest(q)(x))
             && (!CategoryActive(f) || CategoryTest(f)(x))
             && (!f.priceRange.Some? || PriceTest(f)(x))
             && (!ColorActive(f) || ColorTest(f)(x))
             && (!FabricActive(f) || FabricTest(f)(x)))
         == Admits(q, f, x)
  {
  }

  /** Any five guarded passes on a single item keep it exactly when it
      passes every active test. */
  lemma FivePassesSingle(x: Saree, a1: bool, p1: Saree -> bool, a2: bool, p2: Saree -> bool,
                         a3: bool, p3: Saree -> bool, a4: bool, p4: Saree -> bool, a5: bool, p5: Saree -> bool)
    ensures Pass(Pass(Pass(Pass(Pass([x], a1, p1), a2, p2), a3, p3), a4, p4), a5, p5)
         == if (!a1 || p1(x)) && (!a2 || p2(x)) && (!a3 || p3(x)) && (!a4 || p4(x)) && (!a5 || p5(x))
            then [x] else []
  {
    var ok1 := !a1 || p1(x);
    var r1 := Pass([x], a1, p1);
    PassOne([x], x, true, a1, p1);
    var ok2 := ok1 && (!a2 || p2(x));
    var r2 := Pass(r1, a2, p2);
    PassOne(r1, x, ok1, a2, p2);
    var ok3 := ok2 && (!a3 || p3(x));
    var r3 := Pass(r2, a3, p3);
    PassOne(r2, x, ok2, a3, p3);
    var ok4 := ok3 && (!a4 || p4(x));
    var r4 := Pass(r3, a4, p4);
    PassOne(r3, x, ok3, a4, p4);
    PassOne(r4, x, ok4, a5, p5);
  }

  /** A pass over a list that is either `[x]` or empty. */
  lemma PassOne(r: seq<Saree>, x: Saree, ok: bool, active: bool, p: Saree -> bool)
    requires r == if ok then [x] else []
    ensures Pass(r, active, p) == if ok && (!active || p(x)) then [x] else []
  {
    if ok {
      PassSingle(x, active, p);
    }
  }

  /** The source's successive passes select exactly the admitted items, in
      catalog order. */
  lemma {:induction false} ApplyFiltersIsAdmitted(c: seq<Saree>, q: string, f: Filter)
    ensures ApplyFilters(c, q, f) == Admitted(c, q, f)
    decreases |c|
  {
    if c != [] {
      assert c == [c[0]] + c[1..];
      ApplyFiltersAppend([c[0]], c[1..], q, f);
      ApplyFiltersSingle(c[0], q, f);
      ApplyFiltersIsAdmitted(c[1..], q, f);
    }
  }

  function PriceOf(s: Saree): int {
    s.price
  }

  function RatingOf(s: Saree): int {
    s.rating
  }

  /** `parseInt(s.id)`, the proxy for recency used by the `newest` order.
      An id that reads as `NaN` never reaches this sort (`NewestIdsParse`). */
  function IdNumber(s: Saree): int {
    ParseInt(s.id).GetOr(0)
  }

  /** `parseInt` reads the id as a number rather than `NaN`. */
  predicate NumericId(id: string) {
    ParseInt(id).Some?
  }

  /** Under the `newest` order, every id the sort compares (those of the
      admitted items) reads as a number. A `NaN` id makes the comparator
      return `NaN`. ECMAScript counts a comparator as consistent only when
      no result is `NaN`, so the sort order is then implementation-defined. */
  predicate NewestIdsParse(c: seq<Saree>, q: string, f: Filter) {
    f.sortBy == Some(Newest) ==> forall i :: 0 <= i < |c| && Admits(q, f, c[i]) ==> NumericId(c[i].id)
  }

  /** The field each order compares. */
  function SortField(k: SortKey): Saree -> int {
    match k
    case PriceLow => PriceOf
    case PriceHigh => PriceOf
    case Rating => RatingOf
    case Newest => IdNumber
  }

  /** `a.price - b.price` sorts ascending; the other three comparators are
      written `b - a` and sort descending. */
  function SortDirection(k: SortKey): (int, int) -> bool {
    if k == PriceLow then Ascending else Descending
  }

  /** The sort step: no sort when `sortBy` is absent. */
  function SortView(filtered: seq<Saree>, sortBy: Option<SortKey>): seq<Saree> {
    match sortBy
    case None => filtered
    case Some(k) => SortBy(filtered, SortField(k), SortDirection(k))
  }

  /** The listing view for a catalog, a query and a filter record. */
  function ComputeView(c: seq<Saree>, q: string, f: Filter): (r: seq<Saree>)
    requires NewestIdsParse(c, q, f)
    ensures multiset(r) == multiset(Admitted(c, q, f))
    ensures forall i :: 0 <= i < |r| ==> Admits(q, f, r[i])
    ensures forall x :: x in c && Admits(q, f, x) ==> x in r
    ensures f.sortBy.None? ==> r == Admitted(c, q, f)
    ensures f.sortBy == Some(PriceLow) ==> forall i, j :: 0 <= i < j < |r| ==> r[i].price <= r[j].price
    ensures f.sortBy == Some(PriceHigh) ==> forall i, j :: 0 <= i < j < |r| ==> r[i].price >= r[j].price
    ensures f.sortBy == Some(Rating) ==> forall i, j :: 0 <= i < j < |r| ==> r[i].rating >= r[j].rating
    ensures f.sortBy == Some(Newest) ==> forall i, j :: 0 <= i < j < |r| ==> IdNumber(r[i]) >= IdNumber(r[j])
  {
    ViewMembers(c, q, f);
    ViewOrder(ApplyFilters(c, q, f), f.sortBy);
    SortView(ApplyFilters(c, q, f), f.sortBy)
  }

  /** Filtering then sorting keeps exactly the admitted items. */
  lemma ViewMembers(c: seq<Saree>, q: string, f: Filter)
    ensures var r := SortView(ApplyFilters(c, q, f), f.sortBy);
      && multiset(r) == multiset(Admitted(c, q, f))
      && (forall i :: 0 <= i < |r| ==> Admits(q, f, r[i]))
      && (forall x :: x in c && Admits(q, f, x) ==> x in r)
      && (f.sortBy.None? ==> r == Admitted(c, q, f))
  {
    ApplyFiltersIsAdmitted(c, q, f);
    AdmittedMembers(c, q, f);
    var a := Admitted(c, q, f);
    var r := SortView(a, f.sortBy);
    assert multiset(r) == multiset(a);
    forall i | 0 <= i < |r| ensures Admits(q, f, r[i]) {
      assert r[i] in multiset(a);
    }
    forall x | x in c && Admits(q, f, x) ensures x in r {
      assert x in multiset(r);
    }
  }

  /** The sort step orders the view by the chosen field. */
  lemma ViewOrder(s: seq<Saree>, sortBy: Option<SortKey>)
    ensures var r := SortView(s, sortBy);
      && (sortBy == Some(PriceLow) ==> forall i, j :: 0 <= i < j < |r| ==> r[i].price <= r[j].price)
      && (sortBy == Some(PriceHigh) ==> forall i, j :: 0 <= i < j < |r| ==> r[i].price >= r[j].price)
      && (sortBy == Some(Rating) ==> forall i, j :: 0 <= i < j < |r| ==> r[i].rating >= r[j].rating)
      && (sortBy == Some(Newest) ==> forall i, j :: 0 <= i < j < |r| ==> IdNumber(r[i]) >= IdNumber(r[j]))
  {
    if sortBy.Some? {
      var k := sortBy.value;
      NumericOrdersAreTotal();
      SortBySorted(s, SortField(k), SortDirection(k));
    }
  }

  /** Sorting is stable: items with equal sort key keep their relative
      order from the filtered catalog. */
  lemma ViewIsStable(c: seq<Saree>, q: string, f: Filter, k: SortKey, v: int)
    requires f.sortBy == Some(k)
    requires NewestIdsParse(c, q, f)
    ensures WithKey(ComputeView(c, q, f), SortField(k), v) == WithKey(Admitted(c, q, f), SortField(k), v)
  {
    ApplyFiltersIsAdmitted(c, q, f);
    NumericOrdersAreTotal();
    SortByStable(Admitted(c, q, f), SortField(k), SortDirection(k), v);
  }

  /** With an empty query and the empty filter record, the view is the
      catalog itself, in catalog order. */
  lemma {:induction false} EmptySearchShowsCatalog(c: seq<Saree>)
    ensures ComputeView(c, "", NoFilter) == c
  {
    assert forall x :: Admits("", NoFilter, x);
    AdmittedAll(c, "", NoFilter);
  }

  lemma {:induction false} AdmittedAll(c: seq<Saree>, q: string, f: Filter)
    requires forall i :: 0 <= i < |c| ==> Admits(q, f, c[i])
    ensures Admitted(c, q, f) == c
    decreases |c|
  {
    if c != [] {
      AdmittedAll(c[1..], q, f);
    }
  }

  /** An inverted price range (`min > max`) admits nothing. */
  lemma InvertedRangeIsEmpty(c: seq<Saree>, q: string, f: Filter, lo: int, hi: int)
    requires f.priceRange == Some((lo, hi)) && lo > hi
    requires NewestIdsParse(c, q, f)
    ensures ComputeView(c, q, f) == []
  {
    assert forall x :: !Admits(q, f, x);
    AdmittedNone(c, q, f);
    var r := ComputeView(c, q, f);
    assert multiset(r) == multiset{};
  }

  lemma {:induction false} AdmittedNone(c: seq<Saree>, q: string, f: Filter)
    requires forall x :: !Admits(q, f, x)
    ensures Admitted(c, q, f) == []
    decreases |c|
  {
    if c != [] {
      AdmittedNone(c[1..], q, f);
    }
  }

  /** An empty colour or fabric list constrains nothing: it gives the same
      view as leaving the field out. */
  lemma EmptyListsImposeNothing(c: seq<Saree>, q: string, f: Filter)
    requires NewestIdsParse(c, q, f.(color := None)) && NewestIdsParse(c, q, f.(fabric := None))
    ensures NewestIdsParse(c, q, f.(color := Some([]))) && NewestIdsParse(c, q, f.(fabric := Some([])))
    ensures ComputeView(c, q, f.(color := Some([]))) == ComputeView(c, q, f.(color := None))
    ensures ComputeView(c, q, f.(fabric := Some([]))) == ComputeView(c, q, f.(fabric := None))
  {
    EmptyColorsAdmitAlike(q, f);
    EmptyFabricsAdmitAlike(q, f);
    AdmitsIgnoresEmptyLists(c, q, f);
  }

  lemma AdmitsIgnoresEmptyLists(c: seq<Saree>, q: string, f: Filter)
    ensures ApplyFilters(c, q, f.(color := Some([]))) == ApplyFilters(c, q, f.(color := None))
    ensures ApplyFilters(c, q, f.(fabric := Some([]))) == ApplyFilters(c, q, f.(fabric := None))
  {
    EmptyColorsAdmitAlike(q, f);
    SameAdmissionSameFilter(c, q, f.(color := Some([])), f.(color := None));
    EmptyFabricsAdmitAlike(q, f);
    SameAdmissionSameFilter(c, q, f.(fabric := Some([])), f.(fabric := None));
  }

  lemma EmptyColorsAdmitAlike(q: string, f: Filter)
    ensures forall x :: Admits(q, f.(color := Some([])), x) == Admits(q, f.(color := None), x)
  {
    var g, h := f.(color := Some([])), f.(color := None);
    assert g.category == h.category && g.priceRange == h.priceRange && g.fabric == h.fabric;
    assert !ColorActive(g) && !ColorActive(h);
  }

  lemma EmptyFabricsAdmitAlike(q: string, f: Filter)
    ensures forall x :: Admits(q, f.(fabric := Some([])), x) == Admits(q, f.(fabric := None), x)
  {
    var g, h := f.(fabric := Some([])), f.(fabric := None);
    assert g.category == h.category && g.priceRange == h.priceRange && g.color == h.color;
    assert !FabricActive(g) && !FabricActive(h);
  }

  /** Filter records that admit the same items filter alike. */
  lemma SameAdmissionSameFilter(c: seq<Saree>, q: string, f: Filter, g: Filter)
    requires forall x :: Admits(q, f, x) == Admits(q, g, x)
    ensures ApplyFilters(c, q, f) == ApplyFilters(c, q, g)
  {
    ApplyFiltersIsAdmitted(c, q, f);
    ApplyFiltersIsAdmitted(c, q, g);
    AdmittedAgree(c, q, f, g);
  }

  lemma {:induction false} AdmittedAgree(c: seq<Saree>, q: string, f: Filter, g: Filter)
    requires forall x :: Admits(q, f, x) == Admits(q, g, x)
    ensures Admitted(c, q, f) == Admitted(c, q, g)
    decreases |c|
  {
    if c != [] {
      AdmittedAgree(c[1..], q, f, g);
    }
  }

  /** Whether any filter pass runs before the sort. When none does, the
      working array is still the catalog array itself. */
  predicate AnyPassRuns(q: string, f: Filter) {
    q != "" || CategoryActive(f) || f.priceRange.Some? || ColorActive(f) || FabricActive(f)
  }

  /** What one run of the effect leaves behind: the view it publishes and
      the shared catalog array afterwards. */
  datatype EffectResult = EffectResult(view: seq<Saree>, catalog: seq<Saree>)

  /** The effect as written: `filtered` starts as an alias of the catalog and
      `Array.prototype.sort` reorders in place, so when no pass ran the sort
      rewrites the shared catalog too. */
  function FilterEffectAsWritten(c: seq<Saree>, q: string, f: Filter): (r: EffectResult)
    requires NewestIdsParse(c, q, f)
    ensures multiset(r.catalog) == multiset(c)
    ensures AnyPassRuns(q, f) || f.sortBy.None? ==> r.catalog == c
    ensures !AnyPassRuns(q, f) && f.sortBy.Some? ==> r.catalog == r.view
  {
    var view := ComputeView(c, q, f);
    if !AnyPassRuns(q, f) && f.sortBy.Some? then
      assert ApplyFilters(c, q, f) == c;
      ApplyFiltersIsAdmitted(c, q, f);
      EffectResult(view, view)
    else EffectResult(view, c)
  }

  /** Two catalog items priced 2 and 1, with numeric ids. */
  const ItemA: Saree := Saree("1", "A", "", 2, None, Silk, "", "", true, 45, 0)
  const ItemB: Saree := Saree("2", "B", "", 1, None, Silk, "", "", true, 45, 0)

  /** Sorting by price with no other filter and then clearing the filters
      does not give the catalog back: the first run reordered it in place. */
  lemma AliasedSortCorruptsCatalog()
    ensures FilterEffectAsWritten([ItemA, ItemB], "", NoFilter.(sortBy := Some(PriceLow))).catalog == [ItemB, ItemA]
    ensures var first := FilterEffectAsWritten([ItemA, ItemB], "", NoFilter.(sortBy := Some(PriceLow)));
            FilterEffectAsWritten(first.catalog, "", NoFilter).view != [ItemA, ItemB]
  {
    PriceSortOfPair();
    EmptySearchShowsCatalog([ItemB, ItemA]);
  }

  /** The price sort of the two-item catalog swaps it. */
  lemma PriceSortOfPair()
    ensures ComputeView([ItemA, ItemB], "", NoFilter.(sortBy := Some(PriceLow))) == [ItemB, ItemA]
  {
    var c := [ItemA, ItemB];
    var f := NoFilter.(sortBy := Some(PriceLow));
    assert ApplyFilters(c, "", f) == c by {
      AdmitsAll(c, "", f);
    }
    SortPairByPrice();
  }

  /** With no pass running, the filtered list is the whole catalog. */
  lemma AdmitsAll(c: seq<Saree>, q: string, f: Filter)
    requires !AnyPassRuns(q, f)
    ensures ApplyFilters(c, q, f) == c
  {
  }

  lemma SortPairByPrice()
    ensures SortBy([ItemA, ItemB], PriceOf, Ascending) == [ItemB, ItemA]
  {
    assert Insert(ItemB, [], PriceOf, Ascending) == [ItemB];
    assert Insert(ItemA, [ItemB], PriceOf, Ascending) == [ItemB] + Insert(ItemA, [], PriceOf, Ascending);
    assert [ItemA, ItemB][1..] == [ItemB];
  }
}
