/** The product listing's filter controls (ProductListingPage.tsx): each
    one replaces a single field of the `Filter` record. */
module FilterEdits {

  import opened Optional
  import opened Seqs
  import opened Types
  import CatalogView

  /** The category checkbox: ticking sets the category, unticking clears it. */
  function SetCategory(f: Filter, c: string, checked: bool): (r: Filter)
    ensures r.category == (if checked then Some(c) else None)
    ensures r.(category := f.category) == f
  {
    f.(category := if checked then Some(c) else None)
  }

  /** A multi-select list after ticking or unticking `item`: ticking appends,
      unticking drops every copy, and an empty result becomes absent. */
  function ToggleIn(current: Option<seq<string>>, item: string, checked: bool): (r: Option<seq<string>>)
    ensures r.Some? ==> |r.value| > 0
    ensures checked ==> r == Some(current.GetOr([]) + [item])
    ensures !checked ==> forall x :: x in r.GetOr([]) <==> x in current.GetOr([]) && x != item
  {
    var list := current.GetOr([]);
    var updated := if checked then list + [item] else Keep(list, x => x != item);
    if |updated| > 0 then Some(updated) else None
  }

  /** The colour checkboxes. */
  function ToggleColor(f: Filter, color: string, checked: bool): (r: Filter)
    ensures r.color == ToggleIn(f.color, color, checked)
    ensures r.(color := f.color) == f
  {
    f.(color := ToggleIn(f.color, color, checked))
  }

  /** The fabric checkboxes. */
  function ToggleFabric(f: Filter, fabric: string, checked: bool): (r: Filter)
    ensures r.fabric == ToggleIn(f.fabric, fabric, checked)
    ensures r.(fabric := f.fabric) == f
  {
    f.(fabric := ToggleIn(f.fabric, fabric, checked))
  }

  /** Unticking a box that was just ticked on an absent list gives the
      absent list back. */
  lemma ToggleOnThenOff(item: string)
    ensures ToggleIn(ToggleIn(None, item, true), item, false) == None
  {
    assert Option<seq<string>>.None.GetOr([]) + [item] == [item];
    assert Keep([item], x => x != item) == [];
  }

  /** The sort drop-down. */
  function SetSort(f: Filter, k: SortKey): (r: Filter)
    ensures r.sortBy == Some(k)
    ensures r.(sortBy := f.sortBy) == f
  {
    f.(sortBy := Some(k))
  }

  /** "Clear All". */
  function ClearFilters(): (r: Filter)
    ensures r.category.None? && r.priceRange.None? && r.color.None? && r.fabric.None? && r.sortBy.None?
  {
    NoFilter
  }

  /** After "Clear All" with an empty search the listing is the whole
      catalog, in catalog order. */
  lemma ClearShowsCatalog(c: seq<Saree>)
    ensures CatalogView.ComputeView(c, "", ClearFilters()) == c
  {
    CatalogView.EmptySearchShowsCatalog(c);
  }

  /** Default bounds of a half-entered price range. */
  const DefaultMin: int := 0
  const DefaultMax: int := 100000

  /** `x || d` for a number that may be `undefined`: zero counts as absent. */
  function OrDefault(x: Option<int>, d: int): (r: int)
    ensures x.Some? && x.value != 0 ==> r == x.value
    ensures x.None? || x.value == 0 ==> r == d
  {
    if x.Some? && x.value != 0 then x.value else d
  }

  /** The range the price inputs build from a minimum and a maximum that may
      each be absent: absent only when both are. */
  function RangeFrom(min: Option<int>, max: Option<int>): (r: Option<(int, int)>)
    ensures r.None? <==> min.None? && max.None?
    ensures r.Some? ==> r.value == (OrDefault(min, DefaultMin), OrDefault(max, DefaultMax))
  {
    if min.Some? || max.Some? then Some((OrDefault(min, DefaultMin), OrDefault(max, DefaultMax))) else None
  }

  function UpperBound(f: Filter): Option<int> {
    if f.priceRange.Some? then Some(f.priceRange.value.1) else None
  }

  function LowerBound(f: Filter): Option<int> {
    if f.priceRange.Some? then Some(f.priceRange.value.0) else None
  }

  /** Typing in the "Min" box (`None` when it is emptied). */
  function EditMinPrice(f: Filter, input: Option<int>): (r: Filter)
    ensures r.(priceRange := f.priceRange) == f
    ensures r.priceRange.None? <==> input.None? && f.priceRange.None?
    ensures r.priceRange.Some? ==> r.priceRange.value.0 == input.GetOr(DefaultMin)
    ensures r.priceRange.Some? ==>
      r.priceRange.value.1 == (if f.priceRange.Some? && f.priceRange.value.1 != 0 then f.priceRange.value.1 else DefaultMax)
  {
    f.(priceRange := RangeFrom(input, UpperBound(f)))
  }

  /** Typing in the "Max" box (`None` when it is emptied). */
  function EditMaxPrice(f: Filter, input: Option<int>): (r: Filter)
    ensures r.(priceRange := f.priceRange) == f
    ensures r.priceRange.None? <==> input.None? && f.priceRange.None?
    ensures r.priceRange.Some? && input.Some? && input.value != 0 ==> r.priceRange.value.1 == input.value
    ensures r.priceRange.Some? && (input.None? || input.value == 0) ==> r.priceRange.value.1 == DefaultMax
    ensures r.priceRange.Some? ==> r.priceRange.value.0 == (if f.priceRange.Some? then f.priceRange.value.0 else DefaultMin)
  {
    f.(priceRange := RangeFrom(LowerBound(f), input))
  }

  /** Entering a maximum of 0 is read as "no maximum". */
  lemma ZeroMaxMeansDefault(f: Filter)
    ensures EditMaxPrice(f, Some(0)).priceRange.Some?
    ensures EditMaxPrice(f, Some(0)).priceRange.value.1 == DefaultMax
  {
  }

  /** One edit of either price box. */
  datatype PriceEdit = MinEdit(min: Option<int>) | MaxEdit(max: Option<int>)

  function ApplyPriceEdits(f: Filter, edits: seq<PriceEdit>): Filter
    decreases |edits|
  {
    if edits == [] then f
    else
      var g := match edits[0]
        case MinEdit(v) => EditMinPrice(f, v)
        case MaxEdit(v) => EditMaxPrice(f, v);
      ApplyPriceEdits(g, edits[1..])
  }

  /** Once a price range is set, no later edit of either box removes it,
      even emptying both boxes; and the edits touch no other field. */
  lemma {:induction false} PriceRangeStaysSet(f: Filter, edits: seq<PriceEdit>)
    requires f.priceRange.Some?
    ensures ApplyPriceEdits(f, edits).priceRange.Some?
    ensures ApplyPriceEdits(f, edits).(priceRange := f.priceRange) == f
    decreases |edits|
  {
    if edits != [] {
      var g := match edits[0]
        case MinEdit(v) => EditMinPrice(f, v)
        case MaxEdit(v) => EditMaxPrice(f, v);
      PriceRangeStaysSet(g, edits[1..]);
    }
  }

  /** Filter records in which no list is stored empty. */
  predicate NoEmptyLists(f: Filter) {
    (f.color.Some? ==> |f.color.value| > 0) && (f.fabric.Some? ==> |f.fabric.value| > 0)
  }

  /** Every control keeps the lists non-empty-or-absent. */
  lemma EditsKeepListsNonEmpty(f: Filter, s: string, checked: bool, k: SortKey, v: Option<int>)
    requires NoEmptyLists(f)
    ensures NoEmptyLists(SetCategory(f, s, checked))
    ensures NoEmptyLists(ToggleColor(f, s, checked))
    ensures NoEmptyLists(ToggleFabric(f, s, checked))
    ensures NoEmptyLists(SetSort(f, k))
    ensures NoEmptyLists(EditMinPrice(f, v)) && NoEmptyLists(EditMaxPrice(f, v))
    ensures NoEmptyLists(ClearFilters())
  {
  }
}
