/** The admin customer list (CustomerInsights.tsx): search and segment
    filtering, the sort drop-down, and the segment counters. */
module AdminCustomers {

  import opened Text
  import opened Seqs
  import opened Sorting

  datatype CustomerStatus = Active | Inactive | Vip

  /** The status as stored and as the segment drop-down names it. */
  function StatusName(s: CustomerStatus): string {
    match s
    case Active => "active"
    case Inactive => "inactive"
    case Vip => "vip"
  }

  /** A customer, restricted to the fields the list logic reads. `joinDate`
      is an ISO `YYYY-MM-DD` string. */
  datatype Customer = Customer(
    id: string,
    name: string,
    email: string,
    joinDate: string,
    totalOrders: int,
    totalSpent: int,
    status: CustomerStatus)

  predicate MatchesSearch(c: Customer, term: string) {
    IncludesIgnoringCase(c.name, term) || IncludesIgnoringCase(c.email, term)
  }

  /** The segment drop-down: "all", or one status name. */
  predicate MatchesSegment(c: Customer, segment: string) {
    segment == "all" || StatusName(c.status) == segment
  }

  function Shown(term: string, segment: string): Customer -> bool {
    (c: Customer) => MatchesSearch(c, term) && MatchesSegment(c, segment)
  }

  /** `filteredCustomers`. */
  function FilteredCustomers(cs: seq<Customer>, term: string, segment: string): (r: seq<Customer>)
    ensures forall c :: c in r <==> c in cs && MatchesSearch(c, term) && MatchesSegment(c, segment)
    ensures |r| <= |cs|
  {
    var r := Keep(cs, Shown(term, segment));
    assert forall c :: c in r ==> Shown(term, segment)(c) by {
      forall c | c in r ensures Shown(term, segment)(c) {
        var i :| 0 <= i < |r| && r[i] == c;
      }
    }
    assert forall c :: c in cs && Shown(term, segment)(c) ==> c in r by {
      forall c | c in cs && Shown(term, segment)(c) ensures c in r {
        var i :| 0 <= i < |cs| && cs[i] == c;
      }
    }
    r
  }

  /** An empty search over all segments lists every customer, in order. */
  lemma EmptySearchListsAll(cs: seq<Customer>)
    ensures FilteredCustomers(cs, "", "all") == cs
  {
    forall i | 0 <= i < |cs| ensures Shown("", "all")(cs[i]) {
      EmptyTermMatches(cs[i].name);
    }
    KeepAll(cs, Shown("", "all"));
  }

  function NameOf(c: Customer): string {
    c.name
  }

  function SpentOf(c: Customer): int {
    c.totalSpent
  }

  function OrdersOf(c: Customer): int {
    c.totalOrders
  }

  function JoinDateOf(c: Customer): string {
    c.joinDate
  }

  /** The sort values with a comparator of their own. */
  predicate KnownSort(sortBy: string) {
    sortBy == "name" || sortBy == "totalSpent" || sortBy == "totalOrders" || sortBy == "joinDate"
  }

  /** `sortedCustomers`: a stable sort of a copy of the list. Names ascend,
      spend and order counts descend, join dates run latest first, and any
      other value compares everything equal and keeps the input order. */
  function SortCustomers(cs: seq<Customer>, sortBy: string): (r: seq<Customer>)
    ensures multiset(r) == multiset(cs)
    ensures sortBy == "name" ==> forall i, j :: 0 <= i < j < |r| ==> LexLe(r[i].name, r[j].name)
    ensures sortBy == "totalSpent" ==> forall i, j :: 0 <= i < j < |r| ==> r[i].totalSpent >= r[j].totalSpent
    ensures sortBy == "totalOrders" ==> forall i, j :: 0 <= i < j < |r| ==> r[i].totalOrders >= r[j].totalOrders
    ensures sortBy == "joinDate" ==> forall i, j :: 0 <= i < j < |r| ==> LexLe(r[j].joinDate, r[i].joinDate)
    ensures !KnownSort(sortBy) ==> r == cs
  {
    CustomerOrder(cs, sortBy);
    Arrange(cs, sortBy)
  }

  function Arrange(cs: seq<Customer>, sortBy: string): seq<Customer> {
    if sortBy == "name" then SortBy(cs, NameOf, LexAscending)
    else if sortBy == "totalSpent" then SortBy(cs, SpentOf, Descending)
    else if sortBy == "totalOrders" then SortBy(cs, OrdersOf, Descending)
    else if sortBy == "joinDate" then SortBy(cs, JoinDateOf, LexDescending)
    else cs
  }

  lemma CustomerOrder(cs: seq<Customer>, sortBy: string)
    ensures var r := Arrange(cs, sortBy);
      && (sortBy == "name" ==> forall i, j :: 0 <= i < j < |r| ==> LexLe(r[i].name, r[j].name))
      && (sortBy == "totalSpent" ==> forall i, j :: 0 <= i < j < |r| ==> r[i].totalSpent >= r[j].totalSpent)
      && (sortBy == "totalOrders" ==> forall i, j :: 0 <= i < j < |r| ==> r[i].totalOrders >= r[j].totalOrders)
      && (sortBy == "joinDate" ==> forall i, j :: 0 <= i < j < |r| ==> LexLe(r[j].joinDate, r[i].joinDate))
  {
    NumericOrdersAreTotal();
    LexOrdersAreTotal();
    if sortBy == "name" {
      SortBySorted(cs, NameOf, LexAscending);
    } else if sortBy == "totalSpent" {
      SortBySorted(cs, SpentOf, Descending);
    } else if sortBy == "totalOrders" {
      SortBySorted(cs, OrdersOf, Descending);
    } else if sortBy == "joinDate" {
      SortBySorted(cs, JoinDateOf, LexDescending);
    }
  }

  /** Customers who spent the same amount keep their list order. */
  lemma SpendSortIsStable(cs: seq<Customer>, amount: int)
    ensures WithKey(SortCustomers(cs, "totalSpent"), SpentOf, amount) == WithKey(cs, SpentOf, amount)
  {
    NumericOrdersAreTotal();
    SortByStable(cs, SpentOf, Descending, amount);
  }

  function InSegment(s: CustomerStatus): Customer -> bool {
    (c: Customer) => c.status == s
  }

  /** The cut-off for "new this month". */
  const MonthStart: string := "2024-01-01"

  /** `new Date(c.joinDate) > new Date(day)`, read on ISO date strings. */
  function JoinedAfter(day: string): Customer -> bool {
    (c: Customer) => LexGt(c.joinDate, day)
  }

  /** The counters above the customer list (the average spend is left out). */
  datatype CustomerStats = CustomerStats(total: nat, vip: nat, active: nat, inactive: nat, newThisMonth: nat)

  /** `customerStats`, over all customers whatever the search or segment. */
  function Stats(cs: seq<Customer>): (r: CustomerStats)
    ensures r.total == |cs|
    ensures r.vip == |Keep(cs, InSegment(Vip))| && r.active == |Keep(cs, InSegment(Active))|
    ensures r.inactive == |Keep(cs, InSegment(Inactive))|
    ensures r.vip + r.active + r.inactive == r.total
    ensures r.newThisMonth == |Keep(cs, JoinedAfter(MonthStart))| && r.newThisMonth <= r.total
  {
    SegmentsPartition(cs);
    CustomerStats(|cs|, |Keep(cs, InSegment(Vip))|, |Keep(cs, InSegment(Active))|,
      |Keep(cs, InSegment(Inactive))|, |Keep(cs, JoinedAfter(MonthStart))|)
  }

  /** Every customer is in exactly one of the three segments. */
  lemma {:induction false} SegmentsPartition(cs: seq<Customer>)
    ensures |Keep(cs, InSegment(Vip))| + |Keep(cs, InSegment(Active))| + |Keep(cs, InSegment(Inactive))| == |cs|
    decreases |cs|
  {
    if cs != [] {
      SegmentsPartition(cs[1..]);
    }
  }

  /** The customers counted as new joined strictly after the cut-off: a
      customer who joined on the cut-off day itself is not counted. */
  lemma NewMeansStrictlyLater(cs: seq<Customer>)
    ensures forall c :: c in Keep(cs, JoinedAfter(MonthStart)) ==> LexLe(MonthStart, c.joinDate) && c.joinDate != MonthStart
  {
    forall c | c in Keep(cs, JoinedAfter(MonthStart))
      ensures LexLe(MonthStart, c.joinDate) && c.joinDate != MonthStart
    {
      var k := Keep(cs, JoinedAfter(MonthStart));
      var i :| 0 <= i < |k| && k[i] == c;
      LexLeTotal(c.joinDate, MonthStart);
      if c.joinDate == MonthStart {
        LexLeTotal(MonthStart, MonthStart);
      }
    }
  }
}
