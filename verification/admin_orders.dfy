/** The admin order list (OrderManagement.tsx): search and status
    filtering, the summary figures, and the one action button each status
    offers. */
module AdminOrders {

  import opened Optional
  import opened Text
  import opened Seqs

  datatype OrderStatus = Pending | Confirmed | Shipped | Delivered | Cancelled

  /** The status as stored and as the status drop-down names it. */
  function StatusName(s: OrderStatus): string {
    match s
    case Pending => "pending"
    case Confirmed => "confirmed"
    case Shipped => "shipped"
    case Delivered => "delivered"
    case Cancelled => "cancelled"
  }

  /** An order, restricted to the fields the list logic reads. */
  datatype Order = Order(id: string, customerName: string, customerEmail: string, total: int, status: OrderStatus)

  /** The search term occurs, ignoring case, in the id, the customer's name or email. */
  predicate MatchesSearch(o: Order, term: string) {
    IncludesIgnoringCase(o.id, term) || IncludesIgnoringCase(o.customerName, term) ||
    IncludesIgnoringCase(o.customerEmail, term)
  }

  /** The status drop-down: "all", or one status name. */
  predicate MatchesStatus(o: Order, statusFilter: string) {
    statusFilter == "all" || StatusName(o.status) == statusFilter
  }

  function Shown(term: string, statusFilter: string): Order -> bool {
    (o: Order) => MatchesSearch(o, term) && MatchesStatus(o, statusFilter)
  }

  /** `filteredOrders`. */
  function FilteredOrders(orders: seq<Order>, term: string, statusFilter: string): (r: seq<Order>)
    ensures forall o :: o in r <==> o in orders && MatchesSearch(o, term) && MatchesStatus(o, statusFilter)
    ensures |r| <= |orders|
  {
    var r := Keep(orders, Shown(term, statusFilter));
    assert forall o :: o in r ==> Shown(term, statusFilter)(o) by {
      forall o | o in r ensures Shown(term, statusFilter)(o) {
        var i :| 0 <= i < |r| && r[i] == o;
      }
    }
    assert forall o :: o in orders && Shown(term, statusFilter)(o) ==> o in r by {
      forall o | o in orders && Shown(term, statusFilter)(o) ensures o in r {
        var i :| 0 <= i < |orders| && orders[i] == o;
      }
    }
    r
  }

  /** Filtering keeps the input order: the list splits as its input does. */
  lemma FilterKeepsOrder(a: seq<Order>, b: seq<Order>, term: string, statusFilter: string)
    ensures FilteredOrders(a + b, term, statusFilter) ==
      FilteredOrders(a, term, statusFilter) + FilteredOrders(b, term, statusFilter)
  {
    KeepAppend(a, b, Shown(term, statusFilter));
  }

  /** An empty search with "all" statuses lists every order, in order. */
  lemma EmptySearchListsAll(orders: seq<Order>)
    ensures FilteredOrders(orders, "", "all") == orders
  {
    forall i | 0 <= i < |orders| ensures Shown("", "all")(orders[i]) {
      EmptyTermMatches(orders[i].id);
    }
    KeepAll(orders, Shown("", "all"));
  }

  /** The list on screen: the sort drop-down's value is stored but never
      applied. */
  function DisplayedOrders(orders: seq<Order>, term: string, statusFilter: string, sortBy: string): (r: seq<Order>)
    ensures forall o :: o in r <==> o in orders && MatchesSearch(o, term) && MatchesStatus(o, statusFilter)
  {
    FilteredOrders(orders, term, statusFilter)
  }

  /** Changing the sort selection never changes the list shown. */
  lemma SortSelectionIgnored(orders: seq<Order>, term: string, statusFilter: string, a: string, b: string)
    ensures DisplayedOrders(orders, term, statusFilter, a) == DisplayedOrders(orders, term, statusFilter, b)
  {
  }

  function HasStatus(s: OrderStatus): Order -> bool {
    (o: Order) => o.status == s
  }

  function LacksStatus(s: OrderStatus): Order -> bool {
    (o: Order) => o.status != s
  }

  /** `orders.filter(o => o.status === s).length`. */
  function CountStatus(orders: seq<Order>, s: OrderStatus): (r: nat)
    ensures r == |set i | 0 <= i < |orders| && orders[i].status == s|
    ensures r <= |orders|
    ensures r == 0 <==> forall i :: 0 <= i < |orders| ==> orders[i].status != s
  {
    var kept := Keep(orders, HasStatus(s));
    assert |kept| > 0 ==> kept[0] in orders;
    KeepCountsIndices(orders, HasStatus(s));
    assert IndicesWhere(orders, HasStatus(s)) == set i | 0 <= i < |orders| && orders[i].status == s;
    |kept|
  }

  function TotalOf(o: Order): int {
    o.total
  }

  /** The figures above the order list. There is no cancelled counter. */
  datatype OrderStats = OrderStats(total: nat, pending: nat, confirmed: nat, shipped: nat, delivered: nat, totalRevenue: int)

  /** `orderStats`: counted over all orders, whatever the search or filter. */
  function Stats(orders: seq<Order>): (r: OrderStats)
    ensures r.total == |orders|
    ensures r.pending == CountStatus(orders, Pending) && r.confirmed == CountStatus(orders, Confirmed)
    ensures r.shipped == CountStatus(orders, Shipped) && r.delivered == CountStatus(orders, Delivered)
    ensures r.pending + r.confirmed + r.shipped + r.delivered + CountStatus(orders, Cancelled) == r.total
    ensures r.pending + r.confirmed + r.shipped + r.delivered <= r.total
    ensures r.totalRevenue == SumOf(orders, TotalOf)
  {
    StatusCountsPartition(orders);
    OrderStats(|orders|, CountStatus(orders, Pending), CountStatus(orders, Confirmed),
      CountStatus(orders, Shipped), CountStatus(orders, Delivered), SumOf(orders, TotalOf))
  }

  /** Every order has exactly one of the five statuses. */
  lemma {:induction false} StatusCountsPartition(orders: seq<Order>)
    ensures |Keep(orders, HasStatus(Pending))| + |Keep(orders, HasStatus(Confirmed))| +
      |Keep(orders, HasStatus(Shipped))| + |Keep(orders, HasStatus(Delivered))| +
      |Keep(orders, HasStatus(Cancelled))| == |orders|
    decreases |orders|
  {
    if orders != [] {
      StatusCountsPartition(orders[1..]);
    }
  }

  /** Revenue is the takings of live orders plus those of cancelled ones:
      cancelled orders are not subtracted. */
  lemma RevenueIncludesCancelled(orders: seq<Order>)
    ensures Stats(orders).totalRevenue ==
      SumOf(Keep(orders, HasStatus(Cancelled)), TotalOf) +
      SumOf(Keep(orders, LacksStatus(Cancelled)), TotalOf)
  {
    SumSplit(orders, TotalOf, HasStatus(Cancelled), LacksStatus(Cancelled));
  }

  /** The action button an order's card offers. */
  datatype Action = Confirm | Ship | Deliver

  function NextAction(s: OrderStatus): (r: Option<Action>)
    ensures r == Some(Confirm) <==> s == Pending
    ensures r == Some(Ship) <==> s == Confirmed
    ensures r == Some(Deliver) <==> s == Shipped
    ensures r.None? <==> s == Delivered || s == Cancelled
  {
    match s
    case Pending => Some(Confirm)
    case Confirmed => Some(Ship)
    case Shipped => Some(Deliver)
    case _ => None
  }

  /** Different statuses never offer the same action. */
  lemma NextActionInjective(a: OrderStatus, b: OrderStatus)
    requires NextAction(a).Some? && NextAction(a) == NextAction(b)
    ensures a == b
  {
  }
}
