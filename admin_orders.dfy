/** The admin's orders page: every shop's orders, filtered by status,
    searched across code, status and payment, and sorted by a column. */
module AdminOrders {
  import opened Wrappers
  import opened Text
  import opened Seqs
  import opened OrderList

  /** The status filter: "all", or lower-cased equality with the order's
      status. */
  predicate AdminStatusMatch(o: Order, statusFilter: string)
  {
    statusFilter == "all" || ToLower(o.status) == ToLower(statusFilter)
  }

  /** The search: empty, or the lower-cased term occurs in the lower-cased
      order code, status or payment state. */
  predicate AdminSearchMatch(o: Order, searchTerm: string)
  {
    var term := ToLower(searchTerm);
    searchTerm == ""
    || Contains(ToLower(o.orderId), term) || Contains(ToLower(o.status), term)
    || Contains(ToLower(o.payment), term)
  }

  /** The status-filter step: every order for "all", otherwise exactly the
      orders whose lower-cased status equals the lower-cased filter, in their
      original order. */
  function AdminStatusFilter(orders: seq<Order>, statusFilter: string): (r: seq<Order>)
    ensures statusFilter == "all" ==> r == orders
    ensures forall o :: o in r <==> o in orders && AdminStatusMatch(o, statusFilter)
    ensures forall o :: multiset(r)[o] == if AdminStatusMatch(o, statusFilter) then multiset(orders)[o] else 0
    ensures IsSubsequence(r, orders)
  {
    if statusFilter != "all" then
      Filter(orders, (o: Order) => ToLower(o.status) == ToLower(statusFilter))
    else
      SubsequenceReflexive(orders);
      orders
  }

  /** The search step: every order for an empty term, otherwise exactly the
      orders with the term in their code, status or payment, in their original
      order. */
  function AdminSearchFilter(orders: seq<Order>, searchTerm: string): (r: seq<Order>)
    ensures searchTerm == "" ==> r == orders
    ensures forall o :: o in r <==> o in orders && AdminSearchMatch(o, searchTerm)
    ensures forall o :: multiset(r)[o] == if AdminSearchMatch(o, searchTerm) then multiset(orders)[o] else 0
    ensures IsSubsequence(r, orders)
  {
    if searchTerm != "" then
      Filter(orders, (o: Order) =>
        Contains(ToLower(o.orderId), ToLower(searchTerm))
        || Contains(ToLower(o.status), ToLower(searchTerm))
        || Contains(ToLower(o.payment), ToLower(searchTerm)))
    else
      SubsequenceReflexive(orders);
      orders
  }

  /** `value ?? ""`: a missing value compares as the empty string. */
  function OrEmpty(v: Value): (w: Value)
    ensures !w.Undefined?
    ensures v.Undefined? ==> w == Str("")
    ensures !v.Undefined? ==> w == v
  {
    if v.Undefined? then Str("") else v
  }

  /** The table's comparator on two key values, after defaulting missing ones
      to "": -1, 0 or 1, a tie exactly when the defaulted strings are equal,
      so two missing values, or a missing value and "", tie. */
  function AdminCompare(a: Value, b: Value, direction: Direction): (c: int)
    ensures c == -1 || c == 0 || c == 1
    ensures !a.Num? && !b.Num? ==> (c == 0 <==> OrEmpty(a) == OrEmpty(b))
    ensures a.Undefined? && (b.Undefined? || b == Str("")) ==> c == 0
  {
    DirectedCompare(OrEmpty(a), OrEmpty(b), direction)
  }

  /** The comparator `sort` receives for a configuration: it orders every
      pair at least one way round, and accepts a pair exactly when the two
      orders' keys are in order. */
  function AdminComparator(config: SortConfig): (c: (Order, Order) -> int)
    ensures Total(c)
    ensures forall x, y :: c(x, y) <= 0 <==> InOrder(KeyValue(x, config.key), KeyValue(y, config.key), config.direction)
  {
    var c := (x: Order, y: Order) => AdminCompare(KeyValue(x, config.key), KeyValue(y, config.key), config.direction);
    assert forall x, y :: (c(x, y) <= 0 || c(y, x) <= 0)
                          && (c(x, y) <= 0 <==> InOrder(KeyValue(x, config.key), KeyValue(y, config.key), config.direction)) by {
      forall x: Order, y: Order
        ensures (c(x, y) <= 0 || c(y, x) <= 0)
                && (c(x, y) <= 0 <==> InOrder(KeyValue(x, config.key), KeyValue(y, config.key), config.direction))
      {
        AdminCompareSign(KeyValue(x, config.key), KeyValue(y, config.key), config.direction);
      }
    }
    c
  }

  /** A missing value sorts exactly like the empty string, and the comparator
      accepts a pair exactly when it is in order (after that default). */
  lemma AdminCompareSign(a: Value, b: Value, direction: Direction)
    ensures a.Undefined? ==> AdminCompare(a, b, direction) == AdminCompare(Str(""), b, direction)
    ensures b.Undefined? ==> AdminCompare(a, b, direction) == AdminCompare(a, Str(""), direction)
    ensures AdminCompare(a, b, direction) <= 0 || AdminCompare(b, a, direction) <= 0
    ensures AdminCompare(a, b, direction) <= 0 <==> InOrder(OrEmpty(a), OrEmpty(b), direction)
  {
    DirectedCompareSign(OrEmpty(a), OrEmpty(b), direction);
  }

  /** Unlike the shop's comparator, a missing value is not equal to
      everything: it sorts before every non-empty string. */
  lemma MissingSortsFirst(s: string)
    requires s != ""
    ensures AdminCompare(Undefined, Str(s), Ascending) == -1
  {
  }

  /** `filteredOrders.sort(...)`: a rearrangement of the orders in which
      every adjacent pair of keys is non-decreasing (ascending) or
      non-increasing (descending). */
  function AdminSort(orders: seq<Order>, config: SortConfig): (r: seq<Order>)
    ensures |r| == |orders| && multiset(r) == multiset(orders)
    ensures forall o :: o in r <==> o in orders
    ensures forall i, j :: 0 <= i < j < |r| ==>
              InOrder(KeyValue(r[i], config.key), KeyValue(r[j], config.key), config.direction)
  {
    var cmp := AdminComparator(config);
    var r := SortBy(orders, cmp);
    assert forall i :: 0 <= i < |r| - 1 ==>
             InOrder(KeyValue(r[i], config.key), KeyValue(r[i + 1], config.key), config.direction) by {
      forall i | 0 <= i < |r| - 1
        ensures InOrder(KeyValue(r[i], config.key), KeyValue(r[i + 1], config.key), config.direction)
      {
        assert cmp(r[i], r[i + 1]) <= 0;
      }
    }
    SortedPairwise(r, config.key, config.direction);
    assert forall o :: o in r <==> o in orders by {
      forall o ensures o in r <==> o in orders {
        assert o in r <==> o in multiset(r);
        assert o in orders <==> o in multiset(orders);
      }
    }
    r
  }

  /** Under the ASCII case folding of this model, the shop's upper-casing
      status filter and the admin's lower-casing one keep the same orders.
      (With full Unicode folding they can differ: "ı" and "i" share an upper
      case but not a lower case.) */
  lemma StatusFiltersAgree(o: Order, statusFilter: string)
    ensures AdminStatusMatch(o, statusFilter) <==> (statusFilter == "all" || ToUpper(o.status) == ToUpper(statusFilter))
  {
    SameFold(o.status, statusFilter);
  }

  class AdminOrdersPage {
    var orders: seq<Order>
    var searchTerm: string
    var statusFilter: string
    var sortConfig: Option<SortConfig>

    /** The page once the fetch has delivered `orders`. */
    constructor (orders: seq<Order>)
      ensures this.orders == orders && searchTerm == "" && statusFilter == "all" && sortConfig == None
    {
      this.orders := orders;
      searchTerm := "";
      statusFilter := "all";
      sortConfig := None;
    }

    method EditSearch(term: string)
      modifies this`searchTerm
      ensures searchTerm == term
    {
      searchTerm := term;
    }

    method SelectStatus(filter: string)
      modifies this`statusFilter
      ensures statusFilter == filter
    {
      statusFilter := filter;
    }

    method RequestSort(key: SortKey)
      modifies this`sortConfig
      ensures sortConfig == Some(NextSortConfig(old(sortConfig), key))
    {
      sortConfig := Some(NextSortConfig(sortConfig, key));
    }

    /** The rows the table shows: the orders passing the status filter and
        the search, sorted when a sort is configured. Filtering and sorting
        work on a copy; the page's `orders` is only read. */
    method VisibleOrders() returns (r: seq<Order>)
      ensures forall o :: o in r <==> o in orders && AdminStatusMatch(o, statusFilter) && AdminSearchMatch(o, searchTerm)
      // Each passing order appears exactly as often as in `orders`: the table
      // is a permutation of the filtered list.
      ensures forall o :: multiset(r)[o] ==
                if AdminStatusMatch(o, statusFilter) && AdminSearchMatch(o, searchTerm) then multiset(orders)[o] else 0
      ensures multiset(r) == multiset(AdminSearchFilter(AdminStatusFilter(orders, statusFilter), searchTerm))
      ensures sortConfig.None? ==> r == AdminSearchFilter(AdminStatusFilter(orders, statusFilter), searchTerm)
      ensures sortConfig.None? ==> IsSubsequence(r, orders)
      ensures sortConfig.Some? ==>
                forall i, j :: 0 <= i < j < |r| ==>
                  InOrder(KeyValue(r[i], sortConfig.value.key), KeyValue(r[j], sortConfig.value.key),
                          sortConfig.value.direction)
    {
      var filteredOrders := AdminStatusFilter(orders, statusFilter);
      ghost var afterStatus := filteredOrders;
      filteredOrders := AdminSearchFilter(filteredOrders, searchTerm);
      SubsequenceTransitive(filteredOrders, afterStatus, orders);
      if sortConfig.Some? {
        filteredOrders := AdminSort(filteredOrders, sortConfig.value);
      }
      r := filteredOrders;
    }
  }

  /** Filtering by "pending" and searching "A1" among A100 (pending) and
      B200 (approved) leaves exactly A100. */
  method PendingA1Example()
  {
    var a100 := Order(1, "A100", "2024-05-01", 1197, "pending", "unpaid", 1, None);
    var b200 := Order(2, "B200", "2024-05-02", 449, "approved", "paid", 1, None);
    var page := new AdminOrdersPage([a100, b200]);
    page.SelectStatus("pending");
    page.EditSearch("A1");
    assert Contains(ToLower("A100"), ToLower("A1")) by {
      assert ToLower("A100")[..2] == ToLower("A1");
    }
    assert ToLower(b200.status) != ToLower("pending") by {
      assert |ToLower(b200.status)| == 8;
    }
    var shown := page.VisibleOrders();
    assert AdminStatusMatch(a100, "pending") && AdminSearchMatch(a100, "A1");
    assert !AdminStatusMatch(b200, "pending");
    assert multiset(shown) == multiset{a100} by {
      assert multiset([a100, b200]) == multiset{a100, b200};
    }
    assert |shown| == 1;
    assert shown == [a100] by {
      assert shown[0] in multiset(shown);
    }
  }
}
