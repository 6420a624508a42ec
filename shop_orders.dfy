/** The shop's orders page: the line-item builder of the "new order" dialog
    (add a product, remove a line, submit the order) and the filtered, searched
    and sorted order table. Prices, subtotals and totals are integer cents. */
module ShopOrders {
  import opened Wrappers
  import opened Text
  import opened Seqs
  import opened OrderList

  datatype Product = Product(id: string, name: string, price: nat, unit: string, category: string,
                             description: string, inStock: bool, supplier: string)

  /** The product list the products endpoint serves, prices in cents. */
  const Catalogue: seq<Product> := [
    Product("1", "Whole Milk", 399, "liter", "Milk", "Fresh whole milk", true, "Farm Fresh Dairy"),
    Product("2", "Greek Yogurt", 449, "cup", "Yogurt", "Creamy Greek yogurt", true, "Farm Fresh Dairy"),
    Product("3", "Cheddar Cheese", 599, "kg", "Cheese", "Aged cheddar cheese", true, "Cheese Masters")
  ]

  // ---------------------------------------------------------------------
  // Line items

  /** `products.find((p) => p.id === id)`. */
  function FindProduct(products: seq<Product>, id: string): (r: Option<Product>)
    ensures r.None? <==> forall i :: 0 <= i < |products| ==> products[i].id != id
    ensures r.Some? ==> r.value.id == id && r.value in products
    // `find` returns the first product with the id.
    ensures r.Some? ==> exists k :: 0 <= k < |products| && products[k] == r.value
                                    && forall i :: 0 <= i < k ==> products[i].id != id
  {
    var k := FirstIndex(products, (p: Product) => p.id == id);
    if k < 0 then None else Some(products[k])
  }

  /** `orderItems.findIndex((item) => item.productId === id)`. */
  function FindItemIndex(items: seq<OrderItem>, id: string): (k: int)
    ensures -1 <= k < |items|
    ensures k == -1 <==> forall i :: 0 <= i < |items| ==> items[i].productId != id
    ensures 0 <= k ==> items[k].productId == id
    ensures 0 <= k ==> forall i :: 0 <= i < k ==> items[i].productId != id
  {
    FirstIndex(items, (it: OrderItem) => it.productId == id)
  }

  /** No two lines are for the same product. */
  predicate DistinctIds(items: seq<OrderItem>)
  {
    forall i, j :: 0 <= i < j < |items| ==> items[i].productId != items[j].productId
  }

  /** A line as the builder makes it: a positive quantity, the subtotal
      quantity × price, and the name and price of the listed product. */
  predicate ItemConsistent(item: OrderItem, products: seq<Product>)
  {
    && item.quantity > 0
    && item.subtotal == item.quantity * item.price
    && match FindProduct(products, item.productId)
       case Some(p) => p.name == item.productName && p.price == item.price
       case None => false
  }

  /** The invariant of the line-item list while the product list is fixed. */
  predicate ValidItems(items: seq<OrderItem>, products: seq<Product>)
  {
    DistinctIds(items) && forall i :: 0 <= i < |items| ==> ItemConsistent(items[i], products)
  }

  /** The lines after adding `qty` of `product` (the update `handleAddItem`
      makes once its input checks pass). */
  function AddToItems(items: seq<OrderItem>, product: Product, qty: int): (r: seq<OrderItem>)
    // A product already listed: the list keeps its length and only that
    // line changes, to the summed quantity and its subtotal at the current
    // price.
    ensures var k := FindItemIndex(items, product.id);
            0 <= k ==> |r| == |items|
                       && r[k] == items[k].(quantity := items[k].quantity + qty,
                                            subtotal := (items[k].quantity + qty) * product.price)
                       && forall j :: 0 <= j < |items| && j != k ==> r[j] == items[j]
    // A new product: exactly one line is appended at the end.
    ensures FindItemIndex(items, product.id) == -1 ==>
              r == items + [OrderItem(product.id, product.name, qty, product.price, qty * product.price)]
  {
    var k := FindItemIndex(items, product.id);
    if 0 <= k then
      var newQty := items[k].quantity + qty;
      items[k := items[k].(quantity := newQty, subtotal := newQty * product.price)]
    else
      items + [OrderItem(product.id, product.name, qty, product.price, qty * product.price)]
  }

  /** `orderItems.filter((item) => item.productId !== productId)`. */
  function RemoveFromItems(items: seq<OrderItem>, productId: string): (r: seq<OrderItem>)
    ensures forall x :: x in r <==> x in items && x.productId != productId
    ensures IsSubsequence(r, items)
  {
    Filter(items, (it: OrderItem) => it.productId != productId)
  }

  /** `orderItems.reduce((sum, i) => sum + i.subtotal, 0)`, folding from the
      left. */
  function SumSubtotals(items: seq<OrderItem>): (s: int)
    ensures items == [] ==> s == 0
    ensures |items| == 1 ==> s == items[0].subtotal
  {
    if items == [] then 0 else SumSubtotals(items[..|items| - 1]) + items[|items| - 1].subtotal
  }

  /** With no negative subtotal the sum is non-negative and at least every
      line's own subtotal. */
  lemma {:induction false} SubtotalsBound(items: seq<OrderItem>)
    requires forall i :: 0 <= i < |items| ==> items[i].subtotal >= 0
    ensures SumSubtotals(items) >= 0
    ensures forall i :: 0 <= i < |items| ==> items[i].subtotal <= SumSubtotals(items)
  {
    if items != [] {
      var front := items[..|items| - 1];
      assert forall i :: 0 <= i < |front| ==> front[i] == items[i];
      SubtotalsBound(front);
    }
  }

  /** The order's value computed from quantities and unit prices. */
  function LineTotal(items: seq<OrderItem>): int
  {
    if items == [] then 0
    else LineTotal(items[..|items| - 1]) + items[|items| - 1].quantity * items[|items| - 1].price
  }

  lemma {:induction false} SumSubtotalsConcat(a: seq<OrderItem>, b: seq<OrderItem>)
    ensures SumSubtotals(a + b) == SumSubtotals(a) + SumSubtotals(b)
    decreases |b|
  {
    if b != [] {
      assert (a + b)[..|a + b| - 1] == a + b[..|b| - 1];
      SumSubtotalsConcat(a, b[..|b| - 1]);
    } else {
      assert a + b == a;
    }
  }

  /** Replacing one line changes the sum by the difference of the subtotals. */
  lemma {:induction false} SumSubtotalsUpdate(items: seq<OrderItem>, k: nat, x: OrderItem)
    requires k < |items|
    ensures SumSubtotals(items[k := x]) == SumSubtotals(items) - items[k].subtotal + x.subtotal
  {
    var n := |items|;
    if k == n - 1 {
      assert items[k := x][..n - 1] == items[..n - 1];
    } else {
      assert items[k := x][..n - 1] == items[..n - 1][k := x];
      SumSubtotalsUpdate(items[..n - 1], k, x);
    }
  }

  /** Dropping one line takes its subtotal out of the sum. */
  lemma {:induction false} SumSubtotalsRemoveAt(items: seq<OrderItem>, k: nat)
    requires k < |items|
    ensures SumSubtotals(items[..k] + items[k + 1..]) == SumSubtotals(items) - items[k].subtotal
  {
    var n := |items|;
    var r := items[..k] + items[k + 1..];
    if k == n - 1 {
      assert r == items[..n - 1];
    } else {
      var init := items[..n - 1];
      assert r[..|r| - 1] == init[..k] + init[k + 1..];
      assert r[|r| - 1] == items[n - 1];
      SumSubtotalsRemoveAt(init, k);
    }
  }

  /** While every line is consistent, the sum of the subtotals is the sum of
      quantity × price over the lines. */
  lemma {:induction false} ValidSumIsLineTotal(items: seq<OrderItem>, products: seq<Product>)
    requires ValidItems(items, products)
    ensures SumSubtotals(items) == LineTotal(items)
  {
    if items != [] {
      var init := items[..|items| - 1];
      assert ValidItems(init, products) by {
        assert forall i :: 0 <= i < |init| ==> init[i] == items[i];
      }
      ValidSumIsLineTotal(init, products);
      assert ItemConsistent(items[|items| - 1], products);
    }
  }

  /** An accepted add keeps the invariant: product ids stay distinct and every
      line stays consistent with the product list. */
  lemma AddKeepsValid(items: seq<OrderItem>, products: seq<Product>, product: Product, qty: int)
    requires ValidItems(items, products)
    requires FindProduct(products, product.id) == Some(product) && qty > 0
    ensures ValidItems(AddToItems(items, product, qty), products)
  {
    var r := AddToItems(items, product, qty);
    var k := FindItemIndex(items, product.id);
    if 0 <= k {
      assert ItemConsistent(items[k], products);
      assert forall i :: 0 <= i < |r| ==> r[i].productId == items[i].productId;
      forall i | 0 <= i < |r| ensures ItemConsistent(r[i], products) {
        if i != k { assert r[i] == items[i]; }
      }
    } else {
      assert forall i :: 0 <= i < |items| ==> r[i] == items[i];
      forall i | 0 <= i < |r| ensures ItemConsistent(r[i], products) {
        if i < |items| { assert ItemConsistent(items[i], products); }
      }
    }
  }

  /** A listed line carries the product's current price. */
  lemma ListedLine(items: seq<OrderItem>, products: seq<Product>, product: Product, k: nat)
    requires ValidItems(items, products) && FindProduct(products, product.id) == Some(product)
    requires k < |items| && items[k].productId == product.id
    ensures items[k].quantity > 0 && items[k].price == product.price
    ensures items[k].subtotal == items[k].quantity * product.price
  {
    assert ItemConsistent(items[k], products);
  }

  lemma Distribute(a: int, b: int, c: int)
    ensures (a + b) * c == a * c + b * c
  {
  }

  /** Raising one line's quantity by `qty` at unit price `price` raises the
      sum by `qty` × `price`. */
  lemma MergedLineTotal(items: seq<OrderItem>, k: nat, x: OrderItem, qty: int, price: int)
    requires k < |items| && items[k].subtotal == items[k].quantity * price
    requires x.subtotal == (items[k].quantity + qty) * price
    ensures SumSubtotals(items[k := x]) == SumSubtotals(items) + qty * price
  {
    SumSubtotalsUpdate(items, k, x);
    Distribute(items[k].quantity, qty, price);
  }

  /** An accepted add raises the sum of the subtotals by `qty` × price, whether
      it merges into an existing line or appends a new one. */
  lemma AddTotal(items: seq<OrderItem>, products: seq<Product>, product: Product, qty: int)
    requires ValidItems(items, products)
    requires FindProduct(products, product.id) == Some(product)
    ensures SumSubtotals(AddToItems(items, product, qty)) == SumSubtotals(items) + qty * product.price
  {
    var r := AddToItems(items, product, qty);
    var k := FindItemIndex(items, product.id);
    if 0 <= k {
      ListedLine(items, products, product, k);
      assert r == items[k := r[k]];
      MergedLineTotal(items, k, r[k], qty, product.price);
    } else {
      assert r[..|r| - 1] == items;
    }
  }

  /** With distinct ids, removing a listed product drops exactly its line and
      keeps the others in order; removing an unlisted one changes nothing. */
  lemma RemoveExact(items: seq<OrderItem>, productId: string)
    requires DistinctIds(items)
    ensures var k := FindItemIndex(items, productId);
            RemoveFromItems(items, productId) == if k < 0 then items else items[..k] + items[k + 1..]
  {
    var keep := (it: OrderItem) => it.productId != productId;
    var k := FindItemIndex(items, productId);
    if k < 0 {
      FilterKeepsAll(items, keep);
    } else {
      FilterDropsOne(items, keep, k);
    }
  }

  /** Dropping one line keeps the invariant. */
  lemma DropKeepsValid(items: seq<OrderItem>, products: seq<Product>, k: nat)
    requires ValidItems(items, products) && k < |items|
    ensures ValidItems(items[..k] + items[k + 1..], products)
  {
    var r := items[..k] + items[k + 1..];
    forall i | 0 <= i < |r| ensures r[i] == items[if i < k then i else i + 1] {
    }
    forall i, j | 0 <= i < j < |r| ensures r[i].productId != r[j].productId {
      assert r[i] == items[if i < k then i else i + 1];
      assert r[j] == items[if j < k then j else j + 1];
    }
    forall i | 0 <= i < |r| ensures ItemConsistent(r[i], products) {
      assert r[i] == items[if i < k then i else i + 1];
    }
  }

  /** Removing keeps the invariant: ids stay distinct and every line stays
      consistent. */
  lemma RemoveKeepsValid(items: seq<OrderItem>, products: seq<Product>, productId: string)
    requires ValidItems(items, products)
    ensures ValidItems(RemoveFromItems(items, productId), products)
  {
    RemoveExact(items, productId);
    var k := FindItemIndex(items, productId);
    if 0 <= k {
      DropKeepsValid(items, products, k);
    }
  }

  /** Removing a listed product takes its line's subtotal out of the sum;
      removing an unlisted one leaves the sum as it was. */
  lemma RemoveTotal(items: seq<OrderItem>, productId: string)
    requires DistinctIds(items)
    ensures var k := FindItemIndex(items, productId);
            SumSubtotals(RemoveFromItems(items, productId))
              == if k < 0 then SumSubtotals(items) else SumSubtotals(items) - items[k].subtotal
  {
    RemoveExact(items, productId);
    var k := FindItemIndex(items, productId);
    if 0 <= k {
      SumSubtotalsRemoveAt(items, k);
    }
  }

  // ---------------------------------------------------------------------
  // Creating an order

  /** The body posted to the orders endpoint. */
  datatype NewOrder = NewOrder(shopId: int, items: seq<OrderItem>, notes: string, total: int,
                               status: string, payment: string, date: string)

  /** How the post to the orders endpoint ended: the created order, a
      non-success response with its body text, or a thrown error (network or
      JSON) with its message. */
  datatype Reply = Created(order: Order) | Rejected(body: string) | Failed(message: string)

  /** The toast shown to the user. */
  datatype Notice = ToastSuccess(message: string) | ToastError(message: string)

  const EmptyOrderMessage := "Please add at least one item to the order"

  /** The validation and payload of `handleCreateOrder`: an empty list is
      refused before anything is sent; otherwise the payload carries the lines,
      the notes, the date part `today` of the current time, the total of the
      subtotals, the placeholder status and payment, and shop 1. */
  function NewOrderRequest(items: seq<OrderItem>, notes: string, today: string): (r: Result<NewOrder, string>)
    ensures r.Failure? <==> items == []
    ensures r.Failure? ==> r.error == EmptyOrderMessage
    ensures r.Success? ==> r.value.total == SumSubtotals(items) && r.value.items == items
                           && r.value.status == "PENDING" && r.value.payment == "UNPAID"
                           && r.value.shopId == 1 && r.value.notes == notes && r.value.date == today
  {
    if |items| == 0 then Failure(EmptyOrderMessage)
    else Success(NewOrder(1, items, notes, SumSubtotals(items), "PENDING", "UNPAID", today))
  }

  /** The payload's total is what the lines are worth: the sum of quantity ×
      unit price. */
  lemma RequestTotalIsLineTotal(items: seq<OrderItem>, products: seq<Product>, notes: string, today: string)
    requires ValidItems(items, products) && items != []
    ensures NewOrderRequest(items, notes, today).value.total == LineTotal(items)
    ensures var total := NewOrderRequest(items, notes, today).value.total;
            total >= 0 && forall i :: 0 <= i < |items| ==> items[i].subtotal <= total
  {
    ValidSumIsLineTotal(items, products);
    assert forall i :: 0 <= i < |items| ==> items[i].subtotal >= 0 by {
      forall i | 0 <= i < |items| ensures items[i].subtotal >= 0 {
        assert ItemConsistent(items[i], products);
        NonNegativeProduct(items[i].quantity, items[i].price);
      }
    }
    SubtotalsBound(items);
  }

  lemma NonNegativeProduct(q: int, p: nat)
    requires q > 0
    ensures q * p >= 0
  {
  }

  /** The message of the error toast after a failed post: the response text
      or "Failed to create order" for a non-success response, the error's
      message or "Error creating order" for a thrown error. */
  function CreateFailureMessage(reply: Reply): (m: string)
    requires !reply.Created?
    ensures m != ""
    ensures reply.Rejected? && reply.body != "" ==> m == reply.body
    ensures reply.Failed? && reply.message != "" ==> m == reply.message
    ensures reply.Rejected? && reply.body == "" ==> m == "Failed to create order"
    ensures reply.Failed? && reply.message == "" ==> m == "Error creating order"
  {
    match reply
    case Rejected(body) => if body == "" then "Failed to create order" else body
    case Failed(message) => if message == "" then "Error creating order" else message
  }

  // ---------------------------------------------------------------------
  // The order table

  /** The status filter: "all", or upper-cased equality with the order's
      status. */
  predicate ShopStatusMatch(o: Order, statusFilter: string)
  {
    statusFilter == "all" || ToUpper(o.status) == ToUpper(statusFilter)
  }

  /** The search: empty, or the lower-cased term occurs in the lower-cased
      order code. Only the order code is searched. */
  predicate ShopSearchMatch(o: Order, searchTerm: string)
  {
    searchTerm == "" || Contains(ToLower(o.orderId), ToLower(searchTerm))
  }

  /** The status-filter step: every order for "all", otherwise exactly the
      orders whose upper-cased status equals the upper-cased filter, in their
      original order. */
  function ShopStatusFilter(orders: seq<Order>, statusFilter: string): (r: seq<Order>)
    ensures statusFilter == "all" ==> r == orders
    ensures forall o :: o in r <==> o in orders && ShopStatusMatch(o, statusFilter)
    ensures forall o :: multiset(r)[o] == if ShopStatusMatch(o, statusFilter) then multiset(orders)[o] else 0
    ensures IsSubsequence(r, orders)
  {
    if statusFilter != "all" then
      Filter(orders, (o: Order) => ToUpper(o.status) == ToUpper(statusFilter))
    else
      SubsequenceReflexive(orders);
      orders
  }

  /** The search step: every order for an empty term, otherwise exactly the
      orders whose lower-cased code contains the lower-cased term, in their
      original order. */
  function ShopSearchFilter(orders: seq<Order>, searchTerm: string): (r: seq<Order>)
    ensures searchTerm == "" ==> r == orders
    ensures forall o :: o in r <==> o in orders && ShopSearchMatch(o, searchTerm)
    ensures forall o :: multiset(r)[o] == if ShopSearchMatch(o, searchTerm) then multiset(orders)[o] else 0
    ensures IsSubsequence(r, orders)
  {
    if searchTerm != "" then
      Filter(orders, (o: Order) => Contains(ToLower(o.orderId), ToLower(searchTerm)))
    else
      SubsequenceReflexive(orders);
      orders
  }

  /** The table's comparator on two key values: 0 when either is undefined,
      otherwise the direction-dependent -1, 1 or 0. */
  function ShopCompare(a: Value, b: Value, direction: Direction): (c: int)
    ensures a.Undefined? || b.Undefined? ==> c == 0
  {
    if a.Undefined? || b.Undefined? then 0 else DirectedCompare(a, b, direction)
  }

  /** The comparator `sort` receives for a configuration: it orders every
      pair at least one way round, and accepts a pair exactly when the two
      orders' keys are in order. */
  function ShopComparator(config: SortConfig): (c: (Order, Order) -> int)
    ensures Total(c)
    ensures forall x, y :: c(x, y) <= 0 <==> InOrder(KeyValue(x, config.key), KeyValue(y, config.key), config.direction)
  {
    var c := (x: Order, y: Order) => ShopCompare(KeyValue(x, config.key), KeyValue(y, config.key), config.direction);
    assert forall x, y :: (c(x, y) <= 0 || c(y, x) <= 0)
                          && (c(x, y) <= 0 <==> InOrder(KeyValue(x, config.key), KeyValue(y, config.key), config.direction)) by {
      forall x: Order, y: Order
        ensures (c(x, y) <= 0 || c(y, x) <= 0)
                && (c(x, y) <= 0 <==> InOrder(KeyValue(x, config.key), KeyValue(y, config.key), config.direction))
      {
        ShopCompareSign(KeyValue(x, config.key), KeyValue(y, config.key), config.direction);
      }
    }
    c
  }

  /** The comparator never puts a pair out of order both ways round, and
      treats an undefined key as equal to everything. */
  lemma ShopCompareSign(a: Value, b: Value, direction: Direction)
    ensures ShopCompare(a, b, direction) <= 0 || ShopCompare(b, a, direction) <= 0
    ensures ShopCompare(a, b, direction) == -ShopCompare(b, a, direction)
    ensures !a.Undefined? && !b.Undefined? ==>
              (ShopCompare(a, b, direction) <= 0 <==> InOrder(a, b, direction))
  {
    DirectedCompareSign(a, b, direction);
    ValueLessAsymmetric(a, b);
  }

  /** `filteredOrders.sort(...)`: a rearrangement of the orders in which every
      order's key is in order with the next one's. */
  function ShopSort(orders: seq<Order>, config: SortConfig): (r: seq<Order>)
    ensures |r| == |orders| && multiset(r) == multiset(orders)
    ensures forall o :: o in r <==> o in orders
    ensures forall i, j :: 0 <= i < j < |r| ==>
              InOrder(KeyValue(r[i], config.key), KeyValue(r[j], config.key), config.direction)
  {
    var cmp := ShopComparator(config);
    var r := SortBy(orders, cmp);
    assert forall i :: 0 <= i < |r| - 1 ==>
             InOrder(KeyValue(r[i], config.key), KeyValue(r[i + 1], config.key), config.direction) by {
      forall i | 0 <= i < |r| - 1
        ensures InOrder(KeyValue(r[i], config.key), KeyValue(r[i + 1], config.key), config.direction)
      {
        assert cmp(r[i], r[i + 1]) <= 0;
      }
    }
    SortedPairwise(r, config.key, config.direction);
    assert forall o :: o in r <==> o in orders by {
      forall o ensures o in r <==> o in orders {
        assert o in r <==> o in multiset(r);
        assert o in orders <==> o in multiset(orders);
      }
    }
    r
  }

  // ---------------------------------------------------------------------
  // The page's state and handlers

  class ShopOrdersPage {
    var orders: seq<Order>
    const products: seq<Product>
    var searchTerm: string
    var statusFilter: string
    var sortConfig: Option<SortConfig>
    var isCreateOrderOpen: bool
    var orderItems: seq<OrderItem>
    var selectedProduct: string
    var quantity: int
    var notes: string

    /** The line-item invariant. */
    ghost predicate Valid()
      reads this
    {
      ValidItems(orderItems, products)
    }

    /** The page once both fetches have delivered: every other piece of state
        at its initial value. */
    constructor (orders: seq<Order>, products: seq<Product>)
      ensures Valid()
      ensures this.orders == orders && this.products == products
      ensures searchTerm == "" && statusFilter == "all" && sortConfig == None && !isCreateOrderOpen
      ensures orderItems == [] && selectedProduct == "" && quantity == 1 && notes == ""
    {
      this.orders := orders;
      this.products := products;
      searchTerm := "";
      statusFilter := "all";
      sortConfig := None;
      isCreateOrderOpen := false;
      orderItems := [];
      selectedProduct := "";
      quantity := 1;
      notes := "";
    }

    method SelectProduct(id: string)
      modifies this`selectedProduct
      ensures selectedProduct == id
    {
      selectedProduct := id;
    }

    /** The quantity box: `Number.parseInt(value) || 1`, with `parsed` None
        when the text is not a number. */
    method EnterQuantity(parsed: Option<int>)
      modifies this`quantity
      ensures quantity == if parsed.None? || parsed.value == 0 then 1 else parsed.value
    {
      quantity := if parsed.None? || parsed.value == 0 then 1 else parsed.value;
    }

    method EditNotes(text: string)
      modifies this`notes
      ensures notes == text
    {
      notes := text;
    }

    method EditSearch(term: string)
      modifies this`searchTerm
      ensures searchTerm == term
    {
      searchTerm := term;
    }

    method SelectStatus(filter: string)
      modifies this`statusFilter
      ensures statusFilter == filter
    {
      statusFilter := filter;
    }

    method RequestSort(key: SortKey)
      modifies this`sortConfig
      ensures sortConfig == Some(NextSortConfig(old(sortConfig), key))
    {
      sortConfig := Some(NextSortConfig(sortConfig, key));
    }

    /** `handleAddItem`. Nothing changes when no product is selected, the
        quantity is not positive or the selected id is not a listed product;
        otherwise the lines become `AddToItems` of the found product and the
        inputs are reset. */
    method HandleAddItem()
      requires Valid()
      modifies this`orderItems, this`selectedProduct, this`quantity
      ensures Valid()
      ensures var found := FindProduct(products, old(selectedProduct));
              if old(selectedProduct) == "" || old(quantity) <= 0 || found.None? then
                orderItems == old(orderItems) && selectedProduct == old(selectedProduct)
                && quantity == old(quantity)
              else
                orderItems == AddToItems(old(orderItems), found.value, old(quantity))
                && selectedProduct == "" && quantity == 1
    {
      if selectedProduct == "" || quantity <= 0 {
        return;
      }
      var found := FindProduct(products, selectedProduct);
      if found.None? {
        return;
      }
      var product := found.value;
      AddKeepsValid(orderItems, products, product, quantity);
      ghost var expected := AddToItems(orderItems, product, quantity);
      var existingIndex := FindItemIndex(orderItems, selectedProduct);
      assert existingIndex == FindItemIndex(orderItems, product.id);
      if existingIndex >= 0 {
        var updated := orderItems;
        var newQty := updated[existingIndex].quantity + quantity;
        updated := updated[existingIndex := updated[existingIndex].(quantity := newQty, subtotal := newQty * product.price)];
        assert updated == expected;
        orderItems := updated;
      } else {
        orderItems := orderItems + [OrderItem(product.id, product.name, quantity, product.price, quantity * product.price)];
        assert orderItems == expected;
      }
      selectedProduct := "";
      quantity := 1;
    }

    /** `handleRemoveItem`: the lines without those for `productId`. */
    method HandleRemoveItem(productId: string)
      requires Valid()
      modifies this`orderItems
      ensures Valid()
      ensures orderItems == RemoveFromItems(old(orderItems), productId)
    {
      RemoveKeepsValid(orderItems, products, productId);
      orderItems := RemoveFromItems(orderItems, productId);
    }

    /** `handleCreateOrder` with the date part of the clock `today` and the
        outcome of the post `reply` passed in. An empty list sends nothing and
        shows an error; otherwise the payload is sent, and on success the
        created order is appended, the dialog closes and the lines and notes
        are cleared, while on failure the state stays as it was. */
    method HandleCreateOrder(today: string, reply: Reply) returns (request: Option<NewOrder>, notice: Notice)
      requires Valid()
      modifies this`orders, this`isCreateOrderOpen, this`orderItems, this`notes
      ensures Valid()
      ensures old(orderItems) == [] ==> request.None? && notice == ToastError(EmptyOrderMessage)
      ensures old(orderItems) != [] ==>
                request == Some(NewOrderRequest(old(orderItems), old(notes), today).value)
                && request.value.total == LineTotal(old(orderItems))
      ensures old(orderItems) != [] && reply.Created? ==>
                orders == old(orders) + [reply.order] && !isCreateOrderOpen && orderItems == []
                && notes == "" && notice == ToastSuccess("Order created successfully")
      ensures old(orderItems) == [] || !reply.Created? ==>
                orders == old(orders) && isCreateOrderOpen == old(isCreateOrderOpen)
                && orderItems == old(orderItems) && notes == old(notes)
      ensures old(orderItems) != [] && !reply.Created? ==> notice == ToastError(CreateFailureMessage(reply))
    {
      var payload := NewOrderRequest(orderItems, notes, today);
      if payload.Failure? {
        request := None;
        notice := ToastError(payload.error);
        return;
      }
      RequestTotalIsLineTotal(orderItems, products, notes, today);
      request := Some(payload.value);
      match reply
      case Created(createdOrder) =>
        orders := orders + [createdOrder];
        notice := ToastSuccess("Order created successfully");
        isCreateOrderOpen := false;
        orderItems := [];
        notes := "";
      case _ =>
        notice := ToastError(CreateFailureMessage(reply));
    }

    /** The rows the table shows: the orders passing the status filter and
        the search, sorted when a sort is configured. The page's `orders` is
        only read. */
    method VisibleOrders() returns (r: seq<Order>)
      ensures forall o :: o in r <==> o in orders && ShopStatusMatch(o, statusFilter) && ShopSearchMatch(o, searchTerm)
      // Each passing order appears exactly as often as in `orders`: the table
      // is a permutation of the filtered list.
      ensures forall o :: multiset(r)[o] ==
                if ShopStatusMatch(o, statusFilter) && ShopSearchMatch(o, searchTerm) then multiset(orders)[o] else 0
      ensures multiset(r) == multiset(ShopSearchFilter(ShopStatusFilter(orders, statusFilter), searchTerm))
      ensures sortConfig.None? ==> r == ShopSearchFilter(ShopStatusFilter(orders, statusFilter), searchTerm)
      ensures sortConfig.None? ==> IsSubsequence(r, orders)
      ensures sortConfig.Some? ==>
                forall i, j :: 0 <= i < j < |r| ==>
                  InOrder(KeyValue(r[i], sortConfig.value.key), KeyValue(r[j], sortConfig.value.key),
                          sortConfig.value.direction)
    {
      var filteredOrders := ShopStatusFilter(orders, statusFilter);
      ghost var afterStatus := filteredOrders;
      filteredOrders := ShopSearchFilter(filteredOrders, searchTerm);
      SubsequenceTransitive(filteredOrders, afterStatus, orders);
      if sortConfig.Some? {
        filteredOrders := ShopSort(filteredOrders, sortConfig.value);
      }
      r := filteredOrders;
    }
  }

  /** Adding Whole Milk twice, 2 and then 1, gives one line of 3 at 1197
      cents. */
  method AddSameProductTwice()
  {
    var milk := Catalogue[0];
    assert FindProduct(Catalogue, "1") == Some(milk) by {
      assert FirstIndex(Catalogue, (p: Product) => p.id == "1") == 0;
    }
    var once := OrderItem("1", "Whole Milk", 2, 399, 798);
    var twice := OrderItem("1", "Whole Milk", 3, 399, 1197);
    assert AddToItems([], milk, 2) == [once];
    assert AddToItems([once], milk, 1) == [twice] by {
      assert FindItemIndex([once], "1") == 0;
    }
    var page := new ShopOrdersPage([], Catalogue);
    page.SelectProduct("1");
    page.EnterQuantity(Some(2));
    page.HandleAddItem();
    assert page.orderItems == [once];
    page.SelectProduct("1");
    page.EnterQuantity(Some(1));
    page.HandleAddItem();
    assert page.orderItems == [twice];
    assert SumSubtotals([twice]) == 1197 by {
      assert [twice][..0] == [];
    }
    var request, notice := page.HandleCreateOrder("2024-05-01", Rejected(""));
    assert request.value.total == 1197;
    assert notice == ToastError("Failed to create order");
    assert page.orderItems == [twice];
  }
}
