/** What the shop and admin order pages share: the order records fetched
    from the backend, the sort configuration with its two-state toggle, and
    the key values the column comparators work on. Money is in integer cents. */
module OrderList {
  import opened Wrappers
  import opened Text

  /** One line of an order: the product, its name and unit price when it was
      added, the quantity and the line's subtotal. */
  datatype OrderItem = OrderItem(productId: string, productName: string, quantity: int, price: nat, subtotal: int)

  datatype Order = Order(id: int, orderId: string, date: string, total: int, status: string,
                         payment: string, shopId: int, items: Option<seq<OrderItem>>)

  /** The columns whose headers call `requestSort`. */
  datatype SortKey = ByOrderId | ByDate | ByTotal | ByStatus | ByPayment

  datatype Direction = Ascending | Descending

  datatype SortConfig = SortConfig(key: SortKey, direction: Direction)

  /** `requestSort(key)`: descending when the table is already sorted
      ascending by this key, ascending in every other case. */
  function NextSortConfig(current: Option<SortConfig>, key: SortKey): (r: SortConfig)
    ensures r.key == key
    ensures r.direction == Descending <==> current == Some(SortConfig(key, Ascending))
  {
    var direction :=
      if current.Some? && current.value.key == key && current.value.direction == Ascending
      then Descending else Ascending;
    SortConfig(key, direction)
  }

  /** Clicking the same column again flips the direction, from either
      direction. */
  lemma SortToggles(current: Option<SortConfig>, key: SortKey)
    ensures NextSortConfig(Some(NextSortConfig(current, key)), key).direction
            != NextSortConfig(current, key).direction
  {
  }

  /** From an unsorted table one click on a column sorts ascending, two give
      descending and three ascending again. */
  lemma ClickSequence(key: SortKey)
    ensures NextSortConfig(None, key) == SortConfig(key, Ascending)
    ensures NextSortConfig(Some(NextSortConfig(None, key)), key) == SortConfig(key, Descending)
    ensures NextSortConfig(Some(NextSortConfig(Some(NextSortConfig(None, key)), key)), key)
            == SortConfig(key, Ascending)
  {
  }

  /** A JavaScript value as the comparators see it: a string, a number, or
      `undefined` for a field the record lacks. */
  datatype Value = Undefined | Str(s: string) | Num(n: int)

  /** `order[key]`. Every column of a typed order holds a value: a number for
      the total, a string for every other column. */
  function KeyValue(o: Order, key: SortKey): (v: Value)
    ensures !v.Undefined?
    ensures key == ByTotal ==> v.Num?
    ensures key != ByTotal ==> v.Str?
  {
    match key
    case ByOrderId => Str(o.orderId)
    case ByDate => Str(o.date)
    case ByTotal => Num(o.total)
    case ByStatus => Str(o.status)
    case ByPayment => Str(o.payment)
  }

  /** JavaScript's `a < b` on the values one column can hold: strings
      lexicographically, numbers numerically, and false whenever `undefined`
      takes part. */
  predicate ValueLess(a: Value, b: Value): (r: bool)
    ensures a.Undefined? || b.Undefined? ==> !r
    ensures r ==> (a.Str? && b.Str?) || (a.Num? && b.Num?)
    ensures a.Num? && b.Num? ==> (r <==> a.n < b.n)
  {
    match (a, b)
    case (Str(x), Str(y)) => StrLess(x, y)
    case (Num(x), Num(y)) => x < y
    case _ => false
  }

  /** Both strings or both numbers: the pairs one column can hold. */
  predicate SameKind(a: Value, b: Value)
  {
    (a.Str? && b.Str?) || (a.Num? && b.Num?)
  }

  /** `<` on values never holds both ways round. */
  lemma ValueLessAsymmetric(a: Value, b: Value)
    ensures !(ValueLess(a, b) && ValueLess(b, a))
  {
    if a.Str? && b.Str? {
      StrLessAsymmetric(a.s, b.s);
    }
  }

  /** The part both comparators share: -1, 1 or 0 from `a < b` and `a > b`,
      with the signs swapped when sorting descending. */
  function DirectedCompare(a: Value, b: Value, direction: Direction): (c: int)
    ensures c == -1 || c == 0 || c == 1
    ensures c == 0 <==> !ValueLess(a, b) && !ValueLess(b, a)
    ensures c < 0 <==> (if direction == Ascending then ValueLess(a, b) else ValueLess(b, a))
    // Two strings, or two numbers, tie exactly when they are equal.
    ensures SameKind(a, b) ==> (c == 0 <==> a == b)
  {
    ValueLessAsymmetric(a, b);
    assert a.Str? && b.Str? && a != b ==> ValueLess(a, b) || ValueLess(b, a) by {
      if a.Str? && b.Str? { StrLessTotal(a.s, b.s); }
    }
    var sign := if direction == Ascending then 1 else -1;
    if ValueLess(a, b) then -sign
    else if ValueLess(b, a) then sign
    else 0
  }

  /** `a` may stand before `b` when sorting in `direction`: the next value is
      not smaller (ascending) or not larger (descending). */
  predicate InOrder(a: Value, b: Value, direction: Direction)
  {
    if direction == Ascending then !ValueLess(b, a) else !ValueLess(a, b)
  }

  /** The sign of the shared comparator: never positive both ways round, and
      not positive exactly when the pair is in order. */
  lemma DirectedCompareSign(a: Value, b: Value, direction: Direction)
    ensures DirectedCompare(a, b, direction) <= 0 || DirectedCompare(b, a, direction) <= 0
    ensures DirectedCompare(a, b, direction) <= 0 <==> InOrder(a, b, direction)
  {
    ValueLessAsymmetric(a, b);
  }

  /** Being in order is transitive on the values of one column. */
  lemma InOrderTransitive(a: Value, b: Value, c: Value, direction: Direction)
    requires SameKind(a, b) && SameKind(b, c)
    requires InOrder(a, b, direction) && InOrder(b, c, direction)
    ensures InOrder(a, c, direction)
  {
    if a.Str? {
      StrLessTotal(a.s, b.s);
      StrLessTotal(b.s, c.s);
      if direction == Ascending {
        if StrLess(c.s, a.s) && StrLess(a.s, b.s) { StrLessTransitive(c.s, a.s, b.s); }
      } else {
        if StrLess(a.s, c.s) && StrLess(b.s, a.s) { StrLessTransitive(b.s, a.s, c.s); }
      }
    }
  }

  /** A list whose adjacent keys are in order has every pair of keys in
      order, not only neighbours. */
  lemma SortedPairwise(r: seq<Order>, key: SortKey, direction: Direction)
    requires forall i :: 0 <= i < |r| - 1 ==> InOrder(KeyValue(r[i], key), KeyValue(r[i + 1], key), direction)
    ensures forall i, j :: 0 <= i < j < |r| ==> InOrder(KeyValue(r[i], key), KeyValue(r[j], key), direction)
  {
    forall i, j | 0 <= i < j < |r|
      ensures InOrder(KeyValue(r[i], key), KeyValue(r[j], key), direction)
    {
      SortedFrom(r, key, direction, i, j);
    }
  }

  lemma {:induction false} SortedFrom(r: seq<Order>, key: SortKey, direction: Direction, i: nat, j: nat)
    requires forall i :: 0 <= i < |r| - 1 ==> InOrder(KeyValue(r[i], key), KeyValue(r[i + 1], key), direction)
    requires i < j < |r|
    ensures InOrder(KeyValue(r[i], key), KeyValue(r[j], key), direction)
    decreases j - i
  {
    if j > i + 1 {
      SortedFrom(r, key, direction, i, j - 1);
      InOrderTransitive(KeyValue(r[i], key), KeyValue(r[j - 1], key), KeyValue(r[j], key), direction);
    }
  }
}
