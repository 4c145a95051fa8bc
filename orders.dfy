/**
 * Finalised orders: how one is built from a confirmed draft, its subtotal, and the reply a
 * user gets when asking for the status of the most recent one.
 */
module Orders {
  import opened Wrappers
  import opened Catalog

  type UserId = nat

  /** OPEN and ORDERED are the two statuses the engine tells apart; every other one reads as closed. */
  datatype OrderStatus = Open | Ordered | OtherStatus(code: nat)

  /** One order line: quantity, unit amount in cents, and the menu item. */
  datatype OrderLine = OrderLine(quantity: int, amount: int, item: Item)

  datatype Order = Order(userId: UserId, orderDate: int, location: Location,
                         lines: seq<OrderLine>, subtotal: int, status: OrderStatus)

  /** One line per selected item, quantity 1, at the item's price. */
  function LinesFor(selected: seq<Item>): (lines: seq<OrderLine>)
    ensures |lines| == |selected|
    ensures forall i :: 0 <= i < |selected| ==>
              lines[i].quantity == 1 && lines[i].amount == selected[i].price && lines[i].item == selected[i]
  {
    seq(|selected|, i requires 0 <= i < |selected| => OrderLine(1, selected[i].price, selected[i]))
  }

  /** The sum of amount times quantity over the lines. */
  function Subtotal(lines: seq<OrderLine>): (total: int)
    ensures (forall i :: 0 <= i < |lines| ==> lines[i].amount >= 0 && lines[i].quantity >= 0) ==> total >= 0
  {
    if lines == [] then 0 else lines[0].amount * lines[0].quantity + Subtotal(lines[1..])
  }

  lemma {:induction false} SubtotalAppend(a: seq<OrderLine>, b: seq<OrderLine>)
    ensures Subtotal(a + b) == Subtotal(a) + Subtotal(b)
  {
    if a != [] {
      assert (a + b)[1..] == a[1..] + b;
      SubtotalAppend(a[1..], b);
    } else {
      assert a + b == b;
    }
  }

  /** The position of the first occurrence of x in s. */
  function IndexOf<T(==)>(s: seq<T>, x: T): (j: nat)
    requires x in s
    ensures j < |s| && s[j] == x
  {
    if s[0] == x then 0 else 1 + IndexOf(s[1..], x)
  }

  /** Taking the same element out of two permutations leaves permutations. */
  lemma RemoveMatching<T>(a: seq<T>, b: seq<T>, j: nat)
    requires a != [] && j < |b| && b[j] == a[0] && multiset(a) == multiset(b)
    ensures multiset(a[1..]) == multiset(b[..j] + b[j + 1..])
  {
    assert a == [a[0]] + a[1..];
    assert b == b[..j] + [b[j]] + b[j + 1..];
    calc {
      multiset(a[1..]);
      multiset(a) - multiset{a[0]};
      multiset(b) - multiset{b[j]};
      multiset(b[..j]) + multiset(b[j + 1..]);
      multiset(b[..j] + b[j + 1..]);
    }
  }

  lemma SubtotalRemoveAt(lines: seq<OrderLine>, j: nat)
    requires j < |lines|
    ensures Subtotal(lines) == lines[j].amount * lines[j].quantity + Subtotal(lines[..j] + lines[j + 1..])
  {
    assert lines[..j] + ([lines[j]] + lines[j + 1..]) == lines;
    SubtotalAppend(lines[..j], [lines[j]] + lines[j + 1..]);
    SubtotalAppend([lines[j]], lines[j + 1..]);
    SubtotalAppend(lines[..j], lines[j + 1..]);
  }

  /**
   * The order lines are collected into a set, whose iteration order is unspecified: the
   * subtotal is the same in every order of the lines.
   */
  lemma {:induction false} SubtotalPermutation(a: seq<OrderLine>, b: seq<OrderLine>)
    requires multiset(a) == multiset(b)
    ensures Subtotal(a) == Subtotal(b)
    decreases |a|
  {
    if a == [] {
      assert |b| == |multiset(b)| == 0;
    } else {
      assert a[0] in multiset(b);
      var j := IndexOf(b, a[0]);
      RemoveMatching(a, b, j);
      SubtotalPermutation(a[1..], b[..j] + b[j + 1..]);
      SubtotalRemoveAt(b, j);
    }
  }

  /** The sum of the prices of the items. */
  function SumPrices(items: seq<Item>): int
  {
    if items == [] then 0 else items[0].price + SumPrices(items[1..])
  }

  /** With every quantity fixed at 1, the subtotal is the sum of the selected items' prices. */
  lemma {:induction false} SubtotalOfLines(selected: seq<Item>)
    ensures Subtotal(LinesFor(selected)) == SumPrices(selected)
  {
    if selected != [] {
      assert LinesFor(selected)[1..] == LinesFor(selected[1..]);
      SubtotalOfLines(selected[1..]);
    }
  }

  /** The order committed on CONFIRM. */
  function BuildOrder(userId: UserId, orderDate: int, location: Location, selected: seq<Item>): (o: Order)
    ensures o.userId == userId && o.orderDate == orderDate && o.location == location && o.status == Open
    ensures |o.lines| == |selected|
    ensures forall i :: 0 <= i < |selected| ==>
              o.lines[i].quantity == 1 && o.lines[i].amount == selected[i].price && o.lines[i].item == selected[i]
    ensures o.subtotal == SumPrices(selected)
  {
    SubtotalOfLines(selected);
    var lines := LinesFor(selected);
    Order(userId, orderDate, location, lines, Subtotal(lines), Open)
  }

  /**
   * The position of the order a stable sort by date, newest first, puts at the front:
   * a newest order, and the earliest of them when several share that date.
   */
  function NewestIndex(orders: seq<Order>): (k: nat)
    requires orders != []
    ensures k < |orders|
    ensures forall j :: 0 <= j < |orders| ==> orders[j].orderDate <= orders[k].orderDate
    ensures forall j :: 0 <= j < k ==> orders[j].orderDate < orders[k].orderDate
  {
    if |orders| == 1 then 0
    else
      var k := NewestIndex(orders[1..]) + 1;
      assert orders[1..][k - 1] == orders[k];
      assert forall j :: 1 <= j < |orders| ==> orders[j] == orders[1..][j - 1];
      if orders[k].orderDate > orders[0].orderDate then k else 0
  }

  /** The first order of the recent orders sorted by date, newest first. */
  function MostRecent(orders: seq<Order>): (r: Option<Order>)
    ensures r.None? <==> orders == []
    ensures r.Some? ==> r.value in orders && forall o :: o in orders ==> o.orderDate <= r.value.orderDate
  {
    if orders == [] then None else Some(orders[NewestIndex(orders)])
  }

  // Each reply is one text; it is written in pieces only so the verifier can tell the texts apart.
  const StillOpenText := "Your order " + "is still open" + ", please respond with STATUS in 5 minutes to check again."
  const PlacedText := "Your order " + "has been placed" + " and should be ready to pick up shortly from "
  const ClosedText := "Your order " + "has been marked as closed"
  const NoRecentOrderText := "I can not " + "find a recent order for you" + ", please respond with MEAL to place an order."

  /** The reply for one order, by its status. */
  function StatusText(order: Order): (r: string)
    ensures r == StillOpenText <==> order.status == Open
    ensures r == ClosedText <==> order.status.OtherStatus?
    ensures PlacedText <= r <==> order.status == Ordered
    ensures r != NoRecentOrderText
  {
    match order.status
    case Open =>
      assert StillOpenText[11] == 'i' && PlacedText[11] == 'h';
      StillOpenText
    case Ordered =>
      var r := PlacedText + order.location.address.line1;
      assert r[11] == 'h' && StillOpenText[11] == 'i';
      assert r[20] == 'p' && ClosedText[20] == 'm';
      assert r[0] == 'Y' && NoRecentOrderText[0] == 'I';
      r
    case OtherStatus(_) =>
      assert ClosedText[20] == 'm' && PlacedText[20] == 'p';
      assert ClosedText[0] == 'Y' && NoRecentOrderText[0] == 'I';
      ClosedText
  }

  /** The reply to STATUS, given the user's recent orders as the order service lists them. */
  function StatusReply(recent: seq<Order>): (r: string)
    ensures r == NoRecentOrderText <==> recent == []
  {
    match MostRecent(recent)
    case None => NoRecentOrderText
    case Some(order) => StatusText(order)
  }

  /** OPEN reads as still open, ORDERED as placed at the location's first address line, anything else as closed. */
  lemma StatusReplies(order: Order)
    ensures order.status == Open ==> StatusText(order) == StillOpenText
    ensures order.status == Ordered ==> StatusText(order) == PlacedText + order.location.address.line1
    ensures order.status.OtherStatus? ==> StatusText(order) == ClosedText
  {
  }

  /**
   * STATUS reports on a newest recent order (the first listed among equally new ones), and
   * says no recent order was found only when there is none.
   */
  lemma StatusReportsNewest(recent: seq<Order>)
    ensures recent == [] ==> StatusReply(recent) == NoRecentOrderText
    ensures recent != [] ==>
              exists k :: 0 <= k < |recent|
                && (forall j :: 0 <= j < |recent| ==> recent[j].orderDate <= recent[k].orderDate)
                && (forall j :: 0 <= j < k ==> recent[j].orderDate < recent[k].orderDate)
                && StatusReply(recent) == StatusText(recent[k])
  {
    if recent != [] {
      var k := NewestIndex(recent);
      assert StatusReply(recent) == StatusText(recent[k]);
    }
  }
}
