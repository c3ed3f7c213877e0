/**
 Event sourcing: the order event log alone rebuilds every order, and (with the static columns
 of the order table, which say who owns an order) every position.
 */
module EventLog {
  import opened Wrappers
  import opened Tables
  import opened LedgerSteps
  import opened Books

  // ---- one order ----

  datatype OrderImage = Absent | Broken | Built(status: OrderStatus, filledQty: nat, averageFillPrice: real)

  function ImageOf(o: Order): OrderImage {
    Built(o.status, o.filledQty, o.averageFillPrice)
  }

  /** One event; anything that does not continue the chain of statuses breaks the replay. */
  function ReplayOrderEvent(image: OrderImage, e: OrderEvent): OrderImage {
    match (image, e.from)
    case (Absent, None) => if e.fill.None? then Built(e.to, 0, 0.0) else Broken
    case (Built(status, filled, average), Some(from)) =>
      if from != status then Broken
      else if e.fill.None? then Built(e.to, filled, average)
      else if e.fill.value.qty == 0 then Broken
      else
        Built(e.to, filled + e.fill.value.qty,
              Average(average, filled, e.fill.value.price, e.fill.value.qty))
    case _ => Broken
  }

  function ReplayOrder(events: seq<OrderEvent>, k: nat): OrderImage {
    if events == [] then Absent
    else
      var n := |events| - 1;
      var before := ReplayOrder(events[..n], k);
      if events[n].order == k then ReplayOrderEvent(before, events[n]) else before
  }

  lemma ReplayOrderAppend(events: seq<OrderEvent>, e: OrderEvent, k: nat)
    ensures ReplayOrder(events + [e], k)
            == if e.order == k then ReplayOrderEvent(ReplayOrder(events, k), e) else ReplayOrder(events, k)
  {
  }

  // ---- one position ----

  datatype Deal = Deal(isBuy: bool, qty: nat, price: real)

  datatype Holding = Impossible | Held(filledQty: nat, remainingQty: nat, averagePrice: real, realizedPnl: real)

  /** The fill an event brings to position `id`, if any. */
  function DealFor(e: OrderEvent, orders: seq<Order>, id: nat): Option<Deal> {
    if e.fill.None? || e.order >= |orders| then None
    else if Concerns(orders[e.order], id, "buy") then Some(Deal(true, e.fill.value.qty, e.fill.value.price))
    else if Concerns(orders[e.order], id, "sell") then Some(Deal(false, e.fill.value.qty, e.fill.value.price))
    else None
  }

  /** All fills of a position, in log order. */
  function DealsOf(events: seq<OrderEvent>, orders: seq<Order>, id: nat): seq<Deal> {
    if events == [] then []
    else
      var n := |events| - 1;
      var before := DealsOf(events[..n], orders, id);
      match DealFor(events[n], orders, id)
      case None => before
      case Some(d) => before + [d]
  }

  function ApplyDeal(h: Holding, d: Deal): Holding {
    match h
    case Impossible => Impossible
    case Held(filled, remaining, average, realized) =>
      if d.qty == 0 then Impossible
      else if d.isBuy then
        Held(filled + d.qty, remaining + d.qty, Average(average, remaining, d.price, d.qty), realized)
      else if d.qty > remaining then Impossible
      else Held(filled, remaining - d.qty, average, realized + (d.price - average) * d.qty as real)
  }

  function ApplyDeals(deals: seq<Deal>): Holding {
    if deals == [] then Held(0, 0, 0.0, 0.0)
    else ApplyDeal(ApplyDeals(deals[..|deals| - 1]), deals[|deals| - 1])
  }

  function ReplayPosition(events: seq<OrderEvent>, orders: seq<Order>, id: nat): Holding {
    ApplyDeals(DealsOf(events, orders, id))
  }

  function HoldingOf(p: Position): Holding {
    Held(p.filledQty, p.remainingQty, p.averagePrice, p.realizedPnl)
  }

  lemma ReplayPositionAppend(events: seq<OrderEvent>, e: OrderEvent, orders: seq<Order>, id: nat)
    ensures ReplayPosition(events + [e], orders, id)
            == match DealFor(e, orders, id)
               case None => ReplayPosition(events, orders, id)
               case Some(d) => ApplyDeal(ReplayPosition(events, orders, id), d)
  {
  }

  // ---- the log against the tables ----

  ghost predicate LogRefersTo(events: seq<OrderEvent>, orders: seq<Order>) {
    forall i :: 0 <= i < |events| ==> events[i].order < |orders|
  }

  ghost predicate LogBuildsOrders(events: seq<OrderEvent>, orders: seq<Order>) {
    forall k: nat :: ReplayOrder(events, k) == if k < |orders| then ImageOf(orders[k]) else Absent
  }

  ghost predicate LogBuildsPositions(events: seq<OrderEvent>, orders: seq<Order>, positions: seq<Position>) {
    forall id: nat :: ReplayPosition(events, orders, id) == HoldingOf(RowAt(positions, id))
  }

  ghost predicate LogTellsAll(events: seq<OrderEvent>, orders: seq<Order>, positions: seq<Position>) {
    LogRefersTo(events, orders)
    && LogBuildsOrders(events, orders)
    && LogBuildsPositions(events, orders, positions)
  }

  /** Orders never change hands, and rows are only added. */
  ghost predicate SameHands(before: seq<Order>, after: seq<Order>) {
    |before| <= |after|
    && forall k :: 0 <= k < |before| ==> before[k].position == after[k].position && before[k].action == after[k].action
  }

  lemma {:induction false} DealsNeedOnlyHands(
    events: seq<OrderEvent>, before: seq<Order>, after: seq<Order>, id: nat)
    requires SameHands(before, after) && LogRefersTo(events, before)
    ensures DealsOf(events, before, id) == DealsOf(events, after, id)
  {
    if events != [] {
      var n := |events| - 1;
      assert events[n].order < |before|;
      DealsNeedOnlyHands(events[..n], before, after, id);
    }
  }

  lemma NewOrderKeepsLog(events: seq<OrderEvent>, orders: seq<Order>, positions: seq<Position>, row: Order)
    requires LogTellsAll(events, orders, positions)
    requires row.filledQty == 0 && row.averageFillPrice == 0.0
    ensures LogTellsAll(events + [OrderEvent(|orders|, None, row.status, None)], orders + [row], positions)
  {
    var e := OrderEvent(|orders|, None, row.status, None);
    forall k: nat
      ensures ReplayOrder(events + [e], k)
              == if k < |orders + [row]| then ImageOf((orders + [row])[k]) else Absent
    {
      ReplayOrderAppend(events, e, k);
    }
    forall id: nat
      ensures ReplayPosition(events + [e], orders + [row], id) == HoldingOf(RowAt(positions, id))
    {
      ReplayPositionAppend(events, e, orders + [row], id);
      DealsNeedOnlyHands(events, orders, orders + [row], id);
      assert ReplayPosition(events, orders, id) == HoldingOf(RowAt(positions, id));
    }
  }

  lemma TransitionKeepsLog(
    events: seq<OrderEvent>, orders: seq<Order>, positions: seq<Position>, k: nat, next: OrderStatus)
    requires LogTellsAll(events, orders, positions) && k < |orders|
    ensures LogTellsAll(events + [OrderEvent(k, Some(orders[k].status), next, None)],
                        orders[k := orders[k].(status := next)], positions)
  {
    var e := OrderEvent(k, Some(orders[k].status), next, None);
    var after := orders[k := orders[k].(status := next)];
    forall j: nat
      ensures ReplayOrder(events + [e], j) == if j < |after| then ImageOf(after[j]) else Absent
    {
      ReplayOrderAppend(events, e, j);
    }
    forall id: nat ensures ReplayPosition(events + [e], after, id) == HoldingOf(RowAt(positions, id)) {
      ReplayPositionAppend(events, e, after, id);
      DealsNeedOnlyHands(events, orders, after, id);
      assert ReplayPosition(events, orders, id) == HoldingOf(RowAt(positions, id));
    }
  }

  /** Changes the log does not describe (an approval number, an abandoned shell, a new shell). */
  lemma SilentChangeKeepsLog(
    events: seq<OrderEvent>, orders: seq<Order>, positions: seq<Position>,
    orders': seq<Order>, positions': seq<Position>)
    requires LogTellsAll(events, orders, positions)
    requires |orders'| == |orders| && SameHands(orders, orders')
    requires forall k :: 0 <= k < |orders| ==> ImageOf(orders[k]) == ImageOf(orders'[k])
    requires forall id: nat :: SameMoney(RowAt(positions, id), RowAt(positions', id))
    ensures LogTellsAll(events, orders', positions')
  {
    forall k: nat ensures ReplayOrder(events, k) == if k < |orders'| then ImageOf(orders'[k]) else Absent {
      assert ReplayOrder(events, k) == if k < |orders| then ImageOf(orders[k]) else Absent;
    }
    forall id: nat ensures ReplayPosition(events, orders', id) == HoldingOf(RowAt(positions', id)) {
      DealsNeedOnlyHands(events, orders, orders', id);
      assert ReplayPosition(events, orders, id) == HoldingOf(RowAt(positions, id));
      assert SameMoney(RowAt(positions, id), RowAt(positions', id));
    }
  }

  /** The position row after a fill of an order with this action. */
  ghost predicate Moved(p: Position, row: Position, action: string, qty: nat, price: real) {
    0 < qty
    && ((action == "buy" && row == Bought(p, qty, price))
        || (action == "sell" && qty <= p.remainingQty && row == Sold(p, qty, price)))
  }

  function FillEvent(o: Order, k: nat, qty: nat, price: real): OrderEvent
    requires 0 < qty
  {
    OrderEvent(k, Some(o.status), FilledOrder(o, qty, price).status, Some(Trade(qty, price)))
  }

  lemma FillKeepsOrderImages(events: seq<OrderEvent>, orders: seq<Order>, k: nat, qty: nat, price: real)
    requires LogBuildsOrders(events, orders) && k < |orders| && 0 < qty
    ensures LogBuildsOrders(events + [FillEvent(orders[k], k, qty, price)],
                            orders[k := FilledOrder(orders[k], qty, price)])
  {
    var e := FillEvent(orders[k], k, qty, price);
    var after := orders[k := FilledOrder(orders[k], qty, price)];
    forall j: nat ensures ReplayOrder(events + [e], j) == if j < |after| then ImageOf(after[j]) else Absent {
      ReplayOrderAppend(events, e, j);
      assert ReplayOrder(events, j) == if j < |orders| then ImageOf(orders[j]) else Absent;
    }
  }

  lemma FillMovesHolding(h: Holding, p: Position, row: Position, action: string, qty: nat, price: real)
    requires h == HoldingOf(p) && Moved(p, row, action, qty, price)
    ensures ApplyDeal(h, Deal(action == "buy", qty, price)) == HoldingOf(row)
  {
  }

  lemma FillKeepsLog(
    events: seq<OrderEvent>, orders: seq<Order>, positions: seq<Position>,
    k: nat, id: nat, qty: nat, price: real, row: Position)
    requires LogTellsAll(events, orders, positions)
    requires k < |orders| && id < |positions| && orders[k].position == Some(id)
    requires Moved(positions[id], row, orders[k].action, qty, price)
    ensures LogTellsAll(events + [FillEvent(orders[k], k, qty, price)],
                        orders[k := FilledOrder(orders[k], qty, price)], positions[id := row])
  {
    var e := FillEvent(orders[k], k, qty, price);
    var after, moved := orders[k := FilledOrder(orders[k], qty, price)], positions[id := row];
    FillKeepsOrderImages(events, orders, k, qty, price);
    forall j: nat ensures ReplayPosition(events + [e], after, j) == HoldingOf(RowAt(moved, j)) {
      ReplayPositionAppend(events, e, after, j);
      DealsNeedOnlyHands(events, orders, after, j);
      assert ReplayPosition(events, orders, j) == HoldingOf(RowAt(positions, j));
      if j == id {
        FillMovesHolding(ReplayPosition(events, orders, j), positions[id], row, orders[k].action, qty, price);
        assert DealFor(e, after, j) == Some(Deal(orders[k].action == "buy", qty, price));
      } else {
        assert DealFor(e, after, j) == None;
      }
    }
  }

  // ---- what a successful replay says about the chain of statuses ----

  /** Two consecutive events of one order. */
  ghost predicate Consecutive(events: seq<OrderEvent>, i: nat, j: nat) {
    i < j < |events| && events[i].order == events[j].order
    && forall m :: i < m < j ==> events[m].order != events[i].order
  }

  lemma {:induction false} LastEventGivesStatus(events: seq<OrderEvent>, k: nat, i: nat)
    requires i < |events| && events[i].order == k
    requires forall m :: i < m < |events| ==> events[m].order != k
    requires ReplayOrder(events, k) != Broken
    ensures ReplayOrder(events, k).Built? && ReplayOrder(events, k).status == events[i].to
  {
    var n := |events| - 1;
    if i < n {
      LastEventGivesStatus(events[..n], k, i);
    }
  }

  lemma {:induction false} PrefixNotBroken(events: seq<OrderEvent>, k: nat, n: nat)
    requires n <= |events| && ReplayOrder(events, k) != Broken
    ensures ReplayOrder(events[..n], k) != Broken
    decreases |events| - n
  {
    if n < |events| {
      PrefixNotBroken(events, k, n + 1);
      assert events[..n + 1][..n] == events[..n];
    } else {
      assert events[..n] == events;
    }
  }

  /**
   Per order the statuses form one unbroken chain: each event starts where the previous one of
   that order ended, the first one creates it, and the last one ends in the stored status.
   */
  lemma StatusChain(events: seq<OrderEvent>, orders: seq<Order>)
    requires LogRefersTo(events, orders) && LogBuildsOrders(events, orders)
    ensures forall i: nat, j: nat :: Consecutive(events, i, j) ==> events[j].from == Some(events[i].to)
    ensures forall j: nat :: j < |events| && (forall m :: 0 <= m < j ==> events[m].order != events[j].order)
                         ==> events[j].from == None && events[j].fill == None
    ensures forall i: nat :: i < |events| && (forall m :: i < m < |events| ==> events[m].order != events[i].order)
                         ==> orders[events[i].order].status == events[i].to
  {
    forall i: nat, j: nat | Consecutive(events, i, j) ensures events[j].from == Some(events[i].to) {
      ChainLink(events, orders, i, j);
    }
    forall j: nat | j < |events| && (forall m :: 0 <= m < j ==> events[m].order != events[j].order)
      ensures events[j].from == None && events[j].fill == None
    {
      ChainStart(events, orders, j);
    }
    forall i: nat | i < |events| && (forall m :: i < m < |events| ==> events[m].order != events[i].order)
      ensures orders[events[i].order].status == events[i].to
    {
      assert ReplayOrder(events, events[i].order) == ImageOf(orders[events[i].order]);
      LastEventGivesStatus(events, events[i].order, i);
    }
  }

  lemma ChainLink(events: seq<OrderEvent>, orders: seq<Order>, i: nat, j: nat)
    requires LogRefersTo(events, orders) && LogBuildsOrders(events, orders)
    requires Consecutive(events, i, j)
    ensures events[j].from == Some(events[i].to)
  {
    var k := events[i].order;
    assert ReplayOrder(events, k) == ImageOf(orders[k]);
    PrefixNotBroken(events, k, j);
    PrefixNotBroken(events, k, j + 1);
    assert events[..j + 1][..j] == events[..j];
    LastEventGivesStatus(events[..j], k, i);
  }

  lemma ChainStart(events: seq<OrderEvent>, orders: seq<Order>, j: nat)
    requires LogRefersTo(events, orders) && LogBuildsOrders(events, orders)
    requires j < |events| && forall m :: 0 <= m < j ==> events[m].order != events[j].order
    ensures events[j].from == None && events[j].fill == None
  {
    var k := events[j].order;
    assert ReplayOrder(events, k) == ImageOf(orders[k]);
    PrefixNotBroken(events, k, j + 1);
    assert events[..j + 1][..j] == events[..j];
    UntouchedIsAbsent(events[..j], k);
  }

  lemma {:induction false} UntouchedIsAbsent(events: seq<OrderEvent>, k: nat)
    requires forall m :: 0 <= m < |events| ==> events[m].order != k
    ensures ReplayOrder(events, k) == Absent
  {
    if events != [] {
      UntouchedIsAbsent(events[..|events| - 1], k);
    }
  }
}
