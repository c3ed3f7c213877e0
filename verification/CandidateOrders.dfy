/** Candidate orders from scan prices: each candidate in turn takes all the cash it can use. */
module CandidateOrders {
  import opened Sums

  /** `limitPrice` is the tick-adjusted price, whatever the exchange's tick rule makes of it. */
  datatype ScanCandidate = ScanCandidate(ticker: string, price: int, limitPrice: int)

  datatype CandidateOrder = CandidateOrder(ticker: string, limitPrice: int, quantity: int, estimatedCost: int)

  function CostTerm(): CandidateOrder -> int { (o: CandidateOrder) => o.estimatedCost }

  function CashLeft(orders: seq<CandidateOrder>, cash: int): int {
    cash - SumInt(orders, CostTerm())
  }

  predicate Usable(c: ScanCandidate) { c.price > 0 && c.limitPrice > 0 }

  predicate WholeShares(o: CandidateOrder) {
    0 < o.quantity && 0 < o.limitPrice && o.estimatedCost == o.quantity * o.limitPrice
  }

  /** The candidate's order for as many whole shares as `left` pays for, and for one at least. */
  ghost predicate TakesAll(o: CandidateOrder, c: ScanCandidate, left: int) {
    Usable(c) && o.ticker == c.ticker && o.limitPrice == c.limitPrice && WholeShares(o)
    && 0 <= left - o.estimatedCost < c.limitPrice
  }

  /**
   The orders serve the candidates in turn: whoever can buy a share with the cash left on its turn
   has the next order, for all it can buy, and nobody else has one.
   */
  ghost predicate Served(candidates: seq<ScanCandidate>, orders: seq<CandidateOrder>, cash: int) {
    if candidates == [] then orders == []
    else
      var n, m := |candidates| - 1, |orders| - 1;
      (0 <= m && TakesAll(orders[m], candidates[n], CashLeft(orders[..m], cash))
       && Served(candidates[..n], orders[..m], cash))
      || (!(Usable(candidates[n]) && candidates[n].limitPrice <= CashLeft(orders, cash))
          && Served(candidates[..n], orders, cash))
  }

  lemma CostsAShare(o: CandidateOrder)
    requires WholeShares(o)
    ensures o.limitPrice <= o.estimatedCost
  {
  }

  /** Every order is whole, no more orders than candidates, and the cash is never overdrawn. */
  lemma {:induction false} ServedFits(candidates: seq<ScanCandidate>, orders: seq<CandidateOrder>, cash: int)
    requires Served(candidates, orders, cash)
    ensures forall i :: 0 <= i < |orders| ==> WholeShares(orders[i])
    ensures |orders| <= |candidates|
    ensures orders != [] ==> 0 <= CashLeft(orders, cash)
    decreases |candidates|
  {
    if candidates != [] {
      var n, m := |candidates| - 1, |orders| - 1;
      if 0 <= m && TakesAll(orders[m], candidates[n], CashLeft(orders[..m], cash))
         && Served(candidates[..n], orders[..m], cash) {
        ServedFits(candidates[..n], orders[..m], cash);
      } else {
        ServedFits(candidates[..n], orders, cash);
      }
    }
  }

  /** In the end nobody who was considered could buy one more share. */
  lemma {:induction false} NobodyCanBuyMore(
    candidates: seq<ScanCandidate>, orders: seq<CandidateOrder>, cash: int, i: nat)
    requires Served(candidates, orders, cash) && i < |candidates| && Usable(candidates[i])
    ensures CashLeft(orders, cash) < candidates[i].limitPrice
    decreases |candidates|
  {
    var n, m := |candidates| - 1, |orders| - 1;
    if 0 <= m && TakesAll(orders[m], candidates[n], CashLeft(orders[..m], cash))
       && Served(candidates[..n], orders[..m], cash) {
      CostsAShare(orders[m]);
      if i < n {
        NobodyCanBuyMore(candidates[..n], orders[..m], cash, i);
      }
    } else if i < n {
      NobodyCanBuyMore(candidates[..n], orders, cash, i);
    }
  }

  /** The candidate of every order could not have bought one more share right after it. */
  lemma {:induction false} OrderWasFull(
    candidates: seq<ScanCandidate>, orders: seq<CandidateOrder>, cash: int, i: nat)
    requires Served(candidates, orders, cash) && i < |orders|
    ensures 0 <= CashLeft(orders[..i + 1], cash) < orders[i].limitPrice
    decreases |candidates|
  {
    var n, m := |candidates| - 1, |orders| - 1;
    if 0 <= m && TakesAll(orders[m], candidates[n], CashLeft(orders[..m], cash))
       && Served(candidates[..n], orders[..m], cash) {
      if i < m {
        assert orders[..m][..i + 1] == orders[..i + 1];
        OrderWasFull(candidates[..n], orders[..m], cash, i);
      } else {
        assert orders[..i + 1] == orders;
      }
    } else {
      OrderWasFull(candidates[..n], orders, cash, i);
    }
  }

  lemma {:induction false} SpentGrows(orders: seq<CandidateOrder>, cash: int, i: nat)
    requires i <= |orders| && forall k :: 0 <= k < |orders| ==> WholeShares(orders[k])
    ensures CashLeft(orders, cash) <= CashLeft(orders[..i], cash)
    decreases |orders|
  {
    var n := |orders| - 1;
    if i == |orders| {
      assert orders[..i] == orders;
    } else {
      CostsAShare(orders[n]);
      assert orders[..n][..i] == orders[..i];
      SpentGrows(orders[..n], cash, i);
    }
  }

  /** A consequence: every further order is for a strictly cheaper share than all orders before it. */
  lemma {:induction false} LaterOrdersAreCheaper(
    candidates: seq<ScanCandidate>, orders: seq<CandidateOrder>, cash: int, i: nat, j: nat)
    requires Served(candidates, orders, cash) && i < j < |orders|
    ensures orders[j].limitPrice < orders[i].limitPrice
  {
    ServedFits(candidates, orders, cash);
    OrderWasFull(candidates, orders, cash, i);
    OrderWasFull(candidates, orders, cash, j);
    var upto := orders[..j + 1];
    assert upto[..j] == orders[..j] && orders[..j][..i + 1] == orders[..i + 1];
    SpentGrows(orders[..j], cash, i + 1);
    CostsAShare(orders[j]);
    assert CashLeft(upto, cash) == CashLeft(orders[..j], cash) - orders[j].estimatedCost;
  }

  /** There is only one way to serve the candidates. */
  lemma {:induction false} ServedOneWay(
    candidates: seq<ScanCandidate>, a: seq<CandidateOrder>, b: seq<CandidateOrder>, cash: int)
    requires Served(candidates, a, cash) && Served(candidates, b, cash)
    ensures a == b
    decreases |candidates|
  {
    if candidates != [] {
      var n, x, y := |candidates| - 1, |a| - 1, |b| - 1;
      var lastA := 0 <= x && TakesAll(a[x], candidates[n], CashLeft(a[..x], cash))
                   && Served(candidates[..n], a[..x], cash);
      var lastB := 0 <= y && TakesAll(b[y], candidates[n], CashLeft(b[..y], cash))
                   && Served(candidates[..n], b[..y], cash);
      if lastA && lastB {
        ServedOneWay(candidates[..n], a[..x], b[..y], cash);
        OneFullOrder(a[x], b[y], candidates[n], CashLeft(a[..x], cash));
        assert a == a[..x] + [a[x]] && b == b[..y] + [b[y]];
      } else if lastA {
        ServedOneWay(candidates[..n], a[..x], b, cash);
        CostsAShare(a[x]);
      } else if lastB {
        ServedOneWay(candidates[..n], a, b[..y], cash);
        CostsAShare(b[y]);
      } else {
        ServedOneWay(candidates[..n], a, b, cash);
      }
    }
  }

  lemma OneFullOrder(o: CandidateOrder, p: CandidateOrder, c: ScanCandidate, left: int)
    requires TakesAll(o, c, left) && TakesAll(p, c, left)
    ensures o == p
  {
    if o.quantity < p.quantity {
      OneMoreCosts(o.quantity, p.quantity, c.limitPrice);
    } else if p.quantity < o.quantity {
      OneMoreCosts(p.quantity, o.quantity, c.limitPrice);
    }
  }

  lemma OneMoreCosts(a: int, b: int, price: int)
    requires a < b && 0 < price
    ensures a * price + price <= b * price
  {
    assert (a + 1) * price <= b * price;
  }

  /** The whole-number quotient is the order a candidate takes. */
  lemma QuotientTakesAll(c: ScanCandidate, left: int, quantity: int, cost: int)
    requires Usable(c) && quantity == left / c.limitPrice && cost == quantity * c.limitPrice
    ensures 0 < quantity <==> c.limitPrice <= left
    ensures 0 < quantity ==> TakesAll(CandidateOrder(c.ticker, c.limitPrice, quantity, cost), c, left)
  {
  }

  function Slots(maxPositions: int, heldCount: int): nat {
    if maxPositions > heldCount then maxPositions - heldCount else 0
  }

  /** As many candidates as there are free slots, from the front. */
  function Considered(candidates: seq<ScanCandidate>, maxPositions: int, heldCount: int): seq<ScanCandidate> {
    var slots := Slots(maxPositions, heldCount);
    if slots < |candidates| then candidates[..slots] else candidates
  }

  lemma ServeNext(
    candidates: seq<ScanCandidate>, i: nat, orders: seq<CandidateOrder>, added: seq<CandidateOrder>, cash: int)
    requires i < |candidates| && Served(candidates[..i], orders, cash)
    requires added == [] ==> !(Usable(candidates[i]) && candidates[i].limitPrice <= CashLeft(orders, cash))
    requires added != [] ==> |added| == 1 && TakesAll(added[0], candidates[i], CashLeft(orders, cash))
    ensures Served(candidates[..i + 1], orders + added, cash)
    ensures CashLeft(orders + added, cash) == CashLeft(orders, cash) - SumInt(added, CostTerm())
  {
    assert candidates[..i + 1][..i] == candidates[..i];
    if added == [] {
      assert orders + added == orders;
    } else {
      assert added == [] + [added[0]];
      SumIntAppend([], added[0], CostTerm());
      SumIntAppend(orders, added[0], CostTerm());
      assert (orders + added)[..|orders|] == orders;
    }
  }

  /**
   The considered candidates are served in turn.  So the orders never cost more than the cash, use at
   most the free slots, get strictly cheaper, and leave nobody enough cash for one more share.
   */
  method BuildCandidateOrders(candidates: seq<ScanCandidate>, maxPositions: int, heldCount: int, cash: int)
    returns (orders: seq<CandidateOrder>)
    ensures Served(Considered(candidates, maxPositions, heldCount), orders, cash)
    ensures forall i :: 0 <= i < |orders| ==> WholeShares(orders[i])
    ensures orders != [] ==> SumInt(orders, CostTerm()) <= cash
    ensures |orders| <= Slots(maxPositions, heldCount)
    ensures var free := if maxPositions > heldCount then maxPositions - heldCount else 0;
      forall i :: 0 <= i < free && i < |candidates| && candidates[i].price > 0 && candidates[i].limitPrice > 0 ==>
        cash - SumInt(orders, CostTerm()) < candidates[i].limitPrice
    ensures forall i, j :: 0 <= i < j < |orders| ==> orders[j].limitPrice < orders[i].limitPrice
  {
    var considered := Considered(candidates, maxPositions, heldCount);
    orders := [];
    var remaining := cash;
    for i := 0 to |considered|
      invariant remaining == CashLeft(orders, cash)
      invariant Served(considered[..i], orders, cash)
    {
      var c := considered[i];
      var added := [];
      if c.price > 0 && c.limitPrice > 0 {
        var quantity := remaining / c.limitPrice;
        var cost := quantity * c.limitPrice;
        QuotientTakesAll(c, remaining, quantity, cost);
        if quantity > 0 {
          var o := CandidateOrder(c.ticker, c.limitPrice, quantity, cost);
          added := [o];
          remaining := remaining - cost;
        }
      }
      ServeNext(considered, i, orders, added, cash);
      assert SumInt(added, CostTerm()) == if added == [] then 0 else added[0].estimatedCost;
      orders := orders + added;
    }
    assert considered[..|considered|] == considered;
    ServedIsExhaustive(considered, orders, cash);
  }

  lemma ServedIsExhaustive(candidates: seq<ScanCandidate>, orders: seq<CandidateOrder>, cash: int)
    requires Served(candidates, orders, cash)
    ensures forall i :: 0 <= i < |orders| ==> WholeShares(orders[i])
    ensures orders != [] ==> 0 <= CashLeft(orders, cash)
    ensures |orders| <= |candidates|
    ensures forall c :: c in candidates && Usable(c) ==> CashLeft(orders, cash) < c.limitPrice
    ensures forall i, j :: 0 <= i < j < |orders| ==> orders[j].limitPrice < orders[i].limitPrice
  {
    ServedFits(candidates, orders, cash);
    forall c | c in candidates && Usable(c) ensures CashLeft(orders, cash) < c.limitPrice {
      var i :| 0 <= i < |candidates| && candidates[i] == c;
      NobodyCanBuyMore(candidates, orders, cash, i);
    }
    forall i, j | 0 <= i < j < |orders| ensures orders[j].limitPrice < orders[i].limitPrice {
      LaterOrdersAreCheaper(candidates, orders, cash, i, j);
    }
  }
}
