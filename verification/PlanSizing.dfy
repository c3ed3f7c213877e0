/** Position sizing of a new execution plan: three floors, then the checks that may still block it. */
module PlanSizing {
  import opened Sums
  import opened Reals

  datatype Holding = Holding(symbol: string, value: real)

  datatype Account =
    | Unavailable
    | Snapshot(cash: real, total: real, stockEval: real, holdings: seq<Holding>)

  /** Policy percentages after their defaults; `capital` and `minOrder` come from configuration. */
  datatype Policy = Policy(riskPct: real, positionPct: real, marketPct: real, capital: real, minOrder: real)

  /** `gates`: watch status, freshness, kill switch, duplicates, liquidity and market hours all passed. */
  datatype Candidate = Candidate(symbol: string, entry: real, stop: real, gates: bool)

  const NO_CAP := 1000000000000

  function ValueTerm(symbol: string): Holding -> real {
    (h: Holding) => if h.symbol == symbol then h.value else 0.0
  }

  /** What the account already holds of the symbol. */
  function HeldValue(a: Account, symbol: string): real
    requires a.Snapshot?
  {
    SumReal(a.holdings, ValueTerm(symbol))
  }

  function PositionLimit(a: Account, p: Policy): real
    requires a.Snapshot?
  {
    a.total * (p.positionPct / 100.0)
  }

  function MarketLimit(a: Account, p: Policy): real
    requires a.Snapshot?
  {
    a.total * (p.marketPct / 100.0)
  }

  function AvailableRoom(a: Account, symbol: string, p: Policy): real
    requires a.Snapshot?
  {
    Max(0.0, Min(Min(a.cash, Max(0.0, PositionLimit(a, p) - HeldValue(a, symbol))),
                 Max(0.0, MarketLimit(a, p) - a.stockEval)))
  }

  function PortfolioQuantityCap(a: Account, symbol: string, entry: real, p: Policy): int {
    if entry <= 0.0 || a.Unavailable? then NO_CAP
    else if a.total <= 0.0 then 0
    else WholeUnits(AvailableRoom(a, symbol, p), entry)
  }

  function RiskBudget(p: Policy): real {
    p.capital * (p.riskPct / 100.0)
  }

  function Quantity(c: Candidate, a: Account, p: Policy): int
    requires 0.0 < c.entry && c.stop < c.entry
  {
    var smallest := MinInt(MinInt(WholeUnits(RiskBudget(p), c.entry - c.stop), WholeUnits(p.capital, c.entry)),
                           PortfolioQuantityCap(a, c.symbol, c.entry, p));
    if smallest < 0 then 0 else smallest
  }

  // ---- the limits a quantity has to respect ----

  function Cost(c: Candidate, n: int): real { c.entry * n as real }

  /** `n` shares lose at most the risked percentage of the capital when the stop is hit. */
  predicate RiskOk(c: Candidate, p: Policy, n: int) {
    n as real * (c.entry - c.stop) <= p.capital * (p.riskPct / 100.0)
  }

  predicate CapitalOk(c: Candidate, p: Policy, n: int) { Cost(c, n) <= p.capital }

  predicate CashOk(c: Candidate, a: Account, n: int)
    requires a.Snapshot?
  {
    (if Cost(c, n) > 0.0 then Cost(c, n) else c.entry) <= a.cash
  }

  predicate PositionOk(c: Candidate, a: Account, p: Policy, n: int)
    requires a.Snapshot? && 0.0 < a.total
  {
    (HeldValue(a, c.symbol) + Cost(c, n)) / a.total <= p.positionPct / 100.0
  }

  predicate MarketOk(c: Candidate, a: Account, p: Policy, n: int)
    requires a.Snapshot? && 0.0 < a.total
  {
    (a.stockEval + Cost(c, n)) / a.total <= p.marketPct / 100.0
  }

  /** The checks made on the account after sizing. */
  predicate AccountOk(c: Candidate, a: Account, p: Policy, n: int) {
    a.Unavailable?
    || (CashOk(c, a, n) && 0.0 < a.total && PositionOk(c, a, p, n) && MarketOk(c, a, p, n))
  }

  lemma RoomAlgebra(cost: real, cash: real, positionRoom: real, marketRoom: real)
    requires 0.0 < cost
    ensures cost <= Max(0.0, Min(Min(cash, Max(0.0, positionRoom)), Max(0.0, marketRoom)))
            <==> cost <= cash && cost <= positionRoom && cost <= marketRoom
  {
  }

  lemma PositionRoom(c: Candidate, a: Account, p: Policy, n: int)
    requires a.Snapshot? && 0.0 < a.total
    ensures PositionOk(c, a, p, n) <==> Cost(c, n) <= PositionLimit(a, p) - HeldValue(a, c.symbol)
  {
  }

  lemma MarketRoom(c: Candidate, a: Account, p: Policy, n: int)
    requires a.Snapshot? && 0.0 < a.total
    ensures MarketOk(c, a, p, n) <==> Cost(c, n) <= MarketLimit(a, p) - a.stockEval
  {
  }

  /** For a positive cost the three account limits together are one limit: the available room. */
  lemma RoomIsTheLimit(c: Candidate, a: Account, p: Policy, n: int)
    requires a.Snapshot? && 0.0 < a.total && 0.0 < Cost(c, n)
    ensures Cost(c, n) <= AvailableRoom(a, c.symbol, p)
            <==> CashOk(c, a, n) && PositionOk(c, a, p, n) && MarketOk(c, a, p, n)
  {
    RoomAlgebra(Cost(c, n), a.cash, PositionLimit(a, p) - HeldValue(a, c.symbol), MarketLimit(a, p) - a.stockEval);
    PositionRoom(c, a, p, n);
    MarketRoom(c, a, p, n);
  }

  lemma CostIsPositive(c: Candidate, n: int)
    requires 0.0 < c.entry && 1 <= n
    ensures 0.0 < Cost(c, n)
  {
  }

  lemma RiskFits(c: Candidate, p: Policy, n: int)
    requires c.stop < c.entry
    ensures n <= WholeUnits(RiskBudget(p), c.entry - c.stop) <==> RiskOk(c, p, n)
  {
    FitsIffWithinFloor(RiskBudget(p), c.entry - c.stop, n);
  }

  lemma CostFits(c: Candidate, amount: real, n: int)
    requires 0.0 < c.entry
    ensures n <= WholeUnits(amount, c.entry) <==> Cost(c, n) <= amount
  {
    FitsIffWithinFloor(amount, c.entry, n);
    assert Cost(c, n) == n as real * c.entry;
  }

  lemma CapFits(c: Candidate, a: Account, p: Policy, n: int)
    requires 0.0 < c.entry && 1 <= n && a.Snapshot?
    ensures n <= PortfolioQuantityCap(a, c.symbol, c.entry, p) <==> AccountOk(c, a, p, n)
  {
    if 0.0 < a.total {
      CostIsPositive(c, n);
      RoomIsTheLimit(c, a, p, n);
      CostFits(c, AvailableRoom(a, c.symbol, p), n);
    }
  }

  lemma QuantityIsTheMinimum(c: Candidate, a: Account, p: Policy, n: int)
    requires 0.0 < c.entry && c.stop < c.entry && 1 <= n
    ensures n <= Quantity(c, a, p)
            <==> n <= WholeUnits(RiskBudget(p), c.entry - c.stop) && n <= WholeUnits(p.capital, c.entry)
                 && n <= PortfolioQuantityCap(a, c.symbol, c.entry, p)
  {
  }

  /**
   The sizing is sound and maximal: a positive quantity is within the result exactly when it
   respects the risk, capital, cash, position and market limits, all of them.
   */
  lemma QuantityIsLargestThatFits(c: Candidate, a: Account, p: Policy, n: int)
    requires 0.0 < c.entry && c.stop < c.entry && 1 <= n && a.Snapshot?
    ensures n <= Quantity(c, a, p) <==> RiskOk(c, p, n) && CapitalOk(c, p, n) && AccountOk(c, a, p, n)
  {
    QuantityIsTheMinimum(c, a, p, n);
    RiskFits(c, p, n);
    CostFits(c, p.capital, n);
    CapFits(c, a, p, n);
  }

  /** Without an account snapshot only risk, capital and the fixed ceiling bind. */
  lemma QuantityWithoutAccount(c: Candidate, p: Policy, n: int)
    requires 0.0 < c.entry && c.stop < c.entry && 1 <= n
    ensures n <= Quantity(c, Unavailable, p) <==> RiskOk(c, p, n) && CapitalOk(c, p, n) && n <= 1_000_000_000_000
  {
    QuantityIsTheMinimum(c, Unavailable, p, n);
    RiskFits(c, p, n);
    CostFits(c, p.capital, n);
  }

  /** The value of the account's holdings of a symbol. */
  function HoldingsOf(symbol: string): Holding -> real {
    (h: Holding) => if h.symbol == symbol then h.value else 0.0
  }

  /** Exactly the account's holdings of the symbol count against its limit. */
  lemma HeldValueOfSymbol(a: Account, symbol: string)
    requires a.Snapshot?
    ensures HeldValue(a, symbol) == SumReal(a.holdings, HoldingsOf(symbol))
  {
    SumRealSame(a.holdings, ValueTerm(symbol), HoldingsOf(symbol));
  }

  // ---- the plan ----

  datatype Check = EntryPrice | StopPrice | RiskPerShare | Gates | MinOrder | CashAvailable | TotalPositive
                 | MaxPosition | MaxMarket | QuantityPositive

  datatype PlanResult = Planned(quantity: int) | Blocked(failed: seq<Check>)

  method CheckPortfolioLimits(c: Candidate, a: Account, p: Policy, n: int) returns (failed: seq<Check>)
    ensures failed == [] <==> AccountOk(c, a, p, n)
    ensures forall k :: k in failed ==> k == CashAvailable || k == TotalPositive || k == MaxPosition || k == MaxMarket
  {
    failed := [];
    if a.Unavailable? {
      return;
    }
    if !CashOk(c, a, n) {
      failed := failed + [CashAvailable];
    }
    if a.total <= 0.0 {
      return failed + [TotalPositive];
    }
    if !PositionOk(c, a, p, n) {
      failed := failed + [MaxPosition];
    }
    if !MarketOk(c, a, p, n) {
      failed := failed + [MaxMarket];
    }
  }

  /**
   A plan is created exactly when the first checks pass, the sizing leaves something to buy and the
   order is not below the minimum: the account checks after the sizing can never block it.
   */
  method CreatePlan(c: Candidate, a: Account, p: Policy) returns (r: PlanResult)
    ensures r.Planned? <==> c.gates && 0.0 < c.entry && 0.0 < c.stop < c.entry
                            && 0 < Quantity(c, a, p) && p.minOrder <= Cost(c, Quantity(c, a, p))
    ensures r.Planned? ==> r.quantity == Quantity(c, a, p)
    ensures r.Blocked? && 0.0 < c.entry && c.stop < c.entry && 0 < Quantity(c, a, p) ==>
              forall k :: k in r.failed ==> k == StopPrice || k == Gates || k == MinOrder
  {
    var failed: seq<Check> := [];
    if c.entry <= 0.0 {
      failed := failed + [EntryPrice];
    }
    if c.stop <= 0.0 {
      failed := failed + [StopPrice];
    }
    if c.entry - c.stop <= 0.0 {
      failed := failed + [RiskPerShare];
    }
    if !c.gates {
      failed := failed + [Gates];
    }
    if failed != [] {
      return Blocked(failed);
    }
    var quantity := Quantity(c, a, p);
    if Cost(c, quantity) < p.minOrder {
      failed := failed + [MinOrder];
    }
    var limits := CheckPortfolioLimits(c, a, p, quantity);
    if 0 < quantity && a.Snapshot? {
      QuantityIsLargestThatFits(c, a, p, quantity);
    }
    failed := failed + limits;
    if quantity <= 0 {
      failed := failed + [QuantityPositive];
    }
    if failed != [] {
      return Blocked(failed);
    }
    r := Planned(quantity);
  }
}
