/** From account figures to executed rows: the buying budget, the regime sizing and the session loop. */
module TradingSession {
  import opened Sums
  import opened Reals
  import opened Wrappers

  // ---- the buying budget ----

  datatype Settings = Settings(totalCapital: int, cashBuffer: real)

  function Max0(x: int): int { if x < 0 then 0 else x }

  function OperatingCapital(accountTotal: real, s: Settings): (r: int)
    ensures 0 <= r
    ensures s.totalCapital > 0 ==> r <= s.totalCapital
  {
    var configured, account := Max0(s.totalCapital), Max0(Trunc(accountTotal));
    if configured <= 0 then account
    else if account <= 0 then configured
    else MinInt(configured, account)
  }

  function InvestableLimit(accountTotal: real, s: Settings): int {
    Trunc(OperatingCapital(accountTotal, s) as real * (if s.cashBuffer > 1.0 then 0.0 else 1.0 - s.cashBuffer))
  }

  datatype Diagnostics = Diagnostics(
    brokerCash: int, exposureForNewBuys: int, investableLimit: int, exposureRemaining: int, buyingCash: int)

  function BuyingCashDiagnostics(
    brokerCash: real, stockEval: real, accountTotal: real, lockedEval: real, s: Settings): Diagnostics
  {
    var cash := Max0(Trunc(brokerCash));
    var limit := InvestableLimit(accountTotal, s);
    var exposure := Max0(Trunc(stockEval) - Trunc(lockedEval));
    Diagnostics(cash, exposure, limit, limit - exposure, MinInt(cash, Max0(limit - exposure)))
  }

  function AvailableBuyingCash(brokerCash: real, stockEval: real, accountTotal: real, s: Settings): int {
    MinInt(Max0(Trunc(brokerCash)), Max0(InvestableLimit(accountTotal, s) - Max0(Trunc(stockEval))))
  }

  /** The short form of the budget is the diagnostic one with nothing locked. */
  lemma BudgetFormsAgree(brokerCash: real, stockEval: real, accountTotal: real, s: Settings)
    ensures AvailableBuyingCash(brokerCash, stockEval, accountTotal, s)
            == BuyingCashDiagnostics(brokerCash, stockEval, accountTotal, 0.0, s).buyingCash
  {
  }

  /** Whole won up to the share of the capital that may be invested. */
  lemma LimitIsShareOfCapital(accountTotal: real, s: Settings)
    ensures var limit, capital := InvestableLimit(accountTotal, s), OperatingCapital(accountTotal, s) as real;
      (s.cashBuffer >= 1.0 ==> limit == 0)
      && (s.cashBuffer < 1.0 ==>
            limit as real <= capital * (1.0 - s.cashBuffer) < limit as real + 1.0 && 0 <= limit)
  {
    var capital := OperatingCapital(accountTotal, s) as real;
    if s.cashBuffer < 1.0 {
      MulNonNegative(capital, 1.0 - s.cashBuffer);
      TruncDropsFraction(capital * (1.0 - s.cashBuffer));
    }
  }

  /** The capital in use: what is configured and what the account holds, whichever is less and there. */
  lemma CapitalIsLesser(accountTotal: real, s: Settings)
    ensures var account := Trunc(accountTotal);
      OperatingCapital(accountTotal, s)
      == if s.totalCapital <= 0 && account <= 0 then 0
         else if s.totalCapital <= 0 then account
         else if account <= 0 then s.totalCapital
         else if account < s.totalCapital then account else s.totalCapital
  {
  }

  /**
   The buying cash is the largest amount that the broker cash covers and that, on top of the exposure
   already there, stays within the investable limit.
   */
  lemma BuyingCashIsLargest(
    brokerCash: real, stockEval: real, accountTotal: real, lockedEval: real, s: Settings, n: int)
    requires 0 < n
    ensures var d := BuyingCashDiagnostics(brokerCash, stockEval, accountTotal, lockedEval, s);
      var unlocked := Trunc(stockEval) - Trunc(lockedEval);
      0 <= d.buyingCash
      && d.investableLimit == InvestableLimit(accountTotal, s)
      && d.exposureForNewBuys == (if unlocked < 0 then 0 else unlocked)
      && (n <= d.buyingCash
          <==> n as real <= brokerCash && d.exposureForNewBuys + n <= d.investableLimit)
  {
    TruncDropsFraction(brokerCash);
  }

  // ---- plan rows and regime sizing ----

  datatype Side = Buy | Sell | OtherSide

  datatype PlanRow = PlanRow(
    symbol: string, side: Side, category: string, qty: int, price: int, estimatedCost: Option<real>)

  function Clamp01(x: real): real { if x < 0.0 then 0.0 else if x > 1.0 then 1.0 else x }

  function SizedRow(row: PlanRow, multiplier: real): PlanRow {
    if row.side != Buy then row
    else
      var scaled := Trunc(row.qty as real * Clamp01(multiplier));
      var cost :=
        if row.estimatedCost.Some? && row.qty > 0
        then Some(row.estimatedCost.value * scaled as real / row.qty as real) else row.estimatedCost;
      row.(qty := scaled, estimatedCost := cost)
  }

  method ApplyMarketRegimeSizing(plan: seq<PlanRow>, multiplier: real) returns (sized: seq<PlanRow>)
    ensures |sized| == |plan|
    ensures forall i :: 0 <= i < |plan| ==> sized[i] == SizedRow(plan[i], multiplier)
  {
    sized := plan;
    for i := 0 to |plan|
      invariant |sized| == |plan|
      invariant forall j :: 0 <= j < i ==> sized[j] == SizedRow(plan[j], multiplier)
      invariant forall j :: i <= j < |plan| ==> sized[j] == plan[j]
    {
      if sized[i].side == Buy {
        sized := sized[i := SizedRow(sized[i], multiplier)];
      }
    }
  }

  lemma ScaledQty(qty: int, share: real)
    requires 0 <= qty && 0.0 <= share <= 1.0
    ensures 0 <= Trunc(qty as real * share) <= qty
  {
    MulNonNegative(qty as real, share);
    MulLe(share, 1.0, qty as real);
    assert qty as real * share <= qty as real;
  }

  lemma SameUnitCost(cost: real, scaled: int, qty: int)
    requires 0 < qty
    ensures cost * scaled as real / qty as real * qty as real == cost * scaled as real
  {
    DivTimes(cost * scaled as real, qty as real);
  }

  /** Sizing only shrinks new risk, keeps the price per share, and leaves every exit alone. */
  lemma SizingOnlyShrinks(row: PlanRow, multiplier: real)
    ensures row.side != Buy ==> SizedRow(row, multiplier) == row
    ensures row.side == Buy && 0 <= row.qty ==> 0 <= SizedRow(row, multiplier).qty <= row.qty
    ensures row.side == Buy && 0 < row.qty && row.estimatedCost.Some? ==>
              SizedRow(row, multiplier).estimatedCost.Some?
              && SizedRow(row, multiplier).estimatedCost.value * row.qty as real
                 == row.estimatedCost.value * SizedRow(row, multiplier).qty as real
  {
    if row.side == Buy && 0 <= row.qty {
      ScaledQty(row.qty, Clamp01(multiplier));
      if 0 < row.qty && row.estimatedCost.Some? {
        SameUnitCost(row.estimatedCost.value, SizedRow(row, multiplier).qty, row.qty);
      }
    }
  }

  /**
   A sized buy is the whole part of its share, no less: a multiplier of one or more keeps it, zero or
   less empties it, and only quantity and estimated cost change.
   */
  lemma SizingKeepsWholeShare(row: PlanRow, multiplier: real)
    requires row.side == Buy
    ensures var sized := SizedRow(row, multiplier);
      sized == row.(qty := sized.qty, estimatedCost := sized.estimatedCost)
      && (1.0 <= multiplier ==> sized.qty == row.qty)
      && (multiplier <= 0.0 ==> sized.qty == 0)
      && (0 <= row.qty && 0.0 <= multiplier <= 1.0 ==>
            sized.qty as real <= row.qty as real * multiplier < sized.qty as real + 1.0)
      && (row.estimatedCost.None? ==> sized.estimatedCost.None?)
      && (row.qty <= 0 ==> sized.estimatedCost == row.estimatedCost)
  {
    if 0 <= row.qty && 0.0 <= multiplier <= 1.0 {
      MulNonNegative(row.qty as real, multiplier);
      TruncDropsFraction(row.qty as real * multiplier);
    }
  }

  // ---- the session loop ----

  /** Cost before the truncation to whole won. */
  function RawCost(row: PlanRow): real {
    if row.estimatedCost.Some? && row.estimatedCost.value > 0.0 then row.estimatedCost.value
    else if row.qty > 0 && row.price > 0 then row.qty as real * row.price as real * 1.001
    else 0.0
  }

  function EstimatedBuyCost(row: PlanRow): int {
    Trunc(RawCost(row))
  }

  datatype Policy = Policy(categories: Option<set<string>>, blocked: bool, lossHalt: bool)

  datatype Decision = CategoryFiltered | BuyBlocked | LossHalted | NoBuyingCash | TooExpensive | Reached

  function Decide(row: PlanRow, cash: int, policy: Policy): Decision {
    if policy.categories.Some? && row.category !in policy.categories.value then CategoryFiltered
    else if row.side == Buy && (policy.blocked || row.qty <= 0) then BuyBlocked
    else if policy.lossHalt && row.side == Buy then LossHalted
    else if row.side == Buy && cash <= 0 then NoBuyingCash
    else if row.side == Buy && EstimatedBuyCost(row) > cash then TooExpensive
    else Reached
  }

  function CashNext(row: PlanRow, ok: bool, cash: int, policy: Policy): int {
    if Decide(row, cash, policy) == Reached && row.side == Buy && ok then Max0(cash - EstimatedBuyCost(row)) else cash
  }

  /** Buying cash after the first rows; `oks` is what the router answers, row by row. */
  function CashAfter(plan: seq<PlanRow>, oks: seq<bool>, cash: int, policy: Policy): int
    requires |plan| == |oks|
  {
    if plan == [] then cash
    else
      var n := |plan| - 1;
      CashNext(plan[n], oks[n], CashAfter(plan[..n], oks[..n], cash, policy), policy)
  }

  function DecisionAt(plan: seq<PlanRow>, oks: seq<bool>, cash: int, policy: Policy, i: nat): Decision
    requires |plan| == |oks| && i < |plan|
  {
    Decide(plan[i], CashAfter(plan[..i], oks[..i], cash, policy), policy)
  }

  /** What a row costs before it is bought: its estimate, or price with costs, in whole won. */
  lemma CostIsWholeEstimate(row: PlanRow)
    ensures var cost := EstimatedBuyCost(row);
      0 <= cost
      && match row.estimatedCost
         case Some(x) => 0.0 < x ==> cost as real <= x < cost as real + 1.0
         case None => true
    ensures var cost := EstimatedBuyCost(row);
      (row.estimatedCost == None || row.estimatedCost.value <= 0.0) ==>
        if 0 < row.qty && 0 < row.price
        then cost as real <= row.qty as real * row.price as real * 1.001 < cost as real + 1.0
        else cost == 0
  {
    if 0 < row.qty && 0 < row.price {
      MulPositive(row.qty as real, row.price as real);
      TruncDropsFraction(row.qty as real * row.price as real * 1.001);
    }
  }

  /** What every row of the plan costs. */
  function Costs(plan: seq<PlanRow>): seq<int> {
    seq(|plan|, i requires 0 <= i < |plan| => EstimatedBuyCost(plan[i]))
  }

  /**
   Why a row that costs `cost` was refused, or that it was not, with `left` in hand: the first guard
   that fails decides.
   */
  ghost predicate DecidedBy(row: PlanRow, cost: int, left: int, policy: Policy, decision: Decision) {
    var allowed := policy.categories == None || row.category in policy.categories.value;
    var open := allowed && row.side == Buy && !policy.blocked && 0 < row.qty;
    match decision
    case CategoryFiltered => !allowed
    case BuyBlocked => allowed && row.side == Buy && (policy.blocked || row.qty <= 0)
    case LossHalted => open && policy.lossHalt
    case NoBuyingCash => open && !policy.lossHalt && left <= 0
    case TooExpensive => open && !policy.lossHalt && 0 < left < cost
    case Reached => allowed && (row.side == Buy ==> open && !policy.lossHalt && 0 < left && cost <= left)
  }

  /** The guards exclude each other, so each decision is made exactly under its own. */
  lemma OneDecision(row: PlanRow, cost: int, left: int, policy: Policy, a: Decision, b: Decision)
    requires DecidedBy(row, cost, left, policy, a) && DecidedBy(row, cost, left, policy, b)
    ensures a == b
  {
  }

  /** Costs of the buys that reached execution and were accepted, so far. */
  ghost function PaidFor(plan: seq<PlanRow>, costs: seq<int>, oks: seq<bool>, decisions: seq<Decision>): int
    requires |decisions| <= |plan| == |oks| == |costs|
  {
    if decisions == [] then 0
    else
      var n := |decisions| - 1;
      PaidFor(plan, costs, oks, decisions[..n])
      + (if decisions[n] == Reached && plan[n].side == Buy && oks[n] then costs[n] else 0)
  }

  /** Each row is decided by the cash that the earlier accepted buys have left. */
  ghost predicate DecidedInTurn(
    plan: seq<PlanRow>, costs: seq<int>, oks: seq<bool>, buyingCash: int, policy: Policy, decisions: seq<Decision>)
    requires |decisions| <= |plan| == |oks| == |costs|
  {
    decisions == []
    || var n := |decisions| - 1;
       DecidedInTurn(plan, costs, oks, buyingCash, policy, decisions[..n])
       && DecidedBy(plan[n], costs[n], buyingCash - PaidFor(plan, costs, oks, decisions[..n]), policy, decisions[n])
  }

  /** The same, row by row. */
  lemma {:induction false} EachDecidedInTurn(
    plan: seq<PlanRow>, costs: seq<int>, oks: seq<bool>, buyingCash: int, policy: Policy, decisions: seq<Decision>,
    i: nat)
    requires i < |decisions| <= |plan| == |oks| == |costs|
    requires DecidedInTurn(plan, costs, oks, buyingCash, policy, decisions)
    ensures DecidedBy(plan[i], costs[i], buyingCash - PaidFor(plan, costs, oks, decisions[..i]), policy, decisions[i])
    decreases |decisions|
  {
    var n := |decisions| - 1;
    if i < n {
      EachDecidedInTurn(plan, costs, oks, buyingCash, policy, decisions[..n], i);
      assert decisions[..n][..i] == decisions[..i];
    }
  }

  lemma DecidedOneMore(
    plan: seq<PlanRow>, costs: seq<int>, oks: seq<bool>, buyingCash: int, policy: Policy, decisions: seq<Decision>,
    d: Decision)
    requires |decisions| < |plan| == |oks| == |costs|
    requires DecidedInTurn(plan, costs, oks, buyingCash, policy, decisions)
    requires var n := |decisions|;
      DecidedBy(plan[n], costs[n], buyingCash - PaidFor(plan, costs, oks, decisions), policy, d)
    ensures DecidedInTurn(plan, costs, oks, buyingCash, policy, decisions + [d])
    ensures var n := |decisions|;
      PaidFor(plan, costs, oks, decisions + [d])
      == PaidFor(plan, costs, oks, decisions) + (if d == Reached && plan[n].side == Buy && oks[n] then costs[n] else 0)
  {
    assert (decisions + [d])[..|decisions|] == decisions;
  }

  lemma DecideIsDecided(row: PlanRow, cost: int, ok: bool, left: int, policy: Policy)
    requires cost == EstimatedBuyCost(row)
    ensures DecidedBy(row, cost, left, policy, Decide(row, left, policy))
    ensures CashNext(row, ok, left, policy)
            == left - (if Decide(row, left, policy) == Reached && row.side == Buy && ok then cost else 0)
  {
  }

  lemma CashAfterOneMore(plan: seq<PlanRow>, oks: seq<bool>, cash: int, policy: Policy, n: nat)
    requires n < |plan| == |oks|
    ensures CashAfter(plan[..n + 1], oks[..n + 1], cash, policy)
            == CashNext(plan[n], oks[n], CashAfter(plan[..n], oks[..n], cash, policy), policy)
  {
    assert plan[..n + 1][..n] == plan[..n] && oks[..n + 1][..n] == oks[..n];
  }

  lemma {:induction false} DecisionsInTurn(
    plan: seq<PlanRow>, costs: seq<int>, oks: seq<bool>, cash: int, policy: Policy, decisions: seq<Decision>, k: nat)
    requires k <= |plan| == |oks| == |decisions| && costs == Costs(plan)
    requires forall i: nat :: i < |plan| ==> decisions[i] == DecisionAt(plan, oks, cash, policy, i)
    ensures DecidedInTurn(plan, costs, oks, cash, policy, decisions[..k])
    ensures CashAfter(plan[..k], oks[..k], cash, policy) == cash - PaidFor(plan, costs, oks, decisions[..k])
  {
    if k > 0 {
      var n := k - 1;
      var left := CashAfter(plan[..n], oks[..n], cash, policy);
      DecisionsInTurn(plan, costs, oks, cash, policy, decisions, n);
      CashAfterOneMore(plan, oks, cash, policy, n);
      DecideIsDecided(plan[n], costs[n], oks[n], left, policy);
      assert decisions[n] == Decide(plan[n], left, policy);
      DecidedOneMore(plan, costs, oks, cash, policy, decisions[..n], decisions[n]);
      assert decisions[..k] == decisions[..n] + [decisions[n]];
    }
  }

  method RunPlan(plan: seq<PlanRow>, oks: seq<bool>, buyingCash: int, policy: Policy)
    returns (decisions: seq<Decision>, cashLeft: int)
    requires |plan| == |oks|
    ensures |decisions| == |plan|
    ensures forall i: nat :: i < |plan| ==> decisions[i] == DecisionAt(plan, oks, buyingCash, policy, i)
    ensures cashLeft == CashAfter(plan, oks, buyingCash, policy)
    ensures DecidedInTurn(plan, Costs(plan), oks, buyingCash, policy, decisions)
    ensures cashLeft == buyingCash - PaidFor(plan, Costs(plan), oks, decisions)
  {
    decisions, cashLeft := [], buyingCash;
    for k := 0 to |plan|
      invariant |decisions| == k
      invariant forall i: nat :: i < k ==> decisions[i] == DecisionAt(plan, oks, buyingCash, policy, i)
      invariant cashLeft == CashAfter(plan[..k], oks[..k], buyingCash, policy)
    {
      assert plan[..k + 1][..k] == plan[..k] && oks[..k + 1][..k] == oks[..k];
      var row := plan[k];
      var decision := Reached;
      if policy.categories.Some? && row.category !in policy.categories.value {
        decision := CategoryFiltered;
      } else if row.side == Buy {
        if policy.blocked || row.qty <= 0 {
          decision := BuyBlocked;
        } else if policy.lossHalt {
          decision := LossHalted;
        } else if cashLeft <= 0 {
          decision := NoBuyingCash;
        } else if EstimatedBuyCost(row) > cashLeft {
          decision := TooExpensive;
        }
      }
      assert decision == DecisionAt(plan, oks, buyingCash, policy, k);
      decisions := decisions + [decision];
      if decision == Reached && row.side == Buy && oks[k] {
        cashLeft := Max0(cashLeft - EstimatedBuyCost(row));
      }
    }
    assert plan[..|plan|] == plan && oks[..|oks|] == oks && decisions[..|plan|] == decisions;
    DecisionsInTurn(plan, Costs(plan), oks, buyingCash, policy, decisions, |plan|);
  }

  // ---- what a session may spend ----

  /** Rows bought: the buys that reached execution and were accepted, in plan order. */
  function BoughtRows(plan: seq<PlanRow>, oks: seq<bool>, cash: int, policy: Policy): seq<PlanRow>
    requires |plan| == |oks|
  {
    if plan == [] then []
    else
      var n := |plan| - 1;
      var before := BoughtRows(plan[..n], oks[..n], cash, policy);
      if DecisionAt(plan, oks, cash, policy, n) == Reached && plan[n].side == Buy && oks[n]
      then before + [plan[n]] else before
  }

  function CostTerm(): PlanRow -> int { (row: PlanRow) => EstimatedBuyCost(row) }

  function RawTerm(): PlanRow -> real { (row: PlanRow) => RawCost(row) }

  lemma TruncationLosesLessThanOne(row: PlanRow)
    ensures 0 <= EstimatedBuyCost(row)
    ensures EstimatedBuyCost(row) as real <= RawCost(row) < EstimatedBuyCost(row) as real + 1.0
  {
  }

  /** Estimated costs of accepted buys plus the cash left are exactly the cash the session began with. */
  lemma {:induction false} SpendingIsConserved(plan: seq<PlanRow>, oks: seq<bool>, cash: int, policy: Policy)
    requires |plan| == |oks|
    ensures SumInt(BoughtRows(plan, oks, cash, policy), CostTerm()) + CashAfter(plan, oks, cash, policy) == cash
    ensures CashAfter(plan, oks, cash, policy) >= MinInt(0, cash)
    ensures BoughtRows(plan, oks, cash, policy) != [] ==> cash > 0 && CashAfter(plan, oks, cash, policy) >= 0
  {
    if plan != [] {
      var n := |plan| - 1;
      var before := BoughtRows(plan[..n], oks[..n], cash, policy);
      SpendingIsConserved(plan[..n], oks[..n], cash, policy);
      SumIntAppend(before, plan[n], CostTerm());
      TruncationLosesLessThanOne(plan[n]);
      SpentIsNonNegative(before);
    }
  }

  lemma SpentIsNonNegative(rows: seq<PlanRow>)
    ensures 0 <= SumInt(rows, CostTerm())
  {
  }

  lemma {:induction false} RawSpending(rows: seq<PlanRow>)
    ensures rows != [] ==> SumReal(rows, RawTerm()) < SumInt(rows, CostTerm()) as real + |rows| as real
    ensures SumInt(rows, CostTerm()) as real <= SumReal(rows, RawTerm())
    ensures rows == [] ==> SumReal(rows, RawTerm()) == 0.0
  {
    if rows != [] {
      RawSpending(rows[..|rows| - 1]);
      TruncationLosesLessThanOne(rows[|rows| - 1]);
    }
  }

  /**
   A session never buys beyond its budget: if it bought anything, then what it bought fits the
   broker cash and, on top of the exposure already there, the investable limit.  Before the
   truncation to whole won the bill may be higher by less than one per buy.
   */
  lemma SessionSpendsWithinLimits(
    plan: seq<PlanRow>, oks: seq<bool>, policy: Policy,
    brokerCash: real, stockEval: real, accountTotal: real, lockedEval: real, s: Settings)
    requires |plan| == |oks|
    ensures var d := BuyingCashDiagnostics(brokerCash, stockEval, accountTotal, lockedEval, s);
      var bought := BoughtRows(plan, oks, d.buyingCash, policy);
      bought != [] ==>
        var spent := SumInt(bought, CostTerm());
        spent <= d.brokerCash
        && d.exposureForNewBuys + spent <= d.investableLimit
        && SumReal(bought, RawTerm()) < d.buyingCash as real + |bought| as real
  {
    var d := BuyingCashDiagnostics(brokerCash, stockEval, accountTotal, lockedEval, s);
    SpendingIsConserved(plan, oks, d.buyingCash, policy);
    RawSpending(BoughtRows(plan, oks, d.buyingCash, policy));
  }

  // ---- exits never depend on the budget ----

  /** The sells that reach execution. */
  function ReachedSells(plan: seq<PlanRow>, oks: seq<bool>, cash: int, policy: Policy): seq<PlanRow>
    requires |plan| == |oks|
  {
    if plan == [] then []
    else
      var n := |plan| - 1;
      var before := ReachedSells(plan[..n], oks[..n], cash, policy);
      if DecisionAt(plan, oks, cash, policy, n) == Reached && plan[n].side == Sell
      then before + [plan[n]] else before
  }

  /** The sells of a plan whose category is allowed. */
  function AllowedSells(plan: seq<PlanRow>, categories: Option<set<string>>): seq<PlanRow> {
    if plan == [] then []
    else
      var row := plan[|plan| - 1];
      var before := AllowedSells(plan[..|plan| - 1], categories);
      if row.side == Sell && (categories.None? || row.category in categories.value) then before + [row] else before
  }

  function SizeAll(plan: seq<PlanRow>, multiplier: real): seq<PlanRow> {
    seq(|plan|, i requires 0 <= i < |plan| => SizedRow(plan[i], multiplier))
  }

  /**
   Exits are never starved: whatever the buying cash, regime multiplier, block reason, loss halt
   and router answers, exactly the allowed sells of the plan reach execution, in plan order.
   */
  lemma {:induction false} SellsAlwaysReach(
    plan: seq<PlanRow>, multiplier: real, oks: seq<bool>, cash: int, policy: Policy)
    requires |plan| == |oks|
    ensures ReachedSells(SizeAll(plan, multiplier), oks, cash, policy) == AllowedSells(plan, policy.categories)
  {
    if plan != [] {
      var n := |plan| - 1;
      SellsAlwaysReach(plan[..n], multiplier, oks[..n], cash, policy);
      assert SizeAll(plan, multiplier)[..n] == SizeAll(plan[..n], multiplier);
      SizingOnlyShrinks(plan[n], multiplier);
    }
  }
}
