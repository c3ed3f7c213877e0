/** Score-weighted allocation of capital: weights, floors and the rescaling to the budget. */
module Allocator {
  import opened Sums
  import opened Reals

  datatype Candidate = Candidate(ticker: string, score: real, limitPrice: real)

  datatype Slot = Slot(ticker: string, quantity: int, limitPrice: real, estimatedCost: real, score: real)

  datatype Settings = Settings(maxSingleWeight: real, cashBuffer: real)

  const COST_MULT := 1.001

  /** The per-symbol ceiling, scaled by absolute signal quality. */
  function ConvictionWeightCap(score: real, maxSingleWeight: real): real {
    Max(0.0, maxSingleWeight) * ((Max(2.0, Min(5.0, score)) - 1.0) / 4.0)
  }

  function EffectiveScore(c: Candidate): real {
    Max(0.1, c.score)
  }

  function ScoreTerm(): Candidate -> real { (c: Candidate) => EffectiveScore(c) }

  function ScoreSum(candidates: seq<Candidate>): real {
    SumReal(candidates, ScoreTerm())
  }

  function TargetWeight(score: real, scoreSum: real, s: Settings): real
    requires 0.0 < scoreSum
  {
    Min(ConvictionWeightCap(score, s.maxSingleWeight), score / scoreSum * (1.0 - s.cashBuffer))
  }

  function Deployable(capital: int, s: Settings): real {
    capital as real * (1.0 - s.cashBuffer)
  }

  /** Whole shares one candidate's weight buys. */
  function Shares(c: Candidate, deployable: real, scoreSum: real, s: Settings): (n: int)
    requires 0.0 < scoreSum && 0.0 < c.limitPrice
    ensures Buys(n, c.limitPrice * COST_MULT, deployable * TargetWeight(EffectiveScore(c), scoreSum, s))
  {
    WholeUnitsFit(deployable * TargetWeight(EffectiveScore(c), scoreSum, s), c.limitPrice * COST_MULT);
    WholeUnits(deployable * TargetWeight(EffectiveScore(c), scoreSum, s), c.limitPrice * COST_MULT)
  }

  /** `n` units fit the amount and one more would not. */
  predicate Buys(n: int, unit: real, amount: real) {
    n as real * unit <= amount < n as real * unit + unit
  }

  function SlotFor(c: Candidate, quantity: int): Slot {
    Slot(c.ticker, quantity, c.limitPrice, quantity as real * c.limitPrice * COST_MULT, c.score)
  }

  function FirstPass(candidates: seq<Candidate>, deployable: real, scoreSum: real, s: Settings): seq<Slot>
    requires 0.0 < scoreSum
  {
    if candidates == [] then []
    else
      var n := |candidates| - 1;
      var before := FirstPass(candidates[..n], deployable, scoreSum, s);
      var c := candidates[n];
      if c.limitPrice <= 0.0 then before
      else
        var qty := Shares(c, deployable, scoreSum, s);
        if qty > 0 then before + [SlotFor(c, qty)] else before
  }

  function CostTerm(): Slot -> real { (o: Slot) => o.estimatedCost }

  function TotalCost(slots: seq<Slot>): real {
    SumReal(slots, CostTerm())
  }

  function Rescaled(o: Slot, scale: real): Slot {
    var qty := (o.quantity as real * scale).Floor;
    o.(quantity := qty, estimatedCost := qty as real * o.limitPrice * COST_MULT)
  }

  function RescaleAll(slots: seq<Slot>, scale: real): seq<Slot> {
    if slots == [] then [] else RescaleAll(slots[..|slots| - 1], scale) + [Rescaled(slots[|slots| - 1], scale)]
  }

  function Positive(slots: seq<Slot>): seq<Slot> {
    if slots == [] then []
    else
      var before := Positive(slots[..|slots| - 1]);
      if slots[|slots| - 1].quantity > 0 then before + [slots[|slots| - 1]] else before
  }

  /** Shrink an order list to the budget (unless there is none) and drop empty orders. */
  function Fitted(slots: seq<Slot>, budget: real): seq<Slot> {
    if TotalCost(slots) > budget && budget > 0.0 then Positive(RescaleAll(slots, budget / TotalCost(slots)))
    else Positive(slots)
  }

  function Allocation(candidates: seq<Candidate>, cash: int, capital: int, s: Settings): seq<Slot>
    requires candidates != [] ==> 0.0 < ScoreSum(candidates)
  {
    if candidates == [] then []
    else
      var deployable := Deployable(capital, s);
      Fitted(FirstPass(candidates, deployable, ScoreSum(candidates), s), Min(deployable, cash as real))
  }

  lemma {:induction false} ScoresArePositive(candidates: seq<Candidate>)
    ensures candidates != [] ==> 0.0 < ScoreSum(candidates)
    ensures 0.0 <= ScoreSum(candidates)
  {
    if candidates != [] {
      ScoresArePositive(candidates[..|candidates| - 1]);
    }
  }

  method SumScores(candidates: seq<Candidate>) returns (scoreSum: real)
    ensures scoreSum == ScoreSum(candidates)
  {
    scoreSum := 0.0;
    for i := 0 to |candidates|
      invariant scoreSum == ScoreSum(candidates[..i])
    {
      SumRealAppend(candidates[..i], candidates[i], ScoreTerm());
      assert candidates[..i + 1] == candidates[..i] + [candidates[i]];
      scoreSum := scoreSum + Max(0.1, candidates[i].score);
    }
    assert candidates[..|candidates|] == candidates;
  }

  method PickSlots(candidates: seq<Candidate>, deployable: real, scoreSum: real, s: Settings) returns (slots: seq<Slot>)
    requires 0.0 < scoreSum
    ensures slots == FirstPass(candidates, deployable, scoreSum, s)
  {
    slots := [];
    for i := 0 to |candidates|
      invariant slots == FirstPass(candidates[..i], deployable, scoreSum, s)
    {
      assert candidates[..i + 1][..i] == candidates[..i] && candidates[..i + 1][i] == candidates[i];
      var c := candidates[i];
      if c.limitPrice > 0.0 {
        var qty := Shares(c, deployable, scoreSum, s);
        if qty > 0 {
          slots := slots + [SlotFor(c, qty)];
        }
      }
    }
    assert candidates[..|candidates|] == candidates;
  }

  method SumCosts(slots: seq<Slot>) returns (total: real)
    ensures total == TotalCost(slots)
  {
    total := 0.0;
    for i := 0 to |slots|
      invariant total == TotalCost(slots[..i])
    {
      SumRealAppend(slots[..i], slots[i], CostTerm());
      assert slots[..i + 1] == slots[..i] + [slots[i]];
      total := total + slots[i].estimatedCost;
    }
    assert slots[..|slots|] == slots;
  }

  /** Shrink every row in place by the same factor. */
  method RescaleSlots(first: seq<Slot>, scale: real) returns (slots: seq<Slot>)
    ensures slots == RescaleAll(first, scale)
  {
    slots := first;
    for i := 0 to |slots|
      invariant |slots| == |first| && slots[i..] == first[i..]
      invariant slots[..i] == RescaleAll(first[..i], scale)
    {
      assert slots[i] == first[i];
      assert first[..i + 1][..i] == first[..i] && first[..i + 1][i] == first[i];
      slots := slots[i := Rescaled(slots[i], scale)];
      assert slots[..i + 1] == slots[..i] + [slots[i]];
    }
    assert first[..|first|] == first && slots[..|slots|] == slots;
  }

  method KeepPositive(slots: seq<Slot>) returns (result: seq<Slot>)
    ensures result == Positive(slots)
  {
    result := [];
    for i := 0 to |slots|
      invariant result == Positive(slots[..i])
    {
      assert slots[..i + 1][..i] == slots[..i] && slots[..i + 1][i] == slots[i];
      if slots[i].quantity > 0 {
        result := result + [slots[i]];
      }
    }
    assert slots[..|slots|] == slots;
  }

  method FitToBudget(first: seq<Slot>, budget: real) returns (result: seq<Slot>)
    ensures result == Fitted(first, budget)
  {
    var slots := first;
    var total := SumCosts(slots);
    if total > budget && budget > 0.0 {
      slots := RescaleSlots(slots, budget / total);
    }
    result := KeepPositive(slots);
  }

  method Allocate(candidates: seq<Candidate>, cash: int, capital: int, s: Settings) returns (result: seq<Slot>)
    ensures candidates != [] ==> 0.0 < ScoreSum(candidates)
    ensures result == Allocation(candidates, cash, capital, s)
  {
    ScoresArePositive(candidates);
    if candidates == [] {
      return [];
    }
    var deployable := Deployable(capital, s);
    var scoreSum := SumScores(candidates);
    var slots := PickSlots(candidates, deployable, scoreSum, s);
    result := FitToBudget(slots, Min(deployable, cash as real));
  }

  // ---- what the quantities guarantee ----

  /** A higher score never gets a lower weight. */
  lemma WeightIsMonotone(a: real, b: real, scoreSum: real, s: Settings)
    requires 0.0 < scoreSum && a <= b && s.cashBuffer <= 1.0
    ensures TargetWeight(a, scoreSum, s) <= TargetWeight(b, scoreSum, s)
  {
    var ca, cb := (Max(2.0, Min(5.0, a)) - 1.0) / 4.0, (Max(2.0, Min(5.0, b)) - 1.0) / 4.0;
    MulLe(ca, cb, Max(0.0, s.maxSingleWeight));
    DivLe(a, b, scoreSum);
    MulLe(a / scoreSum, b / scoreSum, 1.0 - s.cashBuffer);
  }

  function WeightTerm(scoreSum: real, s: Settings): Candidate -> real
    requires 0.0 < scoreSum
  {
    (c: Candidate) => TargetWeight(EffectiveScore(c), scoreSum, s)
  }

  lemma WeightBounds(c: Candidate, scoreSum: real, s: Settings)
    requires 0.0 < scoreSum && 0.0 <= s.cashBuffer <= 1.0
    ensures 0.0 <= TargetWeight(EffectiveScore(c), scoreSum, s)
    ensures TargetWeight(EffectiveScore(c), scoreSum, s) <= ConvictionWeightCap(c.score, s.maxSingleWeight)
    ensures TargetWeight(EffectiveScore(c), scoreSum, s) <= EffectiveScore(c) / scoreSum * (1.0 - s.cashBuffer)
  {
  }

  /** The weights of a prefix use up at most its share of the scores. */
  lemma {:induction false} WeightsOfPrefix(candidates: seq<Candidate>, scoreSum: real, s: Settings)
    requires 0.0 < scoreSum && 0.0 <= s.cashBuffer <= 1.0
    ensures SumReal(candidates, WeightTerm(scoreSum, s)) <= ScoreSum(candidates) / scoreSum * (1.0 - s.cashBuffer)
  {
    if candidates == [] {
      assert 0.0 / scoreSum == 0.0;
    } else {
      var n := |candidates| - 1;
      WeightsOfPrefix(candidates[..n], scoreSum, s);
      WeightBounds(candidates[n], scoreSum, s);
      SplitShare(ScoreSum(candidates[..n]), EffectiveScore(candidates[n]), scoreSum, 1.0 - s.cashBuffer);
    }
  }

  lemma SplitShare(a: real, b: real, sum: real, rest: real)
    requires 0.0 < sum
    ensures (a + b) / sum * rest == a / sum * rest + b / sum * rest
  {
  }

  lemma OneSlotCost(c: Candidate, deployable: real, scoreSum: real, s: Settings)
    requires 0.0 < scoreSum && 0.0 < c.limitPrice
    ensures SlotFor(c, Shares(c, deployable, scoreSum, s)).estimatedCost
            <= deployable * TargetWeight(EffectiveScore(c), scoreSum, s)
  {
  }

  /** A row whose cost is its quantity at its price and stays within its conviction cap. */
  ghost predicate PricedSlot(o: Slot, deployable: real, s: Settings) {
    0 <= o.quantity && 0.0 < o.limitPrice
    && o.estimatedCost == o.quantity as real * o.limitPrice * COST_MULT
    && o.estimatedCost <= deployable * ConvictionWeightCap(o.score, s.maxSingleWeight)
  }

  ghost predicate SoundSlot(o: Slot, deployable: real, s: Settings) {
    0 < o.quantity && PricedSlot(o, deployable, s)
  }

  ghost predicate AllSound(slots: seq<Slot>, deployable: real, s: Settings) {
    forall o :: o in slots ==> SoundSlot(o, deployable, s)
  }

  lemma SlotIsSound(c: Candidate, deployable: real, scoreSum: real, s: Settings)
    requires 0.0 < scoreSum && 0.0 <= s.cashBuffer <= 1.0 && 0.0 <= deployable && 0.0 < c.limitPrice
    requires 0 < Shares(c, deployable, scoreSum, s)
    ensures SoundSlot(SlotFor(c, Shares(c, deployable, scoreSum, s)), deployable, s)
  {
  }

  lemma {:induction false} FirstPassSound(candidates: seq<Candidate>, deployable: real, scoreSum: real, s: Settings)
    requires 0.0 < scoreSum && 0.0 <= s.cashBuffer <= 1.0 && 0.0 <= deployable
    ensures AllSound(FirstPass(candidates, deployable, scoreSum, s), deployable, s)
  {
    if candidates != [] {
      var n := |candidates| - 1;
      var c := candidates[n];
      FirstPassSound(candidates[..n], deployable, scoreSum, s);
      if c.limitPrice > 0.0 && Shares(c, deployable, scoreSum, s) > 0 {
        SlotIsSound(c, deployable, scoreSum, s);
      }
    }
  }

  function SpendTerm(deployable: real, scoreSum: real, s: Settings): Candidate -> real
    requires 0.0 < scoreSum
  {
    (c: Candidate) => deployable * TargetWeight(EffectiveScore(c), scoreSum, s)
  }

  lemma {:induction false} SpendIsWeight(candidates: seq<Candidate>, deployable: real, scoreSum: real, s: Settings)
    requires 0.0 < scoreSum
    ensures SumReal(candidates, SpendTerm(deployable, scoreSum, s))
            == deployable * SumReal(candidates, WeightTerm(scoreSum, s))
  {
    if candidates != [] {
      var n := |candidates| - 1;
      SpendIsWeight(candidates[..n], deployable, scoreSum, s);
      Distribute(deployable, SumReal(candidates[..n], WeightTerm(scoreSum, s)),
                 TargetWeight(EffectiveScore(candidates[n]), scoreSum, s));
    }
  }

  /** What one candidate adds to the order list costs at most its own share of the money. */
  lemma OneCandidateCost(before: seq<Slot>, c: Candidate, deployable: real, scoreSum: real, s: Settings)
    requires 0.0 < scoreSum && 0.0 <= s.cashBuffer <= 1.0 && 0.0 <= deployable
    ensures 0.0 <= SpendTerm(deployable, scoreSum, s)(c)
    ensures 0.0 < c.limitPrice ==>
              TotalCost(before + [SlotFor(c, Shares(c, deployable, scoreSum, s))])
              <= TotalCost(before) + SpendTerm(deployable, scoreSum, s)(c)
  {
    WeightBounds(c, scoreSum, s);
    MulNonNegative(deployable, TargetWeight(EffectiveScore(c), scoreSum, s));
    if c.limitPrice > 0.0 {
      OneSlotCost(c, deployable, scoreSum, s);
      SumRealAppend(before, SlotFor(c, Shares(c, deployable, scoreSum, s)), CostTerm());
    }
  }

  lemma {:induction false} FirstPassCost(candidates: seq<Candidate>, deployable: real, scoreSum: real, s: Settings)
    requires 0.0 < scoreSum && 0.0 <= s.cashBuffer <= 1.0 && 0.0 <= deployable
    ensures TotalCost(FirstPass(candidates, deployable, scoreSum, s))
            <= SumReal(candidates, SpendTerm(deployable, scoreSum, s))
  {
    if candidates != [] {
      var n := |candidates| - 1;
      FirstPassCost(candidates[..n], deployable, scoreSum, s);
      OneCandidateCost(FirstPass(candidates[..n], deployable, scoreSum, s), candidates[n], deployable, scoreSum, s);
    }
  }

  ghost predicate AllPriced(slots: seq<Slot>, deployable: real, s: Settings) {
    forall o :: o in slots ==> PricedSlot(o, deployable, s)
  }

  lemma FreeWhenEmpty(o: Slot, deployable: real, s: Settings)
    requires PricedSlot(o, deployable, s) && o.quantity <= 0
    ensures o.estimatedCost == 0.0
  {
  }

  lemma {:induction false} PositiveKeepsCost(slots: seq<Slot>, deployable: real, s: Settings)
    requires AllPriced(slots, deployable, s)
    ensures TotalCost(Positive(slots)) == TotalCost(slots)
  {
    if slots != [] {
      var n := |slots| - 1;
      assert slots[n] in slots;
      PositiveKeepsCost(slots[..n], deployable, s);
      if slots[n].quantity > 0 {
        SumRealAppend(Positive(slots[..n]), slots[n], CostTerm());
      } else {
        FreeWhenEmpty(slots[n], deployable, s);
      }
    }
  }

  lemma {:induction false} PositiveIsSublist(slots: seq<Slot>)
    ensures forall o :: o in Positive(slots) <==> o in slots && 0 < o.quantity
  {
    if slots != [] {
      var n := |slots| - 1;
      PositiveIsSublist(slots[..n]);
      assert slots == slots[..n] + [slots[n]];
    }
  }

  lemma PositiveKeeps(slots: seq<Slot>, deployable: real, s: Settings)
    requires AllPriced(slots, deployable, s)
    ensures TotalCost(Positive(slots)) == TotalCost(slots)
    ensures AllSound(Positive(slots), deployable, s)
  {
    PositiveKeepsCost(slots, deployable, s);
    PositiveIsSublist(slots);
  }

  lemma {:induction false} PositiveKeepsAll(slots: seq<Slot>)
    requires forall o :: o in slots ==> 0 < o.quantity
    ensures Positive(slots) == slots
  {
    if slots != [] {
      var n := |slots| - 1;
      assert slots[n] in slots;
      PositiveKeepsAll(slots[..n]);
    }
  }

  lemma RescaledCost(o: Slot, scale: real, deployable: real, s: Settings)
    requires SoundSlot(o, deployable, s) && 0.0 <= scale <= 1.0
    ensures PricedSlot(Rescaled(o, scale), deployable, s)
    ensures Rescaled(o, scale).estimatedCost <= scale * o.estimatedCost
  {
  }

  lemma {:induction false} RescaleBounds(slots: seq<Slot>, scale: real, deployable: real, s: Settings)
    requires AllSound(slots, deployable, s) && 0.0 <= scale <= 1.0
    ensures TotalCost(RescaleAll(slots, scale)) <= scale * TotalCost(slots)
    ensures AllPriced(RescaleAll(slots, scale), deployable, s)
  {
    if slots != [] {
      var n := |slots| - 1;
      assert slots[n] in slots;
      assert AllSound(slots[..n], deployable, s);
      RescaleBounds(slots[..n], scale, deployable, s);
      RescaledCost(slots[n], scale, deployable, s);
      SumRealAppend(RescaleAll(slots[..n], scale), Rescaled(slots[n], scale), CostTerm());
      Distribute(scale, TotalCost(slots[..n]), slots[n].estimatedCost);
    }
  }

  lemma AllWeights(candidates: seq<Candidate>, s: Settings)
    requires candidates != [] && 0.0 < ScoreSum(candidates) && 0.0 <= s.cashBuffer <= 1.0
    ensures SumReal(candidates, WeightTerm(ScoreSum(candidates), s)) <= 1.0 - s.cashBuffer
  {
    var sum := ScoreSum(candidates);
    WeightsOfPrefix(candidates, sum, s);
    DivTimes(sum, sum);
    assert sum / sum == 1.0;
  }

  lemma FirstPassWithin(candidates: seq<Candidate>, deployable: real, s: Settings)
    requires candidates != [] && 0.0 < ScoreSum(candidates) && 0.0 <= deployable && 0.0 <= s.cashBuffer <= 1.0
    ensures TotalCost(FirstPass(candidates, deployable, ScoreSum(candidates), s)) <= deployable * (1.0 - s.cashBuffer)
  {
    var sum := ScoreSum(candidates);
    var spent := SumReal(candidates, SpendTerm(deployable, sum, s));
    assert spent <= deployable * (1.0 - s.cashBuffer) by {
      AllWeights(candidates, s);
      SpendIsWeight(candidates, deployable, sum, s);
      MulLe(SumReal(candidates, WeightTerm(sum, s)), 1.0 - s.cashBuffer, deployable);
    }
    FirstPassCost(candidates, deployable, sum, s);
  }

  /** What the rescaling makes of sound rows: within the budget, and no dearer than before. */
  lemma RescalingFits(slots: seq<Slot>, budget: real, deployable: real, s: Settings)
    requires AllSound(slots, deployable, s) && 0.0 < budget < TotalCost(slots)
    ensures var kept := Positive(RescaleAll(slots, budget / TotalCost(slots)));
      TotalCost(kept) <= budget && AllSound(kept, deployable, s)
  {
    var total := TotalCost(slots);
    DivProper(budget, total);
    DivTimes(budget, total);
    RescaleBounds(slots, budget / total, deployable, s);
    PositiveKeeps(RescaleAll(slots, budget / total), deployable, s);
  }

  lemma FittedBounds(slots: seq<Slot>, deployable: real, bound: real, cash: real, s: Settings)
    requires AllSound(slots, deployable, s) && TotalCost(slots) <= bound <= deployable && 0.0 < cash
    ensures var kept := Fitted(slots, Min(deployable, cash));
      TotalCost(kept) <= cash && TotalCost(kept) <= bound && AllSound(kept, deployable, s)
  {
    PositiveKeepsAll(slots);
    var budget := Min(deployable, cash);
    if TotalCost(slots) > budget && budget > 0.0 {
      RescalingFits(slots, budget, deployable, s);
    }
  }

  /**
   With cash in hand the allocation never costs more than the cash, nor more than capital times
   (1 - buffer) squared; every order is a positive whole quantity within its own conviction cap.
   */
  lemma AllocationWithinBudget(candidates: seq<Candidate>, cash: int, capital: int, s: Settings)
    requires 0 < cash && 0 <= capital && 0.0 <= s.cashBuffer <= 1.0
    ensures candidates != [] ==> 0.0 < ScoreSum(candidates)
    ensures var slots := Allocation(candidates, cash, capital, s);
      TotalCost(slots) <= cash as real
      && TotalCost(slots) <= Deployable(capital, s) * (1.0 - s.cashBuffer)
      && AllSound(slots, Deployable(capital, s), s)
  {
    ScoresArePositive(candidates);
    var d := Deployable(capital, s);
    assert 0.0 <= d by { MulNonNegative(capital as real, 1.0 - s.cashBuffer); }
    assert 0.0 <= d * (1.0 - s.cashBuffer) by { MulNonNegative(d, 1.0 - s.cashBuffer); }
    if candidates != [] {
      FirstPassSound(candidates, d, ScoreSum(candidates), s);
      FirstPassWithin(candidates, d, s);
      assert d * (1.0 - s.cashBuffer) <= d by { MulLe(1.0 - s.cashBuffer, 1.0, d); }
      FittedBounds(FirstPass(candidates, d, ScoreSum(candidates), s), d, d * (1.0 - s.cashBuffer), cash as real, s);
    }
  }

  // ---- what every candidate gets ----

  /** A candidate's weight: its share of the scores after the buffer, capped by its own quality. */
  lemma WeightIsCappedShare(c: Candidate, scoreSum: real, s: Settings)
    requires 0.0 < scoreSum
    ensures var score := if c.score < 0.1 then 0.1 else c.score;
      var quality := if score < 2.0 then 2.0 else if 5.0 < score then 5.0 else score;
      var cap := (if s.maxSingleWeight < 0.0 then 0.0 else s.maxSingleWeight) * ((quality - 1.0) / 4.0);
      var share := score / scoreSum * (1.0 - s.cashBuffer);
      TargetWeight(EffectiveScore(c), scoreSum, s) == if share < cap then share else cap
  {
  }

  /** The shares a weight buys are as many as its part of the money pays for, costs included. */
  lemma SharesAreLargest(c: Candidate, deployable: real, scoreSum: real, s: Settings, n: int)
    requires 0.0 < scoreSum && 0.0 < c.limitPrice
    ensures n <= Shares(c, deployable, scoreSum, s)
            <==> n as real * (c.limitPrice * 1.001) <= deployable * TargetWeight(EffectiveScore(c), scoreSum, s)
  {
    BuysMost(n, Shares(c, deployable, scoreSum, s), c.limitPrice * COST_MULT,
             deployable * TargetWeight(EffectiveScore(c), scoreSum, s));
  }

  lemma FitsBelow(a: real, b: real, unit: real, amount: real)
    requires a <= b && 0.0 < unit && b * unit <= amount
    ensures a * unit <= amount
  {
    MulLe(a, b, unit);
  }

  lemma OverflowsAbove(a: real, b: real, unit: real, amount: real)
    requires b + 1.0 <= a && 0.0 < unit && amount < b * unit + unit
    ensures amount < a * unit
  {
    MulLe(b + 1.0, a, unit);
    OneMoreUnit(b, unit);
  }

  lemma BuysMost(n: int, most: int, unit: real, amount: real)
    requires 0.0 < unit && Buys(most, unit, amount)
    ensures n <= most <==> n as real * unit <= amount
  {
    if n <= most {
      FitsBelow(n as real, most as real, unit, amount);
    } else {
      OverflowsAbove(n as real, most as real, unit, amount);
    }
  }

  /** An order for `quantity` shares of the candidate, at its limit price with costs. */
  ghost predicate OrderOf(o: Slot, c: Candidate, quantity: int) {
    o.ticker == c.ticker && o.quantity == quantity && o.limitPrice == c.limitPrice && o.score == c.score
    && o.estimatedCost == quantity as real * c.limitPrice * 1.001
  }

  lemma {:induction false} FirstPassOrders(candidates: seq<Candidate>, deployable: real, scoreSum: real, s: Settings)
    requires 0.0 < scoreSum
    ensures forall o :: o in FirstPass(candidates, deployable, scoreSum, s)
              <==> exists c :: c in candidates && 0.0 < c.limitPrice && 0 < Shares(c, deployable, scoreSum, s)
                               && o == SlotFor(c, Shares(c, deployable, scoreSum, s))
  {
    if candidates != [] {
      var n := |candidates| - 1;
      FirstPassOrders(candidates[..n], deployable, scoreSum, s);
      assert candidates == candidates[..n] + [candidates[n]];
      assert forall c :: c in candidates <==> c in candidates[..n] || c == candidates[n];
    }
  }

  lemma {:induction false} RescaledOrders(slots: seq<Slot>, scale: real)
    ensures forall o :: o in RescaleAll(slots, scale) <==> exists p :: p in slots && o == Rescaled(p, scale)
  {
    if slots != [] {
      var n := |slots| - 1;
      RescaledOrders(slots[..n], scale);
      assert slots == slots[..n] + [slots[n]];
      assert forall p :: p in slots <==> p in slots[..n] || p == slots[n];
      var before := RescaleAll(slots[..n], scale);
      assert forall o :: o in RescaleAll(slots, scale) <==> o in before || o == Rescaled(slots[n], scale);
    }
  }

  /** How many of `first` shares a total bill of `total` leaves when it is cut to `budget`. */
  ghost predicate CutTo(quantity: int, first: int, total: real, budget: real) {
    if total <= budget || budget <= 0.0 then quantity == first
    else quantity as real * total <= first as real * budget < (quantity as real + 1.0) * total
  }

  /** A row whose cost is its quantity at its price with costs. */
  ghost predicate AtPrice(o: Slot) { o.estimatedCost == o.quantity as real * o.limitPrice * 1.001 }

  lemma RescalingCuts(o: Slot, total: real, budget: real)
    requires 0.0 < budget < total
    ensures CutTo(Rescaled(o, budget / total).quantity, o.quantity, total, budget)
    ensures var q := Rescaled(o, budget / total);
      AtPrice(q) && q == o.(quantity := q.quantity, estimatedCost := q.estimatedCost)
  {
    var part := o.quantity as real * (budget / total);
    var q := Rescaled(o, budget / total).quantity;
    assert part * total == o.quantity as real * budget by {
      DivTimes(budget, total);
    }
    MulLe(q as real, part, total);
    MulLt(part, q as real + 1.0, total);
  }

  lemma CutBelow(a: real, b: real, x: real, total: real)
    requires b * total <= x < (a + 1.0) * total && 0.0 <= total
    ensures b < a + 1.0
  {
    if a + 1.0 <= b {
      MulLe(a + 1.0, b, total);
    }
  }

  lemma CutOnce(a: int, b: int, first: int, total: real, budget: real)
    requires CutTo(a, first, total, budget) && CutTo(b, first, total, budget) && 0.0 <= total
    ensures a == b
  {
    if !(total <= budget || budget <= 0.0) {
      CutBelow(a as real, b as real, first as real * budget, total);
      CutBelow(b as real, a as real, first as real * budget, total);
    }
  }

  /** What row `p` becomes when a bill of `total` is cut to `budget`. */
  ghost predicate KeptAs(o: Slot, p: Slot, total: real, budget: real) {
    0 < o.quantity && CutTo(o.quantity, p.quantity, total, budget) && AtPrice(o)
    && o == p.(quantity := o.quantity, estimatedCost := o.estimatedCost)
  }

  lemma SamePrice(o: Slot, p: Slot)
    requires AtPrice(o) && AtPrice(p) && o.quantity == p.quantity && o.limitPrice == p.limitPrice
    ensures o.estimatedCost == p.estimatedCost
  {
  }

  lemma KeptWhole(slots: seq<Slot>, total: real, budget: real, o: Slot)
    requires forall p :: p in slots ==> 0 < p.quantity && AtPrice(p)
    requires total <= budget || budget <= 0.0
    ensures o in Positive(slots) <==> exists p :: p in slots && KeptAs(o, p, total, budget)
  {
    PositiveKeepsAll(slots);
    if o in slots {
      assert KeptAs(o, o, total, budget);
    }
    if p :| p in slots && KeptAs(o, p, total, budget) {
      SamePrice(o, p);
    }
  }

  lemma KeptRow(o: Slot, p: Slot, total: real, budget: real)
    requires 0.0 < budget < total
    ensures KeptAs(o, p, total, budget) <==> 0 < o.quantity && o == Rescaled(p, budget / total)
  {
    var r := Rescaled(p, budget / total);
    RescalingCuts(p, total, budget);
    if KeptAs(o, p, total, budget) {
      CutOnce(o.quantity, r.quantity, p.quantity, total, budget);
    }
  }

  lemma KeptRescaled(slots: seq<Slot>, total: real, budget: real, o: Slot)
    requires 0.0 < budget < total
    ensures o in Positive(RescaleAll(slots, budget / total)) <==> exists p :: p in slots && KeptAs(o, p, total, budget)
  {
    var scale := budget / total;
    RescaledOrders(slots, scale);
    PositiveIsSublist(RescaleAll(slots, scale));
    forall p | p in slots ensures KeptAs(o, p, total, budget) <==> 0 < o.quantity && o == Rescaled(p, scale) {
      KeptRow(o, p, total, budget);
    }
  }

  lemma FittedOrders(slots: seq<Slot>, budget: real, o: Slot)
    requires forall p :: p in slots ==> 0 < p.quantity && AtPrice(p)
    ensures o in Fitted(slots, budget) <==> exists p :: p in slots && KeptAs(o, p, TotalCost(slots), budget)
  {
    if TotalCost(slots) > budget && budget > 0.0 {
      KeptRescaled(slots, TotalCost(slots), budget, o);
    } else {
      KeptWhole(slots, TotalCost(slots), budget, o);
    }
  }

  /** Is `o` the candidate's order when all weights together cost `total` and `budget` may be spent? */
  ghost predicate OrderedFor(o: Slot, c: Candidate, first: int, total: real, budget: real) {
    0 < first && 0 < o.quantity && CutTo(o.quantity, first, total, budget) && OrderOf(o, c, o.quantity)
  }

  lemma OrderedForIsKept(o: Slot, c: Candidate, first: int, total: real, budget: real)
    ensures OrderedFor(o, c, first, total, budget) <==> 0 < first && KeptAs(o, SlotFor(c, first), total, budget)
  {
  }

  lemma OrdersMatch(
    candidates: seq<Candidate>, deployable: real, sum: real, s: Settings, budget: real, o: Slot)
    requires 0.0 < sum
    ensures var slots := FirstPass(candidates, deployable, sum, s);
      o in Fitted(slots, budget)
      <==> exists c :: c in candidates && 0.0 < c.limitPrice
                       && OrderedFor(o, c, Shares(c, deployable, sum, s), TotalCost(slots), budget)
  {
    var slots := FirstPass(candidates, deployable, sum, s);
    var total := TotalCost(slots);
    FirstPassOrders(candidates, deployable, sum, s);
    FittedOrders(slots, budget, o);
    if p :| p in slots && KeptAs(o, p, total, budget) {
      var c :| c in candidates && 0.0 < c.limitPrice && 0 < Shares(c, deployable, sum, s)
               && p == SlotFor(c, Shares(c, deployable, sum, s));
      OrderedForIsKept(o, c, Shares(c, deployable, sum, s), total, budget);
    }
    if c :| c in candidates && 0.0 < c.limitPrice && OrderedFor(o, c, Shares(c, deployable, sum, s), total, budget) {
      OrderedForIsKept(o, c, Shares(c, deployable, sum, s), total, budget);
      assert SlotFor(c, Shares(c, deployable, sum, s)) in slots;
    }
  }

  /**
   Every candidate gets exactly its share: as many whole shares as its weight pays for, cut in
   proportion when all weights together exceed the budget, and no order if nothing is left of it.
   */
  lemma {:induction false} EveryoneGetsTheirShare(
    candidates: seq<Candidate>, cash: int, capital: int, s: Settings, o: Slot)
    requires candidates != []
    ensures 0.0 < ScoreSum(candidates)
    ensures var deployable := capital as real * (1.0 - s.cashBuffer);
      var sum := ScoreSum(candidates);
      var total := TotalCost(FirstPass(candidates, deployable, sum, s));
      var budget := if cash as real < deployable then cash as real else deployable;
      o in Allocation(candidates, cash, capital, s)
      <==> exists c :: c in candidates && 0.0 < c.limitPrice
                       && OrderedFor(o, c, Shares(c, deployable, sum, s), total, budget)
  {
    ScoresArePositive(candidates);
    var deployable := capital as real * (1.0 - s.cashBuffer);
    var budget := if cash as real < deployable then cash as real else deployable;
    assert Deployable(capital, s) == deployable && Min(deployable, cash as real) == budget;
    OrdersMatch(candidates, deployable, ScoreSum(candidates), s, budget, o);
    assert Allocation(candidates, cash, capital, s)
        == Fitted(FirstPass(candidates, deployable, ScoreSum(candidates), s), budget);
  }

  /** The bill that decides about the cut is the sum of what the weights buy. */
  lemma {:induction false} BillIsSumOfShares(
    candidates: seq<Candidate>, deployable: real, scoreSum: real, s: Settings, bill: Candidate -> real)
    requires 0.0 < scoreSum
    requires forall c :: c in candidates ==>
      bill(c) == if 0.0 < c.limitPrice && 0 < Shares(c, deployable, scoreSum, s)
                 then Shares(c, deployable, scoreSum, s) as real * c.limitPrice * 1.001 else 0.0
    ensures TotalCost(FirstPass(candidates, deployable, scoreSum, s)) == SumReal(candidates, bill)
  {
    if candidates != [] {
      var n := |candidates| - 1;
      BillIsSumOfShares(candidates[..n], deployable, scoreSum, s, bill);
      var c := candidates[n];
      assert c in candidates;
      if 0.0 < c.limitPrice && 0 < Shares(c, deployable, scoreSum, s) {
        SumRealAppend(FirstPass(candidates[..n], deployable, scoreSum, s),
                      SlotFor(c, Shares(c, deployable, scoreSum, s)), CostTerm());
      }
    }
  }

  lemma CostlessIffEmpty(slots: seq<Slot>, deployable: real, s: Settings)
    requires AllSound(slots, deployable, s)
    ensures TotalCost(slots) <= 0.0 <==> slots == []
  {
    forall o | o in slots ensures 0.0 < o.estimatedCost {
      MulPositive(o.quantity as real, o.limitPrice);
    }
    if slots != [] {
      var n := |slots| - 1;
      SumRealNonNegative(slots[..n], CostTerm());
      assert slots[n] in slots;
    }
  }

  /** Does this candidate's weight fall short of one share? */
  predicate TooSmall(c: Candidate, deployable: real, scoreSum: real, s: Settings)
    requires 0.0 < scoreSum
  {
    deployable * TargetWeight(EffectiveScore(c), scoreSum, s) < c.limitPrice * COST_MULT
  }

  lemma TooSmallBuysNothing(c: Candidate, d: real, sum: real, s: Settings)
    requires 0.0 < sum && 0.0 < c.limitPrice
    ensures TooSmall(c, d, sum, s) <==> Shares(c, d, sum, s) <= 0
  {
  }

  lemma {:induction false} EmptyIffTooSmall(candidates: seq<Candidate>, d: real, sum: real, s: Settings)
    requires 0.0 < sum
    ensures FirstPass(candidates, d, sum, s) == []
            <==> forall c :: c in candidates && 0.0 < c.limitPrice ==> TooSmall(c, d, sum, s)
  {
    if candidates != [] {
      var n := |candidates| - 1;
      EmptyIffTooSmall(candidates[..n], d, sum, s);
      var c := candidates[n];
      assert candidates == candidates[..n] + [c];
      assert forall e :: e in candidates <==> e in candidates[..n] || e == c;
      if 0.0 < c.limitPrice {
        TooSmallBuysNothing(c, d, sum, s);
      }
    }
  }

  /**
   Without cash the budget check is skipped: then the allocation is affordable exactly when no
   candidate's weight buys even one share.
   */
  lemma NoCashBypassesBudget(candidates: seq<Candidate>, cash: int, capital: int, s: Settings)
    requires cash <= 0 && candidates != [] && 0 <= capital && 0.0 <= s.cashBuffer <= 1.0
    ensures 0.0 < ScoreSum(candidates)
    ensures TotalCost(Allocation(candidates, cash, capital, s)) <= 0.0
            <==> forall c :: c in candidates && 0.0 < c.limitPrice ==>
                   TooSmall(c, Deployable(capital, s), ScoreSum(candidates), s)
  {
    ScoresArePositive(candidates);
    var d, sum := Deployable(capital, s), ScoreSum(candidates);
    MulNonNegative(capital as real, 1.0 - s.cashBuffer);
    var slots := FirstPass(candidates, d, sum, s);
    FirstPassSound(candidates, d, sum, s);
    PositiveKeepsAll(slots);
    CostlessIffEmpty(slots, d, s);
    EmptyIffTooSmall(candidates, d, sum, s);
  }

  // One strong candidate, and the settings of the no-cash example.
  const SAMPLE := Candidate("005930", 5.0, 100.0)
  const SAMPLE_SETTINGS := Settings(0.3, 0.2)

  lemma SampleScores()
    ensures ScoreSum([SAMPLE]) == 5.0
  {
    SumRealAppend([], SAMPLE, ScoreTerm());
    assert [SAMPLE] == [] + [SAMPLE];
  }

  lemma SampleBuys()
    ensures !TooSmall(SAMPLE, 800000.0, 5.0, SAMPLE_SETTINGS)
  {
  }

  /** A concrete call with no cash that still returns orders. */
  lemma NoCashExample()
    ensures 0.0 < ScoreSum([SAMPLE])
    ensures TotalCost(Allocation([SAMPLE], 0, 1000000, SAMPLE_SETTINGS)) > 0.0
  {
    SampleScores();
    SampleBuys();
    assert Deployable(1000000, SAMPLE_SETTINGS) == 800000.0;
    NoCashBypassesBudget([SAMPLE], 0, 1000000, SAMPLE_SETTINGS);
    assert SAMPLE in [SAMPLE];
  }
}
