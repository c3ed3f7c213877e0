/**
 Pending exposure: what an admission leaves behind, how much every command moves each of the four
 sums, and how far the limits therefore hold over whole runs.
 */
module Exposure {
  import opened Sums
  import opened Wrappers
  import opened Tables
  import opened LedgerSteps
  import opened RiskSteps
  import opened RiskBudget
  import opened LedgerInvariant
  import opened LedgerRuns

  // ---- admission ----

  /** A new reservation adds its own pending exposure to every sum that counts it. */
  lemma NewReservationAdds(db: Db, row: Reservation, d: Dimension, q: Request)
    ensures UsedExposure(db.(reservations := db.reservations + [row]), d, q)
            == UsedExposure(db, d, q) + PendingTerm(db.orders, d, q)(row)
  {
    SumRealAppend(db.reservations, row, PendingTerm(db.orders, d, q));
  }

  /** Does the new exposure, on top of what is pending, fit all four limits? */
  ghost predicate FitsLimits(db: Db, q: Request, limits: Limits) {
    forall d: Dimension :: 0.0 <= Limit(limits, d) && UsedExposure(db, d, q) + ExposureOf(q) <= Limit(limits, d)
  }

  lemma FitsLimitsIff(db: Db, q: Request, limits: Limits)
    requires q.symbol != "" && q.sector != ""
    ensures FitsLimits(db, q, limits) <==> ExposureObstacle(db, q, limits).None?
  {
    var fits := (d: Dimension) =>
      0.0 <= Limit(limits, d) && UsedExposure(db, d, q) + ExposureOf(q) <= Limit(limits, d);
    assert FitsLimits(db, q, limits)
           <==> fits(OnePosition) && fits(WholeMarket) && fits(OneSector) && fits(OneStrategy) by {
      forall d: Dimension
        ensures fits(OnePosition) && fits(WholeMarket) && fits(OneSector) && fits(OneStrategy) ==> fits(d)
      {
        match d case OnePosition => case WholeMarket => case OneSector => case OneStrategy =>
      }
      assert FitsLimits(db, q, limits)
        ==> fits(OnePosition) && fits(WholeMarket) && fits(OneSector) && fits(OneStrategy);
    }
  }

  /** Admitting a reservation and releasing it again leaves every sum of every request as it was. */
  lemma AdmitAndRelease(db: Db, row: Reservation, final: ReservationStatus, d: Dimension, p: Request)
    requires final != Reserved
    ensures var held := db.(reservations := db.reservations + [row]);
      UsedExposure(ReleaseRiskReservation(held, |db.reservations|, final).db, d, p)
      == UsedExposure(db, d, p) + (if row.status == Reserved then 0.0 else PendingTerm(db.orders, d, p)(row))
  {
    var n := |db.reservations|;
    var held := db.reservations + [row];
    NewReservationAdds(db, row, d, p);
    if row.status == Reserved {
      SumRealUpdate(held, n, row.(status := final), PendingTerm(db.orders, d, p));
      assert held[n] == row;
    }
  }

  /**
   When a request with limits creates a row, and what the row does to the four sums.  The check adds
   the amount that is asked for, but from then on the row counts with what its position's latest
   working buy still has to buy.  So the sums stay within the limits exactly when that fits; they do
   whenever no working buy of the position is worth more than the amount asked for.  A release takes
   out of every sum exactly what the admission put in.
   */
  lemma {:induction false} ExposureAdmission(db: Db, q: Request, availableCash: real, riskLimit: real, limits: Limits)
    ensures var out := ReserveRiskBudget(db, q, availableCash, riskLimit, Some(limits));
      var pending := PendingExposure(db.orders, NewReservation(q));
      (out.reply == ReservationRow(|db.reservations|, true)
       <==> RequestObstacle(q, availableCash, riskLimit).None?
            && FindReserved(db.reservations, NewReservation(q)).None?
            && ReservedCash(db, q.account, q.market) + q.cash <= availableCash
            && ReservedRisk(db, q.account, q.market) + q.risk <= riskLimit
            && q.symbol != "" && q.sector != "" && FitsLimits(db, q, limits))
      && (out.reply == ReservationRow(|db.reservations|, true) ==>
            (forall d: Dimension :: UsedExposure(out.db, d, q) == UsedExposure(db, d, q) + pending)
            && ((forall d: Dimension :: UsedExposure(out.db, d, q) <= Limit(limits, d))
                <==> forall d: Dimension :: pending <= Limit(limits, d) - UsedExposure(db, d, q))
            && (pending <= ExposureOf(q) ==>
                  forall d: Dimension :: UsedExposure(out.db, d, q) <= Limit(limits, d))
            && forall d: Dimension, p: Request, final: ReservationStatus | final != Reserved ::
                 UsedExposure(ReleaseRiskReservation(out.db, |db.reservations|, final).db, d, p)
                 == UsedExposure(db, d, p))
  {
    var out := ReserveRiskBudget(db, q, availableCash, riskLimit, Some(limits));
    if q.symbol != "" && q.sector != "" {
      FitsLimitsIff(db, q, limits);
    }
    if out.reply == ReservationRow(|db.reservations|, true) {
      forall d: Dimension
        ensures UsedExposure(out.db, d, q)
                == UsedExposure(db, d, q) + PendingExposure(db.orders, NewReservation(q))
      {
        NewReservationAdds(db, NewReservation(q), d, q);
      }
      forall d: Dimension, p: Request, final: ReservationStatus | final != Reserved
        ensures UsedExposure(ReleaseRiskReservation(out.db, |db.reservations|, final).db, d, p)
                == UsedExposure(db, d, p)
      {
        AdmitAndRelease(db, NewReservation(q), final, d, p);
      }
    }
  }

  // ---- one order row changes ----

  /** Is order `k` the one whose open value stands for this reservation? */
  ghost predicate StandsFor(orders: seq<Order>, k: nat, r: Reservation) {
    r.position.Some? && LatestWorkingBuy(orders, r.position.value) == Some(k)
  }

  /** Would `row`, stored as order `k`, stand for this reservation? */
  ghost predicate WouldStandFor(orders: seq<Order>, k: nat, row: Order, r: Reservation) {
    r.position.Some? && WorkingBuy(row, r.position.value)
    && forall i :: k < i < |orders| ==> !WorkingBuy(orders[i], r.position.value)
  }

  /** The reservation's pending exposure once order `k` no longer works. */
  ghost function PendingWithout(orders: seq<Order>, k: nat, r: Reservation): real
    requires k < |orders|
  {
    PendingExposure(orders[k := orders[k].(status := Filled)], r)
  }

  /** Two order tables with the same working buys of a position choose the same row. */
  lemma SameWorkSameLatest(a: seq<Order>, b: seq<Order>, id: nat)
    requires |a| == |b| && forall i :: 0 <= i < |a| ==> WorkingBuy(a[i], id) == WorkingBuy(b[i], id)
    ensures LatestWorkingBuy(a, id) == LatestWorkingBuy(b, id)
  {
  }

  /** A later working buy hides order `k`. */
  lemma LaterWorkHides(a: seq<Order>, b: seq<Order>, k: nat, id: nat, i: nat)
    requires |a| == |b| && k < i < |a| && forall j :: k < j < |a| ==> a[j] == b[j]
    requires WorkingBuy(a[i], id)
    ensures var latest := LatestWorkingBuy(a, id);
      latest.Some? && k < latest.value && LatestWorkingBuy(b, id) == latest
  {
    var x, y := LatestWorkingBuy(a, id).value, LatestWorkingBuy(b, id).value;
    assert WorkingBuy(b[i], id);
    assert i <= x && i <= y;
    assert WorkingBuy(b[x], id) && WorkingBuy(a[y], id);
  }

  /** Whatever row is stored as order `k`: it stands for the reservation, or it might as well not work. */
  lemma PendingAfterChange(orders: seq<Order>, k: nat, row: Order, r: Reservation)
    requires k < |orders|
    ensures StandsFor(orders[k := row], k, r) <==> WouldStandFor(orders, k, row, r)
    ensures PendingExposure(orders[k := row], r)
            == if WouldStandFor(orders, k, row, r) then OpenValue(row) else PendingWithout(orders, k, r)
  {
    if r.position.Some? {
      var id := r.position.value;
      var after, without := orders[k := row], orders[k := orders[k].(status := Filled)];
      assert forall i :: k < i < |orders| ==> after[i] == orders[i] == without[i];
      if i :| k < i < |orders| && WorkingBuy(orders[i], id) {
        LaterWorkHides(after, without, k, id, i);
      } else if !WorkingBuy(row, id) {
        SameWorkSameLatest(after, without, id);
        assert !WorkingBuy(after[k], id);
      } else {
        assert WorkingBuy(after[k], id);
      }
    }
  }

  /** The same for the row that is there. */
  lemma PendingAsItIs(orders: seq<Order>, k: nat, r: Reservation)
    requires k < |orders|
    ensures StandsFor(orders, k, r) <==> WouldStandFor(orders, k, orders[k], r)
    ensures PendingExposure(orders, r)
            == if StandsFor(orders, k, r) then OpenValue(orders[k]) else PendingWithout(orders, k, r)
  {
    assert orders[k := orders[k]] == orders;
    PendingAfterChange(orders, k, orders[k], r);
  }

  // ---- what such a change adds up to ----

  function AskedPrice(o: Order): real {
    if o.requestedPrice.Some? then o.requestedPrice.value else 0.0
  }

  ghost function LeavingTerm(orders: seq<Order>, k: nat, d: Dimension, q: Request): Reservation -> real
    requires k < |orders|
  {
    (r: Reservation) =>
      if Counted(r, d, q) && StandsFor(orders, k, r) then PendingWithout(orders, k, r) - OpenValue(orders[k]) else 0.0
  }

  /** The change when order `k` leaves the working orders: each reservation it stood for falls back. */
  ghost function LeavingMove(db: Db, k: nat, d: Dimension, q: Request): real
    requires k < |db.orders|
  {
    SumReal(db.reservations, LeavingTerm(db.orders, k, d, q))
  }

  ghost function EnteringTerm(orders: seq<Order>, k: nat, row: Order, d: Dimension, q: Request): Reservation -> real {
    (r: Reservation) =>
      if Counted(r, d, q) && WouldStandFor(orders, k, row, r) then OpenValue(row) - PendingExposure(orders, r) else 0.0
  }

  /** The change when `row` joins the working orders as order `k`: it takes over from what counted before. */
  ghost function EnteringMove(db: Db, k: nat, row: Order, d: Dimension, q: Request): real {
    SumReal(db.reservations, EnteringTerm(db.orders, k, row, d, q))
  }

  ghost function FreedTerm(orders: seq<Order>, k: nat, qty: int, d: Dimension, q: Request): Reservation -> real
    requires k < |orders|
  {
    (r: Reservation) =>
      if Counted(r, d, q) && StandsFor(orders, k, r) then qty as real * AskedPrice(orders[k]) else 0.0
  }

  /** What `qty` more filled shares of order `k` free while it goes on working. */
  ghost function Freed(db: Db, k: nat, qty: int, d: Dimension, q: Request): real
    requires k < |db.orders|
  {
    SumReal(db.reservations, FreedTerm(db.orders, k, qty, d, q))
  }

  lemma OrderLeaves(db: Db, k: nat, row: Order, d: Dimension, q: Request)
    requires k < |db.orders| && !Working(row.status)
    ensures UsedExposure(db.(orders := db.orders[k := row]), d, q) == UsedExposure(db, d, q) + LeavingMove(db, k, d, q)
  {
    var f, g := PendingTerm(db.orders, d, q), PendingTerm(db.orders[k := row], d, q);
    forall r | r in db.reservations ensures g(r) == f(r) + LeavingTerm(db.orders, k, d, q)(r) {
      PendingAfterChange(db.orders, k, row, r);
      PendingAsItIs(db.orders, k, r);
    }
    SumRealPlus(db.reservations, f, LeavingTerm(db.orders, k, d, q), g);
  }

  lemma OrderEnters(db: Db, k: nat, row: Order, d: Dimension, q: Request)
    requires k < |db.orders| && !Working(db.orders[k].status)
    ensures UsedExposure(db.(orders := db.orders[k := row]), d, q)
            == UsedExposure(db, d, q) + EnteringMove(db, k, row, d, q)
  {
    var f, g := PendingTerm(db.orders, d, q), PendingTerm(db.orders[k := row], d, q);
    forall r | r in db.reservations ensures g(r) == f(r) + EnteringTerm(db.orders, k, row, d, q)(r) {
      PendingAfterChange(db.orders, k, row, r);
      PendingAsItIs(db.orders, k, r);
    }
    SumRealPlus(db.reservations, f, EnteringTerm(db.orders, k, row, d, q), g);
  }

  lemma PendingWithMore(orders: seq<Order>, row: Order, r: Reservation)
    ensures PendingExposure(orders + [row], r)
            == if WouldStandFor(orders, |orders|, row, r) then OpenValue(row) else PendingExposure(orders, r)
  {
    assert (orders + [row])[..|orders|] == orders;
  }

  lemma OrderIsAdded(db: Db, row: Order, d: Dimension, q: Request)
    ensures UsedExposure(db.(orders := db.orders + [row]), d, q)
            == UsedExposure(db, d, q) + EnteringMove(db, |db.orders|, row, d, q)
  {
    var f, g := PendingTerm(db.orders, d, q), PendingTerm(db.orders + [row], d, q);
    forall r | r in db.reservations ensures g(r) == f(r) + EnteringTerm(db.orders, |db.orders|, row, d, q)(r) {
      PendingWithMore(db.orders, row, r);
    }
    SumRealPlus(db.reservations, f, EnteringTerm(db.orders, |db.orders|, row, d, q), g);
  }

  lemma OpenValueStep(o: Order, p: Order, qty: nat)
    requires p.requestedQty == o.requestedQty && p.requestedPrice == o.requestedPrice
    requires p.filledQty == o.filledQty + qty && (0 < qty ==> p.filledQty < o.requestedQty)
    ensures OpenValue(p) == OpenValue(o) - qty as real * AskedPrice(o)
  {
  }

  /** Order `k` keeps its kind; `qty` more of its shares are filled. */
  predicate Progress(o: Order, row: Order, qty: nat) {
    row.position == o.position && row.action == o.action && Working(row.status) == Working(o.status)
    && row.requestedQty == o.requestedQty && row.requestedPrice == o.requestedPrice
    && row.filledQty == o.filledQty + qty && (0 < qty ==> row.filledQty < row.requestedQty)
  }

  lemma PendingProgress(orders: seq<Order>, k: nat, row: Order, qty: nat, r: Reservation)
    requires k < |orders| && Progress(orders[k], row, qty)
    ensures PendingExposure(orders, r)
            == PendingExposure(orders[k := row], r)
               + (if StandsFor(orders, k, r) then qty as real * AskedPrice(orders[k]) else 0.0)
  {
    PendingAfterChange(orders, k, row, r);
    PendingAsItIs(orders, k, r);
    OpenValueStep(orders[k], row, qty);
  }

  lemma OrderProgresses(db: Db, k: nat, row: Order, qty: nat, d: Dimension, q: Request)
    requires k < |db.orders| && Progress(db.orders[k], row, qty)
    ensures UsedExposure(db, d, q)
            == UsedExposure(db.(orders := db.orders[k := row]), d, q) + Freed(db, k, qty, d, q)
  {
    var f, g := PendingTerm(db.orders, d, q), PendingTerm(db.orders[k := row], d, q);
    forall r | r in db.reservations ensures f(r) == g(r) + FreedTerm(db.orders, k, qty, d, q)(r) {
      PendingProgress(db.orders, k, row, qty, r);
    }
    SumRealPlus(db.reservations, g, FreedTerm(db.orders, k, qty, d, q), f);
  }

  // ---- fills ----

  predicate Accepts(db: Db, k: nat, qty: int, price: real, key: string) {
    var reply := ApplyManagedFill(db, k, qty, price, key).reply;
    reply.FillReport? && !reply.duplicate
  }

  lemma AcceptedFill(db: Db, k: nat, qty: int, price: real, key: string)
    requires Accepts(db, k, qty, price, key)
    ensures 0 < qty && k < |db.orders| && Fillable(db.orders[k].status)
    ensures db.orders[k].filledQty + qty <= db.orders[k].requestedQty
    ensures var after := ApplyManagedFill(db, k, qty, price, key).db;
      after.orders == db.orders[k := FilledOrder(db.orders[k], qty, price)] && after.reservations == db.reservations
  {
    AttributedShape(db, k, qty, price);
  }

  ghost function StandsTerm(orders: seq<Order>, k: nat, d: Dimension, q: Request): Reservation -> int {
    (r: Reservation) => if Counted(r, d, q) && StandsFor(orders, k, r) then 1 else 0
  }

  /** For how many reservations of this sum does the order stand? */
  ghost function StandsForCount(db: Db, k: nat, d: Dimension, q: Request): int {
    SumInt(db.reservations, StandsTerm(db.orders, k, d, q))
  }

  lemma SignOfProduct(n: int, v: real)
    requires 0 <= n
    ensures 0.0 <= n as real * v <==> 0.0 <= v || n == 0
  {
  }

  lemma FreedIsMultiple(db: Db, k: nat, qty: int, d: Dimension, q: Request)
    requires k < |db.orders|
    ensures 0 <= StandsForCount(db, k, d, q)
    ensures Freed(db, k, qty, d, q) == StandsForCount(db, k, d, q) as real * (qty as real * AskedPrice(db.orders[k]))
  {
    SumRealCounted(db.reservations, FreedTerm(db.orders, k, qty, d, q), StandsTerm(db.orders, k, d, q),
                   qty as real * AskedPrice(db.orders[k]));
  }

  lemma FreedSign(db: Db, k: nat, qty: int, d: Dimension, q: Request)
    requires k < |db.orders| && 0 < qty
    ensures 0.0 <= Freed(db, k, qty, d, q) <==> 0.0 <= AskedPrice(db.orders[k]) || StandsForCount(db, k, d, q) == 0
  {
    FreedIsMultiple(db, k, qty, d, q);
    SignOfProduct(StandsForCount(db, k, d, q), qty as real * AskedPrice(db.orders[k]));
    SignOfProduct(qty, AskedPrice(db.orders[k]));
  }

  /**
   An accepted fill that leaves its order open frees its shares' asked value once per reservation
   the order stands for, so it raises none of the four sums exactly when the asked price is not
   negative or the order stands for no reservation of that sum.
   */
  lemma PartialFillFreesExposure(db: Db, k: nat, qty: int, price: real, key: string, d: Dimension, q: Request)
    requires Accepts(db, k, qty, price, key)
    requires ApplyManagedFill(db, k, qty, price, key).reply.status == PartiallyFilled
    ensures k < |db.orders|
    ensures var after := ApplyManagedFill(db, k, qty, price, key).db;
      UsedExposure(after, d, q)
      == UsedExposure(db, d, q) - StandsForCount(db, k, d, q) as real * (qty as real * AskedPrice(db.orders[k]))
      && (UsedExposure(after, d, q) <= UsedExposure(db, d, q)
          <==> 0.0 <= AskedPrice(db.orders[k]) || StandsForCount(db, k, d, q) == 0)
  {
    AcceptedFill(db, k, qty, price, key);
    OrderProgresses(db, k, FilledOrder(db.orders[k], qty, price), qty, d, q);
    FreedIsMultiple(db, k, qty, d, q);
    FreedSign(db, k, qty, d, q);
  }

  ghost function FallbackTerm(orders: seq<Order>, k: nat, d: Dimension, q: Request): Reservation -> real
    requires k < |orders|
  {
    (r: Reservation) => if Counted(r, d, q) && StandsFor(orders, k, r) then PendingWithout(orders, k, r) else 0.0
  }

  /** What the reservations that order `k` stands for count with once it no longer works. */
  ghost function Fallback(db: Db, k: nat, d: Dimension, q: Request): real
    requires k < |db.orders|
  {
    SumReal(db.reservations, FallbackTerm(db.orders, k, d, q))
  }

  ghost function OpenTerm(orders: seq<Order>, k: nat, d: Dimension, q: Request): Reservation -> real
    requires k < |orders|
  {
    (r: Reservation) => if Counted(r, d, q) && StandsFor(orders, k, r) then OpenValue(orders[k]) else 0.0
  }

  lemma OpenIsMultiple(db: Db, k: nat, d: Dimension, q: Request)
    requires k < |db.orders|
    ensures SumReal(db.reservations, OpenTerm(db.orders, k, d, q))
            == StandsForCount(db, k, d, q) as real * OpenValue(db.orders[k])
  {
    SumRealCounted(db.reservations, OpenTerm(db.orders, k, d, q), StandsTerm(db.orders, k, d, q),
                   OpenValue(db.orders[k]));
  }

  lemma LeavingIsFallbackLessOpen(db: Db, k: nat, d: Dimension, q: Request)
    requires k < |db.orders|
    ensures Fallback(db, k, d, q)
            == LeavingMove(db, k, d, q) + SumReal(db.reservations, OpenTerm(db.orders, k, d, q))
  {
    SumRealPlus(db.reservations, LeavingTerm(db.orders, k, d, q), OpenTerm(db.orders, k, d, q),
                FallbackTerm(db.orders, k, d, q));
  }

  /**
   An accepted fill that completes its order puts every reservation the order stood for back on the
   position's next working buy, or on its own full amount when there is none.  It raises the sum
   exactly when those are worth more than the shares that were still to come.
   */
  lemma CompletingFillMovesExposure(db: Db, k: nat, qty: int, price: real, key: string, d: Dimension, q: Request)
    requires Accepts(db, k, qty, price, key)
    requires ApplyManagedFill(db, k, qty, price, key).reply.status == Filled
    ensures k < |db.orders|
    ensures var after := ApplyManagedFill(db, k, qty, price, key).db;
      UsedExposure(after, d, q) == UsedExposure(db, d, q) + LeavingMove(db, k, d, q)
      && (UsedExposure(after, d, q) <= UsedExposure(db, d, q)
          <==> Fallback(db, k, d, q) <= StandsForCount(db, k, d, q) as real * OpenValue(db.orders[k]))
  {
    AcceptedFill(db, k, qty, price, key);
    OrderLeaves(db, k, FilledOrder(db.orders[k], qty, price), d, q);
    LeavingIsFallbackLessOpen(db, k, d, q);
    OpenIsMultiple(db, k, d, q);
  }

  // ---- every command ----

  /** The row `CreateOrder` stores. */
  function NewOrder(c: Command): Order
    requires c.CreateOrder? && 0 < c.requested
  {
    Order(c.key, c.owner, c.market, c.symbol, c.strategy, c.action, c.requested, c.asked, IntentCreated, 0, 0.0, None)
  }

  ghost function TransitionMove(
    db: Db, k: nat, expected: OrderStatus, next: OrderStatus, d: Dimension, q: Request): real
  {
    if k >= |db.orders| || db.orders[k].status != expected || Working(expected) == Working(next) then 0.0
    else if Working(expected) then LeavingMove(db, k, d, q)
    else EnteringMove(db, k, db.orders[k].(status := next), d, q)
  }

  ghost function FillMove(db: Db, k: nat, qty: int, price: real, key: string, d: Dimension, q: Request): real {
    if k >= |db.orders| || !Accepts(db, k, qty, price, key) then 0.0
    else if db.orders[k].filledQty + qty == db.orders[k].requestedQty then LeavingMove(db, k, d, q)
    else -Freed(db, k, qty, d, q)
  }

  /** By how much one command moves one exposure sum, read from the tables before it. */
  ghost function ExposureMove(db: Db, c: Command, d: Dimension, q: Request): real {
    match c
    case Reserve(request, cash, risk, limits) =>
      if Step(db, c).reply == ReservationRow(|db.reservations|, true)
      then PendingTerm(db.orders, d, q)(NewReservation(request)) else 0.0
    case Release(id, final) =>
      if id < |db.reservations| && final != Reserved then -PendingTerm(db.orders, d, q)(db.reservations[id]) else 0.0
    case CreateOrder(_, _, _, _, _, _, requested, _) =>
      if 0 < requested && Step(db, c).reply.Created? then EnteringMove(db, |db.orders|, NewOrder(c), d, q) else 0.0
    case Transition(k, expected, next) => TransitionMove(db, k, expected, next, d, q)
    case ApplyFill(k, qty, price, key) => FillMove(db, k, qty, price, key, d, q)
    case _ => 0.0
  }

  lemma {:induction false} SumOfZeros(rows: seq<Reservation>, f: Reservation -> real)
    requires forall r :: r in rows ==> f(r) == 0.0
    ensures SumReal(rows, f) == 0.0
  {
    if rows != [] {
      SumOfZeros(rows[..|rows| - 1], f);
    }
  }

  lemma NoSharesFreeNothing(db: Db, k: nat, d: Dimension, q: Request)
    requires k < |db.orders|
    ensures Freed(db, k, 0, d, q) == 0.0
  {
    SumOfZeros(db.reservations, FreedTerm(db.orders, k, 0, d, q));
  }

  lemma SameStatusMovesNothing(db: Db, k: nat, next: OrderStatus, d: Dimension, q: Request)
    requires k < |db.orders| && Working(db.orders[k].status) == Working(next)
    ensures UsedExposure(db.(orders := db.orders[k := db.orders[k].(status := next)]), d, q) == UsedExposure(db, d, q)
  {
    OrderProgresses(db, k, db.orders[k].(status := next), 0, d, q);
    NoSharesFreeNothing(db, k, d, q);
  }

  lemma StatusMoves(db: Db, after: Db, k: nat, next: OrderStatus, d: Dimension, q: Request)
    requires k < |db.orders| && after.orders == db.orders[k := db.orders[k].(status := next)]
    requires after.reservations == db.reservations
    ensures UsedExposure(after, d, q)
            == UsedExposure(db, d, q) + TransitionMove(db, k, db.orders[k].status, next, d, q)
  {
    if Working(db.orders[k].status) == Working(next) {
      SameStatusMovesNothing(db, k, next, d, q);
    } else if Working(next) {
      OrderEnters(db, k, db.orders[k].(status := next), d, q);
    } else {
      OrderLeaves(db, k, db.orders[k].(status := next), d, q);
    }
  }

  lemma TransitionMoves(db: Db, k: nat, expected: OrderStatus, next: OrderStatus, d: Dimension, q: Request)
    ensures UsedExposure(TransitionManagedOrder(db, k, expected, next).db, d, q)
            == UsedExposure(db, d, q) + TransitionMove(db, k, expected, next, d, q)
  {
    var after := TransitionManagedOrder(db, k, expected, next).db;
    if k < |db.orders| && db.orders[k].status == expected {
      StatusMoves(db, after, k, next, d, q);
    } else {
      assert after == db;
    }
  }

  lemma FillMoves(db: Db, k: nat, qty: int, price: real, key: string, d: Dimension, q: Request)
    ensures UsedExposure(ApplyManagedFill(db, k, qty, price, key).db, d, q)
            == UsedExposure(db, d, q) + FillMove(db, k, qty, price, key, d, q)
  {
    if Accepts(db, k, qty, price, key) {
      AcceptedFill(db, k, qty, price, key);
      var row := FilledOrder(db.orders[k], qty, price);
      if db.orders[k].filledQty + qty == db.orders[k].requestedQty {
        OrderLeaves(db, k, row, d, q);
      } else {
        OrderProgresses(db, k, row, qty, d, q);
      }
    }
  }

  lemma ReleaseMoves(db: Db, id: nat, final: ReservationStatus, d: Dimension, q: Request)
    ensures UsedExposure(ReleaseRiskReservation(db, id, final).db, d, q)
            == UsedExposure(db, d, q) + ExposureMove(db, Release(id, final), d, q)
  {
    if id < |db.reservations| && final != Reserved && db.reservations[id].status == Reserved {
      SumRealUpdate(db.reservations, id, db.reservations[id].(status := final), PendingTerm(db.orders, d, q));
    }
  }

  lemma QuietStepMovesNothing(db: Db, c: Command, d: Dimension, q: Request)
    requires !c.Reserve? && !c.Release? && !c.CreateOrder? && !c.Transition? && !c.ApplyFill?
    ensures UsedExposure(Step(db, c).db, d, q) == UsedExposure(db, d, q)
  {
    var after := Step(db, c).db;
    if c.BindApproval? && after != db {
      OrderProgresses(db, c.order, after.orders[c.order], 0, d, q);
      NoSharesFreeNothing(db, c.order, d, q);
    }
  }

  lemma ReserveMoves(db: Db, c: Command, d: Dimension, q: Request)
    requires c.Reserve?
    ensures UsedExposure(Step(db, c).db, d, q) == UsedExposure(db, d, q) + ExposureMove(db, c, d, q)
  {
    if Step(db, c).reply == ReservationRow(|db.reservations|, true) {
      NewReservationAdds(db, NewReservation(c.request), d, q);
    } else {
      assert Step(db, c).db == db;
    }
  }

  lemma CreateOrderMoves(db: Db, c: Command, d: Dimension, q: Request)
    requires c.CreateOrder?
    ensures UsedExposure(Step(db, c).db, d, q) == UsedExposure(db, d, q) + ExposureMove(db, c, d, q)
  {
    if 0 < c.requested && Step(db, c).reply.Created? {
      OrderIsAdded(db, NewOrder(c), d, q);
    } else {
      assert Step(db, c).db == db;
    }
  }

  /** Every command moves every sum by exactly its ExposureMove. */
  lemma StepMovesExposure(db: Db, c: Command, d: Dimension, q: Request)
    ensures UsedExposure(Step(db, c).db, d, q) == UsedExposure(db, d, q) + ExposureMove(db, c, d, q)
  {
    match c
    case Reserve(_, _, _, _) => ReserveMoves(db, c, d, q);
    case Release(id, final) => ReleaseMoves(db, id, final, d, q);
    case CreateOrder(_, _, _, _, _, _, _, _) => CreateOrderMoves(db, c, d, q);
    case Transition(k, expected, next) => TransitionMoves(db, k, expected, next, d, q);
    case ApplyFill(k, qty, price, key) => FillMoves(db, k, qty, price, key, d, q);
    case _ => QuietStepMovesNothing(db, c, d, q);
  }

  /** The moves of a run, added up. */
  ghost function ExposureMoves(db: Db, run: seq<Command>, d: Dimension, q: Request): real
    decreases |run|
  {
    if run == [] then 0.0 else ExposureMove(db, run[0], d, q) + ExposureMoves(Step(db, run[0]).db, run[1..], d, q)
  }

  lemma {:induction false} RunMovesExposure(db: Db, run: seq<Command>, d: Dimension, q: Request)
    ensures UsedExposure(Run(db, run), d, q) == UsedExposure(db, d, q) + ExposureMoves(db, run, d, q)
    decreases |run|
  {
    if run != [] {
      StepMovesExposure(db, run[0], d, q);
      RunMovesExposure(Step(db, run[0]).db, run[1..], d, q);
    }
  }

  // ---- what can raise a sum, and what a caller must do to keep the limits ----

  /** Do prices keep every pending exposure non-negative? */
  ghost predicate NoNegativePrices(orders: seq<Order>) {
    forall k :: 0 <= k < |orders| ==> 0.0 <= AskedPrice(orders[k])
  }

  lemma PendingIsNonNegative(orders: seq<Order>, r: Reservation)
    requires NoNegativePrices(orders) && ReservationRowOk(r)
    ensures 0.0 <= PendingExposure(orders, r)
  {
  }

  /** The shapes of command that can raise a sum while no order asks for a negative price. */
  ghost predicate CanRaise(db: Db, c: Command) {
    match c
    case Reserve(_, _, _, _) => Step(db, c).reply == ReservationRow(|db.reservations|, true)
    case CreateOrder(_, owner, _, _, _, action, _, _) =>
      Step(db, c).reply.Created? && action == "buy" && owner.Some?
    case Transition(k, expected, next) =>
      k < |db.orders| && db.orders[k].status == expected && Working(expected) != Working(next)
      && db.orders[k].action == "buy" && db.orders[k].position.Some?
    case ApplyFill(k, qty, price, key) =>
      k < |db.orders| && Accepts(db, k, qty, price, key)
      && db.orders[k].filledQty + qty == db.orders[k].requestedQty && db.orders[k].action == "buy"
    case _ => false
  }

  lemma SellsLeaveNothing(db: Db, k: nat, d: Dimension, q: Request)
    requires k < |db.orders| && !(db.orders[k].action == "buy" && db.orders[k].position.Some?)
    ensures LeavingMove(db, k, d, q) == 0.0
  {
    SumOfZeros(db.reservations, LeavingTerm(db.orders, k, d, q));
  }

  lemma SellsEnterNothing(db: Db, k: nat, row: Order, d: Dimension, q: Request)
    requires !(row.action == "buy" && row.position.Some?)
    ensures EnteringMove(db, k, row, d, q) == 0.0
  {
    SumOfZeros(db.reservations, EnteringTerm(db.orders, k, row, d, q));
  }

  /** Nothing but these commands ever raises a sum: not a release, nor a sell, nor a partial fill, nor a stop. */
  lemma OnlyTheseRaise(db: Db, c: Command, d: Dimension, q: Request)
    requires ReservationsSound(db.reservations) && NoNegativePrices(db.orders)
    requires UsedExposure(db, d, q) < UsedExposure(Step(db, c).db, d, q)
    ensures CanRaise(db, c)
  {
    StepMovesExposure(db, c, d, q);
    if !CanRaise(db, c) {
      match c
      case Release(id, final) =>
        if id < |db.reservations| {
          PendingIsNonNegative(db.orders, db.reservations[id]);
        }
      case CreateOrder(_, _, _, _, _, _, requested, _) =>
        if 0 < requested {
          SellsEnterNothing(db, |db.orders|, NewOrder(c), d, q);
        }
      case Transition(k, expected, next) =>
        if k < |db.orders| && db.orders[k].status == expected && Working(expected) != Working(next) {
          SellsLeaveNothing(db, k, d, q);
          SellsEnterNothing(db, k, db.orders[k].(status := next), d, q);
        }
      case ApplyFill(k, qty, price, key) =>
        if k < |db.orders| && Accepts(db, k, qty, price, key) {
          AcceptedFill(db, k, qty, price, key);
          if db.orders[k].filledQty + qty == db.orders[k].requestedQty {
            SellsLeaveNothing(db, k, d, q);
          } else {
            FreedSign(db, k, qty, d, q);
          }
        }
      case _ =>
    }
  }

  /** Whatever `row`, stored as order `k`, would take over from was worth as much already. */
  ghost predicate TakesOverWithin(db: Db, k: nat, row: Order) {
    forall r :: r in db.reservations && r.status == Reserved && WouldStandFor(db.orders, k, row, r)
                ==> OpenValue(row) <= PendingExposure(db.orders, r)
  }

  /** Every active reservation that order `k` stands for falls back on no more than is still open. */
  ghost predicate FallsBackWithin(db: Db, k: nat)
    requires k < |db.orders|
  {
    forall r :: r in db.reservations && r.status == Reserved && StandsFor(db.orders, k, r)
                ==> PendingWithout(db.orders, k, r) <= OpenValue(db.orders[k])
  }

  /** A new order asks for no negative price. */
  predicate AsksFairly(c: Command) {
    c.CreateOrder? && c.asked.Some? ==> 0.0 <= c.asked.value
  }

  /**
   The discipline that keeps a sum below `cap`, on rows a caller can read before the call.  A
   reservation passes a limit of at most `cap` and asks for at least what its position's working buy
   is worth; an order that starts to work is worth no more than what it takes over from; an order that
   stops working lets its reservations fall back on no more than it had open.  Nothing is asked of
   any other command.
   */
  ghost predicate Careful(db: Db, c: Command, d: Dimension, q: Request, cap: real) {
    match c
    case Reserve(request, _, _, limits) =>
      Step(db, c).reply == ReservationRow(|db.reservations|, true) && Counted(NewReservation(request), d, q) ==>
        limits.Some? && Limit(limits.value, d) <= cap
        && PendingExposure(db.orders, NewReservation(request)) <= ExposureOf(request)
    case CreateOrder(_, _, _, _, _, _, requested, _) =>
      AsksFairly(c)
      && (0 < requested && Step(db, c).reply.Created? ==> TakesOverWithin(db, |db.orders|, NewOrder(c)))
    case Transition(k, expected, next) =>
      k < |db.orders| && db.orders[k].status == expected ==>
        (Working(expected) && !Working(next) ==> FallsBackWithin(db, k))
        && (!Working(expected) && Working(next) ==> TakesOverWithin(db, k, db.orders[k].(status := next)))
    case ApplyFill(k, qty, price, key) =>
      k < |db.orders| && Accepts(db, k, qty, price, key) && db.orders[k].filledQty + qty == db.orders[k].requestedQty
      ==> FallsBackWithin(db, k)
    case _ => true
  }

  /** Two requests that fall into the same sum see the same sum. */
  lemma SameSum(db: Db, d: Dimension, q: Request, p: Request)
    requires Counted(NewReservation(p), d, q)
    ensures UsedExposure(db, d, p) == UsedExposure(db, d, q)
  {
    SumRealSame(db.reservations, PendingTerm(db.orders, d, p), PendingTerm(db.orders, d, q));
  }

  function Nothing(): Reservation -> real { (r: Reservation) => 0.0 }

  lemma NoPositiveTerm(rows: seq<Reservation>, f: Reservation -> real)
    requires forall r :: r in rows ==> f(r) <= 0.0
    ensures SumReal(rows, f) <= 0.0
  {
    SumRealMonotone(rows, f, Nothing());
    SumOfZeros(rows, Nothing());
  }

  lemma CarefulEntering(db: Db, k: nat, row: Order, d: Dimension, q: Request)
    requires TakesOverWithin(db, k, row)
    ensures EnteringMove(db, k, row, d, q) <= 0.0
  {
    NoPositiveTerm(db.reservations, EnteringTerm(db.orders, k, row, d, q));
  }

  lemma CarefulLeaving(db: Db, k: nat, d: Dimension, q: Request)
    requires k < |db.orders| && FallsBackWithin(db, k)
    ensures LeavingMove(db, k, d, q) <= 0.0
  {
    NoPositiveTerm(db.reservations, LeavingTerm(db.orders, k, d, q));
  }

  lemma CarefulFill(db: Db, k: nat, qty: int, price: real, key: string, d: Dimension, q: Request)
    requires k < |db.orders| && Accepts(db, k, qty, price, key) && 0.0 <= AskedPrice(db.orders[k])
    requires db.orders[k].filledQty + qty == db.orders[k].requestedQty ==> FallsBackWithin(db, k)
    ensures FillMove(db, k, qty, price, key, d, q) <= 0.0
  {
    AcceptedFill(db, k, qty, price, key);
    if db.orders[k].filledQty + qty == db.orders[k].requestedQty {
      CarefulLeaving(db, k, d, q);
    } else {
      FreedSign(db, k, qty, d, q);
    }
  }

  /** The discipline is enough: no careful command but a reservation raises the sum. */
  lemma CarefulNeverRaises(db: Db, c: Command, d: Dimension, q: Request, cap: real)
    requires ReservationsSound(db.reservations) && NoNegativePrices(db.orders)
    requires Careful(db, c, d, q, cap) && !c.Reserve?
    ensures ExposureMove(db, c, d, q) <= 0.0
  {
    match c
    case Release(id, final) =>
      if id < |db.reservations| {
        PendingIsNonNegative(db.orders, db.reservations[id]);
      }
    case CreateOrder(_, _, _, _, _, _, requested, _) =>
      if 0 < requested && Step(db, c).reply.Created? {
        CarefulEntering(db, |db.orders|, NewOrder(c), d, q);
      }
    case Transition(k, expected, next) =>
      if k < |db.orders| && db.orders[k].status == expected && Working(expected) != Working(next) {
        if Working(expected) {
          CarefulLeaving(db, k, d, q);
        } else {
          CarefulEntering(db, k, db.orders[k].(status := next), d, q);
        }
      }
    case ApplyFill(k, qty, price, key) =>
      if k < |db.orders| && Accepts(db, k, qty, price, key) {
        CarefulFill(db, k, qty, price, key, d, q);
      }
    case _ =>
  }

  lemma CarefulStepStaysWithin(db: Db, c: Command, d: Dimension, q: Request, cap: real)
    requires ReservationsSound(db.reservations) && NoNegativePrices(db.orders)
    requires Careful(db, c, d, q, cap) && UsedExposure(db, d, q) <= cap
    ensures UsedExposure(Step(db, c).db, d, q) <= cap
  {
    StepMovesExposure(db, c, d, q);
    if !c.Reserve? {
      CarefulNeverRaises(db, c, d, q, cap);
    } else if Step(db, c).reply == ReservationRow(|db.reservations|, true)
              && Counted(NewReservation(c.request), d, q) {
      ExposureAdmission(db, c.request, c.availableCash, c.riskLimit, c.limits.value);
      SameSum(db, d, q, c.request);
    }
  }

  /** No price ever changes: whoever asks fairly keeps every stored price fair. */
  lemma FairStepKeepsPrices(db: Db, c: Command)
    requires NoNegativePrices(db.orders) && AsksFairly(c)
    ensures NoNegativePrices(Step(db, c).db.orders)
  {
    var after := Step(db, c).db;
    StepGrows(db, c);
    forall k | 0 <= k < |after.orders| ensures 0.0 <= AskedPrice(after.orders[k]) {
      if k < |db.orders| {
        assert OrderGrew(db.orders[k], after.orders[k]);
      } else {
        assert c.CreateOrder?;
      }
    }
  }

  lemma {:induction false} FairRunKeepsPrices(db: Db, run: seq<Command>)
    requires NoNegativePrices(db.orders) && forall i :: 0 <= i < |run| ==> AsksFairly(run[i])
    ensures NoNegativePrices(Run(db, run).orders)
    decreases |run|
  {
    if run != [] {
      FairStepKeepsPrices(db, run[0]);
      FairRunKeepsPrices(Step(db, run[0]).db, run[1..]);
    }
  }

  lemma {:induction false} CarefulRunStaysWithin(db: Db, run: seq<Command>, d: Dimension, q: Request, cap: real)
    requires Valid(db) && NoNegativePrices(db.orders) && UsedExposure(db, d, q) <= cap
    requires forall i :: 0 <= i < |run| ==> Careful(Run(db, run[..i]), run[i], d, q, cap)
    ensures UsedExposure(Run(db, run), d, q) <= cap
    decreases |run|
  {
    if run != [] {
      var next := Step(db, run[0]).db;
      assert Run(db, run[..0]) == db;
      CarefulStepStaysWithin(db, run[0], d, q, cap);
      FairStepKeepsPrices(db, run[0]);
      StepKeepsValid(db, run[0]);
      CarefulRest(db, run, d, q, cap);
      CarefulRunStaysWithin(next, run[1..], d, q, cap);
    }
  }

  lemma CarefulRest(db: Db, run: seq<Command>, d: Dimension, q: Request, cap: real)
    requires run != [] && forall i :: 0 <= i < |run| ==> Careful(Run(db, run[..i]), run[i], d, q, cap)
    ensures var next, rest := Step(db, run[0]).db, run[1..];
      forall i :: 0 <= i < |rest| ==> Careful(Run(next, rest[..i]), rest[i], d, q, cap)
  {
    var next, rest := Step(db, run[0]).db, run[1..];
    forall i | 0 <= i < |rest| ensures Careful(Run(next, rest[..i]), rest[i], d, q, cap) {
      assert run[..i + 1][0] == run[0] && run[..i + 1][1..] == rest[..i];
      assert Run(db, run[..i + 1]) == Run(next, rest[..i]);
    }
  }

  lemma NothingIsPending(d: Dimension, q: Request)
    ensures UsedExposure(EMPTY_DB, d, q) == 0.0 && NoNegativePrices(EMPTY_DB.orders)
  {
  }

  /** Over any interleaving of careful commands, each sum stays within the largest limit passed. */
  lemma {:induction false} ExposureNeverExceeded(run: seq<Command>, d: Dimension, q: Request, cap: real)
    requires 0.0 <= cap
    requires forall i :: 0 <= i < |run| ==> Careful(Run(EMPTY_DB, run[..i]), run[i], d, q, cap)
    ensures UsedExposure(Run(EMPTY_DB, run), d, q) <= cap
  {
    EmptyIsValid();
    NothingIsPending(d, q);
    CarefulRunStaysWithin(EMPTY_DB, run, d, q, cap);
  }

  /**
   An admission holds over time: once a request was admitted under a limit, for at least what its
   position's working buy is worth, the sum stays within that limit along every careful continuation.
   */
  lemma {:induction false} AdmissionHolds(a: seq<Command>, c: Command, b: seq<Command>, d: Dimension)
    requires c.Reserve? && c.limits.Some? && forall i :: 0 <= i < |a| ==> AsksFairly(a[i])
    requires Step(Run(EMPTY_DB, a), c).reply == ReservationRow(|Run(EMPTY_DB, a).reservations|, true)
    requires PendingExposure(Run(EMPTY_DB, a).orders, NewReservation(c.request)) <= ExposureOf(c.request)
    requires forall i :: 0 <= i < |b| ==>
      Careful(Run(EMPTY_DB, a + [c] + b[..i]), b[i], d, c.request, Limit(c.limits.value, d))
    ensures UsedExposure(Run(EMPTY_DB, a + [c] + b), d, c.request) <= Limit(c.limits.value, d)
  {
    var before := Run(EMPTY_DB, a);
    var admitted := Step(before, c).db;
    RunConcat(EMPTY_DB, a, [c]);
    assert [c][1..] == [];
    assert Run(EMPTY_DB, a + [c]) == admitted;
    FairRunKeepsPrices(EMPTY_DB, a);
    ReachableIsValid(a);
    StepKeepsValid(before, c);
    FairStepKeepsPrices(before, c);
    ExposureAdmission(before, c.request, c.availableCash, c.riskLimit, c.limits.value);
    forall i | 0 <= i < |b| ensures Careful(Run(admitted, b[..i]), b[i], d, c.request, Limit(c.limits.value, d)) {
      RunConcat(EMPTY_DB, a + [c], b[..i]);
    }
    CarefulRunStaysWithin(admitted, b, d, c.request, Limit(c.limits.value, d));
    RunConcat(EMPTY_DB, a + [c], b);
  }

  // ---- the exposure listing ----

  /** Does the listing, which joins the position table, leave the reservation out? */
  predicate Orphan(db: Db, r: Reservation, account: string, market: string) {
    InBudget(r, account, market) && !(r.position.Some? && r.position.value < |db.positions|)
  }

  function OrphanTerm(db: Db, account: string, market: string): Reservation -> real {
    (r: Reservation) => if Orphan(db, r, account, market) then PendingExposure(db.orders, r) else 0.0
  }

  /** Exactly what the listing leaves out: active reservations without a position row. */
  lemma ListingOmitsOrphans(db: Db, q: Request)
    ensures UsedExposure(db, WholeMarket, q)
            == ListedExposure(db, q.account, q.market)
               + SumReal(db.reservations, OrphanTerm(db, q.account, q.market))
  {
    SumRealPlus(db.reservations, ListedTerm(db, q.account, q.market), OrphanTerm(db, q.account, q.market),
                PendingTerm(db.orders, WholeMarket, q));
  }

  /** The latest working buy that stands for a left-out reservation does not ask for a negative price. */
  ghost predicate OrphansAreWorthSomething(db: Db, account: string, market: string) {
    forall r: Reservation, k: nat ::
      r in db.reservations && Orphan(db, r, account, market) && StandsFor(db.orders, k, r)
      ==> 0.0 <= AskedPrice(db.orders[k])
  }

  /**
   The admission check sees at least what the listing shows whenever no negative price stands for a
   left-out reservation, and in general exactly when those reservations add up to no negative amount.
   */
  lemma AdmissionSeesListing(db: Db, q: Request)
    requires ReservationsSound(db.reservations)
    ensures OrphansAreWorthSomething(db, q.account, q.market) ==>
              ListedExposure(db, q.account, q.market) <= UsedExposure(db, WholeMarket, q)
    ensures ListedExposure(db, q.account, q.market) <= UsedExposure(db, WholeMarket, q)
            <==> 0.0 <= SumReal(db.reservations, OrphanTerm(db, q.account, q.market))
  {
    ListingOmitsOrphans(db, q);
    if OrphansAreWorthSomething(db, q.account, q.market) {
      forall r | r in db.reservations ensures 0.0 <= OrphanTerm(db, q.account, q.market)(r) {
        var i :| 0 <= i < |db.reservations| && db.reservations[i] == r;
        assert ReservationRowOk(db.reservations[i]);
        OrphanIsWorthSomething(db, r, q.account, q.market);
      }
      SumRealNonNegative(db.reservations, OrphanTerm(db, q.account, q.market));
    }
  }

  lemma OrphanIsWorthSomething(db: Db, r: Reservation, account: string, market: string)
    requires OrphansAreWorthSomething(db, account, market) && r in db.reservations && ReservationRowOk(r)
    ensures 0.0 <= OrphanTerm(db, account, market)(r)
  {
    if Orphan(db, r, account, market) && r.position.Some? {
      var latest := LatestWorkingBuy(db.orders, r.position.value);
      if latest.Some? {
        assert StandsFor(db.orders, latest.value, r);
        OpenValueSign(db.orders[latest.value]);
      }
    }
  }

  lemma OpenValueSign(o: Order)
    requires 0.0 <= AskedPrice(o)
    ensures 0.0 <= OpenValue(o)
  {
  }
}
