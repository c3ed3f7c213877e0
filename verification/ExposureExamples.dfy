/** Runs from the empty tables on which the exposure sums do what one would not expect. */
module ExposureExamples {
  import opened Sums
  import opened Wrappers
  import opened Tables
  import opened LedgerSteps
  import opened RiskSteps
  import opened LedgerRuns
  import opened Exposure

  lemma {:induction false} RunOneMore(db: Db, run: seq<Command>, c: Command)
    ensures Run(db, run + [c]) == Step(Run(db, run), c).db
  {
    RunConcat(db, run, [c]);
    assert [c][1..] == [];
  }

  // The requests of the examples, and limits of 1000 in every dimension.
  const SAMPLE := Request(KR, "acct", "s", Some(0), None, 1000.0, 10.0, "005930", "tech", None)
  const SECOND := Request(KR, "acct", "s", None, Some(1), 900.0, 10.0, "005930", "tech", None)
  const THOUSANDS := Limits(1000.0, 1000.0, 1000.0, 1000.0)

  function Asking(price: real, status: OrderStatus, filled: nat, average: real): Order {
    Order("k", Some(0), KR, "005930", "s", "buy", 10, Some(price), status, filled, average, None)
  }

  const CREATE := CreatePosition(KR, "acct", "005930", "s", Long, 90.0)

  function Ask(price: real): Command {
    CreateOrder("k", Some(0), KR, "005930", "s", "buy", 10, Some(price))
  }

  const HOLD := Reserve(SAMPLE, 10000.0, 100.0, Some(THOUSANDS))
  const HOLD_MORE := Reserve(SECOND, 10000.0, 100.0, Some(THOUSANDS))
  const SUBMIT := Transition(0, IntentCreated, Submitted)

  /** A position, a buy of ten shares at `price`, a reservation of 1000, and the order is sent. */
  function Opening(price: real): seq<Command> {
    [CREATE] + [Ask(price)] + [HOLD] + [SUBMIT]
  }

  const OWNER := Position(KR, "acct", "005930", "s", Long, 90.0, PendingEntry, 0, 0, 0.0, 0.0)

  function Opened(price: real): Db {
    Db([OWNER], [Asking(price, Submitted, 0, 0.0)],
       [OrderEvent(0, None, IntentCreated, None), OrderEvent(0, Some(IntentCreated), Submitted, None)],
       [], [], [], [NewReservation(SAMPLE)])
  }

  function Asked(price: real): Db {
    EMPTY_DB.(positions := [OWNER], orders := [Asking(price, IntentCreated, 0, 0.0)],
              orderEvents := [OrderEvent(0, None, IntentCreated, None)])
  }

  lemma AskingReaches(price: real)
    ensures Run(EMPTY_DB, [CREATE] + [Ask(price)]) == Asked(price)
  {
    RunOneMore(EMPTY_DB, [], CREATE);
    assert [] + [CREATE] == [CREATE];
    RunOneMore(EMPTY_DB, [CREATE], Ask(price));
  }

  lemma HoldIsAdmitted(db: Db)
    requires db.reservations == []
    ensures Step(db, HOLD).db == db.(reservations := [NewReservation(SAMPLE)])
  {
  }

  lemma OpeningReaches(price: real)
    ensures Run(EMPTY_DB, Opening(price)) == Opened(price)
  {
    AskingReaches(price);
    RunOneMore(EMPTY_DB, [CREATE] + [Ask(price)], HOLD);
    HoldIsAdmitted(Asked(price));
    RunOneMore(EMPTY_DB, [CREATE] + [Ask(price)] + [HOLD], SUBMIT);
  }

  lemma SumOfOne(db: Db, d: Dimension, q: Request)
    requires |db.reservations| == 1
    ensures UsedExposure(db, d, q) == PendingTerm(db.orders, d, q)(db.reservations[0])
  {
    assert db.reservations == [] + [db.reservations[0]];
    SumRealAppend([], db.reservations[0], PendingTerm(db.orders, d, q));
  }

  lemma WorkingStandsAlone(o: Order, id: nat)
    ensures LatestWorkingBuy([o], id) == if WorkingBuy(o, id) then Some(0) else None
  {
  }

  /**
   The check counts a request with the amount it asks for; admitted, it counts with the working buy
   of its position.  Here a limit of 1000 lets in a row that counts 10000.
   */
  lemma AdmissionCanOvershoot()
    ensures UsedExposure(Run(EMPTY_DB, Opening(1000.0)), WholeMarket, SAMPLE) == 10000.0
  {
    OpeningReaches(1000.0);
    WorkingStandsAlone(Asking(1000.0, Submitted, 0, 0.0), 0);
    SumOfOne(Opened(1000.0), WholeMarket, SAMPLE);
  }

  lemma FirstShareIsFilled()
    ensures Accepts(Opened(-5.0), 0, 1, 100.0, "")
    ensures ApplyManagedFill(Opened(-5.0), 0, 1, 100.0, "").reply.status == PartiallyFilled
    ensures var after := Step(Opened(-5.0), ApplyFill(0, 1, 100.0, "")).db;
      after.orders == [Asking(-5.0, PartiallyFilled, 1, 100.0)] && after.reservations == Opened(-5.0).reservations
  {
  }

  lemma NegativeSum(db: Db, status: OrderStatus, filled: nat, average: real)
    requires db.orders == [Asking(-5.0, status, filled, average)] && Working(status) && filled < 10
    requires db.reservations == [NewReservation(SAMPLE)]
    ensures UsedExposure(db, WholeMarket, SAMPLE) == (10 - filled) as real * -5.0
  {
    WorkingStandsAlone(db.orders[0], 0);
    SumOfOne(db, WholeMarket, SAMPLE);
  }

  /** The order table does not check the price: a partial fill at a negative asked price raises the sum. */
  lemma NegativePriceRaises()
    ensures var db := Run(EMPTY_DB, Opening(-5.0));
      Accepts(db, 0, 1, 100.0, "") && ApplyManagedFill(db, 0, 1, 100.0, "").reply.status == PartiallyFilled
      && UsedExposure(db, WholeMarket, SAMPLE)
         < UsedExposure(Step(db, ApplyFill(0, 1, 100.0, "")).db, WholeMarket, SAMPLE)
  {
    OpeningReaches(-5.0);
    FirstShareIsFilled();
    NegativeSum(Opened(-5.0), Submitted, 0, 0.0);
    NegativeSum(Step(Opened(-5.0), ApplyFill(0, 1, 100.0, "")).db, PartiallyFilled, 1, 100.0);
  }

  /** The order and its reservation without the position they name. */
  function Unowned(): Db {
    EMPTY_DB.(orders := [Asking(-5.0, IntentCreated, 0, 0.0)],
              orderEvents := [OrderEvent(0, None, IntentCreated, None)],
              reservations := [NewReservation(SAMPLE)])
  }

  lemma UnownedIsReached()
    ensures Run(EMPTY_DB, [Ask(-5.0)] + [HOLD]) == Unowned()
  {
    RunOneMore(EMPTY_DB, [], Ask(-5.0));
    assert [] + [Ask(-5.0)] == [Ask(-5.0)];
    assert Run(EMPTY_DB, [Ask(-5.0)]) == Unowned().(reservations := []);
    RunOneMore(EMPTY_DB, [Ask(-5.0)], HOLD);
    HoldIsAdmitted(Unowned().(reservations := []));
  }

  lemma UnownedSums()
    ensures UsedExposure(Unowned(), WholeMarket, SAMPLE) == -50.0
    ensures ListedExposure(Unowned(), SAMPLE.account, SAMPLE.market) == 0.0
  {
    WorkingStandsAlone(Unowned().orders[0], 0);
    SumOfOne(Unowned(), WholeMarket, SAMPLE);
    assert Unowned().reservations == [] + [NewReservation(SAMPLE)];
    SumRealAppend([], NewReservation(SAMPLE), ListedTerm(Unowned(), SAMPLE.account, SAMPLE.market));
  }

  /** With a negative price standing for a reservation without a position row the listing shows more. */
  lemma NegativePriceHidesExposure()
    ensures var db := Run(EMPTY_DB, [Ask(-5.0)] + [HOLD]);
      UsedExposure(db, WholeMarket, SAMPLE) < ListedExposure(db, SAMPLE.account, SAMPLE.market)
  {
    UnownedIsReached();
    UnownedSums();
  }

  const MOST := ApplyFill(0, 9, 100.0, "")
  const LAST := ApplyFill(0, 1, 100.0, "")

  /** Nine of ten shares are filled and the freed exposure is reserved again. */
  function Refilled(): Db {
    Db([OWNER.(status := Open, filledQty := 9, remainingQty := 9, averagePrice := 100.0)],
       [Asking(100.0, PartiallyFilled, 9, 100.0)],
       Opened(100.0).orderEvents + [OrderEvent(0, Some(Submitted), PartiallyFilled, Some(Trade(9, 100.0)))],
       [], [Protection(0, 9, 0, 90.0, 90.0, StopPending)], [ProtectionEvent(0, None, StopPending, 9, 0, 90.0)],
       [NewReservation(SAMPLE)] + [NewReservation(SECOND)])
  }

  lemma MostIsFilled()
    ensures Step(Opened(100.0), MOST).db == Refilled().(reservations := [NewReservation(SAMPLE)])
  {
  }

  lemma MoreIsHeld()
    ensures Step(Refilled().(reservations := [NewReservation(SAMPLE)]), HOLD_MORE).db == Refilled()
  {
    var db := Refilled().(reservations := [NewReservation(SAMPLE)]);
    WorkingStandsAlone(db.orders[0], 0);
    forall d: Dimension ensures UsedExposure(db, d, SECOND) == 100.0 {
      SumOfOne(db, d, SECOND);
    }
    assert db.reservations == [] + [NewReservation(SAMPLE)];
    SumRealAppend([], NewReservation(SAMPLE), CashTerm("acct", KR));
    SumRealAppend([], NewReservation(SAMPLE), RiskTerm("acct", KR));
    assert ReservedCash(db, "acct", KR) == 1000.0 && ReservedRisk(db, "acct", KR) == 10.0;
    assert !SameKey(NewReservation(SAMPLE), NewReservation(SECOND));
    assert FindReserved(db.reservations, NewReservation(SECOND)).None?;
    assert ExposureObstacle(db, SECOND, THOUSANDS).None?;
  }

  lemma SumOfTwo(db: Db, r: Reservation, s: Reservation, d: Dimension, q: Request)
    requires db.reservations == [r] + [s]
    ensures UsedExposure(db, d, q) == PendingTerm(db.orders, d, q)(r) + PendingTerm(db.orders, d, q)(s)
  {
    SumRealAppend([r], s, PendingTerm(db.orders, d, q));
    assert [r] == [] + [r];
    SumRealAppend([], r, PendingTerm(db.orders, d, q));
  }

  lemma RefillingReaches()
    ensures Run(EMPTY_DB, Opening(100.0) + [MOST] + [HOLD_MORE]) == Refilled()
  {
    OpeningReaches(100.0);
    RunOneMore(EMPTY_DB, Opening(100.0), MOST);
    MostIsFilled();
    RunOneMore(EMPTY_DB, Opening(100.0) + [MOST], HOLD_MORE);
    MoreIsHeld();
  }

  lemma LastCompletes()
    ensures Accepts(Refilled(), 0, 1, 100.0, "")
    ensures Step(Refilled(), LAST).reply.status == Filled
    ensures Step(Refilled(), LAST).db.orders == [Asking(100.0, Filled, 10, 100.0)]
    ensures Step(Refilled(), LAST).db.reservations == Refilled().reservations
  {
  }

  lemma RefilledSum()
    ensures UsedExposure(Refilled(), WholeMarket, SAMPLE) == 1000.0
  {
    WorkingStandsAlone(Refilled().orders[0], 0);
    SumOfTwo(Refilled(), NewReservation(SAMPLE), NewReservation(SECOND), WholeMarket, SAMPLE);
  }

  lemma CompletedSum(after: Db)
    requires after.orders == [Asking(100.0, Filled, 10, 100.0)] && after.reservations == Refilled().reservations
    ensures UsedExposure(after, WholeMarket, SAMPLE) == 1900.0
  {
    WorkingStandsAlone(after.orders[0], 0);
    SumOfTwo(after, NewReservation(SAMPLE), NewReservation(SECOND), WholeMarket, SAMPLE);
  }

  /**
   Completing an order can lift a sum above every limit that was ever passed: the order stops
   standing for its reservation, which counts in full again until it is released.
   */
  lemma CompletionCanRaise()
    ensures var db := Run(EMPTY_DB, Opening(100.0) + [MOST] + [HOLD_MORE]);
      Accepts(db, 0, 1, 100.0, "") && Step(db, LAST).reply.status == Filled
      && UsedExposure(db, WholeMarket, SAMPLE) == 1000.0
      && UsedExposure(Step(db, LAST).db, WholeMarket, SAMPLE) == 1900.0
  {
    RefillingReaches();
    LastCompletes();
    RefilledSum();
    CompletedSum(Step(Refilled(), LAST).db);
  }
}
