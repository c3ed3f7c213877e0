/**
 What the reservation checks add up, row by row: which reservations a limit counts, what each counts
 with, and how the four groupings relate.
 */
module ExposureColumns {
  import opened Wrappers
  import opened Sums
  import opened Tables
  import opened RiskSteps
  import opened LedgerRuns
  import opened Exposure

  // ---- what one reservation counts with ----

  /** A buy of the position that may still be filled. */
  predicate StillBuying(o: Order, position: nat) {
    o.position == Some(position) && o.action == "buy"
    && o.status in {IntentCreated, RiskApproved, ApprovalQueued, Approved, Submitting, Submitted, PartiallyFilled,
                    CancelPending, BrokerUnknown}
  }

  /** What the order has still to buy, at the price it asks. */
  function StillToBuy(o: Order): real {
    match o.requestedPrice
    case None => 0.0
    case Some(price) => if o.filledQty < o.requestedQty then (o.requestedQty - o.filledQty) as real * price else 0.0
  }

  /** A reservation counts with the newest order still buying for its position, else with its own amount. */
  lemma PendingByColumns(orders: seq<Order>, r: Reservation)
    ensures (r.position.None? || forall o :: o in orders ==> !StillBuying(o, r.position.value))
            ==> PendingExposure(orders, r) == r.exposure
    ensures forall k :: 0 <= k < |orders| && r.position.Some? && StillBuying(orders[k], r.position.value)
                        && (forall j :: k < j < |orders| ==> !StillBuying(orders[j], r.position.value))
                        ==> PendingExposure(orders, r) == StillToBuy(orders[k])
  {
    if r.position.Some? {
      assert forall o: Order :: WorkingBuy(o, r.position.value) <==> StillBuying(o, r.position.value);
    }
  }

  // ---- which reservations a sum counts ----

  /** The active reservations of an account and market that `picks` picks, each with its pending exposure. */
  function ActiveTerm(
    orders: seq<Order>, account: string, market: string, picks: Reservation -> bool): Reservation -> real
  {
    (r: Reservation) =>
      if r.account == account && r.market == market && r.status == Reserved && picks(r)
      then PendingExposure(orders, r) else 0.0
  }

  function ActiveSum(db: Db, account: string, market: string, picks: Reservation -> bool): real {
    SumReal(db.reservations, ActiveTerm(db.orders, account, market, picks))
  }

  function OfSymbol(symbol: string): Reservation -> bool { (r: Reservation) => r.symbol == symbol }

  function OfSector(sector: string): Reservation -> bool { (r: Reservation) => r.sector == sector }

  function OfStrategy(strategy: string): Reservation -> bool { (r: Reservation) => r.strategy == strategy }

  function Anything(): Reservation -> bool { (r: Reservation) => true }

  /**
   The position limit counts every strategy's reservations on the symbol, the sector limit the whole
   sector, the strategy limit the whole strategy, and the market limit everything.
   */
  lemma SumsByColumns(db: Db, q: Request)
    ensures UsedExposure(db, OnePosition, q) == ActiveSum(db, q.account, q.market, OfSymbol(q.symbol))
    ensures UsedExposure(db, WholeMarket, q) == ActiveSum(db, q.account, q.market, Anything())
    ensures UsedExposure(db, OneSector, q) == ActiveSum(db, q.account, q.market, OfSector(q.sector))
    ensures UsedExposure(db, OneStrategy, q) == ActiveSum(db, q.account, q.market, OfStrategy(q.strategy))
  {
    SumRealSame(db.reservations, PendingTerm(db.orders, OnePosition, q),
                ActiveTerm(db.orders, q.account, q.market, OfSymbol(q.symbol)));
    SumRealSame(db.reservations, PendingTerm(db.orders, WholeMarket, q),
                ActiveTerm(db.orders, q.account, q.market, Anything()));
    SumRealSame(db.reservations, PendingTerm(db.orders, OneSector, q),
                ActiveTerm(db.orders, q.account, q.market, OfSector(q.sector)));
    SumRealSame(db.reservations, PendingTerm(db.orders, OneStrategy, q),
                ActiveTerm(db.orders, q.account, q.market, OfStrategy(q.strategy)));
  }

  /** Requests of different strategies on one symbol see the same position sum. */
  lemma StrategiesShareTheSymbol(db: Db, p: Request, q: Request)
    requires p.account == q.account && p.market == q.market && p.symbol == q.symbol
    ensures UsedExposure(db, OnePosition, p) == UsedExposure(db, OnePosition, q)
  {
    SumsByColumns(db, p);
    SumsByColumns(db, q);
  }

  // ---- the groups add up to the market ----

  ghost predicate Distinct(keys: seq<string>) {
    forall i, j :: 0 <= i < j < |keys| ==> keys[i] != keys[j]
  }

  /** The sums of several groups, added up. */
  function GroupTotal(
    db: Db, account: string, market: string, group: string -> Reservation -> bool, keys: seq<string>): real
  {
    if keys == [] then 0.0
    else
      GroupTotal(db, account, market, group, keys[..|keys| - 1])
      + ActiveSum(db, account, market, group(keys[|keys| - 1]))
  }

  function InGroups(group: string -> Reservation -> bool, keys: seq<string>): Reservation -> bool {
    (r: Reservation) => exists i :: 0 <= i < |keys| && group(keys[i])(r)
  }

  /** No row is in two groups. */
  ghost predicate Apart(group: string -> Reservation -> bool) {
    forall a: string, b: string, r: Reservation :: a != b ==> !(group(a)(r) && group(b)(r))
  }

  lemma {:induction false} GroupsAddUp(
    db: Db, account: string, market: string, group: string -> Reservation -> bool, keys: seq<string>)
    requires Distinct(keys) && Apart(group)
    ensures GroupTotal(db, account, market, group, keys) == ActiveSum(db, account, market, InGroups(group, keys))
    decreases |keys|
  {
    if keys == [] {
      SumOfZeros(db.reservations, ActiveTerm(db.orders, account, market, InGroups(group, keys)));
    } else {
      var n := |keys| - 1;
      GroupsAddUp(db, account, market, group, keys[..n]);
      forall r | r in db.reservations
        ensures ActiveTerm(db.orders, account, market, InGroups(group, keys))(r)
                == ActiveTerm(db.orders, account, market, InGroups(group, keys[..n]))(r)
                   + ActiveTerm(db.orders, account, market, group(keys[n]))(r)
      {
        OneGroupMore(group, keys, r);
      }
      SumRealPlus(db.reservations, ActiveTerm(db.orders, account, market, InGroups(group, keys[..n])),
                  ActiveTerm(db.orders, account, market, group(keys[n])),
                  ActiveTerm(db.orders, account, market, InGroups(group, keys)));
    }
  }

  lemma OneGroupMore(group: string -> Reservation -> bool, keys: seq<string>, r: Reservation)
    requires keys != [] && Distinct(keys) && Apart(group)
    ensures var n := |keys| - 1;
      (InGroups(group, keys)(r) <==> InGroups(group, keys[..n])(r) || group(keys[n])(r))
      && !(InGroups(group, keys[..n])(r) && group(keys[n])(r))
  {
    var n := |keys| - 1;
    if InGroups(group, keys)(r) {
      var i :| 0 <= i < |keys| && group(keys[i])(r);
      assert i < n ==> keys[..n][i] == keys[i];
    }
    if InGroups(group, keys[..n])(r) {
      var i :| 0 <= i < n && group(keys[..n][i])(r);
      assert group(keys[i])(r) && keys[i] != keys[n];
    }
  }

  /** Every active row of the account and market is in one of the groups. */
  ghost predicate CoversAll(
    db: Db, account: string, market: string, group: string -> Reservation -> bool, keys: seq<string>)
  {
    forall r :: r in db.reservations && r.account == account && r.market == market && r.status == Reserved
                ==> InGroups(group, keys)(r)
  }

  /** The market sum is the total of the groups, whichever way the rows are grouped. */
  lemma MarketIsSumOfGroups(
    db: Db, account: string, market: string, group: string -> Reservation -> bool, keys: seq<string>)
    requires Distinct(keys) && Apart(group) && CoversAll(db, account, market, group, keys)
    ensures GroupTotal(db, account, market, group, keys) == ActiveSum(db, account, market, Anything())
  {
    GroupsAddUp(db, account, market, group, keys);
    SumRealSame(db.reservations, ActiveTerm(db.orders, account, market, InGroups(group, keys)),
                ActiveTerm(db.orders, account, market, Anything()));
  }

  function Total(db: Db, d: Dimension, requests: seq<Request>): real {
    if requests == [] then 0.0
    else Total(db, d, requests[..|requests| - 1]) + UsedExposure(db, d, requests[|requests| - 1])
  }

  function KeyOf(d: Dimension, q: Request): string {
    match d
    case OnePosition => q.symbol
    case OneSector => q.sector
    case OneStrategy => q.strategy
    case WholeMarket => ""
  }

  function GroupOf(d: Dimension): string -> Reservation -> bool {
    match d
    case OnePosition => OfSymbol
    case OneSector => OfSector
    case OneStrategy => OfStrategy
    case WholeMarket => (key: string) => Anything()
  }

  function Keys(d: Dimension, requests: seq<Request>): seq<string> {
    seq(|requests|, i requires 0 <= i < |requests| => KeyOf(d, requests[i]))
  }

  lemma {:induction false} TotalIsGroupTotal(
    db: Db, d: Dimension, account: string, market: string, requests: seq<Request>)
    requires d != WholeMarket
    requires forall q :: q in requests ==> q.account == account && q.market == market
    ensures Total(db, d, requests) == GroupTotal(db, account, market, GroupOf(d), Keys(d, requests))
    decreases |requests|
  {
    if requests != [] {
      var n := |requests| - 1;
      TotalIsGroupTotal(db, d, account, market, requests[..n]);
      assert Keys(d, requests)[..n] == Keys(d, requests[..n]);
      assert requests[n] in requests;
      SumsByColumns(db, requests[n]);
    }
  }

  /**
   The market sum a request sees is the total of the position sums over all symbols, of the sector
   sums over all sectors, and of the strategy sums over all strategies: nothing is counted twice and
   nothing is left out.
   */
  lemma MarketIsSumOfDimension(db: Db, d: Dimension, q: Request, requests: seq<Request>)
    requires d != WholeMarket && Distinct(Keys(d, requests))
    requires forall p :: p in requests ==> p.account == q.account && p.market == q.market
    requires forall r :: r in db.reservations && r.account == q.account && r.market == q.market && r.status == Reserved
                         ==> exists p :: p in requests
                                         && (d == OnePosition ==> p.symbol == r.symbol)
                                         && (d == OneSector ==> p.sector == r.sector)
                                         && (d == OneStrategy ==> p.strategy == r.strategy)
    ensures Total(db, d, requests) == UsedExposure(db, WholeMarket, q)
  {
    forall r | r in db.reservations && r.account == q.account && r.market == q.market && r.status == Reserved
      ensures InGroups(GroupOf(d), Keys(d, requests))(r)
    {
      var p :| p in requests
               && (d == OnePosition ==> p.symbol == r.symbol)
               && (d == OneSector ==> p.sector == r.sector)
               && (d == OneStrategy ==> p.strategy == r.strategy);
      var i :| 0 <= i < |requests| && requests[i] == p;
      assert GroupOf(d)(Keys(d, requests)[i])(r);
    }
    TotalIsGroupTotal(db, d, q.account, q.market, requests);
    MarketIsSumOfGroups(db, q.account, q.market, GroupOf(d), Keys(d, requests));
    SumsByColumns(db, q);
  }

  // ---- admission by columns ----

  function ActiveCash(account: string, market: string): Reservation -> real {
    (r: Reservation) => if r.account == account && r.market == market && r.status == Reserved then r.cash else 0.0
  }

  function ActiveRisk(account: string, market: string): Reservation -> real {
    (r: Reservation) => if r.account == account && r.market == market && r.status == Reserved then r.risk else 0.0
  }

  lemma BudgetByColumns(db: Db, account: string, market: string)
    ensures ReservedCash(db, account, market) == SumReal(db.reservations, ActiveCash(account, market))
    ensures ReservedRisk(db, account, market) == SumReal(db.reservations, ActiveRisk(account, market))
  {
    SumRealSame(db.reservations, CashTerm(account, market), ActiveCash(account, market));
    SumRealSame(db.reservations, RiskTerm(account, market), ActiveRisk(account, market));
  }

  /** The amounts and limits are numbers a reservation can be made of, for something of this market. */
  ghost predicate WellFormed(q: Request, availableCash: real, riskLimit: real) {
    q.market == "KR" && q.account != "" && q.strategy != "" && (q.position != None || q.order != None)
    && 0.0 <= q.cash && 0.0 <= q.risk && (0.0 < q.cash || 0.0 < q.risk)
    && (q.exposure.Some? ==> 0.0 <= q.exposure.value)
    && 0.0 <= availableCash && 0.0 <= riskLimit
  }

  /** The exposure a request asks for: what it says, or its cash. */
  function Asked(q: Request): real {
    match q.exposure
    case Some(amount) => amount
    case None => q.cash
  }

  /** Is row `r` the active reservation of the request's account, strategy, position and order? */
  predicate HeldFor(r: Reservation, q: Request) {
    r.status == Reserved && r.account == q.account && r.market == q.market && r.strategy == q.strategy
    && r.position == q.position && r.order == q.order
  }

  ghost predicate WithinLimits(db: Db, q: Request, limits: Limits) {
    q.symbol != "" && q.sector != ""
    && 0.0 <= limits.position && 0.0 <= limits.market && 0.0 <= limits.sector && 0.0 <= limits.strategy
    && ActiveSum(db, q.account, q.market, OfSymbol(q.symbol)) + Asked(q) <= limits.position
    && ActiveSum(db, q.account, q.market, Anything()) + Asked(q) <= limits.market
    && ActiveSum(db, q.account, q.market, OfSector(q.sector)) + Asked(q) <= limits.sector
    && ActiveSum(db, q.account, q.market, OfStrategy(q.strategy)) + Asked(q) <= limits.strategy
  }

  lemma WithinLimitsIff(db: Db, q: Request, limits: Limits)
    ensures ExposureObstacle(db, q, limits).None? <==> WithinLimits(db, q, limits)
  {
    SumsByColumns(db, q);
  }

  lemma HeldForIff(rows: seq<Reservation>, q: Request)
    ensures FindReserved(rows, NewReservation(q)).None? <==> forall r :: r in rows ==> !HeldFor(r, q)
  {
    var found := FindReserved(rows, NewReservation(q));
    if found.Some? {
      assert HeldFor(rows[found.value], q);
    } else {
      forall r | r in rows ensures !HeldFor(r, q) {
        var i :| 0 <= i < |rows| && rows[i] == r;
      }
    }
  }

  /** Exactly when a new reservation row is made, and the row. */
  lemma ReservedIff(db: Db, q: Request, availableCash: real, riskLimit: real, limits: Option<Limits>)
    ensures var out := ReserveRiskBudget(db, q, availableCash, riskLimit, limits);
      (out.reply == ReservationRow(|db.reservations|, true)
       <==> WellFormed(q, availableCash, riskLimit)
            && (forall r :: r in db.reservations ==> !HeldFor(r, q))
            && SumReal(db.reservations, ActiveCash(q.account, q.market)) + q.cash <= availableCash
            && SumReal(db.reservations, ActiveRisk(q.account, q.market)) + q.risk <= riskLimit
            && (limits.Some? ==> WithinLimits(db, q, limits.value)))
      && out.db == (if out.reply == ReservationRow(|db.reservations|, true)
                    then db.(reservations := db.reservations
                      + [Reservation(q.account, q.market, q.strategy, q.position, q.order, q.cash, q.risk, q.symbol,
                                     q.sector, Asked(q), Reserved)])
                    else db)
  {
    HeldForIff(db.reservations, q);
    BudgetByColumns(db, q.account, q.market);
    if limits.Some? {
      WithinLimitsIff(db, q, limits.value);
    }
  }

  /** A request for a key that is held is answered with its row if every amount is the same, else refused. */
  lemma HeldKeyAnswer(db: Db, q: Request, availableCash: real, riskLimit: real, limits: Option<Limits>, id: nat)
    requires WellFormed(q, availableCash, riskLimit) && id < |db.reservations| && HeldFor(db.reservations[id], q)
    requires forall i :: 0 <= i < |db.reservations| && HeldFor(db.reservations[i], q) ==> i == id
    ensures var out := ReserveRiskBudget(db, q, availableCash, riskLimit, limits);
      var r := db.reservations[id];
      out.db == db
      && (out.reply == ReservationRow(id, false)
          <==> r.cash == q.cash && r.risk == q.risk && r.exposure == Asked(q)
               && r.symbol == q.symbol && r.sector == q.sector)
      && (out.reply != ReservationRow(id, false) ==> out.reply.Failed?)
  {
    var found := FindReserved(db.reservations, NewReservation(q));
    assert found.Some? ==> HeldFor(db.reservations[found.value], q);
    HeldForIff(db.reservations, q);
    assert db.reservations[id] in db.reservations;
  }

  /** A refusal names the first check that fails: cash before risk, and both before any exposure. */
  lemma RefusalNamesFirst(db: Db, q: Request, availableCash: real, riskLimit: real, limits: Limits)
    requires WellFormed(q, availableCash, riskLimit) && forall r :: r in db.reservations ==> !HeldFor(r, q)
    requires q.symbol != "" && q.sector != ""
    requires 0.0 <= limits.position && 0.0 <= limits.market && 0.0 <= limits.sector && 0.0 <= limits.strategy
    ensures var reply := ReserveRiskBudget(db, q, availableCash, riskLimit, Some(limits)).reply;
      var cash := SumReal(db.reservations, ActiveCash(q.account, q.market)) + q.cash <= availableCash;
      var risk := SumReal(db.reservations, ActiveRisk(q.account, q.market)) + q.risk <= riskLimit;
      var position := ActiveSum(db, q.account, q.market, OfSymbol(q.symbol)) + Asked(q) <= limits.position;
      var all := ActiveSum(db, q.account, q.market, Anything()) + Asked(q) <= limits.market;
      var sector := ActiveSum(db, q.account, q.market, OfSector(q.sector)) + Asked(q) <= limits.sector;
      (reply == Failed(CashExceeded) <==> !cash)
      && (reply == Failed(RiskExceeded) <==> cash && !risk)
      && (reply == Failed(ExposureExceeded(OnePosition)) <==> cash && risk && !position)
      && (reply == Failed(ExposureExceeded(WholeMarket)) <==> cash && risk && position && !all)
      && (reply == Failed(ExposureExceeded(OneSector)) <==> cash && risk && position && all && !sector)
  {
    HeldForIff(db.reservations, q);
    BudgetByColumns(db, q.account, q.market);
    SumsByColumns(db, q);
  }

  /**
   Whatever strategies reserve on one symbol, in any interleaving of careful commands, what they have
   pending on it together stays within the largest position limit passed.
   */
  lemma {:induction false} SymbolNeverExceedsLimit(run: seq<Command>, q: Request, cap: real)
    requires 0.0 <= cap
    requires forall i :: 0 <= i < |run| ==> Careful(Run(EMPTY_DB, run[..i]), run[i], OnePosition, q, cap)
    ensures ActiveSum(Run(EMPTY_DB, run), q.account, q.market, OfSymbol(q.symbol)) <= cap
  {
    ExposureNeverExceeded(run, OnePosition, q, cap);
    SumsByColumns(Run(EMPTY_DB, run), q);
  }
}
