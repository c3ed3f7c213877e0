/** What the reservation table guarantees about every single step. */
module RiskBudget {
  import opened Sums
  import opened Wrappers
  import opened Tables
  import opened RiskSteps

  ghost predicate ReservationRowOk(r: Reservation) {
    0.0 <= r.cash && 0.0 <= r.risk && 0.0 <= r.exposure && (r.position.Some? || r.order.Some?)
  }

  ghost predicate OneActivePerKey(rows: seq<Reservation>) {
    forall i, j :: 0 <= i < j < |rows| && rows[i].status == Reserved && rows[j].status == Reserved
                   ==> !SameKey(rows[i], rows[j])
  }

  ghost predicate ReservationsSound(rows: seq<Reservation>) {
    (forall i :: 0 <= i < |rows| ==> ReservationRowOk(rows[i])) && OneActivePerKey(rows)
  }

  /** A new reservation spends within the limits of its own call; nothing else of the budget moves. */
  lemma ReserveSpends(
    db: Db, q: Request, availableCash: real, riskLimit: real, limits: Option<Limits>, account: string, market: string)
    ensures var out := ReserveRiskBudget(db, q, availableCash, riskLimit, limits);
      var mine := q.account == account && q.market == market && out.db != db;
      ReservedCash(out.db, account, market) == ReservedCash(db, account, market) + (if mine then q.cash else 0.0)
      && ReservedRisk(out.db, account, market) == ReservedRisk(db, account, market) + (if mine then q.risk else 0.0)
      && (mine ==> ReservedCash(out.db, account, market) <= availableCash
                   && ReservedRisk(out.db, account, market) <= riskLimit)
  {
    var out := ReserveRiskBudget(db, q, availableCash, riskLimit, limits);
    if out.db != db {
      SumRealAppend(db.reservations, NewReservation(q), CashTerm(account, market));
      SumRealAppend(db.reservations, NewReservation(q), RiskTerm(account, market));
    }
  }

  /** A release gives back exactly what the row held, and gives it back once. */
  lemma ReleaseReturns(db: Db, id: nat, final: ReservationStatus, account: string, market: string)
    ensures var out := ReleaseRiskReservation(db, id, final);
      var gives := id < |db.reservations| && final != Reserved && InBudget(db.reservations[id], account, market);
      ReservedCash(out.db, account, market)
      == ReservedCash(db, account, market) - (if gives then db.reservations[id].cash else 0.0)
      && ReservedRisk(out.db, account, market)
         == ReservedRisk(db, account, market) - (if gives then db.reservations[id].risk else 0.0)
      && ReleaseRiskReservation(out.db, id, final).db == out.db
  {
    if id < |db.reservations| && final != Reserved {
      var row := db.reservations[id].(status := final);
      SumRealUpdate(db.reservations, id, row, CashTerm(account, market));
      SumRealUpdate(db.reservations, id, row, RiskTerm(account, market));
    }
  }

  /**
   Asking again for a reservation that is still active returns the same row and changes nothing,
   whatever cash, risk or exposure limits the second call passes.
   */
  lemma RepeatIsIdempotent(
    db: Db, q: Request, id: nat, availableCash: real, riskLimit: real, limits: Option<Limits>)
    requires ReservationsSound(db.reservations)
    requires id < |db.reservations| && db.reservations[id] == NewReservation(q)
    requires RequestObstacle(q, availableCash, riskLimit).None?
    ensures ReserveRiskBudget(db, q, availableCash, riskLimit, limits) == Outcome(db, ReservationRow(id, false))
  {
  }
}
