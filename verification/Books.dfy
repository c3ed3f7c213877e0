/**
 Quantity and cash books: what the order table as a whole says a position must hold.
 The sums below look at every order of a position; the fills only ever touch one row.
 */
module Books {
  import opened Sums
  import opened Wrappers
  import opened Tables
  import opened LedgerSteps

  predicate Concerns(o: Order, position: nat, action: string) {
    o.position == Some(position) && o.action == action
  }

  ghost function QtyOf(position: nat, action: string): Order -> int {
    (o: Order) => if Concerns(o, position, action) then o.filledQty else 0
  }

  ghost function CashOf(position: nat, action: string): Order -> real {
    (o: Order) => if Concerns(o, position, action) then o.averageFillPrice * o.filledQty as real else 0.0
  }

  /** Total quantity filled over all orders of `position` with this action. */
  ghost function FilledQty(orders: seq<Order>, position: nat, action: string): int {
    SumInt(orders, QtyOf(position, action))
  }

  /** Total money exchanged by those fills: the sum of average price times filled quantity. */
  ghost function FilledCash(orders: seq<Order>, position: nat, action: string): real {
    SumReal(orders, CashOf(position, action))
  }

  const NO_POSITION := Position("", "", "", "", Long, 0.0, PendingEntry, 0, 0, 0.0, 0.0)

  function RowAt(positions: seq<Position>, id: nat): Position {
    if id < |positions| then positions[id] else NO_POSITION
  }

  /** Quantity conservation. */
  ghost predicate QuantityBalanced(orders: seq<Order>, id: nat, p: Position) {
    p.filledQty == FilledQty(orders, id, "buy")
    && p.remainingQty == FilledQty(orders, id, "buy") - FilledQty(orders, id, "sell")
  }

  /** Cash identity: realized profit is proceeds minus cost plus what the held shares cost. */
  ghost predicate CashBalanced(orders: seq<Order>, id: nat, p: Position) {
    p.realizedPnl
    == FilledCash(orders, id, "sell") - FilledCash(orders, id, "buy") + p.averagePrice * p.remainingQty as real
  }

  ghost predicate Balanced(orders: seq<Order>, id: nat, p: Position) {
    QuantityBalanced(orders, id, p) && CashBalanced(orders, id, p)
  }

  ghost predicate BooksBalance(orders: seq<Order>, positions: seq<Position>) {
    forall id: nat :: Balanced(orders, id, RowAt(positions, id))
  }

  /** Two order rows that the books cannot tell apart. */
  predicate SameBooks(o: Order, p: Order) {
    o.position == p.position && o.action == p.action
    && o.filledQty == p.filledQty && o.averageFillPrice == p.averageFillPrice
  }

  lemma SameBooksSameSums(orders: seq<Order>, k: nat, row: Order, id: nat, action: string)
    requires k < |orders| && SameBooks(orders[k], row)
    ensures FilledQty(orders[k := row], id, action) == FilledQty(orders, id, action)
    ensures FilledCash(orders[k := row], id, action) == FilledCash(orders, id, action)
  {
    SumIntUpdate(orders, k, row, QtyOf(id, action));
    SumRealUpdate(orders, k, row, CashOf(id, action));
  }

  lemma UnfilledChangeKeepsBooks(orders: seq<Order>, positions: seq<Position>, k: nat, row: Order)
    requires k < |orders| && SameBooks(orders[k], row)
    requires BooksBalance(orders, positions)
    ensures BooksBalance(orders[k := row], positions)
  {
    forall id: nat ensures Balanced(orders[k := row], id, RowAt(positions, id)) {
      assert Balanced(orders, id, RowAt(positions, id));
      SameBooksSameSums(orders, k, row, id, "buy");
      SameBooksSameSums(orders, k, row, id, "sell");
    }
  }

  lemma NewOrderKeepsBooks(orders: seq<Order>, positions: seq<Position>, row: Order)
    requires row.filledQty == 0
    requires BooksBalance(orders, positions)
    ensures BooksBalance(orders + [row], positions)
  {
  }

  /** A position row that keeps its quantities and money keeps the books. */
  predicate SameMoney(p: Position, q: Position) {
    p.filledQty == q.filledQty && p.remainingQty == q.remainingQty
    && p.averagePrice == q.averagePrice && p.realizedPnl == q.realizedPnl
  }

  lemma SameMoneyKeepsBooks(orders: seq<Order>, before: seq<Position>, after: seq<Position>)
    requires forall id: nat :: SameMoney(RowAt(before, id), RowAt(after, id))
    requires BooksBalance(orders, before)
    ensures BooksBalance(orders, after)
  {
  }

  lemma FillMovesQty(orders: seq<Order>, k: nat, qty: nat, price: real, id: nat, action: string)
    requires k < |orders| && 0 < qty
    ensures FilledQty(orders[k := FilledOrder(orders[k], qty, price)], id, action)
            == FilledQty(orders, id, action) + (if Concerns(orders[k], id, action) then qty else 0)
  {
    SumIntUpdate(orders, k, FilledOrder(orders[k], qty, price), QtyOf(id, action));
  }

  /** One order's money after a fill: exactly the traded money more. */
  lemma FillMovesOrderCash(o: Order, qty: nat, price: real, id: nat, action: string)
    requires 0 < qty
    ensures CashOf(id, action)(FilledOrder(o, qty, price))
            == CashOf(id, action)(o) + (if Concerns(o, id, action) then price * qty as real else 0.0)
  {
  }

  lemma FillMovesCash(orders: seq<Order>, k: nat, qty: nat, price: real, id: nat, action: string)
    requires k < |orders| && 0 < qty
    ensures FilledCash(orders[k := FilledOrder(orders[k], qty, price)], id, action)
            == FilledCash(orders, id, action) + (if Concerns(orders[k], id, action) then price * qty as real else 0.0)
  {
    SumRealUpdate(orders, k, FilledOrder(orders[k], qty, price), CashOf(id, action));
    FillMovesOrderCash(orders[k], qty, price, id, action);
  }

  /** How one fill moves the sums of one position. */
  lemma FillMovesSums(orders: seq<Order>, k: nat, qty: nat, price: real, id: nat, action: string)
    requires k < |orders| && 0 < qty
    ensures var after := orders[k := FilledOrder(orders[k], qty, price)];
      FilledQty(after, id, action)
      == FilledQty(orders, id, action) + (if Concerns(orders[k], id, action) then qty else 0)
      && FilledCash(after, id, action)
         == FilledCash(orders, id, action) + (if Concerns(orders[k], id, action) then price * qty as real else 0.0)
  {
    FillMovesQty(orders, k, qty, price, id, action);
    FillMovesCash(orders, k, qty, price, id, action);
  }

  lemma BuyKeepsCash(orders: seq<Order>, after: seq<Order>, id: nat, p: Position, qty: nat, price: real)
    requires 0 < qty && CashBalanced(orders, id, p)
    requires FilledCash(after, id, "buy") == FilledCash(orders, id, "buy") + price * qty as real
    requires FilledCash(after, id, "sell") == FilledCash(orders, id, "sell")
    ensures CashBalanced(after, id, Bought(p, qty, price))
  {
  }

  lemma SellKeepsCash(orders: seq<Order>, after: seq<Order>, id: nat, p: Position, qty: nat, price: real)
    requires qty <= p.remainingQty && CashBalanced(orders, id, p)
    requires FilledCash(after, id, "sell") == FilledCash(orders, id, "sell") + price * qty as real
    requires FilledCash(after, id, "buy") == FilledCash(orders, id, "buy")
    ensures CashBalanced(after, id, Sold(p, qty, price))
  {
  }

  /** A buy fill moves its order and its position together, and no other position. */
  lemma BuyKeepsBooks(orders: seq<Order>, positions: seq<Position>, k: nat, id: nat, qty: nat, price: real)
    requires k < |orders| && id < |positions| && 0 < qty
    requires Concerns(orders[k], id, "buy")
    requires BooksBalance(orders, positions)
    ensures BooksBalance(orders[k := FilledOrder(orders[k], qty, price)],
                         positions[id := Bought(positions[id], qty, price)])
  {
    var after := orders[k := FilledOrder(orders[k], qty, price)];
    var moved := positions[id := Bought(positions[id], qty, price)];
    forall j: nat ensures Balanced(after, j, RowAt(moved, j)) {
      assert Balanced(orders, j, RowAt(positions, j));
      FillMovesSums(orders, k, qty, price, j, "buy");
      FillMovesSums(orders, k, qty, price, j, "sell");
      if j == id {
        BuyKeepsCash(orders, after, id, positions[id], qty, price);
      }
    }
  }

  lemma SellKeepsBooks(orders: seq<Order>, positions: seq<Position>, k: nat, id: nat, qty: nat, price: real)
    requires k < |orders| && id < |positions| && 0 < qty <= positions[id].remainingQty
    requires Concerns(orders[k], id, "sell")
    requires BooksBalance(orders, positions)
    ensures BooksBalance(orders[k := FilledOrder(orders[k], qty, price)],
                         positions[id := Sold(positions[id], qty, price)])
  {
    var after := orders[k := FilledOrder(orders[k], qty, price)];
    var moved := positions[id := Sold(positions[id], qty, price)];
    forall j: nat ensures Balanced(after, j, RowAt(moved, j)) {
      assert Balanced(orders, j, RowAt(positions, j));
      FillMovesSums(orders, k, qty, price, j, "buy");
      FillMovesSums(orders, k, qty, price, j, "sell");
      if j == id {
        SellKeepsCash(orders, after, id, positions[id], qty, price);
      }
    }
  }
}
