/** The fills table, which order status and positions share. */
module Fills {

  /** A row of fills, as the TradeExecuted event brings it. */
  datatype Fill = Fill(
    id: int, market: int, sequence: int, price: int, quantity: int, makerOrder: int, takerOrder: int)

  /** The CHECK constraints; violating one aborts the transaction. */
  predicate Admissible(f: Fill) {
    f.price >= 0 && f.quantity > 0 && f.sequence > 0
  }

  /** Either unique key: ON CONFLICT DO NOTHING. */
  predicate Clashes(fills: map<int, Fill>, f: Fill) {
    f.id in fills || exists id :: id in fills && fills[id].market == f.market && fills[id].sequence == f.sequence
  }

  function WithFill(fills: map<int, Fill>, f: Fill): map<int, Fill> {
    if Clashes(fills, f) then fills else fills[f.id := f]
  }

  predicate Involves(f: Fill, order: int) {
    f.makerOrder == order || f.takerOrder == order
  }
}
