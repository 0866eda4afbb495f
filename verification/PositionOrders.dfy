/** Which orders the rows of a slot name: the one that opened the position, and the one that closed it. */
module PositionOrders {
  import opened Common
  import opened Positions
  import opened PositionBook
  import opened PositionRuns

  /**
   * The order whose fill opened the position that a run of legs has left, the last to find it flat
   * or to reverse it.
   */
  function Opener(legs: seq<Leg>): Option<int> {
    if legs == [] then None
    else
      var init, last := legs[..|legs| - 1], legs[|legs| - 1];
      var before := After(init).open;
      if Dropped(before, last) then Opener(init)
      else if before.None? then Some(last.order)
      else if before.value.side == last.context.side || last.quantity < before.value.quantity then Opener(init)
      else if last.quantity > before.value.quantity then Some(last.order)
      else None
  }

  lemma {:induction false} OpenRowNamesItsOpener(legs: seq<Leg>)
    ensures After(legs).open.Some? <==> Opener(legs).Some?
    ensures After(legs).open.Some? ==> After(legs).open.value.openOrder == Opener(legs)
  {
    if legs != [] {
      OpenRowNamesItsOpener(legs[..|legs| - 1]);
    }
  }

  /** The row names as opener the order that had opened the position before leg k, and as closer the order of leg k. */
  predicate ClosedBy(row: Closed, legs: seq<Leg>, k: nat) {
    && k < |legs| && Opener(legs[..k]) == Some(row.openOrder)
    && row.closeOrder == legs[k].order && row.exit == legs[k].price && row.side != legs[k].context.side
    && row.slot == legs[k].context.slot
  }

  /** Every closed row was written by some leg, and names the orders of both its ends. */
  lemma {:induction false} ClosedRowNamesItsOrders(legs: seq<Leg>, i: nat) returns (k: nat)
    requires i < |After(legs).closed|
    ensures ClosedBy(After(legs).closed[i], legs, k)
  {
    var init, last := legs[..|legs| - 1], legs[|legs| - 1];
    if i < |After(init).closed| {
      k := ClosedRowNamesItsOrders(init, i);
      assert legs[..k] == init[..k];
    } else {
      k := |init|;
      OpenRowNamesItsOpener(init);
    }
  }

  /** A leg is one side of the trade: its context, its order, the trade's price and quantity. */
  predicate IsSide(t: Trade, leg: Leg) {
    && leg.price == t.fill.price && leg.quantity == t.fill.quantity
    && ((leg.context == t.maker && leg.order == t.fill.makerOrder)
        || (leg.context == t.taker && leg.order == t.fill.takerOrder))
  }

  lemma {:induction false} LegsAreSides(trades: seq<Trade>, slot: Slot)
    ensures forall leg <- LegsOf(trades, slot) ::
      leg.context.slot == slot && exists t :: t in trades && IsSide(t, leg)
  {
    if trades != [] {
      var init, last := trades[..|trades| - 1], trades[|trades| - 1];
      assert trades == init + [last];
      LegsAreSides(init, slot);
      forall leg <- LegsOf(trades, slot)
        ensures leg.context.slot == slot && exists t :: t in trades && IsSide(t, leg)
      {
        if leg in LegsOf(init, slot) {
          var t :| t in init && IsSide(t, leg);
          assert t in trades;
        } else {
          assert leg in LegsOfTrade(last, slot) && IsSide(last, leg);
        }
      }
    }
  }

  /**
   * In the tables, after any delivery: an open row names the order that opened it, and each
   * closed row the two orders at its ends, by the distinct fills of its slot.
   */
  lemma EveryRowNamesItsOrders(trades: seq<Trade>, slot: Slot, i: nat) returns (k: nat)
    requires i < |RowsOf(Run(trades).book.closed, slot)|
    ensures ClosedBy(RowsOf(Run(trades).book.closed, slot)[i], LegsOf(Accepted(trades), slot), k)
    ensures slot in Run(trades).book.positions ==>
      Run(trades).book.positions[slot].openOrder == Opener(LegsOf(Accepted(trades), slot))
  {
    SlotIsItsOwnRun(trades, slot);
    OpenRowNamesItsOpener(LegsOf(Accepted(trades), slot));
    k := ClosedRowNamesItsOrders(LegsOf(Accepted(trades), slot), i);
  }
}
