/** The projector's trade transaction whole: contexts, orders, the fill row, and the books. */
module Projector {
  import opened Common
  import opened Fills
  import opened Positions
  import Status = OrderStatus
  import Orders = OrderRows
  import Books = PositionBook
  import Runs = PositionRuns

  datatype Projection = Projection(tables: Status.Tables, book: Books.Book)

  const EMPTY_PROJECTION := Projection(Status.EMPTY_TABLES, Books.EMPTY_BOOK)

  /** The fill with the contexts that its transaction loads. */
  function Loaded(tables: Status.Tables, f: Fill): Option<Books.Trade> {
    var maker, taker := Status.Load(tables, f.makerOrder), Status.Load(tables, f.takerOrder);
    if maker.Some? && taker.Some? then Some(Books.Trade(f, maker.value, taker.value)) else None
  }

  /** One transaction of the projector, or None where it is rolled back. */
  ghost function Apply(s: Projection, e: Status.Event): Option<Projection> {
    var tables := Status.Apply(s.tables, e);
    if tables.None? then None
    else if e.Traded? && !Clashes(s.tables.fills, e.fill)
    then Some(Projection(tables.value, Books.ProjectFill(s.book, Loaded(s.tables, e.fill).value)))
    else Some(Projection(tables.value, s.book))
  }

  class Repository {
    const orders: Status.Repository
    const books: Books.Repository

    ghost function State(): Projection
      reads orders, books
    {
      Projection(orders.State(), books.State())
    }

    constructor ()
      ensures State() == EMPTY_PROJECTION && fresh(orders) && fresh(books)
    {
      orders := new Status.Repository();
      books := new Books.Repository();
    }

    /** Contexts, orders, the fill and both statuses first; the books follow a fill row that was inserted. */
    method ProjectTradeExecuted(f: Fill) returns (ok: bool)
      modifies orders, books
      ensures ok == Apply(old(State()), Status.Traded(f)).Some?
      ensures State() == if ok then Apply(old(State()), Status.Traded(f)).value else old(State())
    {
      var maker := orders.LoadContext(f.makerOrder);
      var taker := orders.LoadContext(f.takerOrder);
      var inserted;
      ok, inserted := orders.ProjectTradeOrders(f);
      if inserted {
        books.ProjectInsertedFill(Books.Trade(f, maker.value, taker.value));
      }
    }
  }

  // ---- runs ----

  ghost function Deliver(s: Projection, e: Status.Event): Projection {
    if Apply(s, e).Some? then Apply(s, e).value else s
  }

  ghost function Run(events: seq<Status.Event>): Projection {
    if events == [] then EMPTY_PROJECTION else Deliver(Run(events[..|events| - 1]), events[|events| - 1])
  }

  /** The trades of the run whose contexts were there, each with the contexts that it has loaded. */
  ghost function LoadedTrades(events: seq<Status.Event>): seq<Books.Trade> {
    if events == [] then [] else
      var before, last := events[..|events| - 1], events[|events| - 1];
      var trade := if last.Traded? then Loaded(Run(before).tables, last.fill) else None;
      if trade.Some? then LoadedTrades(before) + [trade.value] else LoadedTrades(before)
  }

  /**
   * The whole transaction is the order status machine and the position machine side by side,
   * over one fills table: every theorem about either holds of its runs.
   */
  lemma {:induction false} RunIsBothMachines(events: seq<Status.Event>)
    ensures Run(events).tables == Status.Run(Status.EMPTY_TABLES, events)
    ensures Runs.Projected(Run(events).tables.fills, Run(events).book) == Runs.Run(LoadedTrades(events))
  {
    if events != [] {
      var init, last := events[..|events| - 1], events[|events| - 1];
      RunIsBothMachines(init);
      if last.Traded? {
        TradeIsBothSteps(Run(init), last.fill, LoadedTrades(init));
      }
    }
  }

  lemma TradeIsBothSteps(s: Projection, f: Fill, trades: seq<Books.Trade>)
    requires Runs.Projected(s.tables.fills, s.book) == Runs.Run(trades)
    ensures var t := Deliver(s, Status.Traded(f));
      var trade := Loaded(s.tables, f);
      Runs.Projected(t.tables.fills, t.book) == Runs.Run(if trade.Some? then trades + [trade.value] else trades)
  {
    var trade := Loaded(s.tables, f);
    if trade.Some? {
      assert (trades + [trade.value])[..|trades|] == trades;
      if Status.Apply(s.tables, Status.Traded(f)).Some? {
        Status.TradedOn(s.tables, f, f.makerOrder);
      }
    }
  }

  /**
   * Each trade of the positions is a TradeExecuted of the run, with the contexts last saved for
   * its two orders by then.
   */
  lemma {:induction false} TradesHaveTheirContexts(events: seq<Status.Event>, i: nat) returns (n: nat)
    requires i < |LoadedTrades(events)|
    ensures var t := LoadedTrades(events)[i];
      && n < |events| && events[n] == Status.Traded(t.fill)
      && Orders.LastSaved(events[..n], t.fill.makerOrder) == Some(t.maker)
      && Orders.LastSaved(events[..n], t.fill.takerOrder) == Some(t.taker)
  {
    var init, last := events[..|events| - 1], events[|events| - 1];
    if i < |LoadedTrades(init)| {
      n := TradesHaveTheirContexts(init, i);
      assert events[..n] == init[..n];
    } else {
      n := |init|;
      RunIsBothMachines(init);
      Orders.LoadedIsTheLastSaved(init, last.fill.makerOrder);
      Orders.LoadedIsTheLastSaved(init, last.fill.takerOrder);
    }
  }

  /** For one: the stored rows of every slot balance over the distinct fills of any run of events. */
  lemma EveryProjectionBalances(events: seq<Status.Event>, slot: Slot)
    requires Runs.Priced(LoadedTrades(events))
    ensures var s, legs := Run(events), Runs.LegsOf(Runs.Accepted(LoadedTrades(events)), slot);
      var open, closed := Books.At(s.book.positions, slot), Runs.RowsOf(s.book.closed, slot);
      && Sane(open)
      && Total(MarginTaken, legs) == OpenMargin(open) + Rows(RowMargin, closed)
      && Signed(open) == Total(Applied, legs)
      && Total(Entered, legs) == OpenQuantity(open) + Rows(RowQuantity, closed)
      && Rows(Realized, closed) + Rows(Clamped, closed)
         == Total(Cash, legs) + AtCost(open) + Total(LongRemainder, legs) - Total(ShortRemainder, legs)
  {
    RunIsBothMachines(events);
    Runs.EveryRunBalances(LoadedTrades(events), slot);
  }
}
