/** The rows of orders: what any delivery leaves in them, and how far that depends on its order. */
module OrderRows {
  import opened Common
  import opened Fills
  import opened Positions
  import opened OrderStatus

  // ---- cancellations, in any tables ----

  /** A cancellation that finds a context makes the row CANCELLED, and the context's row too, if there is one. */
  lemma CancellationCancels(s: Tables, o: int)
    requires Load(s, o).Some?
    ensures var n := Deliver(s, Cancelled(o));
      && StatusOf(n.orders, o) == Some(CANCELLED)
      && (o in s.contexts ==> o in n.contexts && n.contexts[o].status == CANCELLED)
  {
  }

  /** No event moves a row out of CANCELLED. */
  lemma CancelledIsKept(s: Tables, e: Event, o: int)
    requires StatusOf(s.orders, o) == Some(CANCELLED)
    ensures StatusOf(Deliver(s, e).orders, o) == Some(CANCELLED)
  {
    if e.Traded? && Apply(s, e).Some? {
      TradedOn(s, e.fill, o);
    }
  }

  lemma {:induction false} CancelledStays(s: Tables, events: seq<Event>, o: int)
    requires StatusOf(s.orders, o) == Some(CANCELLED)
    ensures StatusOf(Run(s, events).orders, o) == Some(CANCELLED)
  {
    if events != [] {
      CancelledStays(s, events[..|events| - 1], o);
      CancelledIsKept(Run(s, events[..|events| - 1]), events[|events| - 1], o);
    }
  }

  // ---- the status of a row after any delivery ----

  predicate Moves(e: Event, o: int) {
    e == Opened(o) || (e.Traded? && Involves(e.fill, o))
  }

  /** The last opening or fill of the order. */
  function LastMove(events: seq<Event>, o: int): Option<Event> {
    if events == [] then None
    else if Moves(events[|events| - 1], o) then Some(events[|events| - 1])
    else LastMove(events[..|events| - 1], o)
  }

  /** CANCELLED and FILLED are what their events say, in whatever order; otherwise the last move decides. */
  ghost function RowAfter(start: Option<Status>, quantity: int, o: int, events: seq<Event>, filled: int): Option<Status>
  {
    if start == Some(CANCELLED) || Cancelled(o) in events then Some(CANCELLED)
    else if start == Some(FILLED) || (TradedIn(Events(events), o) && filled >= quantity) then Some(FILLED)
    else if LastMove(events, o).None? then start
    else if LastMove(events, o).value.Opened? then Some(OPEN)
    else Some(PARTIAL)
  }

  ghost predicate RowOn(s: Tables, events: seq<Event>, n: Tables, o: int)
    requires o in s.contexts
  {
    && Filled(n.fills, o) >= Filled(s.fills, o)
    && StatusOf(n.orders, o)
       == RowAfter(StatusOf(s.orders, o), s.contexts[o].context.quantity, o, events, Filled(n.fills, o))
  }

  lemma EventsSnoc(events: seq<Event>, e: Event, o: int)
    ensures Events(events + [e]) == Events(events) + {e}
    ensures Cancelled(o) in events + [e] <==> Cancelled(o) in events || e == Cancelled(o)
    ensures LastMove(events + [e], o) == if Moves(e, o) then Some(e) else LastMove(events, o)
  {
    assert (events + [e])[..|events|] == events;
  }

  /** A fill of the order: FILLED or PARTIAL by the new sum, unless the row is CANCELLED. */
  lemma FillMovesRow(s: Tables, events: seq<Event>, n: Tables, f: Fill, o: int)
    requires o in s.contexts && EarnedOn(s, o) && RowOn(s, events, n, o) && Involves(f, o)
    requires o in n.contexts && n.contexts[o].context.quantity == s.contexts[o].context.quantity
    requires Apply(n, Traded(f)).Some?
    ensures RowOn(s, events + [Traded(f)], Apply(n, Traded(f)).value, o)
  {
    EventsSnoc(events, Traded(f), o);
    TradedOn(n, f, o);
    WithFillGrows(n.fills, f, o);
    SeenTrade(Events(events), f, o);
  }

  lemma OtherFillKeepsRow(s: Tables, events: seq<Event>, n: Tables, f: Fill, o: int)
    requires o in s.contexts && RowOn(s, events, n, o) && !Involves(f, o) && Apply(n, Traded(f)).Some?
    ensures RowOn(s, events + [Traded(f)], Apply(n, Traded(f)).value, o)
  {
    EventsSnoc(events, Traded(f), o);
    TradedOn(n, f, o);
    WithFillGrows(n.fills, f, o);
    SeenTrade(Events(events), f, o);
  }

  lemma OtherMovesRow(s: Tables, events: seq<Event>, n: Tables, e: Event, o: int)
    requires o in s.contexts && RowOn(s, events, n, o) && !e.Traded? && Apply(n, e).Some?
    ensures RowOn(s, events + [e], Apply(n, e).value, o)
  {
    EventsSnoc(events, e, o);
    SeenOther(Events(events), e, o);
  }

  /** The status of an order's row after any sequence of the events, redeliveries included. */
  lemma {:induction false} RowSettles(s: Tables, all: set<Event>, events: seq<Event>, o: int)
    requires Earned(s) && Deliverable(s, all) && Events(events) <= all && o in s.contexts
    ensures RowOn(s, events, Run(s, events), o)
  {
    assert EarnedOn(s, o);
    if events != [] {
      var init, last := events[..|events| - 1], events[|events| - 1];
      assert events == init + [last];
      EventsSnoc(init, last, o);
      RowSettles(s, all, init, o);
      RunSettles(s, all, init);
      var n := Run(s, init);
      CanApply(s, all, Events(init), n, last);
      assert SettledOn(s, Events(init), n, o);
      if !last.Traded? {
        OtherMovesRow(s, init, n, last, o);
      } else if Involves(last.fill, o) {
        FillMovesRow(s, init, n, last.fill, o);
      } else {
        OtherFillKeepsRow(s, init, n, last.fill, o);
      }
    }
  }

  // ---- when the order of arrival matters ----

  ghost predicate RowIsDetermined(s: Tables, all: set<Event>, o: int) {
    forall left, right | Events(left) == all && Events(right) == all :: SameRow(s, left, right, o)
  }

  ghost predicate SameRow(s: Tables, left: seq<Event>, right: seq<Event>, o: int) {
    StatusOf(Run(s, left).orders, o) == StatusOf(Run(s, right).orders, o)
  }

  /** An order that is open and partly filled, and neither cancelled nor full. */
  ghost predicate OpenAndPartial(s: Tables, events: seq<Event>, o: int)
    requires o in s.contexts
  {
    && Opened(o) in events && TradedIn(Events(events), o)
    && StatusOf(s.orders, o) != Some(CANCELLED) && Cancelled(o) !in events
    && StatusOf(s.orders, o) != Some(FILLED) && Filled(Run(s, events).fills, o) < s.contexts[o].context.quantity
  }

  lemma {:induction false} LastMoveIsFromTheSet(events: seq<Event>, o: int)
    ensures LastMove(events, o).Some? ==> LastMove(events, o).value in events && Moves(LastMove(events, o).value, o)
    ensures LastMove(events, o).None? ==> forall e <- events :: !Moves(e, o)
  {
    if events != [] {
      var init, last := events[..|events| - 1], events[|events| - 1];
      assert events == init + [last];
      LastMoveIsFromTheSet(init, o);
    }
  }

  lemma SameMembers(left: seq<Event>, right: seq<Event>)
    requires Events(left) == Events(right)
    ensures forall e :: e in left <==> e in right
  {
    forall e ensures e in left <==> e in right {
      assert e in left <==> e in Events(left);
      assert e in right <==> e in Events(right);
    }
  }

  /** Two deliveries of the same events leave the same row unless the order is open and partly filled. */
  lemma SameUnlessPartial(s: Tables, left: seq<Event>, right: seq<Event>, o: int)
    requires Earned(s) && Deliverable(s, Events(left)) && Events(left) == Events(right) && o in s.contexts
    requires !OpenAndPartial(s, left, o)
    ensures SameRow(s, left, right, o)
  {
    RowSettles(s, Events(left), left, o);
    RowSettles(s, Events(left), right, o);
    StatusesAreConfluent(s, left, right);
    SameMembers(left, right);
    LastMoveIsFromTheSet(left, o);
    LastMoveIsFromTheSet(right, o);
    if Opened(o) !in left {
      assert LastMove(left, o).Some? ==> LastMove(left, o).value.Traded?;
      assert LastMove(right, o).Some? ==> LastMove(right, o).value.Traded?;
    } else if !TradedIn(Events(left), o) {
      OnlyOpened(left, o);
      OnlyOpened(right, o);
    }
  }

  lemma OnlyOpened(events: seq<Event>, o: int)
    requires Opened(o) in events && !TradedIn(Events(events), o)
    ensures LastMove(events, o) == Some(Opened(o))
  {
    LastMoveIsFromTheSet(events, o);
    var e := LastMove(events, o).value;
    assert e in Events(events);
  }

  /** The row ends OPEN or PARTIAL by what comes last. */
  lemma EitherEnd(s: Tables, events: seq<Event>, e: Event, o: int)
    requires Earned(s) && Deliverable(s, Events(events)) && o in s.contexts
    requires OpenAndPartial(s, events, o) && e in events && Moves(e, o)
    ensures Events(events + [e]) == Events(events)
    ensures StatusOf(Run(s, events + [e]).orders, o) == Some(if e.Opened? then OPEN else PARTIAL)
  {
    EventsSnoc(events, e, o);
    assert e in Events(events);
    assert Events(events + [e]) == Events(events);
    RowSettles(s, Events(events), events + [e], o);
    StatusesAreConfluent(s, events, events + [e]);
  }

  /**
   * Every delivery of the same events leaves the same status in the row, exactly unless the order
   * is open and partly filled.
   */
  lemma RowIsDeterminedIff(s: Tables, events: seq<Event>, o: int)
    requires Earned(s) && Deliverable(s, Events(events)) && o in s.contexts
    ensures RowIsDetermined(s, Events(events), o) <==> !OpenAndPartial(s, events, o)
  {
    if OpenAndPartial(s, events, o) {
      var trade :| trade in Events(events) && trade.Traded? && Involves(trade.fill, o);
      EitherEnd(s, events, Opened(o), o);
      EitherEnd(s, events, trade, o);
      assert !SameRow(s, events + [Opened(o)], events + [trade], o);
    } else {
      forall left, right | Events(left) == Events(events) && Events(right) == Events(events)
        ensures SameRow(s, left, right, o)
      {
        SameUnlessPartial(s, events, left, o);
        SameUnlessPartial(s, events, right, o);
      }
    }
  }

  // ---- the terms of an order ----

  /** Whatever arrives, a row keeps the slot, side, quantity and margin it was inserted with. */
  lemma {:induction false} OrderKeepsItsTerms(s: Tables, events: seq<Event>, o: int)
    requires o in s.orders
    ensures o in Run(s, events).orders
    ensures Run(s, events).orders[o].context.(reduceOnly := false) == s.orders[o].context.(reduceOnly := false)
  {
    if events != [] {
      var init, last := events[..|events| - 1], events[|events| - 1];
      OrderKeepsItsTerms(s, init, o);
      if last.Traded? && Apply(Run(s, init), last).Some? {
        TermsAfterFill(Run(s, init), last.fill, o);
      }
    }
  }

  lemma TermsAfterFill(s: Tables, f: Fill, o: int)
    requires o in s.orders && Apply(s, Traded(f)).Some?
    ensures o in Apply(s, Traded(f)).value.orders
    ensures Apply(s, Traded(f)).value.orders[o].context == s.orders[o].context
  {
  }

  /** The context that the last valid save brought. */
  function LastSaved(events: seq<Event>, o: int): Option<Context> {
    if events == [] then None
    else
      var e := events[|events| - 1];
      if e.Saved? && e.order == o && e.context.quantity > 0 then Some(e.context)
      else LastSaved(events[..|events| - 1], o)
  }

  lemma SavedStep(s: Tables, e: Event, o: int)
    ensures var n := Deliver(s, e);
      if e.Saved? && e.order == o && e.context.quantity > 0 then o in n.contexts && n.contexts[o].context == e.context
      else
        && (o in n.contexts <==> o in s.contexts)
        && (o in s.contexts ==> n.contexts[o].context == s.contexts[o].context)
  {
    if e.Traded? && Apply(s, e).Some? {
      TradedOn(s, e.fill, o);
    }
  }

  /** A context is the one that was last saved, whatever else has arrived. */
  lemma {:induction false} ContextIsTheLastSaved(s: Tables, events: seq<Event>, o: int)
    ensures var saved, n := LastSaved(events, o), Run(s, events);
      && (saved.Some? ==> o in n.contexts && n.contexts[o].context == saved.value)
      && (saved.None? ==> (o in n.contexts <==> o in s.contexts))
      && (saved.None? && o in s.contexts ==> n.contexts[o].context == s.contexts[o].context)
  {
    if events != [] {
      ContextIsTheLastSaved(s, events[..|events| - 1], o);
      SavedStep(Run(s, events[..|events| - 1]), events[|events| - 1], o);
    }
  }

  /** An opening or a cancellation hands the context's reduce-only flag on to the row; nothing else touches it. */
  lemma ReduceOnlyFollows(s: Tables, e: Event, o: int)
    requires o in s.orders
    ensures var n := Deliver(s, e);
      && o in n.orders
      && n.orders[o].context.reduceOnly
         == if e == Opened(o) && o in s.contexts then s.contexts[o].context.reduceOnly
            else if e == Cancelled(o) then Load(s, o).value.reduceOnly
            else s.orders[o].context.reduceOnly
  {
    if e.Traded? && Apply(s, e).Some? {
      TermsAfterFill(s, e.fill, o);
    }
  }

  /** From empty tables, orders rows repeat contexts, so what an event loads is what was last saved for the order. */
  lemma {:induction false} LoadedIsTheLastSaved(events: seq<Event>, o: int)
    ensures Load(Run(EMPTY_TABLES, events), o) == LastSaved(events, o)
    ensures o in Run(EMPTY_TABLES, events).orders ==> o in Run(EMPTY_TABLES, events).contexts
  {
    if events != [] {
      var init, last := events[..|events| - 1], events[|events| - 1];
      LoadedIsTheLastSaved(init, o);
      SavedStep(Run(EMPTY_TABLES, init), last, o);
      if o in Run(EMPTY_TABLES, events).orders && o !in Run(EMPTY_TABLES, init).orders {
        NewRowRepeatsContext(Run(EMPTY_TABLES, init), last, o);
      }
    }
  }

  /** A row is inserted with the context of its own order. */
  lemma NewRowRepeatsContext(s: Tables, e: Event, o: int)
    requires o !in s.orders && o in Deliver(s, e).orders
    ensures Load(s, o).Some? && Deliver(s, e).orders[o].context == Load(s, o).value
  {
    if e.Traded? {
      TradedOn(s, e.fill, o);
    }
  }

  /** So in every run from empty tables a row has the terms that were last saved for its order when it was inserted. */
  lemma {:induction false} EveryOrderHasItsTerms(events: seq<Event>, o: int) returns (n: nat)
    requires o in Run(EMPTY_TABLES, events).orders
    ensures n <= |events| && LastSaved(events[..n], o).Some?
    ensures Run(EMPTY_TABLES, events).orders[o].context.(reduceOnly := false)
         == LastSaved(events[..n], o).value.(reduceOnly := false)
  {
    var init, last := events[..|events| - 1], events[|events| - 1];
    var s := Run(EMPTY_TABLES, init);
    if o in s.orders {
      n := EveryOrderHasItsTerms(init, o);
      assert init[..n] == events[..n];
      assert Run(s, [last]) == Deliver(s, last) by { assert [last][..0] == []; }
      OrderKeepsItsTerms(s, [last], o);
    } else {
      n := |init|;
      LoadedIsTheLastSaved(init, o);
      NewRowRepeatsContext(s, last, o);
    }
  }

  // ---- events that fail ----

  /** An order of the event, or none for a save. */
  function Orders(e: Event): seq<int> {
    match e
    case Saved(_, _) => []
    case Traded(f) => [f.makerOrder, f.takerOrder]
    case _ => [e.order]
  }

  /**
   * From empty tables an event fails, and stops its consumer, exactly if no valid context of one
   * of its orders was saved before it, or if it brings a quantity, price or sequence out of range.
   */
  lemma FailsIffUnsaved(events: seq<Event>, e: Event)
    ensures Apply(Run(EMPTY_TABLES, events), e).None? <==>
      || (exists o <- Orders(e) :: LastSaved(events, o).None?)
      || (e.Saved? && e.context.quantity <= 0)
      || (e.Traded? && !(e.fill.price >= 0 && e.fill.quantity > 0 && e.fill.sequence > 0))
  {
    if e.Traded? {
      LoadedIsTheLastSaved(events, e.fill.makerOrder);
      LoadedIsTheLastSaved(events, e.fill.takerOrder);
      assert e.fill.makerOrder in Orders(e) && e.fill.takerOrder in Orders(e);
    } else if !e.Saved? {
      LoadedIsTheLastSaved(events, e.order);
      assert e.order in Orders(e);
    }
  }
}
