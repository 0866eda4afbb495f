/** Order status in the projector: independent streams move one row, in whatever order they arrive. */
module OrderStatus {
  import opened Common
  import opened Fills
  import opened TableSums
  import opened PositionMath
  import opened Positions

  datatype Status = PENDING | REJECTED | ACCEPTED | OPEN | PARTIAL | FILLED | CANCELLED

  function Rank(status: Status): nat {
    match status
    case PENDING => 0
    case REJECTED => 1
    case ACCEPTED => 2
    case OPEN => 3
    case PARTIAL => 4
    case FILLED => 5
    case CANCELLED => 6
  }

  /** A row of projector_order_context; the engine gives each reservation one order id. */
  datatype Row = Row(context: Context, status: Status, reason: Option<string>)

  /** A row of orders. */
  datatype Order = Order(context: Context, status: Status)

  datatype Tables = Tables(contexts: map<int, Row>, orders: map<int, Order>, fills: map<int, Fill>)

  const EMPTY_TABLES := Tables(map[], map[], map[])

  datatype Event =
    | Saved(order: int, context: Context)
    | Accepted(order: int)
    | Rejected(order: int, reason: string)
    | Opened(order: int)
    | Cancelled(order: int)
    | Traded(fill: Fill)

  function Share(order: int): (int, Fill) -> int {
    (id: int, f: Fill) => if Involves(f, order) then f.quantity else 0
  }

  /** The cumulative filled quantity of an order: the sum over the rows of fills, each row once. */
  ghost function Filled(fills: map<int, Fill>, order: int): int {
    TableSum(fills, Share(order))
  }

  function AfterFill(quantity: int, filled: int): Status {
    if filled >= quantity then FILLED else PARTIAL
  }

  /** Any update of a context's status that the statements make: some statuses are kept, the rest become `next`. */
  function Lift(row: Row, kept: set<Status>, next: Status): Row {
    row.(status := if row.status in kept then row.status else next)
  }

  /** The context of an order: its own row, or what its orders row repeats of it. */
  function Load(s: Tables, order: int): Option<Context> {
    if order in s.contexts then Some(s.contexts[order].context)
    else if order in s.orders then Some(s.orders[order].context)
    else None
  }

  /** The upsert of an orders row, which keeps what an existing row has but for status and reduce_only. */
  function PutOrder(orders: map<int, Order>, order: int, context: Context, status: Status): map<int, Order> {
    if order in orders
    then orders[order := Order(orders[order].context.(reduceOnly := context.reduceOnly), status)]
    else orders[order := Order(context, status)]
  }

  function WithOrder(orders: map<int, Order>, order: int, context: Context): map<int, Order> {
    if order in orders then orders else orders[order := Order(context, PENDING)]
  }

  function StatusOf(orders: map<int, Order>, order: int): Option<Status> {
    if order in orders then Some(orders[order].status) else None
  }

  ghost function FillOrder(s: Tables, order: int, context: Context): Tables
    requires order in s.orders
  {
    var status := AfterFill(context.quantity, Filled(s.fills, order));
    var kept := s.orders[order].status == CANCELLED;
    s.(orders := if kept then s.orders else s.orders[order := s.orders[order].(status := status)],
       contexts := if order !in s.contexts then s.contexts
                   else s.contexts[order := Lift(s.contexts[order], {CANCELLED}, status)])
  }

  /** One transaction. None is an error: a missing context or a violated CHECK; nothing is committed. */
  ghost function Apply(s: Tables, e: Event): Option<Tables> {
    match e
    case Saved(o, context) =>
      if context.quantity <= 0 then None
      else if o in s.contexts then Some(s.(contexts := s.contexts[o := s.contexts[o].(context := context)]))
      else Some(s.(contexts := s.contexts[o := Row(context, PENDING, None)]))
    case Accepted(o) =>
      if o !in s.contexts then None
      else Some(s.(contexts := s.contexts[o :=
        Lift(s.contexts[o], {OPEN, PARTIAL, FILLED, CANCELLED}, ACCEPTED).(reason := None)]))
    case Rejected(o, reason) =>
      if o !in s.contexts then None
      else Some(s.(contexts := s.contexts[o :=
        Lift(s.contexts[o], {ACCEPTED, OPEN, PARTIAL, FILLED, CANCELLED}, REJECTED).(reason := Some(reason))]))
    case Opened(o) =>
      if o !in s.contexts then None
      else
        var status := if o in s.orders && s.orders[o].status in {FILLED, CANCELLED} then s.orders[o].status else OPEN;
        Some(s.(
          contexts := s.contexts[o := Lift(s.contexts[o], {PARTIAL, FILLED, CANCELLED}, OPEN)],
          orders := PutOrder(s.orders, o, s.contexts[o].context, status)))
    case Cancelled(o) =>
      if Load(s, o).None? then None
      else Some(s.(
        contexts := if o in s.contexts then s.contexts[o := s.contexts[o].(status := CANCELLED)] else s.contexts,
        orders := PutOrder(s.orders, o, Load(s, o).value, CANCELLED)))
    case Traded(f) =>
      if Load(s, f.makerOrder).None? || Load(s, f.takerOrder).None? || !Admissible(f) then None
      else
        var maker, taker := Load(s, f.makerOrder).value, Load(s, f.takerOrder).value;
        var t := s.(
          orders := WithOrder(WithOrder(s.orders, f.makerOrder, maker), f.takerOrder, taker),
          fills := WithFill(s.fills, f));
        Some(FillOrder(FillOrder(t, f.makerOrder, maker), f.takerOrder, taker))
  }

  // ---- the statements ----

  lemma SomeRow(fills: map<int, Fill>)
    ensures fills == map[] || exists id :: id in fills
  {
    if forall id :: id !in fills {
      assert fills == map[];
    }
  }

  class Repository {
    var contexts: map<int, Row>
    var orders: map<int, Order>
    var fills: map<int, Fill>

    ghost function State(): Tables
      reads this
    {
      Tables(contexts, orders, fills)
    }

    /** `ok` is false where the transaction is rolled back. */
    ghost predicate Does(before: Tables, e: Event, ok: bool)
      reads this
    {
      ok == Apply(before, e).Some? && State() == if ok then Apply(before, e).value else before
    }

    constructor ()
      ensures State() == EMPTY_TABLES
    {
      contexts, orders, fills := map[], map[], map[];
    }

    method SaveOrderContext(order: int, context: Context) returns (ok: bool)
      modifies this`contexts
      ensures Does(old(State()), Saved(order, context), ok)
    {
      if context.quantity <= 0 {
        return false;
      }
      if order in contexts {
        contexts := contexts[order := contexts[order].(context := context)];
      } else {
        contexts := contexts[order := Row(context, PENDING, None)];
      }
      ok := true;
    }

    method MarkOrderAccepted(order: int) returns (ok: bool)
      modifies this`contexts
      ensures Does(old(State()), Accepted(order), ok)
    {
      if order !in contexts {
        return false;
      }
      var row := contexts[order];
      if row.status !in {OPEN, PARTIAL, FILLED, CANCELLED} {
        row := row.(status := ACCEPTED);
      }
      contexts := contexts[order := row.(reason := None)];
      ok := true;
    }

    method MarkOrderRejected(order: int, reason: string) returns (ok: bool)
      modifies this`contexts
      ensures Does(old(State()), Rejected(order, reason), ok)
    {
      if order !in contexts {
        return false;
      }
      var row := contexts[order];
      if row.status !in {ACCEPTED, OPEN, PARTIAL, FILLED, CANCELLED} {
        row := row.(status := REJECTED);
      }
      contexts := contexts[order := row.(reason := Some(reason))];
      ok := true;
    }

    method UpsertOrder(order: int, context: Context, status: Status)
      modifies this`orders
      ensures orders == PutOrder(old(orders), order, context, status)
    {
      if order in orders {
        var row := orders[order];
        orders := orders[order := row.(status := status, context := row.context.(reduceOnly := context.reduceOnly))];
      } else {
        orders := orders[order := Order(context, status)];
      }
    }

    method ProjectOrderOpened(order: int) returns (ok: bool)
      modifies this`contexts, this`orders
      ensures Does(old(State()), Opened(order), ok)
    {
      if order !in contexts {
        return false;
      }
      if contexts[order].status !in {PARTIAL, FILLED, CANCELLED} {
        contexts := contexts[order := contexts[order].(status := OPEN)];
      }
      var status := OPEN;
      if order in orders && orders[order].status in {FILLED, CANCELLED} {
        status := orders[order].status;
      }
      UpsertOrder(order, contexts[order].context, status);
      ok := true;
      assert contexts == Apply(old(State()), Opened(order)).value.contexts;
    }

    method LoadContext(order: int) returns (context: Option<Context>)
      ensures context == Load(State(), order)
    {
      if order in contexts {
        context := Some(contexts[order].context);
      } else if order in orders {
        context := Some(orders[order].context);
      } else {
        context := None;
      }
    }

    method ProjectOrderCancelled(order: int) returns (ok: bool)
      modifies this`contexts, this`orders
      ensures Does(old(State()), Cancelled(order), ok)
    {
      var context := LoadContext(order);
      if context.None? {
        return false;
      }
      if order in contexts {
        contexts := contexts[order := contexts[order].(status := CANCELLED)];
      }
      UpsertOrder(order, context.value, CANCELLED);
      ok := true;
    }

    /** SELECT SUM(quantity) over the order's rows of fills. */
    method CumulativeFilled(order: int) returns (filled: int)
      ensures filled == Filled(fills, order)
    {
      filled := 0;
      var rest := fills;
      while rest != map[]
        invariant filled + TableSum(rest, Share(order)) == Filled(fills, order)
        decreases |rest|
      {
        SomeRow(rest);
        var id :| id in rest;
        TakeOut(rest, id, Share(order));
        Shrinks(rest, id);
        if Involves(rest[id], order) {
          filled := filled + rest[id].quantity;
        }
        rest := rest - {id};
      }
    }

    method UpdateOrderAfterFill(order: int, context: Context)
      requires order in orders
      modifies this`contexts, this`orders
      ensures State() == FillOrder(old(State()), order, context)
    {
      var filled := CumulativeFilled(order);
      var status := AfterFill(context.quantity, filled);
      if orders[order].status != CANCELLED {
        orders := orders[order := orders[order].(status := status)];
      }
      if order in contexts {
        var row := contexts[order];
        contexts := contexts[order := if row.status == CANCELLED then row else row.(status := status)];
      }
    }

    /** The part of the trade transaction before the positions; `inserted` tells whether they follow. */
    method ProjectTradeOrders(f: Fill) returns (ok: bool, inserted: bool)
      modifies this
      ensures Does(old(State()), Traded(f), ok)
      ensures inserted <==> ok && !Clashes(old(fills), f)
    {
      var maker := LoadContext(f.makerOrder);
      var taker := LoadContext(f.takerOrder);
      if maker.None? || taker.None? || f.price < 0 || f.quantity <= 0 || f.sequence <= 0 {
        return false, false;
      }
      if f.makerOrder !in orders {
        orders := orders[f.makerOrder := Order(maker.value, PENDING)];
      }
      if f.takerOrder !in orders {
        orders := orders[f.takerOrder := Order(taker.value, PENDING)];
      }
      inserted := !Clashes(fills, f);
      if inserted {
        fills := fills[f.id := f];
      }
      UpdateOrderAfterFill(f.makerOrder, maker.value);
      UpdateOrderAfterFill(f.takerOrder, taker.value);
      ok := true;
    }
  }

  // ---- one step ----

  lemma WithFillGrows(fills: map<int, Fill>, f: Fill, order: int)
    requires f.quantity > 0
    ensures Filled(WithFill(fills, f), order) >= Filled(fills, order)
    ensures !Involves(f, order) ==> Filled(WithFill(fills, f), order) == Filled(fills, order)
  {
    if !Clashes(fills, f) {
      Put(fills, f.id, f, Share(order));
    }
  }

  /** A trade's effect on any one order. */
  lemma TradedOn(s: Tables, f: Fill, o: int)
    requires Apply(s, Traded(f)).Some?
    ensures var n := Apply(s, Traded(f)).value;
      && n.fills == WithFill(s.fills, f)
      && n.contexts.Keys == s.contexts.Keys && n.orders.Keys == s.orders.Keys + {f.makerOrder, f.takerOrder}
      && (!Involves(f, o) && o in s.contexts ==> n.contexts[o] == s.contexts[o])
      && (!Involves(f, o) && o in s.orders ==> n.orders[o] == s.orders[o])
    ensures Involves(f, o) ==> Load(s, o).Some?
    ensures Involves(f, o) ==>
      var n := Apply(s, Traded(f)).value;
      var status := AfterFill(Load(s, o).value.quantity, Filled(n.fills, o));
      && (o in s.contexts ==> n.contexts[o] == Lift(s.contexts[o], {CANCELLED}, status))
      && n.orders[o].status == (if StatusOf(s.orders, o) == Some(CANCELLED) then CANCELLED else status)
  {
  }

  /** A fill that finds its order FILLED, and the table no longer covering the order's quantity. */
  ghost predicate Reopens(s: Tables, e: Event, o: int, status: Status) {
    && e.Traded? && Involves(e.fill, o) && status == FILLED && Load(s, o).Some?
    && Filled(WithFill(s.fills, e.fill), o) < Load(s, o).value.quantity
  }

  /** In any tables and for any event, a context's status falls exactly where a fill reopens it. */
  lemma StatusFallsIff(s: Tables, e: Event, o: int)
    requires Apply(s, e).Some? && o in s.contexts
    ensures var n := Apply(s, e).value;
      && o in n.contexts
      && (Rank(n.contexts[o].status) < Rank(s.contexts[o].status) <==> Reopens(s, e, o, s.contexts[o].status))
      && (s.contexts[o].status == CANCELLED ==> n.contexts[o].status == CANCELLED)
  {
    if e.Traded? {
      TradedOn(s, e.fill, o);
    }
  }

  /** The row of orders falls there too, and also where an opening arrives after a partial fill. */
  lemma OrdersRowFallsIff(s: Tables, e: Event, o: int)
    requires Apply(s, e).Some? && o in s.orders
    ensures var n := Apply(s, e).value;
      o in n.orders && (Rank(n.orders[o].status) < Rank(s.orders[o].status)
        <==> (e == Opened(o) && s.orders[o].status == PARTIAL) || Reopens(s, e, o, s.orders[o].status))
  {
    if e.Traded? {
      TradedOn(s, e.fill, o);
    }
  }

  /** FILLED is earned: the fills of the table cover the order. */
  ghost predicate Earned(s: Tables) {
    (forall id | id in s.fills :: s.fills[id].quantity > 0) && (forall o :: EarnedOn(s, o))
  }

  /** One order's part of Earned. Every orders row has a context. */
  ghost predicate EarnedOn(s: Tables, o: int) {
    && (o in s.contexts ==> s.contexts[o].context.quantity > 0)
    && (o in s.contexts && s.contexts[o].status == FILLED ==> Filled(s.fills, o) >= s.contexts[o].context.quantity)
    && (o in s.orders ==> o in s.contexts)
    && (o in s.orders && s.orders[o].status == FILLED ==> Filled(s.fills, o) >= s.contexts[o].context.quantity)
  }

  /** Saving a context again brings the same quantity. */
  predicate Steady(s: Tables, e: Event) {
    e.Saved? && e.order in s.contexts ==> e.context.quantity == s.contexts[e.order].context.quantity
  }

  lemma TradeKeepsEarnedOn(s: Tables, f: Fill, o: int)
    requires EarnedOn(s, o) && EarnedOn(s, f.makerOrder) && EarnedOn(s, f.takerOrder) && Apply(s, Traded(f)).Some?
    ensures EarnedOn(Apply(s, Traded(f)).value, o)
  {
    TradedOn(s, f, o);
    WithFillGrows(s.fills, f, o);
  }

  lemma OtherKeepsEarnedOn(s: Tables, e: Event, o: int)
    requires EarnedOn(s, o) && Steady(s, e) && !e.Traded? && Apply(s, e).Some?
    ensures EarnedOn(Apply(s, e).value, o)
  {
  }

  lemma ApplyKeepsEarned(s: Tables, e: Event)
    requires Earned(s) && Steady(s, e) && Apply(s, e).Some?
    ensures Earned(Apply(s, e).value)
  {
    forall o ensures EarnedOn(Apply(s, e).value, o) {
      if e.Traded? {
        assert EarnedOn(s, o) && EarnedOn(s, e.fill.makerOrder) && EarnedOn(s, e.fill.takerOrder);
        TradeKeepsEarnedOn(s, e.fill, o);
      } else {
        OtherKeepsEarnedOn(s, e, o);
      }
    }
    if e.Traded? {
      TradedOn(s, e.fill, 0);
    }
  }

  lemma NothingReopens(s: Tables, e: Event, o: int)
    requires Earned(s) && Apply(s, e).Some?
    ensures o in s.contexts ==> !Reopens(s, e, o, s.contexts[o].status)
    ensures o in s.orders ==> !Reopens(s, e, o, s.orders[o].status)
  {
    assert EarnedOn(s, o);
    if e.Traded? {
      WithFillGrows(s.fills, e.fill, o);
    }
  }

  /** Where quantities are steady a context's status never goes down, and CANCELLED is final. */
  lemma StatusNeverFallsBack(s: Tables, e: Event, o: int)
    requires Earned(s) && Steady(s, e) && Apply(s, e).Some? && o in s.contexts
    ensures var n := Apply(s, e).value;
      && Earned(n)
      && o in n.contexts && Rank(n.contexts[o].status) >= Rank(s.contexts[o].status)
      && (s.contexts[o].status == CANCELLED ==> n.contexts[o].status == CANCELLED)
  {
    ApplyKeepsEarned(s, e);
    StatusFallsIff(s, e, o);
    NothingReopens(s, e, o);
  }

  /** There the row of orders goes down exactly where an opening arrives after a partial fill. */
  lemma OrdersRowFallsBackIff(s: Tables, e: Event, o: int)
    requires Earned(s) && Steady(s, e) && Apply(s, e).Some? && o in s.orders
    ensures var n := Apply(s, e).value;
      o in n.orders
      && (Rank(n.orders[o].status) < Rank(s.orders[o].status) <==> e == Opened(o) && s.orders[o].status == PARTIAL)
  {
    OrdersRowFallsIff(s, e, o);
    NothingReopens(s, e, o);
  }

  // ---- runs: every order of arrival ends the same ----

  /** One fill per id and per (market, sequence). */
  predicate Consistent(f: Fill, g: Fill) {
    f.id == g.id || (f.market == g.market && f.sequence == g.sequence) ==> f == g
  }

  /** Events that a database holding the contexts of `s` can apply, whose fills do not contradict each other. */
  ghost predicate Deliverable(s: Tables, events: set<Event>) {
    && (forall id | id in s.fills :: s.fills[id].id == id)
    && (forall e <- events ::
          if e.Traded?
          then Admissible(e.fill) && e.fill.makerOrder in s.contexts && e.fill.takerOrder in s.contexts
          else e.order in s.contexts)
    && (forall e <- events | e.Saved? :: e.context.quantity == s.contexts[e.order].context.quantity)
    && (forall e <- events | e.Traded? :: forall id | id in s.fills :: Consistent(e.fill, s.fills[id]))
    && (forall e <- events | e.Traded? :: forall g <- events | g.Traded? :: Consistent(e.fill, g.fill))
  }

  ghost function Deliver(s: Tables, e: Event): Tables {
    if Apply(s, e).Some? then Apply(s, e).value else s
  }

  ghost function Run(s: Tables, events: seq<Event>): Tables {
    if events == [] then s else Deliver(Run(s, events[..|events| - 1]), events[|events| - 1])
  }

  ghost predicate TradedIn(seen: set<Event>, order: int) {
    exists e :: e in seen && e.Traded? && Involves(e.fill, order)
  }

  ghost predicate RejectedIn(seen: set<Event>, order: int) {
    exists e :: e in seen && e.Rejected? && e.order == order
  }

  /** The status that a set of events stands for, whatever their order and multiplicity. */
  ghost function Settled(start: Status, quantity: int, order: int, seen: set<Event>, filled: int): Status {
    if start == CANCELLED || Cancelled(order) in seen then CANCELLED
    else if start == FILLED || (TradedIn(seen, order) && filled >= quantity) then FILLED
    else if start == PARTIAL || TradedIn(seen, order) then PARTIAL
    else if start == OPEN || Opened(order) in seen then OPEN
    else if start == ACCEPTED || Accepted(order) in seen then ACCEPTED
    else if start == REJECTED || RejectedIn(seen, order) then REJECTED
    else PENDING
  }

  ghost predicate FillsAre(s: Tables, seen: set<Event>, fills: map<int, Fill>) {
    && (forall id | id in s.fills :: id in fills && fills[id] == s.fills[id])
    && (forall e | e in seen && e.Traded? :: e.fill.id in fills && fills[e.fill.id] == e.fill)
    && (forall id | id in fills && id !in s.fills :: fills[id].id == id && Traded(fills[id]) in seen)
  }

  ghost predicate SettledAs(s: Tables, seen: set<Event>, n: Tables) {
    && n.contexts.Keys == s.contexts.Keys && FillsAre(s, seen, n.fills) && Earned(n)
    && (forall o :: SettledOn(s, seen, n, o))
  }

  lemma FillsStepKeeps(s: Tables, all: set<Event>, seen: set<Event>, fills: map<int, Fill>, f: Fill)
    requires Deliverable(s, all) && seen <= all && Traded(f) in all && FillsAre(s, seen, fills)
    ensures FillsAre(s, seen + {Traded(f)}, WithFill(fills, f))
  {
    if Clashes(fills, f) {
      var id := if f.id in fills then f.id else
        var id :| id in fills && fills[id].market == f.market && fills[id].sequence == f.sequence; id;
      if id in s.fills {
        assert Consistent(Traded(f).fill, s.fills[id]);
      } else {
        assert Consistent(Traded(f).fill, Traded(fills[id]).fill);
      }
      assert fills[id] == f && f.id == id;
    }
  }

  lemma SeenTrade(seen: set<Event>, f: Fill, o: int)
    ensures TradedIn(seen + {Traded(f)}, o) <==> TradedIn(seen, o) || Involves(f, o)
    ensures RejectedIn(seen + {Traded(f)}, o) <==> RejectedIn(seen, o)
  {
    assert Traded(f) in seen + {Traded(f)};
  }

  lemma SeenOther(seen: set<Event>, e: Event, o: int)
    requires !e.Traded?
    ensures TradedIn(seen + {e}, o) <==> TradedIn(seen, o)
    ensures RejectedIn(seen + {e}, o) <==> RejectedIn(seen, o) || (e.Rejected? && e.order == o)
  {
    assert e in seen + {e};
  }

  /** One order's part of SettledAs. */
  ghost predicate SettledOn(s: Tables, seen: set<Event>, n: Tables, o: int) {
    o in s.contexts ==>
      && o in n.contexts && n.contexts[o].context.quantity == s.contexts[o].context.quantity
      && n.contexts[o].status
         == Settled(s.contexts[o].status, s.contexts[o].context.quantity, o, seen, Filled(n.fills, o))
  }

  lemma TradeSettlesOn(s: Tables, seen: set<Event>, n: Tables, f: Fill, o: int)
    requires SettledOn(s, seen, n, o) && EarnedOn(n, o) && Apply(n, Traded(f)).Some?
    ensures SettledOn(s, seen + {Traded(f)}, Apply(n, Traded(f)).value, o)
  {
    TradedOn(n, f, o);
    WithFillGrows(n.fills, f, o);
    SeenTrade(seen, f, o);
  }

  lemma OtherSettlesOn(s: Tables, seen: set<Event>, n: Tables, e: Event, o: int)
    requires SettledOn(s, seen, n, o) && !e.Traded? && Apply(n, e).Some?
    requires e.order == o ==> o in s.contexts
    requires e.Saved? && e.order == o ==> e.context.quantity == s.contexts[o].context.quantity
    ensures SettledOn(s, seen + {e}, Apply(n, e).value, o)
  {
    SeenOther(seen, e, o);
  }

  lemma CanApply(s: Tables, all: set<Event>, seen: set<Event>, n: Tables, e: Event)
    requires Earned(s) && Deliverable(s, all) && e in all && SettledAs(s, seen, n)
    ensures Apply(n, e).Some? && Steady(n, e)
  {
    if !e.Traded? {
      assert SettledOn(s, seen, n, e.order) && EarnedOn(s, e.order);
    }
  }

  lemma Settles(s: Tables, all: set<Event>, seen: set<Event>, n: Tables, e: Event)
    requires Earned(s) && Deliverable(s, all) && seen <= all && e in all && SettledAs(s, seen, n)
    ensures Apply(n, e).Some? && SettledAs(s, seen + {e}, Apply(n, e).value)
  {
    CanApply(s, all, seen, n, e);
    var t := Apply(n, e).value;
    ApplyKeepsEarned(n, e);
    if e.Traded? {
      FillsStepKeeps(s, all, seen, n.fills, e.fill);
      TradedOn(n, e.fill, 0);
    }
    forall o ensures SettledOn(s, seen + {e}, t, o) {
      assert SettledOn(s, seen, n, o) && EarnedOn(n, o) && EarnedOn(s, o);
      if e.Traded? {
        assert e == Traded(e.fill);
        TradeSettlesOn(s, seen, n, e.fill, o);
      } else {
        OtherSettlesOn(s, seen, n, e, o);
      }
    }
  }

  function Events(events: seq<Event>): set<Event> {
    set e | e in events
  }

  /** Any sequence of the events ends in the statuses that their set stands for. */
  lemma {:induction false} RunSettles(s: Tables, all: set<Event>, events: seq<Event>)
    requires Earned(s) && Deliverable(s, all) && Events(events) <= all
    ensures SettledAs(s, Events(events), Run(s, events))
  {
    if events != [] {
      var init, last := events[..|events| - 1], events[|events| - 1];
      assert Events(events) == Events(init) + {last} by {
        assert events == init + [last];
      }
      assert last in Events(events);
      RunSettles(s, all, init);
      Settles(s, all, Events(init), Run(s, init), last);
    }
  }

  /** Reordering and redelivering the same events changes neither the fills nor any context's status. */
  lemma StatusesAreConfluent(s: Tables, left: seq<Event>, right: seq<Event>)
    requires Earned(s) && Deliverable(s, Events(left)) && Events(left) == Events(right)
    ensures Run(s, left).fills == Run(s, right).fills
    ensures forall o | o in s.contexts ::
      o in Run(s, left).contexts && o in Run(s, right).contexts
        && Run(s, left).contexts[o].status == Run(s, right).contexts[o].status
  {
    RunSettles(s, Events(left), left);
    RunSettles(s, Events(left), right);
    var a, b := Run(s, left), Run(s, right);
    FillsAreDetermined(s, Events(left), a.fills, b.fills);
    forall o | o in s.contexts
      ensures o in a.contexts && o in b.contexts && a.contexts[o].status == b.contexts[o].status
    {
      assert SettledOn(s, Events(left), a, o) && SettledOn(s, Events(left), b, o);
    }
  }

  lemma FillsAreDetermined(s: Tables, seen: set<Event>, left: map<int, Fill>, right: map<int, Fill>)
    requires FillsAre(s, seen, left) && FillsAre(s, seen, right)
    ensures left == right
  {
    assert forall id | id in left :: id in right && right[id] == left[id];
    assert forall id | id in right :: id in left && left[id] == right[id];
  }

  // ---- a saved context that changes the order's quantity ----

  function Ctx(quantity: int): Context {
    Context(Slot(1, 1), Long, quantity, 0, false)
  }

  lemma RunSnoc(s: Tables, events: seq<Event>, e: Event)
    ensures Run(s, events + [e]) == Deliver(Run(s, events), e)
  {
    assert (events + [e])[..|events|] == events;
  }

  lemma FilledOnce(f: Fill, o: int)
    ensures Filled(map[f.id := f], o) == if Involves(f, o) then f.quantity else 0
  {
    TakeOut(map[f.id := f], f.id, Share(o));
    assert map[f.id := f] - {f.id} == map[];
  }

  /** Steady is needed: from empty tables, a filled order is saved again with a larger quantity and falls to PARTIAL. */
  lemma LargerQuantityReopens() returns (events: seq<Event>, redelivered: Event)
    ensures 7 in Run(EMPTY_TABLES, events).contexts && Run(EMPTY_TABLES, events).contexts[7].status == FILLED
    ensures redelivered in events
    ensures var n := Run(EMPTY_TABLES, events + [redelivered]); 7 in n.contexts && n.contexts[7].status == PARTIAL
  {
    var f := Fill(1, 1, 1, 100, 5, 7, 8);
    var a, b, c, d := Saved(7, Ctx(5)), Saved(8, Ctx(9)), Traded(f), Saved(7, Ctx(6));
    FilledOnce(f, 7);
    FilledOnce(f, 8);
    RunSnoc(EMPTY_TABLES, [], a);
    RunSnoc(EMPTY_TABLES, [a], b);
    RunSnoc(EMPTY_TABLES, [a, b], c);
    RunSnoc(EMPTY_TABLES, [a, b, c], d);
    assert [] + [a] == [a] && [a] + [b] == [a, b] && [a, b] + [c] == [a, b, c] && [a, b, c] + [d] == [a, b, c, d];
    var saved := Run(EMPTY_TABLES, [a, b]);
    assert saved.contexts == map[7 := Row(Ctx(5), PENDING, None), 8 := Row(Ctx(9), PENDING, None)];
    assert Apply(saved, c).Some?;
    TradedOn(saved, f, 7);
    var filled := Run(EMPTY_TABLES, [a, b, c]);
    assert filled.fills == map[1 := f];
    var resaved := Run(EMPTY_TABLES, [a, b, c, d]);
    assert resaved.contexts[7] == Row(Ctx(6), FILLED, None);
    assert Apply(resaved, c).Some?;
    TradedOn(resaved, f, 7);
    events, redelivered := [a, b, c, d], c;
    RunSnoc(EMPTY_TABLES, events, c);
  }

  // ---- the reject reason ----

  /** What an event writes to an order's reject_reason, if anything. */
  function Writes(e: Event, o: int): Option<Option<string>> {
    match e
    case Accepted(order) => if order == o then Some(None) else None
    case Rejected(order, reason) => if order == o then Some(Some(reason)) else None
    case _ => None
  }

  lemma WritesReason(s: Tables, e: Event, o: int)
    requires o in s.contexts
    ensures var n := Deliver(s, e);
      o in n.contexts && n.contexts[o].reason == if Writes(e, o).Some? then Writes(e, o).value else s.contexts[o].reason
  {
    if e.Traded? && Apply(s, e).Some? {
      TradedOn(s, e.fill, o);
    }
  }

  /** Two events commute on an order's reason exactly if one of them writes none, or both the same. */
  lemma ReasonsCommuteIff(s: Tables, a: Event, b: Event, o: int)
    requires o in s.contexts
    ensures var left, right := Deliver(Deliver(s, a), b), Deliver(Deliver(s, b), a);
      && o in left.contexts && o in right.contexts
      && (left.contexts[o].reason == right.contexts[o].reason
          <==> Writes(a, o).None? || Writes(b, o).None? || Writes(a, o) == Writes(b, o))
  {
    WritesReason(s, a, o);
    WritesReason(s, b, o);
    WritesReason(Deliver(s, a), b, o);
    WritesReason(Deliver(s, b), a, o);
  }

  function LastWritten(events: seq<Event>, o: int): Option<Option<string>> {
    if events == [] then None
    else if Writes(events[|events| - 1], o).Some? then Writes(events[|events| - 1], o)
    else LastWritten(events[..|events| - 1], o)
  }

  /** After any run the reason is what the order's last reply has written. */
  lemma {:induction false} ReasonIsTheLastWritten(s: Tables, events: seq<Event>, o: int)
    requires o in s.contexts
    ensures var n := Run(s, events);
      o in n.contexts
      && var last := LastWritten(events, o);
      n.contexts[o].reason == if last.Some? then last.value else s.contexts[o].reason
  {
    if events != [] {
      ReasonIsTheLastWritten(s, events[..|events| - 1], o);
      WritesReason(Run(s, events[..|events| - 1]), events[|events| - 1], o);
    }
  }

  /** All events of the set that write the order's reason write the same one. */
  ghost predicate OneReason(all: set<Event>, o: int) {
    forall a <- all :: forall b <- all | Writes(a, o).Some? && Writes(b, o).Some? :: Writes(a, o) == Writes(b, o)
  }

  ghost predicate ReasonIsDetermined(s: Tables, all: set<Event>, o: int)
    requires o in s.contexts
  {
    forall left, right | Events(left) == all && Events(right) == all :: SameReason(s, left, right, o)
  }

  ghost predicate SameReason(s: Tables, left: seq<Event>, right: seq<Event>, o: int) {
    && o in Run(s, left).contexts && o in Run(s, right).contexts
    && Run(s, left).contexts[o].reason == Run(s, right).contexts[o].reason
  }

  lemma {:induction false} LastWrittenIsFromTheSet(events: seq<Event>, o: int)
    ensures LastWritten(events, o).Some? ==> exists e :: e in events && Writes(e, o) == LastWritten(events, o)
    ensures LastWritten(events, o).None? ==> forall e <- events :: Writes(e, o).None?
  {
    if events != [] {
      var init, last := events[..|events| - 1], events[|events| - 1];
      assert events == init + [last];
      LastWrittenIsFromTheSet(init, o);
      assert last in events;
      if Writes(last, o).None? && LastWritten(init, o).Some? {
        var e :| e in init && Writes(e, o) == LastWritten(init, o);
        assert e in events;
      }
    }
  }

  lemma {:induction false} Listing(all: set<Event>) returns (events: seq<Event>)
    ensures Events(events) == all
    decreases |all|
  {
    if all == {} {
      events := [];
    } else {
      var e :| e in all;
      var rest := Listing(all - {e});
      events := rest + [e];
      assert Events(events) == Events(rest) + {e};
    }
  }

  lemma LastWins(s: Tables, all: set<Event>, e: Event, o: int) returns (events: seq<Event>)
    requires o in s.contexts && e in all && Writes(e, o).Some?
    ensures Events(events) == all
    ensures o in Run(s, events).contexts && Run(s, events).contexts[o].reason == Writes(e, o).value
  {
    var listed := Listing(all);
    events := listed + [e];
    assert Events(events) == Events(listed) + {e};
    ReasonIsTheLastWritten(s, events, o);
  }

  /** Every order of the same events leaves the same reason exactly if they write no two different ones. */
  lemma ReasonIsDeterminedIff(s: Tables, all: set<Event>, o: int)
    requires o in s.contexts
    ensures ReasonIsDetermined(s, all, o) <==> OneReason(all, o)
  {
    if OneReason(all, o) {
      forall left, right | Events(left) == all && Events(right) == all ensures SameReason(s, left, right, o) {
        ReasonIsTheLastWritten(s, left, o);
        ReasonIsTheLastWritten(s, right, o);
        LastWrittenIsFromTheSet(left, o);
        LastWrittenIsFromTheSet(right, o);
        assert forall e :: e in left <==> e in Events(left);
        assert forall e :: e in right <==> e in Events(right);
      }
    } else {
      var a, b :| a in all && b in all && Writes(a, o).Some? && Writes(b, o).Some? && Writes(a, o) != Writes(b, o);
      var left := LastWins(s, all, a, o);
      var right := LastWins(s, all, b, o);
      assert !SameReason(s, left, right, o);
    }
  }

  /** So it is not confluent: an acceptance and a rejection of one saved order leave either reason. */
  lemma ReasonIsNotConfluent()
    ensures var s, all := Run(EMPTY_TABLES, [Saved(7, Ctx(5))]), {Accepted(7), Rejected(7, "late")};
      7 in s.contexts && !ReasonIsDetermined(s, all, 7)
  {
    var s, all := Run(EMPTY_TABLES, [Saved(7, Ctx(5))]), {Accepted(7), Rejected(7, "late")};
    RunSnoc(EMPTY_TABLES, [], Saved(7, Ctx(5)));
    assert [] + [Saved(7, Ctx(5))] == [Saved(7, Ctx(5))];
    ReasonIsDeterminedIff(s, all, 7);
    assert Accepted(7) in all && Rejected(7, "late") in all;
  }
}
