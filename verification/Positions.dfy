/** How one fill moves one user's position in one market, and what any run of fills adds up to. */
module Positions {
  import opened Common
  import opened PositionMath

  datatype Slot = Slot(user: int, market: int)

  /** What the projector knows of the order behind one side of a trade; its margin is the amount reserved, or 0. */
  datatype Context = Context(slot: Slot, side: Side, quantity: int, margin: nat, reduceOnly: bool)

  /** One side of a trade. */
  datatype Leg = Leg(context: Context, order: int, price: int, quantity: int)

  datatype Position = Position(
    side: Side, quantity: int, margin: int, average: int, unrealized: int, openOrder: Option<int>)

  datatype Closed = Closed(
    slot: Slot, side: Side, quantity: int, entry: int, exit: int, pnl: int, margin: int,
    openOrder: int, closeOrder: int)

  /** The slot's open row after a fill, and the closed row the fill has written, if any. */
  datatype Change = Change(open: Option<Position>, rows: seq<Closed>)

  function Opened(leg: Leg, quantity: int): Position {
    Position(leg.context.side, quantity, ProportionalMargin(leg.context.margin, leg.context.quantity, quantity),
             leg.price, 0, Some(leg.order))
  }

  function Increased(p: Position, leg: Leg): Position {
    p.(quantity := p.quantity + leg.quantity,
       margin := p.margin + ProportionalMargin(leg.context.margin, leg.context.quantity, leg.quantity),
       average := WeightedAverage(p.average, p.quantity, leg.price, leg.quantity))
  }

  function ClosedQuantity(p: Position, leg: Leg): int {
    Min(p.quantity, leg.quantity)
  }

  function ClosedMargin(p: Position, leg: Leg): int {
    ProportionalMargin(p.margin, p.quantity, ClosedQuantity(p, leg))
  }

  function ClosedRow(p: Position, leg: Leg): Closed {
    Closed(leg.context.slot, p.side, ClosedQuantity(p, leg), p.average, leg.price,
           RealizedPnl(p.side, p.average, leg.price, ClosedQuantity(p, leg)), ClosedMargin(p, leg),
           if p.openOrder.Some? then p.openOrder.value else leg.order, leg.order)
  }

  function Reduced(p: Position, leg: Leg): Position {
    p.(quantity := p.quantity - ClosedQuantity(p, leg), margin := Max(p.margin - ClosedMargin(p, leg), 0))
  }

  /** A reduce-only fill is dropped where there is nothing on the other side; it is not limited to what there is. */
  predicate Dropped(open: Option<Position>, leg: Leg) {
    leg.context.reduceOnly && (open.None? || open.value.side == leg.context.side)
  }

  function Project(open: Option<Position>, leg: Leg): Change {
    if Dropped(open, leg) then Change(open, [])
    else if open.None? then Change(Some(Opened(leg, leg.quantity)), [])
    else
      var p := open.value;
      if p.side == leg.context.side then Change(Some(Increased(p, leg)), [])
      else if ClosedQuantity(p, leg) < p.quantity then Change(Some(Reduced(p, leg)), [ClosedRow(p, leg)])
      else
        var left := leg.quantity - p.quantity;
        Change(if left > 0 then Some(Opened(leg, left)) else None, [ClosedRow(p, leg)])
  }

  // ---- the quantities a fill moves ----

  /** The signed quantity a fill brings to the slot. */
  function Applied(open: Option<Position>, leg: Leg): int {
    if Dropped(open, leg) then 0 else Sign(leg.context.side) * leg.quantity
  }

  /** The part of a fill that opens exposure, the rest closes it. */
  function Entered(open: Option<Position>, leg: Leg): int {
    if Dropped(open, leg) then 0
    else if open.None? || open.value.side == leg.context.side then leg.quantity
    else Max(leg.quantity - open.value.quantity, 0)
  }

  function MarginTaken(open: Option<Position>, leg: Leg): int {
    if Entered(open, leg) <= 0 then 0
    else ProportionalMargin(leg.context.margin, leg.context.quantity, Entered(open, leg))
  }

  /** What the user's cash moves by: buying pays, selling receives. */
  function Cash(open: Option<Position>, leg: Leg): int {
    -(Applied(open, leg) * leg.price)
  }

  /** What truncating the average loses when a fill on `side` increases a position. */
  function Remainder(side: Side, open: Option<Position>, leg: Leg): int {
    if open.Some? && !Dropped(open, leg) && open.value.side == leg.context.side == side
      && open.value.quantity + leg.quantity > 0
    then AverageRemainder(open.value.average, open.value.quantity, leg.price, leg.quantity)
    else 0
  }

  function Signed(open: Option<Position>): int {
    if open.None? then 0 else Sign(open.value.side) * open.value.quantity
  }

  function OpenQuantity(open: Option<Position>): int {
    if open.None? then 0 else open.value.quantity
  }

  function OpenMargin(open: Option<Position>): int {
    if open.None? then 0 else open.value.margin
  }

  /** The signed position at its average price. */
  function AtCost(open: Option<Position>): int {
    if open.None? then 0 else Sign(open.value.side) * open.value.quantity * open.value.average
  }

  predicate Plausible(leg: Leg) {
    leg.quantity > 0 && 0 <= leg.price <= I64_MAX
  }

  predicate Sane(open: Option<Position>) {
    open.Some? ==> open.value.quantity > 0 && open.value.margin >= 0 && 0 <= open.value.average <= I64_MAX
  }

  lemma ProjectKeepsSane(open: Option<Position>, leg: Leg)
    requires Sane(open) && Plausible(leg)
    ensures Sane(Project(open, leg).open)
  {
    MarginNonNegative(leg.context.margin, leg.context.quantity, leg.quantity);
    if open.Some? {
      MarginNonNegative(leg.context.margin, leg.context.quantity, leg.quantity - open.value.quantity);
      AverageStep(open.value.average, open.value.quantity, leg.price, leg.quantity);
    }
  }

  // ---- one fill ----

  function Rows(f: Closed -> int, rows: seq<Closed>): int {
    if rows == [] then 0 else Rows(f, rows[..|rows| - 1]) + f(rows[|rows| - 1])
  }

  lemma RowsAppend(f: Closed -> int, rows: seq<Closed>, added: seq<Closed>)
    requires |added| <= 1
    ensures Rows(f, rows + added) == Rows(f, rows) + Rows(f, added)
  {
    if added == [] {
      assert rows + added == rows;
    } else {
      assert (rows + added)[..|rows|] == rows;
      assert added[..0] == [];
    }
  }

  function RowMargin(row: Closed): int {
    row.margin
  }

  function RowQuantity(row: Closed): int {
    row.quantity
  }

  function Realized(row: Closed): int {
    row.pnl
  }

  /** What clamping to 64 bits took from the row's exact profit and loss. */
  function Clamped(row: Closed): int {
    RawPnl(row.side, row.entry, row.exit, row.quantity) - row.pnl
  }

  lemma One(f: Closed -> int, row: Closed)
    ensures Rows(f, [row]) == f(row)
  {
    assert [row][..0] == [];
  }

  lemma MarginStep(open: Option<Position>, leg: Leg)
    requires Sane(open) && Plausible(leg)
    ensures var c := Project(open, leg);
      && OpenMargin(c.open) + Rows(RowMargin, c.rows) == OpenMargin(open) + MarginTaken(open, leg)
      && OpenMargin(c.open) >= 0 && MarginTaken(open, leg) >= 0
      && (forall row <- c.rows :: row.margin >= 0 && row.quantity > 0)
  {
    ProjectKeepsSane(open, leg);
    MarginNonNegative(leg.context.margin, leg.context.quantity, Entered(open, leg));
    if open.Some? {
      var p := open.value;
      MarginNonNegative(p.margin, p.quantity, ClosedQuantity(p, leg));
      One(RowMargin, ClosedRow(p, leg));
    }
  }

  lemma QuantityStep(open: Option<Position>, leg: Leg)
    requires Sane(open) && Plausible(leg)
    ensures var c := Project(open, leg);
      && Signed(c.open) == Signed(open) + Applied(open, leg)
      && OpenQuantity(c.open) + Rows(RowQuantity, c.rows) == OpenQuantity(open) + Entered(open, leg)
  {
    if open.Some? {
      One(RowQuantity, ClosedRow(open.value, leg));
    }
  }

  /** Profit and loss before clamping, less the cash that moved, less the change of the position's cost. */
  function Discrepancy(open: Option<Position>, leg: Leg): int {
    var c := Project(open, leg);
    Rows(Realized, c.rows) + Rows(Clamped, c.rows) - Cash(open, leg) - AtCost(c.open) + AtCost(open)
  }

  lemma IncreaseAlgebra(s: int, a: int, q: int, p: int, t: int, next: int, rem: int)
    requires s == 1 || s == -1
    requires next * (q + t) == a * q + p * t - rem
    ensures s * t * p - s * (q + t) * next + s * q * a == s * rem
  {
    assert (q + t) * next == next * (q + t);
  }

  lemma CloseAlgebra(s: int, a: int, p: int, q: int, t: int)
    requires s == 1 || s == -1
    ensures s * (p - a) * t - s * t * p - s * (q - t) * a + s * q * a == 0
  {
    assert (p - a) * t == t * p - t * a;
    assert (q - t) * a == q * a - t * a;
  }

  lemma ReverseAlgebra(s: int, a: int, p: int, q: int, t: int)
    requires s == 1 || s == -1
    ensures s * (p - a) * q - s * t * p + s * (t - q) * p + s * q * a == 0
  {
    assert (p - a) * q == q * p - q * a;
    assert (t - q) * p == t * p - q * p;
  }

  lemma CashOfClosing(p: Position, leg: Leg)
    requires p.side != leg.context.side
    ensures Cash(Some(p), leg) == Sign(p.side) * leg.quantity * leg.price
  {
    assert Sign(leg.context.side) == -Sign(p.side);
    assert (-Sign(p.side)) * leg.quantity == -(Sign(p.side) * leg.quantity);
  }

  lemma RowPnl(p: Position, leg: Leg)
    ensures Rows(Realized, [ClosedRow(p, leg)]) + Rows(Clamped, [ClosedRow(p, leg)])
         == Sign(p.side) * (leg.price - p.average) * ClosedQuantity(p, leg)
  {
    One(Realized, ClosedRow(p, leg));
    One(Clamped, ClosedRow(p, leg));
  }

  lemma PnlOfOpening(leg: Leg)
    requires !leg.context.reduceOnly
    ensures Discrepancy(None, leg) == 0
  {
    assert Rows(Realized, []) == 0 && Rows(Clamped, []) == 0;
  }

  lemma PnlOfIncreasing(p: Position, leg: Leg)
    requires Sane(Some(p)) && Plausible(leg) && p.side == leg.context.side && !leg.context.reduceOnly
    ensures Discrepancy(Some(p), leg) == Sign(p.side) * AverageRemainder(p.average, p.quantity, leg.price, leg.quantity)
  {
    AverageStep(p.average, p.quantity, leg.price, leg.quantity);
    IncreaseAlgebra(Sign(p.side), p.average, p.quantity, leg.price, leg.quantity, Increased(p, leg).average,
                    AverageRemainder(p.average, p.quantity, leg.price, leg.quantity));
    assert Rows(Realized, []) == 0 && Rows(Clamped, []) == 0;
  }

  lemma PnlOfReducing(p: Position, leg: Leg)
    requires p.side != leg.context.side && leg.quantity < p.quantity
    ensures Discrepancy(Some(p), leg) == 0
  {
    RowPnl(p, leg);
    CashOfClosing(p, leg);
    CloseAlgebra(Sign(p.side), p.average, leg.price, p.quantity, leg.quantity);
  }

  lemma PnlOfReversing(p: Position, leg: Leg)
    requires p.side != leg.context.side && leg.quantity >= p.quantity
    ensures Discrepancy(Some(p), leg) == 0
  {
    RowPnl(p, leg);
    CashOfClosing(p, leg);
    ReverseAlgebra(Sign(p.side), p.average, leg.price, p.quantity, leg.quantity);
    assert AtCost(Project(Some(p), leg).open) == -(Sign(p.side) * (leg.quantity - p.quantity) * leg.price) by {
      assert leg.quantity == p.quantity ==> Sign(p.side) * (leg.quantity - p.quantity) == 0;
      assert leg.quantity > p.quantity ==> Sign(leg.context.side) == -Sign(p.side);
    }
  }

  /** Profit and loss before clamping follows cash and cost, up to the truncated part of an average. */
  lemma PnlStep(open: Option<Position>, leg: Leg)
    requires Sane(open) && Plausible(leg)
    ensures Discrepancy(open, leg) == Remainder(Long, open, leg) - Remainder(Short, open, leg)
  {
    if !Dropped(open, leg) {
      if open.None? {
        PnlOfOpening(leg);
      } else if open.value.side == leg.context.side {
        PnlOfIncreasing(open.value, leg);
      } else if leg.quantity < open.value.quantity {
        PnlOfReducing(open.value, leg);
      } else {
        PnlOfReversing(open.value, leg);
      }
    }
  }

  // ---- runs of fills in one slot ----

  datatype SlotState = SlotState(open: Option<Position>, closed: seq<Closed>)

  function After(legs: seq<Leg>): SlotState {
    if legs == [] then SlotState(None, []) else
      var s := After(legs[..|legs| - 1]);
      var c := Project(s.open, legs[|legs| - 1]);
      SlotState(c.open, s.closed + c.rows)
  }

  function Total(f: (Option<Position>, Leg) -> int, legs: seq<Leg>): int {
    if legs == [] then 0
    else Total(f, legs[..|legs| - 1]) + f(After(legs[..|legs| - 1]).open, legs[|legs| - 1])
  }

  predicate AllPlausible(legs: seq<Leg>) {
    forall i | 0 <= i < |legs| :: Plausible(legs[i])
  }

  lemma {:induction false} AfterIsSane(legs: seq<Leg>)
    requires AllPlausible(legs)
    ensures Sane(After(legs).open)
  {
    if legs != [] {
      AfterIsSane(legs[..|legs| - 1]);
      ProjectKeepsSane(After(legs[..|legs| - 1]).open, legs[|legs| - 1]);
    }
  }

  /** Margin is neither lost nor made: what the fills brought is on the open row and on the closed rows. */
  lemma {:induction false} MarginIsConserved(legs: seq<Leg>)
    requires AllPlausible(legs)
    ensures Total(MarginTaken, legs) == OpenMargin(After(legs).open) + Rows(RowMargin, After(legs).closed)
    ensures OpenMargin(After(legs).open) >= 0 && Total(MarginTaken, legs) >= 0
    ensures forall row <- After(legs).closed :: row.margin >= 0 && row.quantity > 0
  {
    if legs != [] {
      var init, last := legs[..|legs| - 1], legs[|legs| - 1];
      MarginIsConserved(init);
      AfterIsSane(init);
      MarginStep(After(init).open, last);
      RowsAppend(RowMargin, After(init).closed, Project(After(init).open, last).rows);
    }
  }

  /** The signed position is the sum of the fills applied; what entered is open or has been closed. */
  lemma {:induction false} QuantityIsConserved(legs: seq<Leg>)
    requires AllPlausible(legs)
    ensures Signed(After(legs).open) == Total(Applied, legs)
    ensures Total(Entered, legs) == OpenQuantity(After(legs).open) + Rows(RowQuantity, After(legs).closed)
  {
    if legs != [] {
      var init, last := legs[..|legs| - 1], legs[|legs| - 1];
      QuantityIsConserved(init);
      AfterIsSane(init);
      QuantityStep(After(init).open, last);
      RowsAppend(RowQuantity, After(init).closed, Project(After(init).open, last).rows);
    }
  }

  function LongRemainder(open: Option<Position>, leg: Leg): int {
    Remainder(Long, open, leg)
  }

  function ShortRemainder(open: Option<Position>, leg: Leg): int {
    Remainder(Short, open, leg)
  }

  /**
   * Realized profit and loss, with what clamping took put back, is the cash that moved plus
   * the open position at cost, up to the truncation remainders of the averages.
   */
  lemma {:induction false} PnlFollowsCash(legs: seq<Leg>)
    requires AllPlausible(legs)
    ensures Rows(Realized, After(legs).closed) + Rows(Clamped, After(legs).closed)
         == Total(Cash, legs) + AtCost(After(legs).open) + Total(LongRemainder, legs) - Total(ShortRemainder, legs)
  {
    if legs != [] {
      var init, last := legs[..|legs| - 1], legs[|legs| - 1];
      PnlFollowsCash(init);
      AfterIsSane(init);
      PnlStep(After(init).open, last);
      var rows := Project(After(init).open, last).rows;
      RowsAppend(Realized, After(init).closed, rows);
      RowsAppend(Clamped, After(init).closed, rows);
    }
  }

  /** Nothing is clamped on a closed row exactly when the exact result fits the column; else it is at a bound. */
  lemma ClampedIff(open: Option<Position>, leg: Leg)
    ensures forall row <- Project(open, leg).rows ::
      var exact := RawPnl(row.side, row.entry, row.exit, row.quantity);
      && (Clamped(row) == 0 <==> FitsI64(exact))
      && (exact > I64_MAX ==> row.pnl == I64_MAX)
      && (exact < I64_MIN ==> row.pnl == I64_MIN)
  {
  }

  /** Each remainder is less than the position it leaves, so the run's remainders are bounded by the sizes reached. */
  function Room(side: Side, open: Option<Position>, leg: Leg): int {
    if open.Some? && !Dropped(open, leg) && open.value.side == leg.context.side == side
    then open.value.quantity + leg.quantity - 1 else 0
  }

  function LongRoom(open: Option<Position>, leg: Leg): int {
    Room(Long, open, leg)
  }

  function ShortRoom(open: Option<Position>, leg: Leg): int {
    Room(Short, open, leg)
  }

  lemma {:induction false} RemaindersAreBounded(legs: seq<Leg>)
    requires AllPlausible(legs)
    ensures 0 <= Total(LongRemainder, legs) <= Total(LongRoom, legs)
    ensures 0 <= Total(ShortRemainder, legs) <= Total(ShortRoom, legs)
  {
    if legs != [] {
      var init, last := legs[..|legs| - 1], legs[|legs| - 1];
      RemaindersAreBounded(init);
      AfterIsSane(init);
      RemainderWithin(Long, After(init).open, last);
      RemainderWithin(Short, After(init).open, last);
    }
  }

  lemma RemainderWithin(side: Side, open: Option<Position>, leg: Leg)
    requires Sane(open) && Plausible(leg)
    ensures 0 <= Remainder(side, open, leg) <= Room(side, open, leg)
    ensures Room(side, open, leg) > 0 ==> OpenQuantity(Project(open, leg).open) == Room(side, open, leg) + 1
  {
    if open.Some? {
      AverageStep(open.value.average, open.value.quantity, leg.price, leg.quantity);
    }
  }

  /** From flat to flat, profit and loss is the cash that moved, within the remainders. */
  lemma FlatToFlat(legs: seq<Leg>)
    requires AllPlausible(legs) && After(legs).open.None?
    ensures var pnl := Rows(Realized, After(legs).closed) + Rows(Clamped, After(legs).closed);
      Total(Cash, legs) - Total(ShortRoom, legs) <= pnl <= Total(Cash, legs) + Total(LongRoom, legs)
  {
    PnlFollowsCash(legs);
    RemaindersAreBounded(legs);
  }

  // ---- the fills of one side ----

  function Buys(legs: seq<Leg>): seq<Buy> {
    seq(|legs|, i requires 0 <= i < |legs| => Buy(legs[i].price, legs[i].quantity))
  }

  function Sizes(legs: seq<Leg>): seq<int> {
    seq(|legs|, i requires 0 <= i < |legs| => legs[i].quantity)
  }

  predicate OneSided(legs: seq<Leg>, side: Side) {
    forall i | 0 <= i < |legs| :: legs[i].context.side == side && !legs[i].context.reduceOnly
  }

  /** Fills on one side from flat: the row holds their total, their stored average and nothing is closed. */
  lemma {:induction false} OneSidedRun(legs: seq<Leg>, side: Side)
    requires AllPlausible(legs) && OneSided(legs, side)
    ensures After(legs).closed == []
    ensures After(legs).open.Some? <==> legs != []
    ensures legs != [] ==>
      var p := After(legs).open.value;
      p.side == side && p.quantity == Quantity(Buys(legs)) && p.average == StoredAverage(Buys(legs))
  {
    if legs != [] {
      var init, last := legs[..|legs| - 1], legs[|legs| - 1];
      OneSidedRun(init, side);
      assert Buys(legs)[..|legs| - 1] == Buys(init);
      if init == [] {
        assert Buys(init) == [];
      }
    }
  }

  /** What the partial fills of one order add to the margin are the slices of its margin. */
  lemma {:induction false} OneOrderRun(legs: seq<Leg>, context: Context)
    requires AllPlausible(legs) && !context.reduceOnly
    requires forall i | 0 <= i < |legs| :: legs[i].context == context
    ensures After(legs).open.Some? ==> After(legs).open.value.side == context.side
    ensures OpenMargin(After(legs).open) == Sum(Slices(context.margin, context.quantity, Sizes(legs)))
  {
    if legs == [] {
      assert Slices(context.margin, context.quantity, Sizes(legs)) == [];
    } else {
      var init, last := legs[..|legs| - 1], legs[|legs| - 1];
      OneOrderRun(init, context);
      assert Slices(context.margin, context.quantity, Sizes(legs))[..|legs| - 1]
        == Slices(context.margin, context.quantity, Sizes(init));
    }
  }

  lemma SizesArePositive(legs: seq<Leg>)
    requires AllPlausible(legs)
    ensures forall i | 0 <= i < |Sizes(legs)| :: Sizes(legs)[i] > 0
  {
    forall i | 0 <= i < |legs| ensures Sizes(legs)[i] > 0 {
      assert Plausible(legs[i]);
    }
  }

  /** A partly or wholly filled order holds its share of the margin, missing it by less than one per fill. */
  lemma OneOrderMargin(legs: seq<Leg>, context: Context)
    requires AllPlausible(legs) && !context.reduceOnly
    requires forall i | 0 <= i < |legs| :: legs[i].context == context
    requires 0 < context.margin <= I64_MAX && Sum(Sizes(legs)) <= context.quantity
    ensures var error := context.quantity * OpenMargin(After(legs).open) - context.margin * Sum(Sizes(legs));
      -(|legs| * (context.quantity - 1)) <= error <= |legs| * (context.quantity - 1)
  {
    OneOrderRun(legs, context);
    SizesArePositive(legs);
    SlicesOfOneOrder(context.margin, context.quantity, Sizes(legs));
  }

  lemma Shortfall(average: int, n: int, q: int, notional: int)
    requires n >= 1 && q >= 1
    requires 0 <= notional - average * q <= (n - 1) * (q - 1)
    ensures average * q <= notional < (average + n) * q
  {
    assert (n - 1) * (q - 1) == n * q - n - q + 1;
    assert (average + n) * q == average * q + n * q;
  }

  lemma BuysWithin(legs: seq<Leg>, low: int, high: int)
    requires AllPlausible(legs)
    requires forall i | 0 <= i < |legs| :: low <= legs[i].price <= high
    ensures PositionMath.Plausible(Buys(legs))
    ensures forall i | 0 <= i < |Buys(legs)| :: low <= Buys(legs)[i].price <= high
  {
    forall i | 0 <= i < |Buys(legs)| ensures low <= Buys(legs)[i].price <= high && Buys(legs)[i].quantity > 0 {
      assert Plausible(legs[i]);
    }
  }

  /** The stored average of a one-sided position is within the prices, and within n below the true average. */
  lemma {:induction false} OneSidedAverage(legs: seq<Leg>, side: Side, low: int, high: int)
    requires legs != [] && AllPlausible(legs) && OneSided(legs, side)
    requires forall i | 0 <= i < |legs| :: low <= legs[i].price <= high
    requires 0 <= low && high <= I64_MAX
    ensures After(legs).open.Some?
    ensures var p := After(legs).open.value;
      && low <= p.average <= high
      && p.average * p.quantity <= Notional(Buys(legs)) < (p.average + |legs|) * p.quantity
  {
    OneSidedRun(legs, side);
    BuysWithin(legs, low, high);
    AverageAccuracy(Buys(legs), low, high);
    Shortfall(StoredAverage(Buys(legs)), |legs|, Quantity(Buys(legs)), Notional(Buys(legs)));
  }

  // ---- reduce-only ----

  predicate OnlyReduces(before: Option<Position>, after: Option<Position>) {
    after.None?
      || (before.Some? && after.value.side == before.value.side && after.value.quantity <= before.value.quantity)
  }

  /** A reduce-only fill reduces, unless it is larger than the opposite position: then it reverses it. */
  lemma ReduceOnlyReducesIff(open: Option<Position>, leg: Leg)
    requires Sane(open) && leg.context.reduceOnly && leg.quantity > 0
    ensures OnlyReduces(open, Project(open, leg).open)
       <==> !(open.Some? && open.value.side != leg.context.side && leg.quantity > open.value.quantity)
  {
  }

  lemma ReduceOnlyReverses()
    ensures var open := Some(Position(Long, 4, 400, 100, 0, Some(1)));
      var leg := Leg(Context(Slot(7, 1), Short, 10, 0, true), 2, 110, 10);
      && !OnlyReduces(open, Project(open, leg).open)
      && Project(open, leg).open == Some(Position(Short, 6, 0, 110, 0, Some(2)))
  {
  }
}
