/** What the positions table holds after any delivery of trades, duplicates and refused rows included. */
module PositionRuns {
  import opened Common
  import opened Fills
  import opened TableSums
  import opened PositionMath
  import opened Positions
  import opened PositionBook

  /** The fills table and the books that it and the contexts determine. */
  datatype Projected = Projected(fills: map<int, Fill>, book: Book)

  const NOTHING_PROJECTED := Projected(map[], EMPTY_BOOK)

  predicate Inserted(s: Projected, t: Trade) {
    Admissible(t.fill) && !Clashes(s.fills, t.fill)
  }

  /** A clash leaves the books alone, and so does a fill that violates a CHECK: its transaction is aborted. */
  function Deliver(s: Projected, t: Trade): Projected {
    if Inserted(s, t) then Projected(WithFill(s.fills, t.fill), ProjectFill(s.book, t)) else s
  }

  function Run(trades: seq<Trade>): Projected {
    if trades == [] then NOTHING_PROJECTED else Deliver(Run(trades[..|trades| - 1]), trades[|trades| - 1])
  }

  /** The trades of the run that got a fills row, in order. */
  function Accepted(trades: seq<Trade>): seq<Trade> {
    if trades == [] then []
    else if Inserted(Run(trades[..|trades| - 1]), trades[|trades| - 1])
    then Accepted(trades[..|trades| - 1]) + [trades[|trades| - 1]]
    else Accepted(trades[..|trades| - 1])
  }

  ghost predicate Recorded(fills: map<int, Fill>, accepted: seq<Trade>) {
    && (forall i | 0 <= i < |accepted| ::
          accepted[i].fill.id in fills && fills[accepted[i].fill.id] == accepted[i].fill)
    && (forall id | id in fills :: exists i :: 0 <= i < |accepted| && accepted[i].fill.id == id)
  }

  predicate SameKey(t: Trade, u: Trade) {
    t.fill.id == u.fill.id || (t.fill.market == u.fill.market && t.fill.sequence == u.fill.sequence)
  }

  lemma {:induction false} FillsAreTheAcceptedTrades(trades: seq<Trade>)
    ensures Recorded(Run(trades).fills, Accepted(trades))
  {
    if trades != [] {
      var init, last := trades[..|trades| - 1], trades[|trades| - 1];
      FillsAreTheAcceptedTrades(init);
      var before, after := Accepted(init), Accepted(trades);
      assert forall i | 0 <= i < |before| :: after[i] == before[i];
      if Inserted(Run(init), last) {
        assert after[|before|] == last;
      }
    }
  }

  lemma InsertedIsNew(fills: map<int, Fill>, accepted: seq<Trade>, t: Trade)
    requires Recorded(fills, accepted) && !Clashes(fills, t.fill)
    ensures forall i | 0 <= i < |accepted| :: !SameKey(accepted[i], t)
  {
  }

  /**
   * The accepted trades are admissible and pairwise distinct under both keys, and every other
   * admissible trade that was delivered shares a key with one of them: duplicates change nothing.
   */
  lemma {:induction false} AcceptedAreTheDistinctTrades(trades: seq<Trade>)
    ensures forall i | 0 <= i < |Accepted(trades)| :: Admissible(Accepted(trades)[i].fill)
    ensures forall i, j | 0 <= i < j < |Accepted(trades)| :: !SameKey(Accepted(trades)[i], Accepted(trades)[j])
    ensures forall t <- trades | Admissible(t.fill) ::
      exists i :: 0 <= i < |Accepted(trades)| && SameKey(t, Accepted(trades)[i])
  {
    if trades != [] {
      var init, last := trades[..|trades| - 1], trades[|trades| - 1];
      AcceptedAreTheDistinctTrades(init);
      FillsAreTheAcceptedTrades(init);
      var before, after := Accepted(init), Accepted(trades);
      assert forall i | 0 <= i < |before| :: after[i] == before[i];
      if Inserted(Run(init), last) {
        InsertedIsNew(Run(init).fills, before, last);
        assert after[|before|] == last && SameKey(last, last);
      } else if Admissible(last.fill) {
        ClashIsSameKey(Run(init).fills, before, last);
      }
    }
  }

  lemma ClashIsSameKey(fills: map<int, Fill>, accepted: seq<Trade>, t: Trade)
    requires Recorded(fills, accepted) && Clashes(fills, t.fill)
    ensures exists i :: 0 <= i < |accepted| && SameKey(t, accepted[i])
  {
    var id := if t.fill.id in fills then t.fill.id else
      var id :| id in fills && fills[id].market == t.fill.market && fills[id].sequence == t.fill.sequence; id;
    var i :| 0 <= i < |accepted| && accepted[i].fill.id == id;
    assert SameKey(t, accepted[i]);
  }

  // ---- a slot of the table is a run of that slot's legs ----

  function Mine(leg: Leg, slot: Slot): seq<Leg> {
    if leg.context.slot == slot then [leg] else []
  }

  function LegsOfTrade(t: Trade, slot: Slot): seq<Leg> {
    Mine(MakerLeg(t), slot) + Mine(TakerLeg(t), slot)
  }

  function LegsOf(trades: seq<Trade>, slot: Slot): seq<Leg> {
    if trades == [] then [] else LegsOf(trades[..|trades| - 1], slot) + LegsOfTrade(trades[|trades| - 1], slot)
  }

  function RowsOf(closed: seq<Closed>, slot: Slot): seq<Closed> {
    if closed == [] then []
    else
      var last := closed[|closed| - 1];
      RowsOf(closed[..|closed| - 1], slot) + (if last.slot == slot then [last] else [])
  }

  function Bare(open: Option<Position>): Option<Position> {
    if open.None? then None else Some(open.value.(unrealized := 0))
  }

  ghost function View(b: Book, slot: Slot): SlotState {
    SlotState(Bare(At(b.positions, slot)), RowsOf(b.closed, slot))
  }

  lemma RowsOfAppend(closed: seq<Closed>, added: seq<Closed>, slot: Slot)
    requires |added| <= 1
    ensures RowsOf(closed + added, slot)
      == RowsOf(closed, slot) + (if |added| == 1 && added[0].slot == slot then added else [])
  {
    if added == [] {
      assert closed + added == closed;
    } else {
      assert (closed + added)[..|closed|] == closed;
    }
  }

  lemma ProjectIgnoresMark(open: Option<Position>, leg: Leg)
    ensures Bare(Project(open, leg).open) == Project(Bare(open), leg).open
    ensures Project(open, leg).rows == Project(Bare(open), leg).rows
    ensures |Project(open, leg).rows| <= 1
    ensures forall row <- Project(open, leg).rows :: row.slot == leg.context.slot
  {
  }

  lemma WriteElsewhere(b: Book, written: Slot, c: Change, slot: Slot)
    requires written != slot && |c.rows| <= 1 && forall row <- c.rows :: row.slot == written
    ensures View(b.(positions := With(b.positions, written, c.open), closed := b.closed + c.rows), slot)
      == View(b, slot)
  {
    RowsOfAppend(b.closed, c.rows, slot);
  }

  lemma WriteHere(b: Book, slot: Slot, c: Change)
    requires |c.rows| <= 1 && forall row <- c.rows :: row.slot == slot
    ensures View(b.(positions := With(b.positions, slot, c.open), closed := b.closed + c.rows), slot)
         == SlotState(Bare(c.open), RowsOf(b.closed, slot) + c.rows)
  {
    RowsOfAppend(b.closed, c.rows, slot);
  }

  lemma LegElsewhere(b: Book, leg: Leg, slot: Slot)
    requires leg.context.slot != slot
    ensures View(ProjectLeg(b, leg), slot) == View(b, slot)
  {
    var open := At(b.positions, leg.context.slot);
    ProjectIgnoresMark(open, leg);
    WriteElsewhere(b, leg.context.slot, Project(open, leg), slot);
  }

  function Extended(s: SlotState, leg: Leg): SlotState {
    var c := Project(s.open, leg);
    SlotState(c.open, s.closed + c.rows)
  }

  lemma LegHere(b: Book, leg: Leg)
    ensures View(ProjectLeg(b, leg), leg.context.slot) == Extended(View(b, leg.context.slot), leg)
  {
    var open := At(b.positions, leg.context.slot);
    ProjectIgnoresMark(open, leg);
    WriteHere(b, leg.context.slot, Project(open, leg));
  }

  lemma AfterSnoc(legs: seq<Leg>, leg: Leg)
    ensures After(legs + [leg]) == Extended(After(legs), leg)
  {
    assert (legs + [leg])[..|legs|] == legs;
  }

  lemma LegInView(b: Book, leg: Leg, legs: seq<Leg>, slot: Slot)
    requires View(b, slot) == After(legs)
    ensures View(ProjectLeg(b, leg), slot) == After(legs + Mine(leg, slot))
  {
    if leg.context.slot == slot {
      LegHere(b, leg);
      AfterSnoc(legs, leg);
    } else {
      LegElsewhere(b, leg, slot);
      assert legs + [] == legs;
    }
  }

  lemma RefreshIsOutOfView(b: Book, market: int, mark: int, slot: Slot)
    ensures View(b.(positions := Refresh(b.positions, market, mark)), slot) == View(b, slot)
  {
  }

  lemma BothLegsInView(b: Book, maker: Leg, taker: Leg, legs: seq<Leg>, slot: Slot)
    requires View(b, slot) == After(legs)
    ensures View(ProjectLeg(ProjectLeg(b, maker), taker), slot) == After(legs + (Mine(maker, slot) + Mine(taker, slot)))
  {
    LegInView(b, maker, legs, slot);
    var next, nextLegs := ProjectLeg(b, maker), legs + Mine(maker, slot);
    LegInView(next, taker, nextLegs, slot);
    assert nextLegs + Mine(taker, slot) == legs + (Mine(maker, slot) + Mine(taker, slot));
  }

  lemma PriceIsOutOfView(b: Book, prices: map<int, int>, slot: Slot)
    ensures View(b.(lastPrice := prices), slot) == View(b, slot)
  {
  }

  lemma FillInView(b: Book, t: Trade, legs: seq<Leg>, slot: Slot)
    requires View(b, slot) == After(legs)
    ensures View(ProjectFill(b, t), slot) == After(legs + LegsOfTrade(t, slot))
  {
    var priced := b.(lastPrice := b.lastPrice[t.fill.market := t.fill.price]);
    PriceIsOutOfView(b, priced.lastPrice, slot);
    BothLegsInView(priced, MakerLeg(t), TakerLeg(t), legs, slot);
    RefreshIsOutOfView(ProjectLegs(priced, t), t.fill.market, t.fill.price, slot);
  }

  lemma LegsOfSnoc(trades: seq<Trade>, t: Trade, slot: Slot)
    ensures LegsOf(trades + [t], slot) == LegsOf(trades, slot) + LegsOfTrade(t, slot)
  {
    assert (trades + [t])[..|trades|] == trades;
  }

  /** The rows of one slot are what its own legs leave, whatever other slots the run has touched. */
  lemma {:induction false} SlotIsItsOwnRun(trades: seq<Trade>, slot: Slot)
    ensures View(Run(trades).book, slot) == After(LegsOf(Accepted(trades), slot))
  {
    if trades == [] {
      assert RowsOf([], slot) == [];
    } else {
      var init, last := trades[..|trades| - 1], trades[|trades| - 1];
      SlotIsItsOwnRun(init, slot);
      if Inserted(Run(init), last) {
        FillInView(Run(init).book, last, LegsOf(Accepted(init), slot), slot);
        LegsOfSnoc(Accepted(init), last, slot);
      } else {
        assert Run(trades) == Run(init);
      }
    }
  }

  lemma {:induction false} LegsArePlausible(trades: seq<Trade>, slot: Slot)
    requires forall t <- trades :: Admissible(t.fill) && t.fill.price <= I64_MAX
    ensures AllPlausible(LegsOf(trades, slot))
  {
    if trades != [] {
      LegsArePlausible(trades[..|trades| - 1], slot);
    }
  }

  /** BIGINT prices. */
  predicate Priced(trades: seq<Trade>) {
    forall t <- trades :: t.fill.price <= I64_MAX
  }

  lemma {:induction false} AcceptedWereDelivered(trades: seq<Trade>)
    ensures forall t <- Accepted(trades) :: t in trades && Admissible(t.fill)
  {
    if trades != [] {
      AcceptedWereDelivered(trades[..|trades| - 1]);
    }
  }

  lemma SlotLegsArePlausible(trades: seq<Trade>, slot: Slot)
    requires Priced(trades)
    ensures AllPlausible(LegsOf(Accepted(trades), slot))
  {
    AcceptedWereDelivered(trades);
    LegsArePlausible(Accepted(trades), slot);
  }

  // ---- conservation in the tables ----

  /**
   * After any delivery, the stored rows of a slot account for every distinct fill: margin,
   * quantity, and profit and loss against cash.
   */
  lemma EveryRunBalances(trades: seq<Trade>, slot: Slot)
    requires Priced(trades)
    ensures var legs := LegsOf(Accepted(trades), slot);
      var open, closed := At(Run(trades).book.positions, slot), RowsOf(Run(trades).book.closed, slot);
      && Sane(open)
      && Total(MarginTaken, legs) == OpenMargin(open) + Rows(RowMargin, closed)
      && Signed(open) == Total(Applied, legs)
      && Total(Entered, legs) == OpenQuantity(open) + Rows(RowQuantity, closed)
      && Rows(Realized, closed) + Rows(Clamped, closed)
         == Total(Cash, legs) + AtCost(open) + Total(LongRemainder, legs) - Total(ShortRemainder, legs)
  {
    var legs := LegsOf(Accepted(trades), slot);
    SlotLegsArePlausible(trades, slot);
    SlotIsItsOwnRun(trades, slot);
    AfterIsSane(legs);
    MarginIsConserved(legs);
    QuantityIsConserved(legs);
    PnlFollowsCash(legs);
    BareKeeps(At(Run(trades).book.positions, slot));
  }

  lemma BareKeeps(open: Option<Position>)
    ensures Sane(open) <==> Sane(Bare(open))
    ensures Signed(open) == Signed(Bare(open)) && OpenQuantity(open) == OpenQuantity(Bare(open))
    ensures OpenMargin(open) == OpenMargin(Bare(open)) && AtCost(open) == AtCost(Bare(open))
  {
  }

  function SignedQuantity(legs: seq<Leg>): int {
    if legs == [] then 0
    else SignedQuantity(legs[..|legs| - 1]) + Sign(legs[|legs| - 1].context.side) * legs[|legs| - 1].quantity
  }

  lemma {:induction false} AppliedInFull(legs: seq<Leg>)
    requires forall leg <- legs :: !leg.context.reduceOnly
    ensures Total(Applied, legs) == SignedQuantity(legs)
  {
    if legs != [] {
      AppliedInFull(legs[..|legs| - 1]);
    }
  }

  /** Without reduce-only orders the signed position is the sum of the slot's distinct fills. */
  lemma PositionIsTheSumOfItsFills(trades: seq<Trade>, slot: Slot)
    requires Priced(trades)
    requires forall leg <- LegsOf(Accepted(trades), slot) :: !leg.context.reduceOnly
    ensures Signed(At(Run(trades).book.positions, slot)) == SignedQuantity(LegsOf(Accepted(trades), slot))
  {
    EveryRunBalances(trades, slot);
    AppliedInFull(LegsOf(Accepted(trades), slot));
  }

  // ---- marks ----

  /** The gain of an open row at a price: what a long has risen, or a short has fallen, per unit. */
  function Gain(p: Position, mark: int): int {
    if p.quantity <= 0 then 0
    else if p.side.Long? then (mark - p.average) * p.quantity
    else (p.average - mark) * p.quantity
  }

  /** The column holds the result, or its nearest bound where the result does not fit. */
  predicate Holds(column: int, result: int) {
    && (FitsI64(result) ==> column == result)
    && (result > I64_MAX ==> column == I64_MAX)
    && (result < I64_MIN ==> column == I64_MIN)
  }

  lemma MarkedIff(p: Position, mark: int)
    ensures Marked(p, mark) == p <==> Holds(p.unrealized, Gain(p, mark))
  {
    if p.side.Short? {
      assert (-1) * (mark - p.average) * p.quantity == (p.average - mark) * p.quantity;
    }
  }

  /** The slot's open row carries its gain at its market's last traded price. */
  predicate MarkedAt(b: Book, slot: Slot)
    requires slot in b.positions
  {
    slot.market in b.lastPrice && Holds(b.positions[slot].unrealized, Gain(b.positions[slot], b.lastPrice[slot.market]))
  }

  predicate Touches(t: Trade, slot: Slot) {
    t.maker.slot == slot || t.taker.slot == slot
  }

  /** Since the last of its own market's trades, a trade of another market has touched the slot. */
  predicate ForeignSince(trades: seq<Trade>, slot: Slot) {
    if trades == [] then false
    else if trades[|trades| - 1].fill.market == slot.market then false
    else Touches(trades[|trades| - 1], slot) || ForeignSince(trades[..|trades| - 1], slot)
  }

  lemma FillKeepsMark(b: Book, t: Trade, slot: Slot)
    requires slot in ProjectFill(b, t).positions
    ensures t.fill.market == slot.market ==> MarkedAt(ProjectFill(b, t), slot)
    ensures t.fill.market != slot.market && !Touches(t, slot) ==>
      slot in b.positions && (MarkedAt(ProjectFill(b, t), slot) <==> MarkedAt(b, slot))
  {
    var legs := ProjectLegs(b.(lastPrice := b.lastPrice[t.fill.market := t.fill.price]), t);
    if t.fill.market == slot.market {
      assert ProjectFill(b, t).positions[slot] == Marked(legs.positions[slot], t.fill.price);
      MarkedIff(ProjectFill(b, t).positions[slot], t.fill.price);
    } else {
      assert ProjectFill(b, t).positions[slot] == legs.positions[slot];
    }
  }

  /**
   * Every open row carries the result at its market's last price, unless a trade of another market
   * has touched it since.
   */
  lemma {:induction false} EveryRunIsMarked(trades: seq<Trade>, slot: Slot)
    requires slot in Run(trades).book.positions && !ForeignSince(Accepted(trades), slot)
    ensures MarkedAt(Run(trades).book, slot)
  {
    if trades != [] {
      var init, last := trades[..|trades| - 1], trades[|trades| - 1];
      if Inserted(Run(init), last) {
        assert (Accepted(init) + [last])[..|Accepted(init)|] == Accepted(init);
        FillKeepsMark(Run(init).book, last, slot);
        if last.fill.market != slot.market {
          EveryRunIsMarked(init, slot);
        }
      } else {
        EveryRunIsMarked(init, slot);
      }
    }
  }

  /** The orders of a trade are orders of its market. */
  predicate InItsMarket(t: Trade) {
    t.maker.slot.market == t.fill.market && t.taker.slot.market == t.fill.market
  }

  lemma {:induction false} NothingForeign(trades: seq<Trade>, slot: Slot)
    requires forall t <- trades :: InItsMarket(t)
    ensures !ForeignSince(trades, slot)
  {
    if trades != [] {
      var init, last := trades[..|trades| - 1], trades[|trades| - 1];
      assert last in trades && InItsMarket(last);
      assert forall t <- init :: t in trades;
      NothingForeign(init, slot);
    }
  }

  /** In particular all rows are marked while orders trade in their own markets. */
  lemma AllRowsAreMarked(trades: seq<Trade>)
    requires forall t <- trades :: InItsMarket(t)
    ensures forall slot | slot in Run(trades).book.positions :: MarkedAt(Run(trades).book, slot)
  {
    AcceptedWereDelivered(trades);
    forall slot | slot in Run(trades).book.positions ensures MarkedAt(Run(trades).book, slot) {
      NothingForeign(Accepted(trades), slot);
      EveryRunIsMarked(trades, slot);
    }
  }

  ghost predicate AllSane(positions: map<Slot, Position>) {
    forall slot | slot in positions :: Sane(Some(positions[slot]))
  }

  // ---- trades of another market ----

  /** The exact result of the open row at a price. */
  function Exact(p: Position, mark: int): int {
    RawPnl(p.side, p.average, mark, p.quantity)
  }

  /** Two exact results that clamp to the same stored one. */
  predicate SameClamped(x: int, y: int) {
    x == y || (x >= I64_MAX && y >= I64_MAX) || (x <= I64_MIN && y <= I64_MIN)
  }

  lemma SameClampedIff(x: int, y: int)
    ensures ClampI64(x) == ClampI64(y) <==> SameClamped(x, y)
  {
  }

  lemma ZeroResultIff(side: Side, entry: int, mark: int, quantity: int)
    requires quantity > 0
    ensures UnrealizedPnl(side, entry, mark, quantity) == 0 <==> mark == entry
  {
    var d := mark - entry;
    assert d > 0 ==> d * quantity > 0;
    assert d < 0 ==> d * quantity < 0;
    assert RawPnl(side, entry, mark, quantity) == (if side.Long? then d * quantity else -(d * quantity)) by {
      assert (-d) * quantity == -(d * quantity);
    }
  }

  /** An increase moves the exact result by the new fill's and by what the average has lost. */
  lemma IncreaseMovesExact(p: Position, leg: Leg, last: int)
    requires Sane(Some(p)) && Positions.Plausible(leg)
    ensures Exact(Increased(p, leg), last) == Exact(p, last)
      + Sign(p.side) * (AverageRemainder(p.average, p.quantity, leg.price, leg.quantity)
                        - leg.quantity * (leg.price - last))
  {
    var next := Increased(p, leg).average;
    var rem := AverageRemainder(p.average, p.quantity, leg.price, leg.quantity);
    AverageStep(p.average, p.quantity, leg.price, leg.quantity);
    assert next * (p.quantity + leg.quantity) == p.average * p.quantity + leg.price * leg.quantity - rem;
    ExactOfIncrease(Sign(p.side), p.average, p.quantity, leg.price, leg.quantity, next, rem, last);
  }

  lemma ExactOfIncrease(s: int, a: int, q: int, p: int, t: int, next: int, rem: int, last: int)
    requires s == 1 || s == -1
    requires next * (q + t) == a * q + p * t - rem
    ensures s * (last - next) * (q + t) == s * (last - a) * q + s * (rem - t * (p - last))
  {
    assert (last - next) * (q + t) == last * q + last * t - next * (q + t);
    assert (last - a) * q == last * q - a * q;
    assert t * (p - last) == p * t - last * t;
  }

  lemma ReduceMovesExact(p: Position, leg: Leg, last: int)
    ensures Exact(Reduced(p, leg), last) == Exact(p, last)
      - Sign(p.side) * (last - p.average) * ClosedQuantity(p, leg)
  {
    var d, q, c := Sign(p.side) * (last - p.average), p.quantity, ClosedQuantity(p, leg);
    assert d * (q - c) == d * q - d * c;
  }

  /** A part of a result is the whole of it, clamped or not, only if the result is zero. */
  lemma PartOfResult(d: int, q: int, c: int)
    requires 0 < c < q
    ensures d * q - d * c == d * q <==> d == 0
    ensures d > 0 ==> 0 < d * q - d * c < d * q
    ensures d < 0 ==> d * q < d * q - d * c < 0
  {
    assert d * q - d * c == d * (q - c);
    assert d > 0 ==> d * c > 0 && d * (q - c) > 0;
    assert d < 0 ==> d * c < 0 && d * (q - c) < 0;
  }

  /** What a leg of another market's trade leaves the slot with: its row unchanged, opened, increased or reduced. */
  datatype LegKind = Unchanged | OpensOrReverses | Increases | Reduces | Closes

  function KindOf(open: Option<Position>, leg: Leg): LegKind {
    if Dropped(open, leg) then Unchanged
    else if open.None? then OpensOrReverses
    else if open.value.side == leg.context.side then Increases
    else if leg.quantity < open.value.quantity then Reduces
    else if leg.quantity > open.value.quantity then OpensOrReverses
    else Closes
  }

  /** Whether the row that the leg leaves carries its result at `last`, computed from the row and the leg alone. */
  predicate StaysMarked(open: Option<Position>, leg: Leg, last: int) {
    match KindOf(open, leg)
    case Unchanged => true
    case Closes => true
    case OpensOrReverses => last == leg.price
    case Increases =>
      open.Some? && open.value.quantity + leg.quantity > 0 &&
      var p := open.value;
      var moved := AverageRemainder(p.average, p.quantity, leg.price, leg.quantity) - leg.quantity * (leg.price - last);
      SameClamped(Exact(p, last), Exact(p, last) + Sign(p.side) * moved)
    case Reduces =>
      open.Some? &&
      var p := open.value;
      SameClamped(Exact(p, last), Exact(p, last) - Sign(p.side) * (last - p.average) * leg.quantity)
  }

  lemma ResultOfNew(leg: Leg, quantity: int, last: int)
    requires quantity > 0
    ensures Marked(Opened(leg, quantity), last) == Opened(leg, quantity) <==> last == leg.price
  {
    ZeroResultIff(leg.context.side, leg.price, last, quantity);
  }

  /** One leg on a marked row, or on an empty slot: the new row is marked at the same price exactly if StaysMarked. */
  lemma LegStaysMarkedIff(open: Option<Position>, leg: Leg, last: int)
    requires Sane(open) && Positions.Plausible(leg)
    requires open.Some? ==> Holds(open.value.unrealized, Gain(open.value, last))
    ensures var after := Project(open, leg).open;
      && (after.None? ==> KindOf(open, leg).Closes? || KindOf(open, leg).Unchanged?)
      && (after.Some? ==>
            (Holds(after.value.unrealized, Gain(after.value, last)) <==> StaysMarked(open, leg, last)))
  {
    if open.Some? {
      MarkedIff(open.value, last);
    }
    if Project(open, leg).open.Some? {
      MarkedIff(Project(open, leg).open.value, last);
    }
    match KindOf(open, leg)
    case Unchanged =>
    case Closes =>
    case OpensOrReverses =>
      ResultOfNew(leg, if open.None? then leg.quantity else leg.quantity - open.value.quantity, last);
    case Increases =>
      IncreaseMovesExact(open.value, leg, last);
      SameClampedIff(Exact(open.value, last), Exact(Increased(open.value, leg), last));
    case Reduces =>
      ReduceMovesExact(open.value, leg, last);
      SameClampedIff(Exact(open.value, last), Exact(Reduced(open.value, leg), last));
  }

  /** Without clamping the conditions are plain. */
  lemma UnclampedStaysMarkedIff(open: Option<Position>, leg: Leg, last: int)
    requires Sane(open) && Positions.Plausible(leg)
    requires open.Some? ==> I64_MIN < Exact(open.value, last) < I64_MAX
    ensures KindOf(open, leg).Increases? ==>
      var lost := AverageRemainder(open.value.average, open.value.quantity, leg.price, leg.quantity);
      StaysMarked(open, leg, last) <==> lost == leg.quantity * (leg.price - last)
    ensures KindOf(open, leg).Reduces? ==> (StaysMarked(open, leg, last) <==> last == open.value.average)
    ensures KindOf(open, leg).OpensOrReverses? ==> (StaysMarked(open, leg, last) <==> last == leg.price)
    ensures KindOf(open, leg).Unchanged? ==> StaysMarked(open, leg, last)
  {
    if KindOf(open, leg).Reduces? {
      PartOfResult(Sign(open.value.side) * (last - open.value.average), open.value.quantity, leg.quantity);
    }
  }

  /** A slot of another market is left by a trade as its legs leave it. */
  lemma ForeignFillIsItsLegs(b: Book, t: Trade, slot: Slot)
    requires slot.market != t.fill.market
    ensures At(ProjectFill(b, t).positions, slot) == At(ProjectLegs(b, t).positions, slot)
    ensures slot.market in ProjectFill(b, t).lastPrice <==> slot.market in b.lastPrice
    ensures slot.market in b.lastPrice ==> ProjectFill(b, t).lastPrice[slot.market] == b.lastPrice[slot.market]
  {
  }

  lemma LegLeavesSlot(b: Book, leg: Leg, slot: Slot)
    requires leg.context.slot != slot
    ensures At(ProjectLeg(b, leg).positions, slot) == At(b.positions, slot)
  {
  }

  lemma OneLegOfTrade(b: Book, t: Trade, slot: Slot, leg: Leg)
    requires LegsOfTrade(t, slot) == [leg]
    ensures leg == MakerLeg(t) || leg == TakerLeg(t)
    ensures At(ProjectLegs(b, t).positions, slot) == Project(At(b.positions, slot), leg).open
  {
    var maker, taker := MakerLeg(t), TakerLeg(t);
    var legs := LegsOfTrade(t, slot);
    assert |legs| == 1 && legs[0] == leg;
    if maker.context.slot == slot {
      assert legs[0] == maker && taker.context.slot != slot;
      LegLeavesSlot(ProjectLeg(b, maker), taker, slot);
    } else {
      assert legs[0] == taker;
      LegLeavesSlot(b, maker, slot);
    }
  }

  /**
   * Loading a context checks no market. A trade one of whose legs, maker or taker, is of a slot of
   * another market leaves that slot's row marked exactly if StaysMarked, from a marked row or none.
   */
  lemma ForeignTradeIsMarkedIff(b: Book, t: Trade, slot: Slot, leg: Leg)
    requires AllSane(b.positions) && Admissible(t.fill) && t.fill.price <= I64_MAX
    requires slot.market != t.fill.market && slot.market in b.lastPrice
    requires LegsOfTrade(t, slot) == [leg]
    requires slot in b.positions ==> MarkedAt(b, slot)
    ensures slot in ProjectFill(b, t).positions ==>
      (MarkedAt(ProjectFill(b, t), slot) <==> StaysMarked(At(b.positions, slot), leg, b.lastPrice[slot.market]))
  {
    OneLegOfTrade(b, t, slot, leg);
    ForeignFillIsItsLegs(b, t, slot);
    LegStaysMarkedIff(At(b.positions, slot), leg, b.lastPrice[slot.market]);
  }

  /** For one: an order that opens a position so leaves it unmarked, unless the prices agree. */
  lemma ForeignOpeningIsMarkedIff(b: Book, t: Trade)
    requires t.fill.quantity > 0 && t.maker.slot.market != t.fill.market && t.maker.slot != t.taker.slot
    requires t.maker.slot !in b.positions && !t.maker.reduceOnly && t.maker.slot.market in b.lastPrice
    ensures t.maker.slot in ProjectFill(b, t).positions
    ensures MarkedAt(ProjectFill(b, t), t.maker.slot) <==> b.lastPrice[t.maker.slot.market] == t.fill.price
  {
    var slot := t.maker.slot;
    assert ProjectFill(b, t).positions[slot] == Opened(MakerLeg(t), t.fill.quantity);
    ResultOfNew(MakerLeg(t), t.fill.quantity, b.lastPrice[slot.market]);
    MarkedIff(ProjectFill(b, t).positions[slot], b.lastPrice[slot.market]);
  }

  lemma RunSnoc(trades: seq<Trade>, t: Trade)
    ensures Run(trades + [t]) == Deliver(Run(trades), t)
  {
    assert (trades + [t])[..|trades|] == trades;
  }

  /**
   * A run with an unmarked row: market 1 last traded at 100, and a trade of market 2 opens a row
   * of market 1 at 110.
   */
  lemma ForeignFillUnmarks() returns (trades: seq<Trade>, slot: Slot)
    ensures slot in Run(trades).book.positions && slot.market in Run(trades).book.lastPrice
    ensures !MarkedAt(Run(trades).book, slot)
  {
    slot := Slot(7, 1);
    var home := Trade(Fill(1, 1, 1, 100, 5, 1, 2),
                      Context(Slot(8, 1), Long, 5, 50, false), Context(Slot(9, 1), Short, 5, 50, false));
    var away := Trade(Fill(2, 2, 1, 110, 5, 3, 4),
                      Context(slot, Long, 5, 50, false), Context(Slot(9, 2), Short, 5, 50, false));
    trades := [home] + [away];
    RunSnoc([], home);
    RunSnoc([home], away);
    assert [] + [home] == [home];
    var b := Run([home]).book;
    assert Inserted(NOTHING_PROJECTED, home) && b == ProjectFill(EMPTY_BOOK, home);
    assert slot !in b.positions && b.lastPrice[1] == 100;
    assert Run([home]).fills == map[1 := home.fill];
    assert Inserted(Run([home]), away);
    ForeignOpeningIsMarkedIff(b, away);
  }

  lemma CostToMark(open: Option<Position>, mark: int)
    ensures open.Some? ==>
      AtCost(open) + RawPnl(open.value.side, open.value.average, mark, open.value.quantity) == Signed(open) * mark
  {
    if open.Some? {
      var s, q, a := Sign(open.value.side), open.value.quantity, open.value.average;
      assert s * (mark - a) * q == s * q * mark - s * q * a;
    }
  }

  /** What clamping to 64 bits takes from the result of an open row. */
  function UnrealizedClamp(p: Position, mark: int): int {
    RawPnl(p.side, p.average, mark, p.quantity) - UnrealizedPnl(p.side, p.average, mark, p.quantity)
  }

  /** Nothing is clamped on an open row exactly when the exact result fits the column. */
  lemma UnrealizedClampIff(p: Position, mark: int)
    requires p.quantity > 0
    ensures UnrealizedClamp(p, mark) == 0 <==> FitsI64(Gain(p, mark))
    ensures FitsI64(Gain(p, mark)) ==> UnrealizedPnl(p.side, p.average, mark, p.quantity) == Gain(p, mark)
  {
    if p.side.Short? {
      assert (-1) * (mark - p.average) * p.quantity == (p.average - mark) * p.quantity;
    }
  }

  lemma GainIsMarkLessCost(p: Position, mark: int)
    requires p.quantity > 0
    ensures Gain(p, mark) == Signed(Some(p)) * mark - AtCost(Some(p))
  {
    CostToMark(Some(p), mark);
    if p.side.Short? {
      assert (-1) * (mark - p.average) * p.quantity == (p.average - mark) * p.quantity;
    }
  }

  /**
   * What is booked and what the open row stores, with what clamping took put back, are the cash
   * plus the position at the price. Where the gain fits the column, the stored result alone does
   * it; where it does not, the column is at its bound.
   */
  predicate EquityHolds(booked: int, cash: int, p: Position, mark: int) {
    var gain, equity := Signed(Some(p)) * mark - AtCost(Some(p)), cash + Signed(Some(p)) * mark;
    && booked + p.unrealized + UnrealizedClamp(p, mark) == equity
    && (FitsI64(gain) ==> booked + p.unrealized == equity)
    && (gain > I64_MAX ==> p.unrealized == I64_MAX)
    && (gain < I64_MIN ==> p.unrealized == I64_MIN)
  }

  lemma EquityOf(booked: int, cash: int, p: Position, mark: int)
    requires p.quantity > 0 && Holds(p.unrealized, Gain(p, mark)) && booked == cash + AtCost(Some(p))
    ensures EquityHolds(booked, cash, p, mark)
  {
    CostToMark(Some(p), mark);
    MarkedIff(p, mark);
    UnrealizedClampIff(p, mark);
    GainIsMarkLessCost(p, mark);
  }

  /** Realized and stored unrealized results are the cash plus the position at the last price, up to the remainders. */
  lemma EquityIsCashPlusMark(trades: seq<Trade>, slot: Slot)
    requires Priced(trades)
    requires slot in Run(trades).book.positions && !ForeignSince(Accepted(trades), slot)
    ensures slot.market in Run(trades).book.lastPrice
    ensures var legs, closed := LegsOf(Accepted(trades), slot), RowsOf(Run(trades).book.closed, slot);
      EquityHolds(Rows(Realized, closed) + Rows(Clamped, closed),
        Total(Cash, legs) + Total(LongRemainder, legs) - Total(ShortRemainder, legs),
        Run(trades).book.positions[slot], Run(trades).book.lastPrice[slot.market])
  {
    EveryRunBalances(trades, slot);
    EveryRunIsMarked(trades, slot);
    var legs, closed := LegsOf(Accepted(trades), slot), RowsOf(Run(trades).book.closed, slot);
    EquityOf(Rows(Realized, closed) + Rows(Clamped, closed),
      Total(Cash, legs) + Total(LongRemainder, legs) - Total(ShortRemainder, legs),
      Run(trades).book.positions[slot], Run(trades).book.lastPrice[slot.market]);
  }

  // ---- the market as a whole ----

  function Exposure(market: int): (Slot, Position) -> int {
    (slot: Slot, p: Position) => if slot.market == market then Sign(p.side) * p.quantity else 0
  }

  /** The signed open quantity of a market over all users. */
  ghost function NetOpen(positions: map<Slot, Position>, market: int): int {
    TableSum(positions, Exposure(market))
  }

  /** What a trade adds to its market's net open quantity: its two legs, where they are not dropped. */
  function Imbalance(b: Book, t: Trade, market: int): int {
    LegEffect(b, MakerLeg(t), market) + LegEffect(ProjectLeg(b, MakerLeg(t)), TakerLeg(t), market)
  }

  function LegEffect(b: Book, leg: Leg, market: int): int {
    if leg.context.slot.market == market then Applied(At(b.positions, leg.context.slot), leg) else 0
  }

  lemma LegMovesNet(b: Book, leg: Leg, market: int)
    requires AllSane(b.positions) && Positions.Plausible(leg)
    ensures AllSane(ProjectLeg(b, leg).positions)
    ensures NetOpen(ProjectLeg(b, leg).positions, market) == NetOpen(b.positions, market) + LegEffect(b, leg, market)
  {
    var slot := leg.context.slot;
    var open := At(b.positions, slot);
    var c := Project(open, leg);
    ProjectKeepsSane(open, leg);
    QuantityStep(open, leg);
    if c.open.Some? {
      Put(b.positions, slot, c.open.value, Exposure(market));
    } else if slot in b.positions {
      TakeOut(b.positions, slot, Exposure(market));
    } else {
      assert b.positions - {slot} == b.positions;
    }
  }

  lemma {:induction false} SameWeights<K, V>(left: map<K, V>, right: map<K, V>, weight: (K, V) -> int)
    requires left.Keys == right.Keys
    requires forall k | k in left :: weight(k, left[k]) == weight(k, right[k])
    ensures TableSum(left, weight) == TableSum(right, weight)
    decreases |left|
  {
    if left == map[] {
      assert right == map[];
    } else {
      var k :| k in left;
      TakeOut(left, k, weight);
      TakeOut(right, k, weight);
      Shrinks(left, k);
      SameWeights(left - {k}, right - {k}, weight);
    }
  }

  lemma DeliverMovesNet(s: Projected, t: Trade, market: int)
    requires AllSane(s.book.positions) && t.fill.price <= I64_MAX
    ensures AllSane(Deliver(s, t).book.positions)
    ensures NetOpen(Deliver(s, t).book.positions, market)
         == NetOpen(s.book.positions, market) + (if Inserted(s, t) then Imbalance(s.book, t, market) else 0)
  {
    if Inserted(s, t) {
      var priced := s.book.(lastPrice := s.book.lastPrice[t.fill.market := t.fill.price]);
      LegMovesNet(priced, MakerLeg(t), market);
      LegMovesNet(ProjectLeg(priced, MakerLeg(t)), TakerLeg(t), market);
      var b := ProjectLegs(priced, t);
      SameWeights(b.positions, Refresh(b.positions, t.fill.market, t.fill.price), Exposure(market));
    }
  }

  /** Both legs or neither take effect, and on opposite sides. */
  predicate Balanced(b: Book, t: Trade) {
    var makerDropped := Dropped(At(b.positions, t.maker.slot), MakerLeg(t));
    var takerDropped := Dropped(At(ProjectLeg(b, MakerLeg(t)).positions, t.taker.slot), TakerLeg(t));
    makerDropped == takerDropped && (makerDropped || t.maker.side != t.taker.side)
  }

  lemma ImbalanceIsZeroIff(b: Book, t: Trade)
    requires InItsMarket(t) && t.fill.quantity > 0
    ensures Imbalance(b, t, t.fill.market) == 0 <==> Balanced(b, t)
  {
  }

  ghost predicate AllBalanced(trades: seq<Trade>) {
    forall i | 0 <= i < |trades| ::
      InItsMarket(trades[i]) && (Inserted(Run(trades[..i]), trades[i]) ==> Balanced(Run(trades[..i]).book, trades[i]))
  }

  /** Every long has its short: a market nets to zero as long as no trade had only one of its legs dropped. */
  lemma {:induction false} MarketNetsToZero(trades: seq<Trade>, market: int)
    requires Priced(trades) && AllBalanced(trades)
    ensures AllSane(Run(trades).book.positions)
    ensures NetOpen(Run(trades).book.positions, market) == 0
  {
    if trades != [] {
      var n := |trades| - 1;
      var init, last := trades[..n], trades[n];
      forall i | 0 <= i < |init|
        ensures InItsMarket(init[i]) && (Inserted(Run(init[..i]), init[i]) ==> Balanced(Run(init[..i]).book, init[i]))
      {
        assert init[..i] == trades[..i] && init[i] == trades[i];
      }
      MarketNetsToZero(init, market);
      DeliverMovesNet(Run(init), last, market);
      if last.fill.market == market && Inserted(Run(init), last) {
        ImbalanceIsZeroIff(Run(init).book, last);
      }
    }
  }

  /**
   * A trade of a netted market breaks the balance exactly when it is inserted with one leg dropped
   * or two on one side.
   */
  lemma NetStaysZeroIff(s: Projected, t: Trade)
    requires AllSane(s.book.positions) && t.fill.price <= I64_MAX && InItsMarket(t)
    requires NetOpen(s.book.positions, t.fill.market) == 0
    ensures NetOpen(Deliver(s, t).book.positions, t.fill.market) == 0 <==> (Inserted(s, t) ==> Balanced(s.book, t))
  {
    DeliverMovesNet(s, t, t.fill.market);
    if Inserted(s, t) {
      ImbalanceIsZeroIff(s.book, t);
    }
  }
}
