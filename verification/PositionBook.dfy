/** What a new fill does to the books: both sides' positions, the market's price and the refreshed marks. */
module PositionBook {
  import opened Common
  import opened Fills
  import opened PositionMath
  import opened Positions

  /** A fill with the two order contexts the projector has loaded for it. */
  datatype Trade = Trade(fill: Fill, maker: Context, taker: Context)

  /** Open rows, closed rows in the order they were written, and markets.last_traded_price. */
  datatype Book = Book(positions: map<Slot, Position>, closed: seq<Closed>, lastPrice: map<int, int>)

  const EMPTY_BOOK := Book(map[], [], map[])

  function At(positions: map<Slot, Position>, slot: Slot): Option<Position> {
    if slot in positions then Some(positions[slot]) else None
  }

  function With(positions: map<Slot, Position>, slot: Slot, open: Option<Position>): map<Slot, Position> {
    if open.Some? then positions[slot := open.value] else positions - {slot}
  }

  function ProjectLeg(b: Book, leg: Leg): Book {
    var c := Project(At(b.positions, leg.context.slot), leg);
    b.(positions := With(b.positions, leg.context.slot, c.open), closed := b.closed + c.rows)
  }

  function Marked(p: Position, mark: int): Position {
    p.(unrealized := UnrealizedPnl(p.side, p.average, mark, p.quantity))
  }

  function Refresh(positions: map<Slot, Position>, market: int, mark: int): map<Slot, Position> {
    map slot | slot in positions :: if slot.market == market then Marked(positions[slot], mark) else positions[slot]
  }

  ghost function MarkedIn(positions: map<Slot, Position>, slots: set<Slot>, mark: int): map<Slot, Position> {
    map slot | slot in positions :: if slot in slots then Marked(positions[slot], mark) else positions[slot]
  }

  function MakerLeg(t: Trade): Leg {
    Leg(t.maker, t.fill.makerOrder, t.fill.price, t.fill.quantity)
  }

  function TakerLeg(t: Trade): Leg {
    Leg(t.taker, t.fill.takerOrder, t.fill.price, t.fill.quantity)
  }

  function ProjectLegs(b: Book, t: Trade): Book {
    ProjectLeg(ProjectLeg(b, MakerLeg(t)), TakerLeg(t))
  }

  /** The statements that follow a fill row that was inserted. */
  function ProjectFill(b: Book, t: Trade): Book {
    var legs := ProjectLegs(b.(lastPrice := b.lastPrice[t.fill.market := t.fill.price]), t);
    legs.(positions := Refresh(legs.positions, t.fill.market, t.fill.price))
  }

  class Repository {
    var positions: map<Slot, Position>
    var closed: seq<Closed>
    var lastPrice: map<int, int>

    ghost function State(): Book
      reads this
    {
      Book(positions, closed, lastPrice)
    }

    constructor ()
      ensures State() == EMPTY_BOOK
    {
      positions, closed, lastPrice := map[], [], map[];
    }

    method InsertOpenPosition(leg: Leg, quantity: int)
      requires leg.context.slot !in positions
      modifies this`positions
      ensures positions == old(positions)[leg.context.slot := Opened(leg, quantity)]
    {
      var margin := ProportionalMargin(leg.context.margin, leg.context.quantity, quantity);
      positions := positions[leg.context.slot := Position(leg.context.side, quantity, margin, leg.price, 0,
        Some(leg.order))];
    }

    method IncreasePosition(leg: Leg)
      requires leg.context.slot in positions
      modifies this`positions
      ensures positions == old(positions)[leg.context.slot := Increased(old(positions)[leg.context.slot], leg)]
    {
      var p := positions[leg.context.slot];
      var added := ProportionalMargin(leg.context.margin, leg.context.quantity, leg.quantity);
      var average := WeightedAverage(p.average, p.quantity, leg.price, leg.quantity);
      positions := positions[leg.context.slot :=
        p.(quantity := p.quantity + leg.quantity, margin := p.margin + added, average := average)];
    }

    method ReduceOrReverse(leg: Leg)
      requires leg.context.slot in positions && positions[leg.context.slot].side != leg.context.side
      modifies this`positions, this`closed
      ensures State() == ProjectLeg(old(State()), leg)
    {
      var slot := leg.context.slot;
      var p := positions[slot];
      var closing := Min(p.quantity, leg.quantity);
      var margin := ProportionalMargin(p.margin, p.quantity, closing);
      var pnl := RealizedPnl(p.side, p.average, leg.price, closing);
      var openOrder := if p.openOrder.Some? then p.openOrder.value else leg.order;
      closed := closed + [Closed(slot, p.side, closing, p.average, leg.price, pnl, margin, openOrder, leg.order)];
      if closing < p.quantity {
        positions := positions[slot := p.(quantity := p.quantity - closing, margin := Max(p.margin - margin, 0))];
        return;
      }
      positions := positions - {slot};
      var reversal := leg.quantity - closing;
      if reversal > 0 {
        InsertOpenPosition(leg, reversal);
        assert positions == old(positions)[slot := Opened(leg, reversal)];
      }
    }

    method ProjectPositionForFill(leg: Leg)
      modifies this`positions, this`closed
      ensures State() == ProjectLeg(old(State()), leg)
    {
      var slot := leg.context.slot;
      if slot !in positions {
        if leg.context.reduceOnly {
          assert positions - {slot} == positions;
        } else {
          InsertOpenPosition(leg, leg.quantity);
        }
      } else if positions[slot].side == leg.context.side {
        if leg.context.reduceOnly {
          assert positions[slot := positions[slot]] == positions;
        } else {
          IncreasePosition(leg);
        }
      } else {
        ReduceOrReverse(leg);
      }
    }

    /** Marks every open row of the market, one UPDATE per row of the SELECT. */
    method RefreshPositionPnl(market: int, mark: int)
      modifies this`positions
      ensures positions == Refresh(old(positions), market, mark)
    {
      var rows := set slot | slot in positions && slot.market == market;
      ghost var was := positions;
      ghost var done: set<Slot> := {};
      assert MarkedIn(was, done, mark) == was;
      while rows != {}
        invariant rows == (set slot | slot in was && slot.market == market) - done
        invariant done <= was.Keys
        invariant forall slot <- done :: slot.market == market
        invariant positions == MarkedIn(was, done, mark)
        decreases |rows|
      {
        var slot :| slot in rows;
        var p := positions[slot];
        positions := positions[slot := p.(unrealized := UnrealizedPnl(p.side, p.average, mark, p.quantity))];
        rows := rows - {slot};
        done := done + {slot};
      }
      assert forall slot | slot in was && slot.market == market :: slot in done;
    }

    method ProjectInsertedFill(t: Trade)
      modifies this
      ensures State() == ProjectFill(old(State()), t)
    {
      lastPrice := lastPrice[t.fill.market := t.fill.price];
      ProjectPositionForFill(MakerLeg(t));
      ProjectPositionForFill(TakerLeg(t));
      RefreshPositionPnl(t.fill.market, t.fill.price);
    }
  }
}
