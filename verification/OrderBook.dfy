/** The projected order book of one market, and the clients that stitch a snapshot to the live deltas. */
module OrderBook {
  import opened Common

  datatype BookSide = Bid | Ask

  datatype Key = Key(side: BookSide, price: int)

  /** A row of orderbook_levels. */
  datatype Level = Level(quantity: int, last: int)

  datatype Entry = Entry(price: int, quantity: int)

  datatype Delta = Delta(sequence: int, bids: seq<Entry>, asks: seq<Entry>)

  /** One market's rows of orderbook_state, orderbook_levels and orderbook_events. */
  datatype Book = Book(sequence: Option<int>, levels: map<Key, Level>, events: set<int>)

  const EMPTY_BOOK := Book(None, map[], {})

  function ApplyLevel(levels: map<Key, Level>, key: Key, quantity: int, sequence: int): map<Key, Level> {
    if quantity <= 0 then
      if key in levels && levels[key].last < sequence then levels - {key} else levels
    else if key in levels && levels[key].last >= sequence then levels
    else levels[key := Level(quantity, sequence)]
  }

  function ApplyLevels(levels: map<Key, Level>, side: BookSide, entries: seq<Entry>, sequence: int): map<Key, Level> {
    if entries == [] then levels else
      var last := entries[|entries| - 1];
      ApplyLevel(ApplyLevels(levels, side, entries[..|entries| - 1], sequence), Key(side, last.price), last.quantity,
        sequence)
  }

  /** The CHECK constraint of a level that is written. */
  predicate Writable(e: Entry) {
    e.quantity > 0 ==> e.price >= 0
  }

  predicate AllWritable(entries: seq<Entry>) {
    forall i | 0 <= i < |entries| :: Writable(entries[i])
  }

  predicate Newer(b: Book, d: Delta) {
    b.sequence.Some? ==> d.sequence > b.sequence.value
  }

  /** None is an aborted transaction. A delta seen before, or older than the book, only leaves its event row. */
  function ApplyDelta(b: Book, d: Delta): Option<Book> {
    if d.sequence <= 0 then None
    else if d.sequence in b.events then Some(b)
    else if !Newer(b, d) then Some(b.(events := b.events + {d.sequence}))
    else if !AllWritable(d.bids) || !AllWritable(d.asks) then None
    else
      var bids := ApplyLevels(b.levels, Bid, d.bids, d.sequence);
      Some(Book(Some(d.sequence), ApplyLevels(bids, Ask, d.asks, d.sequence), b.events + {d.sequence}))
  }

  class Repository {
    var sequence: Option<int>
    var levels: map<Key, Level>
    var events: set<int>

    ghost function State(): Book
      reads this
    {
      Book(sequence, levels, events)
    }

    constructor ()
      ensures State() == EMPTY_BOOK
    {
      sequence, levels, events := None, map[], {};
    }

    method ApplyOrderbookLevel(side: BookSide, e: Entry, newSequence: int) returns (ok: bool)
      modifies this`levels
      ensures ok == Writable(e)
      ensures levels == if ok then ApplyLevel(old(levels), Key(side, e.price), e.quantity, newSequence) else old(levels)
    {
      var key := Key(side, e.price);
      if e.quantity <= 0 {
        if key in levels && levels[key].last < newSequence {
          levels := levels - {key};
        }
        return true;
      }
      if e.price < 0 {
        return false;
      }
      if key !in levels || levels[key].last < newSequence {
        levels := levels[key := Level(e.quantity, newSequence)];
      }
      ok := true;
    }

    method ApplySide(side: BookSide, entries: seq<Entry>, newSequence: int) returns (ok: bool)
      modifies this`levels
      ensures ok == AllWritable(entries)
      ensures ok ==> levels == ApplyLevels(old(levels), side, entries, newSequence)
    {
      var i := 0;
      while i < |entries|
        invariant 0 <= i <= |entries|
        invariant AllWritable(entries[..i])
        invariant levels == ApplyLevels(old(levels), side, entries[..i], newSequence)
      {
        ok := ApplyOrderbookLevel(side, entries[i], newSequence);
        if !ok {
          return;
        }
        assert entries[..i + 1][..i] == entries[..i];
        i := i + 1;
      }
      assert entries[..i] == entries;
      ok := true;
    }

    /** Answers whether the transaction commits. */
    method ProjectOrderbookDelta(d: Delta) returns (ok: bool)
      modifies this
      ensures ok == ApplyDelta(old(State()), d).Some?
      ensures State() == if ok then ApplyDelta(old(State()), d).value else old(State())
    {
      if d.sequence <= 0 {
        return false;
      }
      if d.sequence in events {
        return true;
      }
      var savedLevels := levels;
      if sequence.None? || d.sequence > sequence.value {
        ok := ApplySide(Bid, d.bids, d.sequence);
        if ok {
          ok := ApplySide(Ask, d.asks, d.sequence);
        }
        if !ok {
          levels := savedLevels;
          return;
        }
        sequence := Some(d.sequence);
      }
      events := events + {d.sequence};
      ok := true;
    }
  }

  // ---- what a delta does to one price ----

  predicate Listed(entries: seq<Entry>, price: int) {
    exists i :: 0 <= i < |entries| && entries[i].price == price
  }

  /** The first positive quantity that the entries give for a price. */
  function FirstPositive(entries: seq<Entry>, price: int): Option<int> {
    if entries == [] then None else
      var before := FirstPositive(entries[..|entries| - 1], price);
      var last := entries[|entries| - 1];
      if before.Some? then before
      else if last.price == price && last.quantity > 0 then Some(last.quantity) else None
  }

  /** The last quantity that the entries give for a price. */
  function LastQuantity(entries: seq<Entry>, price: int): Option<int> {
    if entries == [] then None
    else if entries[|entries| - 1].price == price then Some(entries[|entries| - 1].quantity)
    else LastQuantity(entries[..|entries| - 1], price)
  }

  function Value(levels: map<Key, Level>, key: Key): Option<int> {
    if key in levels then Some(levels[key].quantity) else None
  }

  function Positive(quantity: Option<int>): Option<int> {
    if quantity.Some? && quantity.value > 0 then quantity else None
  }

  predicate OlderThan(levels: map<Key, Level>, sequence: int) {
    forall key | key in levels :: levels[key].last < sequence
  }

  /** A price not mentioned keeps its level; otherwise the first positive entry stands, or the level goes. */
  lemma {:induction false} FirstPositiveStands(levels: map<Key, Level>, side: BookSide, entries: seq<Entry>,
      sequence: int, key: Key)
    requires key in levels ==> levels[key].last < sequence
    ensures var after := ApplyLevels(levels, side, entries, sequence);
      && (key.side != side || !Listed(entries, key.price) ==>
            (key in after <==> key in levels) && (key in after ==> after[key] == levels[key]))
      && (key.side == side && Listed(entries, key.price) ==>
            Value(after, key) == FirstPositive(entries, key.price) && (key in after ==> after[key].last == sequence))
  {
    if entries != [] {
      var init, last := entries[..|entries| - 1], entries[|entries| - 1];
      FirstPositiveStands(levels, side, init, sequence, key);
      assert Listed(entries, key.price) <==> Listed(init, key.price) || last.price == key.price by {
        if Listed(init, key.price) {
          var i :| 0 <= i < |init| && init[i].price == key.price;
          assert entries[i].price == key.price;
        }
      }
      NothingPositive(init, key.price);
    }
  }

  lemma {:induction false} NothingPositive(entries: seq<Entry>, price: int)
    ensures FirstPositive(entries, price).Some? ==> FirstPositive(entries, price).value > 0
    ensures FirstPositive(entries, price).Some? ==> Listed(entries, price)
    ensures LastQuantity(entries, price).Some? <==> Listed(entries, price)
  {
    if entries != [] {
      var init, last := entries[..|entries| - 1], entries[|entries| - 1];
      NothingPositive(init, price);
      if Listed(init, price) {
        var i :| 0 <= i < |init| && init[i].price == price;
        assert entries[i].price == price;
      }
      assert last.price == price ==> Listed(entries, price);
    }
  }

  /**
   * Last-wins, what a delta means to its readers, is what the projector stores exactly where no
   * entry of the price is positive or the first positive one equals the last.
   */
  lemma LastWinsIff(levels: map<Key, Level>, side: BookSide, entries: seq<Entry>, sequence: int, price: int)
    requires Key(side, price) in levels ==> levels[Key(side, price)].last < sequence
    requires Listed(entries, price)
    ensures var stored := Value(ApplyLevels(levels, side, entries, sequence), Key(side, price));
      stored == Positive(LastQuantity(entries, price))
      <==> (FirstPositive(entries, price).None? || FirstPositive(entries, price) == LastQuantity(entries, price))
  {
    FirstPositiveStands(levels, side, entries, sequence, Key(side, price));
    NothingPositive(entries, price);
    LastOfNone(entries, price);
  }

  /** A price set and then removed by one delta stays in the projected book. */
  lemma SetThenRemovedStays()
    ensures var after := ApplyLevels(map[], Bid, [Entry(100, 5), Entry(100, 0)], 1);
      Value(after, Key(Bid, 100)) == Some(5) && Positive(LastQuantity([Entry(100, 5), Entry(100, 0)], 100)) == None
  {
    assert [Entry(100, 5), Entry(100, 0)][..1] == [Entry(100, 5)];
    assert [Entry(100, 5)][..0] == [];
  }

  lemma {:induction false} LastOfNone(entries: seq<Entry>, price: int)
    ensures FirstPositive(entries, price).None? ==> Positive(LastQuantity(entries, price)).None?
  {
    if entries != [] {
      LastOfNone(entries[..|entries| - 1], price);
    }
  }

  /** No price twice on one side. */
  predicate Distinct(entries: seq<Entry>) {
    forall i, j | 0 <= i < j < |entries| :: entries[i].price != entries[j].price
  }

  lemma {:induction false} DistinctIsLastWins(entries: seq<Entry>, price: int)
    requires Distinct(entries)
    ensures FirstPositive(entries, price) == Positive(LastQuantity(entries, price))
  {
    if entries != [] {
      var init, last := entries[..|entries| - 1], entries[|entries| - 1];
      DistinctIsLastWins(init, price);
      NothingPositive(init, price);
      assert forall i | 0 <= i < |init| :: init[i].price != last.price by {
        assert forall i | 0 <= i < |init| :: init[i] == entries[i];
      }
    }
  }

  // ---- the book along a stream of deltas ----

  predicate WellFormed(d: Delta) {
    d.sequence > 0 && AllWritable(d.bids) && AllWritable(d.asks) && Distinct(d.bids) && Distinct(d.asks)
  }

  /** A market's deltas as the engine emits them: in increasing sequence. */
  predicate Stream(deltas: seq<Delta>) {
    && (forall i | 0 <= i < |deltas| :: WellFormed(deltas[i]))
    && (forall i, j | 0 <= i < j < |deltas| :: deltas[i].sequence < deltas[j].sequence)
  }

  function Deliver(b: Book, d: Delta): Book {
    if ApplyDelta(b, d).Some? then ApplyDelta(b, d).value else b
  }

  /** What one delta says about a level: nothing, or its last quantity there. */
  function Says(d: Delta, key: Key): Option<int> {
    LastQuantity(if key.side == Bid then d.bids else d.asks, key.price)
  }

  /** The level as the last of the first n deltas that mentions it has left it. */
  function LevelAt(deltas: seq<Delta>, n: nat, key: Key): Option<int>
    requires n <= |deltas|
  {
    if n == 0 then None
    else if Says(deltas[n - 1], key).Some? then Positive(Says(deltas[n - 1], key))
    else LevelAt(deltas, n - 1, key)
  }

  /** The book's sequence and levels are those of the first n deltas. */
  ghost predicate Shows(b: Book, deltas: seq<Delta>, n: nat)
    requires n <= |deltas|
  {
    && b.sequence == (if n == 0 then None else Some(deltas[n - 1].sequence))
    && (forall key | key in b.levels :: n > 0 && b.levels[key].last <= deltas[n - 1].sequence)
    && (forall key :: Value(b.levels, key) == LevelAt(deltas, n, key))
  }

  ghost predicate Follows(b: Book, deltas: seq<Delta>, n: nat)
    requires n <= |deltas|
  {
    Shows(b, deltas, n) && forall s :: s in b.events <==> exists i :: 0 <= i < n && deltas[i].sequence == s
  }

  lemma DeltaOnKey(levels: map<Key, Level>, d: Delta, key: Key)
    requires WellFormed(d) && OlderThan(levels, d.sequence)
    ensures var after := ApplyLevels(ApplyLevels(levels, Bid, d.bids, d.sequence), Ask, d.asks, d.sequence);
      && Value(after, key) == (if Says(d, key).Some? then Positive(Says(d, key)) else Value(levels, key))
      && (key in after ==> after[key].last <= d.sequence)
  {
    var bids := ApplyLevels(levels, Bid, d.bids, d.sequence);
    FirstPositiveStands(levels, Bid, d.bids, d.sequence, key);
    if key.side == Bid {
      DistinctIsLastWins(d.bids, key.price);
      NothingPositive(d.bids, key.price);
      AskLeavesBids(bids, d.asks, d.sequence, key);
    } else {
      FirstPositiveStands(bids, Ask, d.asks, d.sequence, key);
      DistinctIsLastWins(d.asks, key.price);
      NothingPositive(d.asks, key.price);
    }
  }

  lemma {:induction false} AskLeavesBids(levels: map<Key, Level>, asks: seq<Entry>, sequence: int, key: Key)
    requires key.side == Bid
    ensures var after := ApplyLevels(levels, Ask, asks, sequence);
      (key in after <==> key in levels) && (key in after ==> after[key] == levels[key])
  {
    if asks != [] {
      AskLeavesBids(levels, asks[..|asks| - 1], sequence, key);
    }
  }

  lemma NextShows(b: Book, deltas: seq<Delta>, n: nat)
    requires Stream(deltas) && n < |deltas| && Shows(b, deltas, n) && deltas[n].sequence !in b.events
    ensures Shows(Deliver(b, deltas[n]), deltas, n + 1)
    ensures Deliver(b, deltas[n]).events == b.events + {deltas[n].sequence}
  {
    var d := deltas[n];
    assert Newer(b, d) && OlderThan(b.levels, d.sequence);
    var t := Deliver(b, d);
    forall key ensures Value(t.levels, key) == LevelAt(deltas, n + 1, key)
      ensures key in t.levels ==> t.levels[key].last <= d.sequence
    {
      DeltaOnKey(b.levels, d, key);
    }
  }

  lemma NextFollows(b: Book, deltas: seq<Delta>, n: nat)
    requires Stream(deltas) && n < |deltas| && Follows(b, deltas, n)
    ensures Follows(Deliver(b, deltas[n]), deltas, n + 1)
  {
    var d, t := deltas[n], Deliver(b, deltas[n]);
    NextShows(b, deltas, n);
    forall s ensures s in t.events <==> exists i :: 0 <= i < n + 1 && deltas[i].sequence == s {
      if s in t.events && s in b.events {
        var i :| 0 <= i < n && deltas[i].sequence == s;
      } else if s == d.sequence {
        assert deltas[n].sequence == s;
      }
    }
  }

  lemma RepeatedIsIgnored(b: Book, deltas: seq<Delta>, n: nat, k: nat)
    requires Stream(deltas) && k < n <= |deltas| && Follows(b, deltas, n)
    ensures Deliver(b, deltas[k]) == b
  {
    assert deltas[k].sequence in b.events;
  }

  /**
   * At-least-once delivery in stream order: the next delta, or one delivered before. Starts with
   * `from` deltas consumed.
   */
  ghost predicate InOrder(order: seq<nat>, from: nat, to: nat)
    decreases |order|
  {
    if order == [] then from == to else
      var last := order[|order| - 1];
      (last < to && InOrder(order[..|order| - 1], from, to))
        || (last + 1 == to && InOrder(order[..|order| - 1], from, last))
  }

  function Delivered(b: Book, deltas: seq<Delta>, order: seq<nat>): Book
    requires forall i | 0 <= i < |order| :: order[i] < |deltas|
  {
    if order == [] then b else Deliver(Delivered(b, deltas, order[..|order| - 1]), deltas[order[|order| - 1]])
  }

  /** After any redelivery the book is, level by level, what the last delta that mentions it says. */
  lemma {:induction false} BookFollowsStream(deltas: seq<Delta>, order: seq<nat>, n: nat)
    requires Stream(deltas) && n <= |deltas| && InOrder(order, 0, n)
    requires forall i | 0 <= i < |order| :: order[i] < |deltas|
    ensures Follows(Delivered(EMPTY_BOOK, deltas, order), deltas, n)
  {
    if order != [] {
      var init, last := order[..|order| - 1], order[|order| - 1];
      var before := Delivered(EMPTY_BOOK, deltas, init);
      assert Delivered(EMPTY_BOOK, deltas, order) == Deliver(before, deltas[last]);
      if last < n && InOrder(init, 0, n) {
        assert Follows(before, deltas, n) by { BookFollowsStream(deltas, init, n); }
        RepeatedIsIgnored(before, deltas, n, last);
      } else {
        assert Follows(before, deltas, last) by { BookFollowsStream(deltas, init, last); }
        NextFollows(before, deltas, last);
      }
    }
  }

  // ---- deltas that overtake each other ----

  /** The deltas that are newer than all before them. */
  function Maxima(deltas: seq<Delta>): seq<Delta> {
    if deltas == [] then [] else
      var before, last := Maxima(deltas[..|deltas| - 1]), deltas[|deltas| - 1];
      if before == [] || last.sequence > before[|before| - 1].sequence then before + [last] else before
  }

  function DeliverAll(deltas: seq<Delta>): Book {
    if deltas == [] then EMPTY_BOOK else Deliver(DeliverAll(deltas[..|deltas| - 1]), deltas[|deltas| - 1])
  }

  lemma {:induction false} LevelAtAppend(deltas: seq<Delta>, d: Delta, n: nat, key: Key)
    requires n <= |deltas|
    ensures LevelAt(deltas + [d], n, key) == LevelAt(deltas, n, key)
  {
    if n > 0 {
      LevelAtAppend(deltas, d, n - 1, key);
    }
  }

  lemma ShowsAppend(b: Book, deltas: seq<Delta>, d: Delta)
    requires Shows(b, deltas, |deltas|)
    ensures Shows(b, deltas + [d], |deltas|)
  {
    forall key ensures LevelAt(deltas + [d], |deltas|, key) == LevelAt(deltas, |deltas|, key) {
      LevelAtAppend(deltas, d, |deltas|, key);
    }
  }

  predicate NoEventAbove(b: Book) {
    forall s <- b.events :: b.sequence.Some? && s <= b.sequence.value
  }

  /** Delivery in any order whatsoever: the book is that of the running maxima; whatever was overtaken is lost. */
  lemma {:induction false} BookFollowsMaxima(deltas: seq<Delta>)
    requires forall i | 0 <= i < |deltas| :: WellFormed(deltas[i])
    ensures Stream(Maxima(deltas))
    ensures Shows(DeliverAll(deltas), Maxima(deltas), |Maxima(deltas)|) && NoEventAbove(DeliverAll(deltas))
  {
    if deltas != [] {
      var init, last := deltas[..|deltas| - 1], deltas[|deltas| - 1];
      BookFollowsMaxima(init);
      var b, before := DeliverAll(init), Maxima(init);
      if before == [] || last.sequence > before[|before| - 1].sequence {
        ShowsAppend(b, before, last);
        NextShows(b, before + [last], |before|);
      }
    }
  }

  lemma OnlyNewerMoves(b: Book, d: Delta)
    requires WellFormed(d) && NoEventAbove(b)
    ensures Deliver(b, d).sequence == b.sequence <==> !Newer(b, d)
    ensures !Newer(b, d) ==> Deliver(b, d).levels == b.levels
  {
  }

  lemma MaximaSnoc(deltas: seq<Delta>, d: Delta)
    ensures var m := Maxima(deltas);
      Maxima(deltas + [d]) == if m == [] || d.sequence > m[|m| - 1].sequence then m + [d] else m
  {
    assert (deltas + [d])[..|deltas|] == deltas;
  }

  /** The book's sequence moves exactly with a new maximum; a delta that is none leaves the levels alone too. */
  lemma LateIsDropped(deltas: seq<Delta>, d: Delta)
    requires forall i | 0 <= i < |deltas| :: WellFormed(deltas[i])
    requires WellFormed(d)
    ensures Deliver(DeliverAll(deltas), d).sequence == DeliverAll(deltas).sequence
       <==> Maxima(deltas + [d]) == Maxima(deltas)
    ensures Maxima(deltas + [d]) == Maxima(deltas)
      ==> Deliver(DeliverAll(deltas), d).levels == DeliverAll(deltas).levels
  {
    var b, m := DeliverAll(deltas), Maxima(deltas);
    BookFollowsMaxima(deltas);
    MaximaSnoc(deltas, d);
    OnlyNewerMoves(b, d);
    assert Newer(b, d) <==> m == [] || d.sequence > m[|m| - 1].sequence;
  }

  /** A delta that the table can take: whether its event row is written does not depend on its being late. */
  lemma DeliveredLeavesItsEvent(b: Book, d: Delta)
    requires WellFormed(d)
    ensures Deliver(b, d).events == b.events + {d.sequence}
  {
  }

  /** In any order of delivery the events are those of the deltas delivered, overtaken ones included. */
  lemma {:induction false} EventsAreTheDelivered(deltas: seq<Delta>)
    requires forall i | 0 <= i < |deltas| :: WellFormed(deltas[i])
    ensures forall s :: s in DeliverAll(deltas).events <==> exists i :: 0 <= i < |deltas| && deltas[i].sequence == s
  {
    if deltas != [] {
      var init, last := deltas[..|deltas| - 1], deltas[|deltas| - 1];
      EventsAreTheDelivered(init);
      DeliveredLeavesItsEvent(DeliverAll(init), last);
      forall s ensures s in DeliverAll(deltas).events <==> exists i :: 0 <= i < |deltas| && deltas[i].sequence == s {
        if s in DeliverAll(init).events {
          var i :| 0 <= i < |init| && init[i].sequence == s;
          assert deltas[i].sequence == s;
        } else if s == last.sequence {
          assert deltas[|deltas| - 1].sequence == s;
        }
      }
    }
  }

  // ---- whatever is delivered ----

  predicate LevelsAreValid(levels: map<Key, Level>) {
    forall key | key in levels :: key.price >= 0 && levels[key].quantity > 0
  }

  lemma {:induction false} ApplyLevelsKeepsValid(levels: map<Key, Level>, side: BookSide, entries: seq<Entry>,
      sequence: int)
    requires LevelsAreValid(levels) && AllWritable(entries)
    ensures LevelsAreValid(ApplyLevels(levels, side, entries, sequence))
  {
    if entries != [] {
      assert Writable(entries[|entries| - 1]);
      ApplyLevelsKeepsValid(levels, side, entries[..|entries| - 1], sequence);
    }
  }

  /** In every run, malformed and aborted deltas included, each level has a positive quantity and no negative price. */
  lemma {:induction false} EveryLevelIsValid(deltas: seq<Delta>)
    ensures LevelsAreValid(DeliverAll(deltas).levels)
  {
    if deltas != [] {
      var b, d := DeliverAll(deltas[..|deltas| - 1]), deltas[|deltas| - 1];
      EveryLevelIsValid(deltas[..|deltas| - 1]);
      if AllWritable(d.bids) && AllWritable(d.asks) {
        ApplyLevelsKeepsValid(b.levels, Bid, d.bids, d.sequence);
        ApplyLevelsKeepsValid(ApplyLevels(b.levels, Bid, d.bids, d.sequence), Ask, d.asks, d.sequence);
      }
    }
  }
}
