/** Clients of the order book: a snapshot read in three steps, stitched to the live deltas. */
module OrderBookClient {
  import opened Common
  import opened OrderBook

  // ---- the snapshot ----

  predicate Better(side: BookSide, a: int, b: int) {
    if side == Bid then a > b else a < b
  }

  function KeysOf(levels: map<Key, Level>, side: BookSide): set<Key> {
    set key | key in levels && key.side == side
  }

  /** ORDER BY price LIMIT depth: the best levels of one side, best first. */
  ghost predicate TopRows(rows: seq<Key>, levels: map<Key, Level>, side: BookSide, depth: nat) {
    && |rows| <= depth
    && (forall r <- rows :: r in KeysOf(levels, side))
    && (forall i, j | 0 <= i < j < |rows| :: Better(side, rows[i].price, rows[j].price))
    && (forall key | key in levels && key.side == side && key !in rows ::
          |rows| == depth && forall r <- rows :: Better(side, r.price, key.price))
  }

  /** The first row is the best price of its side: no bid is higher, no ask lower. */
  lemma BestIsFirst(rows: seq<Key>, levels: map<Key, Level>, side: BookSide, depth: nat)
    requires TopRows(rows, levels, side, depth) && rows != []
    ensures side == Bid ==> forall key | key in levels && key.side == Bid :: key.price <= rows[0].price
    ensures side == Ask ==> forall key | key in levels && key.side == Ask :: key.price >= rows[0].price
  {
    forall key | key in levels && key.side == side ensures key == rows[0] || Better(side, rows[0].price, key.price) {
      if key in rows {
        var i :| 0 <= i < |rows| && rows[i] == key;
      }
    }
  }

  function Rows(rows: seq<Key>): set<Key> {
    set r | r in rows
  }

  lemma {:induction false} CountRows(rows: seq<Key>, side: BookSide)
    requires forall i, j | 0 <= i < j < |rows| :: Better(side, rows[i].price, rows[j].price)
    ensures |Rows(rows)| == |rows|
  {
    if rows != [] {
      var init, last := rows[..|rows| - 1], rows[|rows| - 1];
      CountRows(init, side);
      assert last !in init;
      assert Rows(rows) == Rows(init) + {last} by {
        assert rows == init + [last];
      }
    }
  }

  /** The snapshot holds a whole side exactly when the side has no more levels than the depth. */
  lemma SideIsWholeIff(rows: seq<Key>, levels: map<Key, Level>, side: BookSide, depth: nat)
    requires TopRows(rows, levels, side, depth)
    ensures Rows(rows) == KeysOf(levels, side) <==> |KeysOf(levels, side)| <= depth
  {
    CountRows(rows, side);
    assert Rows(rows) <= KeysOf(levels, side);
    if Rows(rows) != KeysOf(levels, side) {
      var key :| key in KeysOf(levels, side) && key !in Rows(rows);
      assert |rows| == depth;
      StrictlyFewer(Rows(rows), KeysOf(levels, side), key);
    }
  }

  lemma StrictlyFewer(a: set<Key>, b: set<Key>, key: Key)
    requires a <= b && key in b && key !in a
    ensures |a| < |b|
  {
    assert b == a + (b - a) && key in b - a;
  }

  /** What a client holds; the snapshot's rows carry no sequence of their own. */
  datatype Client = Client(sequence: int, levels: map<Key, int>)

  /** Sequence, bids and asks are three reads, so they may be of three states of the book. */
  function Snapshot(sequence: Option<int>, bids: map<Key, Level>, bidRows: set<Key>, asks: map<Key, Level>,
      askRows: set<Key>): Client
    requires bidRows <= bids.Keys && askRows <= asks.Keys
  {
    Client(if sequence.Some? then sequence.value else 0,
           map key | key in bidRows + askRows :: if key in bidRows then bids[key].quantity else asks[key].quantity)
  }

  // ---- the live deltas ----

  function DeltaKeys(d: Delta): set<Key> {
    (set e | e in d.bids :: Key(Bid, e.price)) + (set e | e in d.asks :: Key(Ask, e.price))
  }

  function Overlaid(levels: map<Key, int>, d: Delta): map<Key, int> {
    map key | key in levels.Keys + DeltaKeys(d)
      && (if Says(d, key).Some? then Says(d, key).value > 0 else key in levels)
      :: if Says(d, key).Some? then Says(d, key).value else levels[key]
  }

  /** Deltas at or below the client's sequence are dropped; the others set or remove the prices they list. */
  function Take(c: Client, d: Delta): Client {
    if d.sequence <= c.sequence then c else Client(d.sequence, Overlaid(c.levels, d))
  }

  function Received(c: Client, deltas: seq<Delta>, order: seq<nat>): Client
    requires forall i | 0 <= i < |order| :: order[i] < |deltas|
  {
    if order == [] then c else Take(Received(c, deltas, order[..|order| - 1]), deltas[order[|order| - 1]])
  }

  function Held(levels: map<Key, int>, key: Key): Option<int> {
    if key in levels then Some(levels[key]) else None
  }

  lemma {:induction false} SaysIsListed(entries: seq<Entry>, price: int)
    ensures LastQuantity(entries, price).Some? ==> exists e :: e in entries && e.price == price
  {
    if entries != [] {
      SaysIsListed(entries[..|entries| - 1], price);
      assert entries[|entries| - 1] in entries;
      assert forall e | e in entries[..|entries| - 1] :: e in entries;
    }
  }

  lemma OverlaidOn(levels: map<Key, int>, d: Delta, key: Key)
    ensures Held(Overlaid(levels, d), key) == if Says(d, key).Some? then Positive(Says(d, key)) else Held(levels, key)
  {
    SaysIsListed(d.bids, key.price);
    SaysIsListed(d.asks, key.price);
    if Says(d, key).Some? {
      var e :| e in (if key.side == Bid then d.bids else d.asks) && e.price == key.price;
      assert Key(key.side, e.price) == key;
      assert key in DeltaKeys(d);
    }
  }

  /** A level that started as `start` when i deltas were out, after n of them. */
  function LevelSince(start: Option<int>, deltas: seq<Delta>, i: nat, n: nat, key: Key): Option<int>
    requires n <= |deltas|
  {
    if n <= i then start
    else if Says(deltas[n - 1], key).Some? then Positive(Says(deltas[n - 1], key))
    else LevelSince(start, deltas, i, n - 1, key)
  }

  function SequenceAt(deltas: seq<Delta>, n: nat): int
    requires n <= |deltas|
  {
    if n == 0 then 0 else deltas[n - 1].sequence
  }

  ghost predicate Stitched(c: Client, start: Client, deltas: seq<Delta>, i: nat, n: nat)
    requires n <= |deltas|
  {
    && (i <= n ==> c.sequence == SequenceAt(deltas, n))
    && (n <= i ==> c == start)
    && (forall key :: Held(c.levels, key) == LevelSince(Held(start.levels, key), deltas, i, n, key))
  }

  lemma TakeStitches(c: Client, start: Client, deltas: seq<Delta>, i: nat, n: nat)
    requires Stream(deltas) && n < |deltas| && i <= |deltas| && start.sequence == SequenceAt(deltas, i)
    requires Stitched(c, start, deltas, i, n)
    ensures Stitched(Take(c, deltas[n]), start, deltas, i, n + 1)
  {
    var t := Take(c, deltas[n]);
    if n < i {
      assert deltas[n].sequence <= deltas[i - 1].sequence;
    } else {
      assert n > 0 ==> deltas[n - 1].sequence < deltas[n].sequence;
      forall key ensures Held(t.levels, key) == LevelSince(Held(start.levels, key), deltas, i, n + 1, key) {
        OverlaidOn(c.levels, deltas[n], key);
      }
    }
  }

  lemma RepeatIsDropped(c: Client, start: Client, deltas: seq<Delta>, i: nat, n: nat, k: nat)
    requires Stream(deltas) && k < n <= |deltas| && i <= |deltas| && start.sequence == SequenceAt(deltas, i)
    requires Stitched(c, start, deltas, i, n)
    ensures Take(c, deltas[k]) == c
  {
    if n <= i {
      assert deltas[k].sequence <= deltas[i - 1].sequence;
    } else {
      assert deltas[k].sequence <= deltas[n - 1].sequence;
    }
  }

  lemma {:induction false} ClientStitches(start: Client, deltas: seq<Delta>, order: seq<nat>, b: nat, i: nat, n: nat)
    requires Stream(deltas) && b <= i <= |deltas| && n <= |deltas| && InOrder(order, b, n)
    requires forall k | 0 <= k < |order| :: order[k] < |deltas|
    requires start.sequence == SequenceAt(deltas, i)
    ensures Stitched(Received(start, deltas, order), start, deltas, i, n)
    decreases |order|
  {
    if order != [] {
      var init, last := order[..|order| - 1], order[|order| - 1];
      if last < n && InOrder(init, b, n) {
        ClientStitches(start, deltas, init, b, i, n);
        RepeatIsDropped(Received(start, deltas, init), start, deltas, i, n, last);
      } else {
        ClientStitches(start, deltas, init, b, i, last);
        TakeStitches(Received(start, deltas, init), start, deltas, i, last);
      }
    }
  }

  predicate Mentioned(deltas: seq<Delta>, i: nat, n: nat, key: Key)
    requires n <= |deltas|
  {
    n > i && (Says(deltas[n - 1], key).Some? || Mentioned(deltas, i, n - 1, key))
  }

  /** Where nothing later mentions the level, both sides keep what they had; otherwise both have the same. */
  lemma {:induction false} SameFromMention(start: Option<int>, deltas: seq<Delta>, i: nat, j: nat, n: nat, key: Key)
    requires i <= j <= n <= |deltas|
    ensures Mentioned(deltas, i, n, key) ==> LevelSince(start, deltas, i, n, key) == LevelAt(deltas, n, key)
    ensures !Mentioned(deltas, i, n, key) ==>
      LevelSince(start, deltas, i, n, key) == start && LevelAt(deltas, n, key) == LevelAt(deltas, j, key)
    decreases n
  {
    if n > i {
      SameFromMention(start, deltas, i, if j < n then j else n - 1, n - 1, key);
    }
  }

  /** A torn snapshot: its sequence is of the book after i deltas, its bids after j and its asks after k. */
  ghost predicate Torn(
    deltas: seq<Delta>, i: nat, atI: Book, j: nat, atJ: Book, k: nat, atK: Book, bidRows: set<Key>, askRows: set<Key>)
  {
    && i <= j <= k <= |deltas|
    && Follows(atI, deltas, i) && Follows(atJ, deltas, j) && Follows(atK, deltas, k)
    && bidRows <= KeysOf(atJ.levels, Bid) && askRows <= KeysOf(atK.levels, Ask)
  }

  function Start(atI: Book, atJ: Book, atK: Book, bidRows: set<Key>, askRows: set<Key>): Client
    requires bidRows <= KeysOf(atJ.levels, Bid) && askRows <= KeysOf(atK.levels, Ask)
  {
    Snapshot(atI.sequence, atJ.levels, bidRows, atK.levels, askRows)
  }

  /**
   * Level by level, a client that starts from a torn snapshot and then takes the stream, buffered
   * from any point b before the snapshot to any point n after it, agrees with the projector
   * exactly where the level was in the snapshot, was not in the book, or has been mentioned since.
   */
  lemma ClientLevelIsRightIff(
    deltas: seq<Delta>, i: nat, atI: Book, j: nat, atJ: Book, k: nat, atK: Book, bidRows: set<Key>, askRows: set<Key>,
    order: seq<nat>, b: nat, n: nat, atN: Book, key: Key)
    requires Stream(deltas) && Torn(deltas, i, atI, j, atJ, k, atK, bidRows, askRows)
    requires b <= i && k <= n <= |deltas| && InOrder(order, b, n) && Follows(atN, deltas, n)
    requires forall m | 0 <= m < |order| :: order[m] < |deltas|
    ensures var read := if key.side == Bid then atJ.levels else atK.levels;
      Held(Received(Start(atI, atJ, atK, bidRows, askRows), deltas, order).levels, key) == Value(atN.levels, key)
      <==> Mentioned(deltas, i, n, key) || key in bidRows + askRows || key !in read
  {
    var start := Start(atI, atJ, atK, bidRows, askRows);
    ClientStitches(start, deltas, order, b, i, n);
    SameFromMention(Held(start.levels, key), deltas, i, if key.side == Bid then j else k, n, key);
  }

  /** With both sides whole, the client ends with the projector's book. */
  lemma TornSnapshotConverges(
    deltas: seq<Delta>, i: nat, atI: Book, j: nat, atJ: Book, k: nat, atK: Book, bidRows: seq<Key>, askRows: seq<Key>,
    depth: nat, order: seq<nat>, b: nat, n: nat, atN: Book)
    requires Stream(deltas) && Torn(deltas, i, atI, j, atJ, k, atK, Rows(bidRows), Rows(askRows))
    requires TopRows(bidRows, atJ.levels, Bid, depth) && TopRows(askRows, atK.levels, Ask, depth)
    requires |KeysOf(atJ.levels, Bid)| <= depth && |KeysOf(atK.levels, Ask)| <= depth
    requires b <= i && k <= n <= |deltas| && InOrder(order, b, n) && Follows(atN, deltas, n)
    requires forall m | 0 <= m < |order| :: order[m] < |deltas|
    ensures var c := Received(Start(atI, atJ, atK, Rows(bidRows), Rows(askRows)), deltas, order);
      c.sequence == SequenceAt(deltas, n) && c.levels == map key | key in atN.levels :: atN.levels[key].quantity
  {
    var start := Start(atI, atJ, atK, Rows(bidRows), Rows(askRows));
    var c := Received(start, deltas, order);
    SideIsWholeIff(bidRows, atJ.levels, Bid, depth);
    SideIsWholeIff(askRows, atK.levels, Ask, depth);
    ClientStitches(start, deltas, order, b, i, n);
    forall key ensures Held(c.levels, key) == Value(atN.levels, key) {
      ClientLevelIsRightIff(deltas, i, atI, j, atJ, k, atK, Rows(bidRows), Rows(askRows), order, b, n, atN, key);
    }
    SameLevels(c.levels, atN.levels);
  }

  lemma SameLevels(held: map<Key, int>, levels: map<Key, Level>)
    requires forall key :: Held(held, key) == Value(levels, key)
    ensures held == map key | key in levels :: levels[key].quantity
  {
    forall key | key in held ensures key in levels && held[key] == levels[key].quantity {
      assert Held(held, key) == Value(levels, key);
    }
    forall key | key in levels ensures key in held {
      assert Held(held, key) == Value(levels, key);
    }
  }
}
