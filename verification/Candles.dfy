/** Candles: one upsert per interval and trade, and what any arrival order of trades leaves behind. */
module Candles {
  import opened Common
  import opened TableSums

  datatype Interval = M1 | M5 | M15 | H1 | D1

  const INTERVALS := [M1, M5, M15, H1, D1]

  function Duration(i: Interval): int
    ensures Duration(i) > 0
  {
    match i
    case M1 => 60_000
    case M5 => 300_000
    case M15 => 900_000
    case H1 => 3_600_000
    case D1 => 86_400_000
  }

  /** The remainder of Rust's rem_euclid is that of `%`: never negative. */
  function BucketStart(time: int, i: Interval): int {
    time - time % Duration(i)
  }

  datatype TradeKey = TradeKey(market: int, sequence: int)

  datatype Trade = Trade(market: int, sequence: int, fill: int, time: int, price: int, quantity: int)

  datatype CandleKey = CandleKey(market: int, interval: Interval, start: int)

  datatype Draft = Draft(key: CandleKey, price: int, quantity: int, sequence: int)

  datatype Candle = Candle(open: int, high: int, low: int, close: int, volume: int, count: int, first: int, last: int)

  datatype Series = Series(trades: map<TradeKey, Trade>, candles: map<CandleKey, Candle>)

  const EMPTY_SERIES := Series(map[], map[])

  function KeyOf(t: Trade): TradeKey {
    TradeKey(t.market, t.sequence)
  }

  function DraftOf(t: Trade, i: Interval): Draft {
    Draft(CandleKey(t.market, i, BucketStart(t.time, i)), t.price, t.quantity, t.sequence)
  }

  function CandleDrafts(t: Trade): seq<Draft> {
    seq(|INTERVALS|, i requires 0 <= i < |INTERVALS| => DraftOf(t, INTERVALS[i]))
  }

  function Single(d: Draft): Candle {
    Candle(d.price, d.price, d.price, d.price, d.quantity, 1, d.sequence, d.sequence)
  }

  /** The DO UPDATE of the upsert, for any proposed candle. */
  function Merge(c: Candle, d: Candle): Candle {
    Candle(
      if d.first < c.first then d.open else c.open,
      Max(c.high, d.high), Min(c.low, d.low),
      if d.last > c.last then d.close else c.close,
      c.volume + d.volume, c.count + d.count, Min(c.first, d.first), Max(c.last, d.last))
  }

  function Upsert(candles: map<CandleKey, Candle>, d: Draft): map<CandleKey, Candle> {
    candles[d.key := if d.key in candles then Merge(candles[d.key], Single(d)) else Single(d)]
  }

  function UpsertAll(candles: map<CandleKey, Candle>, drafts: seq<Draft>): map<CandleKey, Candle> {
    if drafts == [] then candles else Upsert(UpsertAll(candles, drafts[..|drafts| - 1]), drafts[|drafts| - 1])
  }

  /** The CHECK constraints of timeseries_trades. */
  predicate Admissible(t: Trade) {
    t.sequence > 0 && t.time >= 0 && t.price >= 0 && t.quantity > 0
  }

  predicate FillUsed(trades: map<TradeKey, Trade>, fill: int) {
    exists k :: k in trades && trades[k].fill == fill
  }

  /** None is an aborted transaction: a violated CHECK, or the fill id of a trade with another key. */
  function RecordTrade(s: Series, t: Trade, drafts: seq<Draft>): Option<Series> {
    if !Admissible(t) then None
    else if KeyOf(t) in s.trades then Some(s)
    else if FillUsed(s.trades, t.fill) then None
    else Some(Series(s.trades[KeyOf(t) := t], UpsertAll(s.candles, drafts)))
  }

  class Repository {
    var trades: map<TradeKey, Trade>
    var candles: map<CandleKey, Candle>

    ghost function State(): Series
      reads this
    {
      Series(trades, candles)
    }

    constructor ()
      ensures State() == EMPTY_SERIES
    {
      trades, candles := map[], map[];
    }

    method UpsertCandle(d: Draft)
      modifies this`candles
      ensures candles == Upsert(old(candles), d)
    {
      if d.key !in candles {
        candles := candles[d.key := Candle(d.price, d.price, d.price, d.price, d.quantity, 1, d.sequence, d.sequence)];
      } else {
        var c := candles[d.key];
        var open := if d.sequence < c.first then d.price else c.open;
        var close := if d.sequence > c.last then d.price else c.close;
        candles := candles[d.key := Candle(open, Max(c.high, d.price), Min(c.low, d.price), close,
                                           c.volume + d.quantity, c.count + 1,
                                           Min(c.first, d.sequence), Max(c.last, d.sequence))];
      }
    }

    method RecordTradeAndCandles(t: Trade, drafts: seq<Draft>) returns (ok: bool, inserted: bool)
      modifies this
      ensures ok == RecordTrade(old(State()), t, drafts).Some?
      ensures State() == if ok then RecordTrade(old(State()), t, drafts).value else old(State())
      ensures inserted <==> ok && KeyOf(t) !in old(trades)
    {
      if t.sequence <= 0 || t.time < 0 || t.price < 0 || t.quantity <= 0 {
        return false, false;
      }
      if KeyOf(t) in trades {
        return true, false;
      }
      if FillUsed(trades, t.fill) {
        return false, false;
      }
      trades := trades[KeyOf(t) := t];
      var i := 0;
      while i < |drafts|
        invariant 0 <= i <= |drafts|
        invariant trades == old(trades)[KeyOf(t) := t]
        invariant candles == UpsertAll(old(candles), drafts[..i])
      {
        UpsertCandle(drafts[i]);
        assert drafts[..i + 1][..i] == drafts[..i];
        i := i + 1;
      }
      assert drafts[..i] == drafts;
      return true, true;
    }
  }

  // ---- what a candle of a set of trades is ----

  function Quantity(): (TradeKey, Trade) -> int {
    (k: TradeKey, t: Trade) => t.quantity
  }

  function One(): (TradeKey, Trade) -> int {
    (k: TradeKey, t: Trade) => 1
  }

  /** Trades of one market, each under its own key. */
  predicate OfMarket(rows: map<TradeKey, Trade>, market: int) {
    forall k | k in rows :: k.market == market && KeyOf(rows[k]) == k
  }

  ghost predicate HasPrice(rows: map<TradeKey, Trade>, price: int) {
    exists k :: k in rows && rows[k].price == price
  }

  /** Open at the lowest sequence, close at the highest, extremes of the price, sums of quantity and number. */
  ghost predicate IsCandleOf(c: Candle, rows: map<TradeKey, Trade>, market: int) {
    && TradeKey(market, c.first) in rows && rows[TradeKey(market, c.first)].price == c.open
    && TradeKey(market, c.last) in rows && rows[TradeKey(market, c.last)].price == c.close
    && (forall k | k in rows :: c.first <= k.sequence <= c.last && c.low <= rows[k].price <= c.high)
    && HasPrice(rows, c.high) && HasPrice(rows, c.low)
    && c.volume == TableSum(rows, Quantity()) && c.count == TableSum(rows, One())
  }

  lemma CandleIsUnique(c: Candle, d: Candle, rows: map<TradeKey, Trade>, market: int)
    requires IsCandleOf(c, rows, market) && IsCandleOf(d, rows, market)
    ensures c == d
  {
    assert c.first == d.first && c.last == d.last;
    var a :| a in rows && rows[a].price == c.high;
    var b :| b in rows && rows[b].price == d.high;
    var e :| e in rows && rows[e].price == c.low;
    var f :| f in rows && rows[f].price == d.low;
  }

  lemma SingleIsCandle(t: Trade, i: Interval)
    ensures IsCandleOf(Single(DraftOf(t, i)), map[KeyOf(t) := t], t.market)
  {
    var rows := map[KeyOf(t) := t];
    assert rows - {KeyOf(t)} == map[];
    TakeOut(rows, KeyOf(t), Quantity());
    TakeOut(rows, KeyOf(t), One());
    assert KeyOf(t) in rows && rows[KeyOf(t)].price == t.price;
  }

  lemma PriceOfEither(left: map<TradeKey, Trade>, right: map<TradeKey, Trade>, price: int)
    requires left.Keys !! right.Keys
    ensures HasPrice(left, price) || HasPrice(right, price) ==> HasPrice(left + right, price)
  {
    if HasPrice(left, price) {
      var k :| k in left && left[k].price == price;
      assert k in left + right && (left + right)[k] == left[k];
    } else if HasPrice(right, price) {
      var k :| k in right && right[k].price == price;
      assert k in left + right && (left + right)[k] == right[k];
    }
  }

  /** The upsert rule merges the candles of any two disjoint sets of trades of a market. */
  lemma MergeIsCandleOfUnion(c: Candle, d: Candle, left: map<TradeKey, Trade>, right: map<TradeKey, Trade>, market: int)
    requires IsCandleOf(c, left, market) && IsCandleOf(d, right, market)
    requires left.Keys !! right.Keys
    ensures IsCandleOf(Merge(c, d), left + right, market)
  {
    PriceOfEither(left, right, Merge(c, d).high);
    PriceOfEither(left, right, Merge(c, d).low);
    DisjointUnion(left, right, Quantity());
    DisjointUnion(left, right, One());
    assert TradeKey(market, c.first) in left && TradeKey(market, d.first) in right;
    assert TradeKey(market, c.last) in left && TradeKey(market, d.last) in right;
  }

  // ---- the candles table ----

  /** A start on the grid of the interval, counted from the epoch, and a time less than one interval after it. */
  predicate InWindow(time: int, i: Interval, start: int) {
    start % Duration(i) == 0 && start <= time < start + Duration(i)
  }

  /** Exactly one window of an interval holds a time: the bucket is the one that starts at BucketStart. */
  lemma BucketStartIff(time: int, i: Interval, start: int)
    ensures start == BucketStart(time, i) <==> InWindow(time, i, start)
  {
    var d := Duration(i);
    OnTheGrid(time, d);
    if InWindow(time, i, start) {
      assert start == d * (start / d);
      QuotientIs(time, d, start / d, time - start);
    }
  }

  lemma OnTheGrid(time: int, d: int)
    requires d > 0
    ensures (time - time % d) % d == 0
  {
    QuotientIs(time - time % d, d, time / d, 0);
  }

  predicate InBucket(t: Trade, k: CandleKey) {
    t.market == k.market && InWindow(t.time, k.interval, k.start)
  }

  function Bucket(trades: map<TradeKey, Trade>, k: CandleKey): map<TradeKey, Trade> {
    map key | key in trades && InBucket(trades[key], k) :: trades[key]
  }

  ghost predicate RightAt(s: Series, k: CandleKey) {
    && (k in s.candles <==> Bucket(s.trades, k) != map[])
    && (k in s.candles ==> IsCandleOf(s.candles[k], Bucket(s.trades, k), k.market))
  }

  ghost predicate Right(s: Series) {
    && (forall key | key in s.trades :: KeyOf(s.trades[key]) == key)
    && (forall k :: RightAt(s, k))
  }

  function IndexOf(i: Interval): nat {
    match i
    case M1 => 0
    case M5 => 1
    case M15 => 2
    case H1 => 3
    case D1 => 4
  }

  lemma IntervalAt(i: Interval, n: nat)
    requires n < |INTERVALS|
    ensures INTERVALS[n] == i <==> IndexOf(i) == n
  {
  }

  function Touched(candles: map<CandleKey, Candle>, t: Trade, k: CandleKey): Candle {
    if k in candles then Merge(candles[k], Single(DraftOf(t, k.interval))) else Single(DraftOf(t, k.interval))
  }

  /** The first n drafts change the trade's own buckets of the first n intervals, each once. */
  lemma {:induction false} FirstDraftsTouch(candles: map<CandleKey, Candle>, t: Trade, k: CandleKey, n: nat)
    requires n <= |INTERVALS|
    ensures var after := UpsertAll(candles, CandleDrafts(t)[..n]);
      && (!InBucket(t, k) || IndexOf(k.interval) >= n ==>
            (k in after <==> k in candles) && (k in after ==> after[k] == candles[k]))
      && (InBucket(t, k) && IndexOf(k.interval) < n ==> k in after && after[k] == Touched(candles, t, k))
  {
    if n > 0 {
      FirstDraftsTouch(candles, t, k, n - 1);
      PrefixStep(candles, t, n - 1);
      IntervalAt(k.interval, n - 1);
      DraftIsInBucket(t, k);
    }
  }

  /** Only the five drafts' own keys change, each once. */
  lemma DraftsTouch(candles: map<CandleKey, Candle>, t: Trade, k: CandleKey)
    ensures var after := UpsertAll(candles, CandleDrafts(t));
      && (!InBucket(t, k) ==> (k in after <==> k in candles) && (k in after ==> after[k] == candles[k]))
      && (InBucket(t, k) ==> k in after && after[k] == Touched(candles, t, k))
  {
    FirstDraftsTouch(candles, t, k, |INTERVALS|);
    assert CandleDrafts(t)[..|INTERVALS|] == CandleDrafts(t);
  }

  lemma PrefixStep(candles: map<CandleKey, Candle>, t: Trade, n: nat)
    requires n < |INTERVALS|
    ensures UpsertAll(candles, CandleDrafts(t)[..n + 1])
      == Upsert(UpsertAll(candles, CandleDrafts(t)[..n]), DraftOf(t, INTERVALS[n]))
  {
    assert CandleDrafts(t)[..n + 1][..n] == CandleDrafts(t)[..n];
  }

  lemma DraftIsInBucket(t: Trade, k: CandleKey)
    ensures InBucket(t, k) <==> DraftOf(t, k.interval).key == k
  {
    BucketStartIff(t.time, k.interval, k.start);
  }

  lemma BucketPut(trades: map<TradeKey, Trade>, t: Trade, k: CandleKey)
    requires KeyOf(t) !in trades
    ensures InBucket(t, k) ==> Bucket(trades[KeyOf(t) := t], k) == Bucket(trades, k) + map[KeyOf(t) := t]
    ensures !InBucket(t, k) ==> Bucket(trades[KeyOf(t) := t], k) == Bucket(trades, k)
  {
  }

  lemma RecordKeepsRightAt(s: Series, t: Trade, k: CandleKey)
    requires RightAt(s, k) && KeyOf(t) !in s.trades
    ensures RightAt(Series(s.trades[KeyOf(t) := t], UpsertAll(s.candles, CandleDrafts(t))), k)
  {
    DraftsTouch(s.candles, t, k);
    BucketPut(s.trades, t, k);
    if InBucket(t, k) {
      SingleIsCandle(t, k.interval);
      if k in s.candles {
        MergeIsCandleOfUnion(s.candles[k], Single(DraftOf(t, k.interval)), Bucket(s.trades, k), map[KeyOf(t) := t],
          k.market);
      } else {
        assert Bucket(s.trades, k) + map[KeyOf(t) := t] == map[KeyOf(t) := t];
      }
      assert KeyOf(t) in Bucket(s.trades[KeyOf(t) := t], k);
    }
  }

  // ---- any arrival order ----

  function Deliver(s: Series, t: Trade): Series {
    var r := RecordTrade(s, t, CandleDrafts(t));
    if r.Some? then r.value else s
  }

  function Run(trades: seq<Trade>): Series {
    if trades == [] then EMPTY_SERIES else Deliver(Run(trades[..|trades| - 1]), trades[|trades| - 1])
  }

  /** After any delivery every candle is the candle of the recorded trades of its bucket, and none is missing. */
  lemma {:induction false} EveryCandleIsRight(trades: seq<Trade>)
    ensures Right(Run(trades))
  {
    if trades == [] {
      forall k ensures RightAt(EMPTY_SERIES, k) {
        assert Bucket(map[], k) == map[];
      }
    } else {
      var init, last := trades[..|trades| - 1], trades[|trades| - 1];
      EveryCandleIsRight(init);
      var s := Run(init);
      if RecordTrade(s, last, CandleDrafts(last)).Some? && KeyOf(last) !in s.trades {
        forall k ensures RightAt(Run(trades), k) {
          assert RightAt(s, k);
          RecordKeepsRightAt(s, last, k);
        }
      }
    }
  }

  /** In range, under its own key, with its fill id to itself. */
  ghost predicate Recorded(rows: map<TradeKey, Trade>, k: TradeKey)
    requires k in rows
  {
    && rows[k].sequence > 0 && rows[k].time >= 0 && rows[k].price >= 0 && rows[k].quantity > 0
    && k == TradeKey(rows[k].market, rows[k].sequence)
    && forall l | l in rows && rows[l].fill == rows[k].fill :: l == k
  }

  /** In every run each recorded trade is a trade delivered, admissible, and recorded once. */
  lemma {:induction false} EveryTradeIsRecordedOnce(trades: seq<Trade>)
    ensures forall k | k in Run(trades).trades :: Recorded(Run(trades).trades, k) && Run(trades).trades[k] in trades
  {
    if trades != [] {
      var init, last := trades[..|trades| - 1], trades[|trades| - 1];
      assert trades == init + [last];
      EveryTradeIsRecordedOnce(init);
      var rows := Run(init).trades;
      if Run(trades).trades != rows {
        assert Run(trades).trades == rows[KeyOf(last) := last];
        forall k | k in rows ensures rows[k].fill != last.fill && Recorded(rows, k) && rows[k] in init {
          assert !FillUsed(rows, last.fill);
        }
        OneMoreRecorded(rows, last);
      }
    }
  }

  lemma OneMoreRecorded(rows: map<TradeKey, Trade>, t: Trade)
    requires Admissible(t) && forall k | k in rows :: Recorded(rows, k) && rows[k].fill != t.fill
    ensures var after := rows[KeyOf(t) := t]; forall k | k in after :: Recorded(after, k)
  {
  }

  /** (market, sequence) and the fill id each name one trade. */
  predicate Consistent(t: Trade, u: Trade) {
    (KeyOf(t) == KeyOf(u) || t.fill == u.fill) ==> t == u
  }

  predicate Clean(trades: seq<Trade>) {
    && (forall t <- trades :: Admissible(t))
    && (forall t <- trades :: forall u <- trades :: Consistent(t, u))
  }

  lemma {:induction false} RecordedTrades(trades: seq<Trade>)
    requires Clean(trades)
    ensures forall t <- trades :: KeyOf(t) in Run(trades).trades && Run(trades).trades[KeyOf(t)] == t
    ensures forall k | k in Run(trades).trades :: Run(trades).trades[k] in trades && KeyOf(Run(trades).trades[k]) == k
  {
    if trades != [] {
      var init, last := trades[..|trades| - 1], trades[|trades| - 1];
      assert trades == init + [last];
      assert forall t <- init :: t in trades;
      RecordedTrades(init);
      var s := Run(init);
      forall k | k in s.trades ensures Consistent(s.trades[k], last) {
        assert s.trades[k] in init;
      }
    }
  }

  /** Order and repetition do not matter: the same trades leave the same tables. */
  lemma ArrivalOrderDoesNotMatter(left: seq<Trade>, right: seq<Trade>)
    requires Clean(left) && forall t :: t in left <==> t in right
    ensures Run(left) == Run(right)
  {
    RecordedTrades(left);
    RecordedTrades(right);
    EveryCandleIsRight(left);
    EveryCandleIsRight(right);
    var a, b := Run(left), Run(right);
    assert a.trades == b.trades;
    SameCandles(a, b);
  }

  lemma SameCandles(a: Series, b: Series)
    requires Right(a) && Right(b) && a.trades == b.trades
    ensures a.candles == b.candles
  {
    forall k ensures (k in a.candles <==> k in b.candles) && (k in a.candles ==> a.candles[k] == b.candles[k]) {
      assert RightAt(a, k) && RightAt(b, k);
      if k in a.candles {
        CandleIsUnique(a.candles[k], b.candles[k], Bucket(a.trades, k), k.market);
      }
    }
  }

  // ---- roll-up ----

  predicate Divides(fine: Interval, coarse: Interval) {
    Duration(coarse) % Duration(fine) == 0
  }

  /** Each interval divides every longer one. */
  lemma IntervalsNest(fine: Interval, coarse: Interval)
    ensures Divides(fine, coarse) <==> Duration(fine) <= Duration(coarse)
  {
  }

  lemma SmallMultiple(b: int, d: int)
    requires -b < b * d < b
    ensures d == 0
  {
    assert d >= 1 ==> b * d >= b;
    assert d <= -1 ==> b * d <= -b;
  }

  lemma QuotientIs(x: int, b: int, q: int, r: int)
    requires b > 0 && x == b * q + r && 0 <= r < b
    ensures x % b == r
  {
    assert x == b * (x / b) + x % b;
    assert b * (x / b - q) == r - x % b;
    SmallMultiple(b, x / b - q);
  }

  lemma AddMultiple(r: int, b: int, q: int)
    requires b > 0
    ensures (b * q + r) % b == r % b
  {
    assert r == b * (r / b) + r % b;
    assert b * q + r == b * (q + r / b) + r % b;
    QuotientIs(b * q + r, b, q + r / b, r % b);
  }

  lemma Associate(a: int, n: int, q: int)
    ensures (a * n) * q == a * (n * q)
  {
  }

  lemma RemainderOfFactor(time: int, a: int, n: int)
    requires a > 0 && n > 0 && a * n > 0
    ensures time % a == (time % (a * n)) % a
  {
    var b := a * n;
    Associate(a, n, time / b);
    AddMultiple(time % b, a, n * (time / b));
  }

  lemma ModOfMultiple(time: int, a: int, n: int)
    requires a > 0 && n > 0 && a * n > 0
    ensures (time - time % a) % (a * n) == time % (a * n) - time % a
  {
    var b := a * n;
    RemainderOfFactor(time, a, n);
    var r := time % b;
    assert 0 <= r % a <= r;
    QuotientIs(time - time % a, b, time / b, r - r % a);
  }

  /** A fine bucket lies in one coarse bucket, whole. */
  lemma BucketsNest(time: int, fine: Interval, coarse: Interval)
    requires Divides(fine, coarse)
    ensures BucketStart(BucketStart(time, fine), coarse) == BucketStart(time, coarse)
    ensures BucketStart(time, coarse) <= BucketStart(time, fine)
    ensures BucketStart(time, fine) + Duration(fine) <= BucketStart(time, coarse) + Duration(coarse)
  {
    var n := Duration(coarse) / Duration(fine);
    assert Duration(coarse) == Duration(fine) * n;
    ModOfMultiple(time, Duration(fine), n);
    LastSlot(time, Duration(fine), n);
  }

  /** The last start on the fine grid inside a coarse window is a whole fine interval before its end. */
  lemma LastSlot(time: int, a: int, n: int)
    requires a > 0 && n > 0 && a * n > 0
    ensures time % (a * n) - time % a + a <= a * n
  {
    var r := time % (a * n);
    RemainderOfFactor(time, a, n);
    BelowLast(a, n, r / a, r % a);
  }

  lemma BelowLast(a: int, n: int, q: int, rest: int)
    requires a > 0 && rest >= 0 && a * q + rest < a * n
    ensures a * q + a <= a * n
  {
    if q >= n {
      Scaled(a, n, q);
    } else {
      Scaled(a, q + 1, n);
      assert a * (q + 1) == a * q + a;
    }
  }

  lemma Scaled(a: int, x: int, y: int)
    requires a > 0 && x <= y
    ensures a * x <= a * y
  {
  }

  /** The fine candle's window lies in the coarse one's. */
  predicate Within(fine: CandleKey, coarse: CandleKey) {
    fine.market == coarse.market && Divides(fine.interval, coarse.interval)
      && InWindow(fine.start, coarse.interval, coarse.start)
  }

  function MergeAll(candles: map<CandleKey, Candle>, keys: seq<CandleKey>): Candle
    requires keys != [] && forall k <- keys :: k in candles
  {
    if |keys| == 1 then candles[keys[0]]
    else Merge(MergeAll(candles, keys[..|keys| - 1]), candles[keys[|keys| - 1]])
  }

  /** The trades whose bucket of interval i is one of `keys`. */
  function Covered(trades: map<TradeKey, Trade>, i: Interval, keys: seq<CandleKey>): map<TradeKey, Trade> {
    map key | key in trades && DraftOf(trades[key], i).key in keys :: trades[key]
  }

  predicate FineKeys(keys: seq<CandleKey>, i: Interval, market: int) {
    && (forall k <- keys :: k.interval == i && k.market == market)
    && (forall a, b | 0 <= a < b < |keys| :: keys[a] != keys[b])
  }

  lemma CoveredSnoc(trades: map<TradeKey, Trade>, i: Interval, init: seq<CandleKey>, last: CandleKey)
    requires last.interval == i && last !in init
    ensures Covered(trades, i, init + [last]) == Covered(trades, i, init) + Bucket(trades, last)
    ensures Covered(trades, i, init).Keys !! Bucket(trades, last).Keys
  {
    forall key | key in trades ensures InBucket(trades[key], last) <==> DraftOf(trades[key], i).key == last {
      DraftIsInBucket(trades[key], last);
    }
  }

  lemma {:induction false} MergeAllIsCandle(s: Series, keys: seq<CandleKey>, i: Interval, market: int)
    requires Right(s) && keys != [] && FineKeys(keys, i, market) && forall k <- keys :: k in s.candles
    ensures IsCandleOf(MergeAll(s.candles, keys), Covered(s.trades, i, keys), market)
  {
    var last := keys[|keys| - 1];
    assert RightAt(s, last);
    if |keys| == 1 {
      CoveredSnoc(s.trades, i, [], last);
      assert keys == [] + [last] && Covered(s.trades, i, []) == map[];
      assert Covered(s.trades, i, keys) == Bucket(s.trades, last);
    } else {
      var init := keys[..|keys| - 1];
      assert keys == init + [last];
      assert last !in init;
      MergeAllIsCandle(s, init, i, market);
      CoveredSnoc(s.trades, i, init, last);
      var left, right := Covered(s.trades, i, init), Bucket(s.trades, last);
      MergeIsCandleOfUnion(MergeAll(s.candles, init), s.candles[last], left, right, market);
    }
  }

  /**
   * A coarse candle is the merge of the finer candles inside it, taken in any order: `keys` lists
   * each of them once.
   */
  lemma RollUp(s: Series, coarse: CandleKey, fine: Interval, keys: seq<CandleKey>)
    requires Right(s) && Divides(fine, coarse.interval)
    requires keys != [] && FineKeys(keys, fine, coarse.market)
    requires forall k :: k in keys <==> k in s.candles && k.interval == fine && Within(k, coarse)
    ensures coarse in s.candles && s.candles[coarse] == MergeAll(s.candles, keys)
  {
    MergeAllIsCandle(s, keys, fine, coarse.market);
    var covered := Covered(s.trades, fine, keys);
    forall key | key in s.trades ensures key in covered <==> key in Bucket(s.trades, coarse) {
      var t := s.trades[key];
      var k := DraftOf(t, fine).key;
      BucketsNest(t.time, fine, coarse.interval);
      DraftIsInBucket(t, k);
      BucketStartIff(k.start, coarse.interval, coarse.start);
      BucketStartIff(t.time, coarse.interval, coarse.start);
      assert RightAt(s, k);
      assert key in Bucket(s.trades, k);
    }
    assert covered == Bucket(s.trades, coarse);
    assert RightAt(s, coarse);
    CandleIsUnique(s.candles[coarse], MergeAll(s.candles, keys), covered, coarse.market);
  }

  /** Roll-up holds in every run, between any two of the five intervals. */
  lemma EveryRunRollsUp(trades: seq<Trade>, coarse: CandleKey, fine: Interval, keys: seq<CandleKey>)
    requires Duration(fine) <= Duration(coarse.interval)
    requires keys != [] && FineKeys(keys, fine, coarse.market)
    requires forall k :: k in keys <==> k in Run(trades).candles && k.interval == fine && Within(k, coarse)
    ensures coarse in Run(trades).candles && Run(trades).candles[coarse] == MergeAll(Run(trades).candles, keys)
  {
    EveryCandleIsRight(trades);
    IntervalsNest(fine, coarse.interval);
    RollUp(Run(trades), coarse, fine, keys);
  }
}
