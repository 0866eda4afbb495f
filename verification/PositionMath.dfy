/** The integer arithmetic of positions: margin slices, average price and profit and loss. */
module PositionMath {
  import opened Common

  datatype Side = Long | Short

  function Sign(side: Side): int {
    if side.Long? then 1 else -1
  }

  function ClampI64(x: int): int {
    if x < I64_MIN then I64_MIN else if x > I64_MAX then I64_MAX else x
  }

  /** Rust's integer division truncates toward zero. */
  function TruncDiv(a: int, b: int): int
    requires b > 0
  {
    if a >= 0 then a / b else -((-a) / b)
  }

  function ProportionalMargin(sourceMargin: int, sourceQuantity: int, targetQuantity: int): int {
    if sourceMargin <= 0 || sourceQuantity <= 0 || targetQuantity <= 0 then 0
    else if targetQuantity >= sourceQuantity then sourceMargin
    else Max(1, Min(sourceMargin, ClampI64(TruncDiv(sourceMargin * targetQuantity, sourceQuantity))))
  }

  function WeightedAverage(average: int, quantity: int, price: int, added: int): int {
    if quantity + added <= 0 then price
    else ClampI64(TruncDiv(average * quantity + price * added, quantity + added))
  }

  function RawPnl(side: Side, entry: int, exit: int, quantity: int): int {
    Sign(side) * (exit - entry) * quantity
  }

  function RealizedPnl(side: Side, entry: int, exit: int, quantity: int): int {
    ClampI64(RawPnl(side, entry, exit, quantity))
  }

  function UnrealizedPnl(side: Side, average: int, mark: int, quantity: int): int {
    if quantity <= 0 then 0 else ClampI64(RawPnl(side, average, mark, quantity))
  }

  // ---- division ----

  lemma TruncIsFloor(a: int, b: int)
    requires a >= 0 && b > 0
    ensures TruncDiv(a, b) == a / b
    ensures a == (a / b) * b + a % b && 0 <= a % b < b
  {
  }

  lemma MulMono(a: int, b: int, c: int)
    requires a <= b && c >= 0
    ensures a * c <= b * c
  {
  }

  /** A quotient lies between two bounds as soon as the dividend lies between their products. */
  lemma QuotientBetween(a: int, b: int, low: int, high: int)
    requires b > 0 && low * b <= a <= high * b
    ensures low <= a / b <= high
  {
    assert a == (a / b) * b + a % b;
    CancelBelow(low, a / b, b, a % b);
    CancelBelow(a / b, high, b, 0);
  }

  lemma CancelBelow(x: int, y: int, b: int, slack: int)
    requires b > 0 && slack < b && x * b <= y * b + slack
    ensures x <= y
  {
    assert x <= y by {
      assert (x - y) * b <= slack;
      assert x - y >= 1 ==> (x - y) * b >= b;
    }
  }

  // ---- margin slices ----

  lemma MarginNonNegative(m: int, q: int, t: int)
    ensures ProportionalMargin(m, q, t) >= 0
    ensures m > 0 && q > 0 && t > 0 ==> 1 <= ProportionalMargin(m, q, t) <= m
    ensures m <= 0 ==> ProportionalMargin(m, q, t) == 0
  {
  }

  /** One slice differs from its exact share by less than one unit per unit of the order's quantity. */
  lemma MarginSlice(m: int, q: int, t: int)
    requires 0 < m <= I64_MAX && 0 < t <= q
    ensures 1 <= ProportionalMargin(m, q, t) <= m
    ensures -q < q * ProportionalMargin(m, q, t) - m * t < q
  {
    if t == q {
      assert q * m == m * t;
    } else {
      var share := m * t;
      assert share >= 0 by { MulMono(0, m, t); }
      TruncIsFloor(share, q);
      var floor := share / q;
      assert floor <= m by {
        MulMono(t, q, m);
        QuotientBetween(share, q, 0, m);
      }
      assert floor >= 0;
      assert floor * q == q * floor;
      if floor == 0 {
        assert ProportionalMargin(m, q, t) == 1;
        assert share >= 1 by { MulMono(1, m, t); }
      } else {
        assert ProportionalMargin(m, q, t) == floor;
      }
    }
  }

  function Sum(xs: seq<int>): int {
    if xs == [] then 0 else Sum(xs[..|xs| - 1]) + xs[|xs| - 1]
  }

  function Slices(m: int, q: int, quantities: seq<int>): seq<int> {
    seq(|quantities|, i requires 0 <= i < |quantities| => ProportionalMargin(m, q, quantities[i]))
  }

  lemma {:induction false} SumOfPositives(xs: seq<int>)
    requires forall i | 0 <= i < |xs| :: xs[i] > 0
    ensures Sum(xs) >= 0
    ensures forall i | 0 <= i < |xs| :: xs[i] <= Sum(xs)
  {
    if xs != [] {
      var init := xs[..|xs| - 1];
      SumOfPositives(init);
      forall i | 0 <= i < |xs| ensures xs[i] <= Sum(xs) {
        if i < |init| { assert xs[i] == init[i]; }
      }
    }
  }

  /** By how much the slices miss the exact share of the margin, in units of margin times quantity. */
  function SliceError(m: int, q: int, quantities: seq<int>): int {
    q * Sum(Slices(m, q, quantities)) - m * Sum(quantities)
  }

  lemma SliceErrorSnoc(m: int, q: int, init: seq<int>, last: int)
    ensures SliceError(m, q, init + [last]) == SliceError(m, q, init) + q * ProportionalMargin(m, q, last) - m * last
  {
    var all := init + [last];
    assert all[..|init|] == init;
    var slices := Slices(m, q, all);
    assert slices[..|init|] == Slices(m, q, init);
    Distribute(q, Sum(Slices(m, q, init)), ProportionalMargin(m, q, last));
    Distribute(m, Sum(init), last);
  }

  lemma Distribute(a: int, b: int, c: int)
    ensures a * (b + c) == a * b + a * c
  {
  }

  lemma ErrorGrows(n: int, room: int, before: int, step: int)
    requires -(n * room) <= before <= n * room
    requires -room <= step <= room
    ensures -((n + 1) * room) <= before + step <= (n + 1) * room
  {
    assert (n + 1) * room == n * room + room;
  }

  /**
   * The slices that the partial fills of one order take of its margin miss the exact share
   * by less than one unit of quantity per slice, although every slice is floored and lifted to one.
   */
  lemma {:induction false} SlicesOfOneOrder(m: int, q: int, quantities: seq<int>)
    requires 0 < m <= I64_MAX
    requires forall i | 0 <= i < |quantities| :: quantities[i] > 0
    requires Sum(quantities) <= q
    ensures -(|quantities| * (q - 1)) <= SliceError(m, q, quantities) <= |quantities| * (q - 1)
    decreases |quantities|
  {
    if quantities == [] {
      assert Slices(m, q, quantities) == [];
    } else {
      var n := |quantities| - 1;
      var init, last := quantities[..n], quantities[n];
      SumOfPositives(init);
      SumOfPositives(quantities);
      SlicesOfOneOrder(m, q, init);
      assert quantities == init + [last];
      SliceErrorSnoc(m, q, init, last);
      MarginSlice(m, q, last);
      ErrorGrows(n, q - 1, SliceError(m, q, init), q * ProportionalMargin(m, q, last) - m * last);
    }
  }

  // ---- average price ----

  /** What the truncation of an average loses, in units of price times quantity. */
  function AverageRemainder(average: int, quantity: int, price: int, added: int): int
    requires quantity + added > 0
  {
    (average * quantity + price * added) % (quantity + added)
  }

  /** The new average times the new quantity is the notional less the remainder; it stays between the two prices. */
  lemma AverageStep(average: int, quantity: int, price: int, added: int)
    requires 0 <= average <= I64_MAX && 0 <= price <= I64_MAX && quantity > 0 && added > 0
    ensures var next := WeightedAverage(average, quantity, price, added);
      && next * (quantity + added)
        == average * quantity + price * added - AverageRemainder(average, quantity, price, added)
      && 0 <= AverageRemainder(average, quantity, price, added) < quantity + added
      && Min(average, price) <= next <= Max(average, price)
  {
    var low, high := Min(average, price), Max(average, price);
    var total := quantity + added;
    var notional := average * quantity + price * added;
    MulMono(low, average, quantity);
    MulMono(low, price, added);
    MulMono(average, high, quantity);
    MulMono(price, high, added);
    assert low * total == low * quantity + low * added;
    assert high * total == high * quantity + high * added;
    MulMono(0, low, total);
    TruncIsFloor(notional, total);
    QuotientBetween(notional, total, low, high);
  }

  datatype Buy = Buy(price: int, quantity: int)

  /** The average that the projector stores after the same-side fills of a run. */
  function StoredAverage(fills: seq<Buy>): int {
    if fills == [] then 0
    else if |fills| == 1 then fills[0].price
    else WeightedAverage(StoredAverage(fills[..|fills| - 1]), Quantity(fills[..|fills| - 1]), fills[|fills| - 1].price,
      fills[|fills| - 1].quantity)
  }

  function Quantity(fills: seq<Buy>): int {
    if fills == [] then 0 else Quantity(fills[..|fills| - 1]) + fills[|fills| - 1].quantity
  }

  function Notional(fills: seq<Buy>): int {
    if fills == [] then 0 else Notional(fills[..|fills| - 1]) + fills[|fills| - 1].price * fills[|fills| - 1].quantity
  }

  predicate Plausible(fills: seq<Buy>) {
    forall i | 0 <= i < |fills| :: 0 <= fills[i].price <= I64_MAX && fills[i].quantity > 0
  }

  /**
   * After n same-side fills the stored average is between the lowest and the highest price,
   * never above the true volume-weighted average, and less than n below it.
   */
  lemma {:induction false} AverageAccuracy(fills: seq<Buy>, low: int, high: int)
    requires fills != [] && Plausible(fills)
    requires forall i | 0 <= i < |fills| :: low <= fills[i].price <= high
    requires 0 <= low && high <= I64_MAX
    ensures Quantity(fills) > 0
    ensures low <= StoredAverage(fills) <= high
    ensures 0 <= Notional(fills) - StoredAverage(fills) * Quantity(fills) <= (|fills| - 1) * (Quantity(fills) - 1)
  {
    var n := |fills|;
    var init, last := fills[..n - 1], fills[n - 1];
    if n == 1 {
      assert init == [];
      assert Quantity(fills) == last.quantity && Notional(fills) == last.price * last.quantity;
    } else {
      AverageAccuracy(init, low, high);
      AverageStep(StoredAverage(init), Quantity(init), last.price, last.quantity);
      LossGrows(n - 2, Quantity(init) - 1, Quantity(fills) - 1,
                Notional(init) - StoredAverage(init) * Quantity(init),
                AverageRemainder(StoredAverage(init), Quantity(init), last.price, last.quantity));
    }
  }

  lemma LossGrows(n: int, before: int, now: int, loss: int, remainder: int)
    requires 0 <= n && before <= now
    requires 0 <= loss <= n * before && 0 <= remainder <= now
    ensures 0 <= loss + remainder <= (n + 1) * now
  {
    MulMono(before, now, n);
    assert before * n == n * before && now * n == n * now;
    assert (n + 1) * now == n * now + now;
  }
}
