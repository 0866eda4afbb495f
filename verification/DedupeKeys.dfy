/**
 * The text of the outbox dedupe keys. Two different keys never render to the same text, as
 * long as reservation ids and account delta kinds contain no colon; this is what allows the
 * rest of the model to compare keys instead of text.
 */
module DedupeKeys {
  import opened WalletTypes

  function AssetText(asset: Asset): string {
    match asset
    case USDC => "USDC"
    case USDT => "USDT"
    case SOL => "SOL"
    case ETH => "ETH"
    case BTC => "BTC"
    case PERP => "PERP"
    case HYP => "HYP"
  }

  function Prefix(key: DedupeKey): string {
    match key
    case DepositKey(_, _) => "wallet-event:deposit-applied:"
    case WithdrawalKey(_, _) => "wallet-event:withdrawal-applied:"
    case ReservedKey(_) => "wallet-event:funds-reserved:"
    case ReleasedKey(_, _, _) => "wallet-event:funds-released:"
    case SettledKey(_, _) => "wallet-event:trade-settled:"
    case AccountDeltaKey(_, _, _, _) => "wallet-event:account-delta-applied:"
    case PlaceOrderKey(_, _) => "engine-input:place-order:"
    case CancelOrderKey(_, _) => "engine-input:cancel-order:"
    case IngressKey(_) => "engine-input:"
  }

  function Rest(key: DedupeKey): string {
    match key
    case DepositKey(user, k) => Decimal(user) + ":" + k
    case WithdrawalKey(user, k) => Decimal(user) + ":" + k
    case ReservedKey(id) => id
    case ReleasedKey(id, reason, amount) => id + ":" + (reason + ":" + Decimal(amount))
    case SettledKey(fill, id) => Decimal(fill) + ":" + id
    case AccountDeltaKey(kind, reference, user, asset) =>
      kind + ":" + ((reference + ":" + Decimal(user)) + ":" + AssetText(asset))
    case PlaceOrderKey(user, k) => Decimal(user) + ":" + k
    case CancelOrderKey(user, k) => Decimal(user) + ":" + k
    case IngressKey(text) => text
  }

  function Render(key: DedupeKey): string {
    Prefix(key) + Rest(key)
  }

  predicate NoColon(s: string) {
    forall i | 0 <= i < |s| :: s[i] != ':'
  }

  /** Reservation ids are "res_" and a UUID, kinds are fixed names, ingress keys start with mark- or funding-. */
  predicate WellFormed(key: DedupeKey) {
    match key
    case ReleasedKey(id, _, _) => NoColon(id)
    case AccountDeltaKey(kind, _, _, _) => NoColon(kind)
    case IngressKey(text) => text != [] && text[0] in {'m', 'f'}
    case _ => true
  }

  // ---- decimals ----

  predicate IsDigit(c: char) {
    '0' <= c <= '9'
  }

  lemma DigitInjective(a: int, b: int)
    requires 0 <= a < 10 && 0 <= b < 10
    ensures IsDigit(Digit(a))
    ensures Digit(a) == Digit(b) ==> a == b
  {
  }

  lemma {:induction false} DecimalDigits(n: nat)
    ensures Decimal(n) != []
    ensures forall i | 0 <= i < |Decimal(n)| :: IsDigit(Decimal(n)[i])
    decreases n
  {
    DigitInjective(n % 10, n % 10);
    if n >= 10 {
      DecimalDigits(n / 10);
    }
  }

  lemma DecimalNoColon(n: int)
    ensures NoColon(Decimal(n))
  {
    DecimalDigits(if n < 0 then -n else n);
  }

  lemma {:induction false} NatDecimalInjective(a: nat, b: nat)
    requires Decimal(a) == Decimal(b)
    ensures a == b
    decreases a
  {
    DigitInjective(a % 10, b % 10);
    if a >= 10 { DecimalDigits(a / 10); }
    if b >= 10 { DecimalDigits(b / 10); }
    var s := Decimal(a);
    if a >= 10 && b >= 10 {
      assert s[..|s| - 1] == Decimal(a / 10) && s[..|s| - 1] == Decimal(b / 10);
      assert s[|s| - 1] == Digit(a % 10) && s[|s| - 1] == Digit(b % 10);
      NatDecimalInjective(a / 10, b / 10);
    }
  }

  lemma MinusSign(n: int)
    ensures Decimal(n) != []
    ensures Decimal(n)[0] == '-' <==> n < 0
  {
    DecimalDigits(if n < 0 then -n else n);
  }

  lemma AfterMinus(n: int)
    requires n < 0
    ensures Decimal(n)[1..] == Decimal(-n)
  {
  }

  lemma DecimalInjective(a: int, b: int)
    requires Decimal(a) == Decimal(b)
    ensures a == b
  {
    MinusSign(a);
    MinusSign(b);
    if a >= 0 {
      NatDecimalInjective(a, b);
    } else {
      AfterMinus(a);
      AfterMinus(b);
      NatDecimalInjective(-a, -b);
    }
  }

  // ---- taking a text apart at a colon ----

  lemma FirstColon(a: string, b: string)
    requires NoColon(a)
    ensures var s := a + ":" + b;
      s[|a|] == ':' && (forall i | 0 <= i < |a| :: s[i] != ':') && s[..|a|] == a && s[|a| + 1..] == b
  {
  }

  lemma LastColon(a: string, b: string)
    requires NoColon(b)
    ensures var s := a + ":" + b;
      s[|a|] == ':' && (forall i | |a| < i < |s| :: s[i] != ':') && s[..|a|] == a && s[|a| + 1..] == b
  {
  }

  lemma SplitFirst(a: string, b: string, c: string, d: string)
    requires NoColon(a) && NoColon(c)
    requires a + ":" + b == c + ":" + d
    ensures a == c && b == d
  {
    FirstColon(a, b);
    FirstColon(c, d);
    assert |a| == |c|;
  }

  lemma SplitLast(a: string, b: string, c: string, d: string)
    requires NoColon(b) && NoColon(d)
    requires a + ":" + b == c + ":" + d
    ensures a == c && b == d
  {
    LastColon(a, b);
    LastColon(c, d);
    assert |a| == |c|;
  }

  // ---- families ----

  /** The characters at which the prefixes part: 0, 13, and 21 for the two funds- events. */
  lemma PartingChars(key: DedupeKey)
    requires WellFormed(key)
    ensures |Render(key)| > 13
    ensures (Render(key)[0], Render(key)[13]) ==
      (match key
       case DepositKey(_, _) => ('w', 'd')
       case WithdrawalKey(_, _) => ('w', 'w')
       case ReservedKey(_) => ('w', 'f')
       case ReleasedKey(_, _, _) => ('w', 'f')
       case SettledKey(_, _) => ('w', 't')
       case AccountDeltaKey(_, _, _, _) => ('w', 'a')
       case PlaceOrderKey(_, _) => ('e', 'p')
       case CancelOrderKey(_, _) => ('e', 'c')
       case IngressKey(text) => ('e', text[0]))
    ensures key.ReservedKey? ==> |Render(key)| > 21 && Render(key)[21] == 's'
    ensures key.ReleasedKey? ==> |Render(key)| > 21 && Render(key)[21] == 'l'
  {
    var p := Prefix(key);
    assert Render(key)[0] == p[0];
    if key.IngressKey? {
      assert |p| == 13 && Render(key)[13] == Rest(key)[0];
    } else {
      assert |p| > 21;
      assert Render(key)[13] == p[13] && Render(key)[21] == p[21];
    }
  }

  lemma SameRest(a: DedupeKey, b: DedupeKey)
    requires Render(a) == Render(b) && Prefix(a) == Prefix(b)
    ensures Rest(a) == Rest(b)
  {
    assert Rest(a) == Render(a)[|Prefix(a)|..] && Rest(b) == Render(b)[|Prefix(b)|..];
  }

  lemma AssetTextFacts(a: Asset, b: Asset)
    ensures NoColon(AssetText(a))
    ensures AssetText(a) == AssetText(b) ==> a == b
  {
    assert a != b && |AssetText(a)| == |AssetText(b)|
      ==> exists i | 0 <= i < |AssetText(a)| :: AssetText(a)[i] != AssetText(b)[i] by {
      assert AssetText(USDC)[3] == 'C' && AssetText(USDT)[3] == 'T' && AssetText(PERP)[3] == 'P';
      assert AssetText(SOL)[0] == 'S' && AssetText(ETH)[0] == 'E' && AssetText(BTC)[0] == 'B'
        && AssetText(HYP)[0] == 'H';
    }
  }

  /** Different keys, different text. */
  lemma RenderIsInjective(a: DedupeKey, b: DedupeKey)
    requires WellFormed(a) && WellFormed(b)
    requires Render(a) == Render(b)
    ensures a == b
  {
    PartingChars(a);
    PartingChars(b);
    SameRest(a, b);
    match a
    case DepositKey(u, k) => NumberThenText(u, k, b.user, b.idempotencyKey);
    case WithdrawalKey(u, k) => NumberThenText(u, k, b.user, b.idempotencyKey);
    case PlaceOrderKey(u, k) => NumberThenText(u, k, b.user, b.idempotencyKey);
    case CancelOrderKey(u, k) => NumberThenText(u, k, b.user, b.idempotencyKey);
    case SettledKey(fill, id) => NumberThenText(fill, id, b.fillId, b.reservationId);
    case ReleasedKey(id, reason, amount) =>
      SplitFirst(id, reason + ":" + Decimal(amount), b.reservationId, b.reason + ":" + Decimal(b.amount));
      DecimalNoColon(amount);
      DecimalNoColon(b.amount);
      SplitLast(reason, Decimal(amount), b.reason, Decimal(b.amount));
      DecimalInjective(amount, b.amount);
    case AccountDeltaKey(kind, reference, user, asset) =>
      SameDelta(a, b);
    case _ =>
  }

  lemma NumberThenText(m: int, s: string, n: int, t: string)
    requires Decimal(m) + ":" + s == Decimal(n) + ":" + t
    ensures m == n && s == t
  {
    DecimalNoColon(m);
    DecimalNoColon(n);
    SplitFirst(Decimal(m), s, Decimal(n), t);
    DecimalInjective(m, n);
  }

  lemma SameDelta(a: DedupeKey, b: DedupeKey)
    requires a.AccountDeltaKey? && b.AccountDeltaKey? && NoColon(a.kind) && NoColon(b.kind)
    requires Rest(a) == Rest(b)
    ensures a == b
  {
    var left, right := a.reference + ":" + Decimal(a.user), b.reference + ":" + Decimal(b.user);
    SplitFirst(a.kind, left + ":" + AssetText(a.asset), b.kind, right + ":" + AssetText(b.asset));
    AssetTextFacts(a.asset, b.asset);
    AssetTextFacts(b.asset, a.asset);
    SplitLast(left, AssetText(a.asset), right, AssetText(b.asset));
    DecimalNoColon(a.user);
    DecimalNoColon(b.user);
    SplitLast(a.reference, Decimal(a.user), b.reference, Decimal(b.user));
    DecimalInjective(a.user, b.user);
  }
}
