/**
 * Where the rows of the outbox come from: each was queued by one committed transaction of the
 * run, and tells what that transaction was asked to do and what it left behind.
 */
module OutboxOrigins {
  import opened Common
  import opened WalletTypes
  import opened LedgerProcessor
  import opened WalletInvariant
  import opened WalletRuns

  /** The balances that an event reports are those that the transaction left. */
  predicate Left(t: WalletState, user: int, asset: Asset, total: int, locked: int) {
    total == BalanceOf(t, Account(user, asset), Total) && locked == BalanceOf(t, Account(user, asset), Locked)
  }

  /** What the event of a transaction from s to t says, field by field. */
  predicate EventTells(e: WalletEvent, s: WalletState, a: WalletAction, t: WalletState) {
    match a
    case DoDeposit(d) =>
      && e.DepositEvent? && e.requestId == d.envelope.requestId && e.user == d.envelope.user
      && e.asset == d.asset && e.amount == d.amount && e.reference == d.reference
      && Left(t, e.user, e.asset, e.total, e.locked)
    case DoWithdraw(w) =>
      && e.WithdrawalEvent? && e.requestId == w.envelope.requestId && e.user == w.envelope.user
      && e.asset == w.asset && e.amount == w.amount && e.destination == w.destination
      && Left(t, e.user, e.asset, e.total, e.locked)
    case DoReserve(intent, id) =>
      && e.ReservedEvent? && e.requestId == intent.envelope.requestId && e.user == intent.envelope.user
      && e.reservationId == id && e.asset == intent.marginAsset && e.amount == intent.requiredMargin
    case DoRelease(r) =>
      && e.ReleasedEvent? && e.reservationId == r.reservationId && e.amount == r.amount && e.reason == r.reason
      && r.reservationId in s.reservations && Account(e.user, e.asset) == s.reservations[r.reservationId].account
    case DoSettle(x) =>
      && e.SettledEvent? && e.fillId == x.fillId && e.reservationId == x.reservationId
      && x.reservationId in s.reservations && e.user == s.reservations[x.reservationId].account.user
      && e.debitAsset == x.debitAsset && e.debitAmount == x.debitAmount
      && e.creditAsset == x.creditAsset && e.creditAmount == x.creditAmount
    case DoAccountDelta(d) =>
      && e.AccountDeltaEvent? && e.user == d.user && e.asset == d.asset && e.kind == d.kind
      && e.reference == d.reference && e.totalDelta == d.totalDelta && e.lockedDelta == d.lockedDelta
      && Left(t, e.user, e.asset, e.total, e.locked)
    case _ => false
  }

  /** The engine gets the command whole. */
  predicate CommandTells(c: EngineCommand, a: WalletAction) {
    match a
    case DoReserve(intent, id) => c == PlaceOrder(intent, id)
    case DoCancel(cancel) => c == CancelOrder(cancel)
    case DoIngress(text, marketId, _) => c == EngineInput(marketId, text)
    case _ => false
  }

  function MarketOf(c: EngineCommand): int {
    match c
    case PlaceOrder(intent, _) => intent.marketId
    case CancelOrder(cancel) => cancel.marketId
    case EngineInput(marketId, _) => marketId
  }

  /** The stream key of an event: its reservation for releases and settlements, else its user. */
  function StreamKey(e: WalletEvent): string {
    if e.ReleasedEvent? || e.SettledEvent? then e.reservationId else Decimal(e.user)
  }

  /** Events go to wallet.events, commands to their market's key in engine.inputs. */
  predicate Tells(m: Message, s: WalletState, a: WalletAction) {
    match m.payload
    case EventPayload(e) =>
      && EventTells(e, s, a, Next(s, a))
      && m.topic.WalletEvents? && m.partition.None? && m.messageKey == StreamKey(e)
    case CommandPayload(c) =>
      && CommandTells(c, a)
      && m.topic.EngineInputs? && m.messageKey == Decimal(MarketOf(c))
      && m.partition == if a.DoIngress? then a.partition else None
  }

  lemma MessageTells(s: WalletState, a: WalletAction, i: nat)
    requires i < |NewMessages(s, a)|
    ensures Attempt(s, a).Ok? && Tells(NewMessages(s, a)[i], s, a)
  {
    if Effect(s, a).Some? {
      EffectTells(s, a);
    }
  }

  lemma EffectTells(s: WalletState, a: WalletAction)
    requires Effect(s, a).Some?
    ensures Attempt(s, a).Ok? && Tells(Effect(s, a).value, s, a)
  {
  }

  /** Transaction n of the run committed, and queued row i. */
  ghost predicate Queued(actions: seq<WalletAction>, n: nat, i: nat) {
    n < |actions| && QueuedBy(Run(EMPTY_WALLET, actions[..n]), actions[n], i)
  }

  predicate QueuedBy(s: WalletState, a: WalletAction, i: nat) {
    Attempt(s, a).Ok? && |s.outbox| <= i < |Next(s, a).outbox|
  }

  /** In every run each row was queued by a committed transaction of the run and tells about it. */
  lemma {:induction false} EveryRowHasAnOrigin(actions: seq<WalletAction>, i: nat) returns (n: nat)
    requires i < |Run(EMPTY_WALLET, actions).outbox|
    ensures Queued(actions, n, i)
    ensures Tells(Run(EMPTY_WALLET, actions).outbox[i].message, Run(EMPTY_WALLET, actions[..n]), actions[n])
  {
    var init, last := actions[..|actions| - 1], actions[|actions| - 1];
    var s := Run(EMPTY_WALLET, init);
    EveryRunIsValid(init);
    StepFacts(s, last);
    if i < |s.outbox| {
      n := EveryRowHasAnOrigin(init, i);
      assert actions[..n] == init[..n];
    } else {
      n := |init|;
      assert Run(EMPTY_WALLET, actions).outbox[i].message == NewMessages(s, last)[i - |s.outbox|];
      MessageTells(s, last, i - |s.outbox|);
    }
  }

  /** The reservation is the intent's: its account, its amount, its key and its request. */
  predicate IsFor(r: Reservation, intent: PlaceOrderIntent) {
    && r.account == Account(intent.envelope.user, intent.marginAsset) && r.amount == intent.requiredMargin
    && r.idempotencyKey == intent.envelope.idempotencyKey && r.requestId == intent.envelope.requestId
  }

  predicate SameReservation(r: Reservation, after: Reservation) {
    after.(remaining := r.remaining, status := r.status) == r
  }

  /**
   * In particular an order that waits for the engine is one for which some transaction of the
   * run has reserved the margin, and goes out under its own market's key.
   */
  lemma EveryOrderIsReserved(actions: seq<WalletAction>, i: nat) returns (n: nat)
    requires i < |Run(EMPTY_WALLET, actions).outbox|
    requires var p := Run(EMPTY_WALLET, actions).outbox[i].message.payload; p.CommandPayload? && p.command.PlaceOrder?
    ensures var m := Run(EMPTY_WALLET, actions).outbox[i].message;
      var intent, id := m.payload.command.intent, m.payload.command.reservationId;
      && Queued(actions, n, i) && actions[n] == DoReserve(intent, id)
      && id in Run(EMPTY_WALLET, actions).reservations
      && IsFor(Run(EMPTY_WALLET, actions).reservations[id], intent)
      && m.messageKey == Decimal(intent.marketId)
  {
    n := EveryRowHasAnOrigin(actions, i);
    OrdersAreReserved(Run(EMPTY_WALLET, actions).outbox[i].message, Run(EMPTY_WALLET, actions[..n]), actions[n]);
    assert actions[..n + 1][..n] == actions[..n];
    ReservationStays(actions, n, actions[n].reservationId);
  }

  lemma OrdersAreReserved(m: Message, s: WalletState, a: WalletAction)
    requires Attempt(s, a).Ok? && Tells(m, s, a) && m.payload.CommandPayload? && m.payload.command.PlaceOrder?
    ensures var intent, id := m.payload.command.intent, m.payload.command.reservationId;
      && a == DoReserve(intent, id) && id in Next(s, a).reservations
      && IsFor(Next(s, a).reservations[id], intent)
      && m.messageKey == Decimal(intent.marketId)
  {
    assert a.DoReserve?;
  }

  lemma OneReservation(s: WalletState, a: WalletAction, id: string)
    requires id in s.reservations
    ensures id in Next(s, a).reservations && SameReservation(s.reservations[id], Next(s, a).reservations[id])
  {
  }

  /** What transaction n has reserved stays as it is, but for what remains of it and its status. */
  lemma {:induction false} ReservationStays(actions: seq<WalletAction>, n: nat, id: string)
    requires n < |actions| && id in Run(EMPTY_WALLET, actions[..n + 1]).reservations
    ensures id in Run(EMPTY_WALLET, actions).reservations
    ensures SameReservation(Run(EMPTY_WALLET, actions[..n + 1]).reservations[id],
      Run(EMPTY_WALLET, actions).reservations[id])
  {
    if n + 1 == |actions| {
      assert actions[..n + 1] == actions;
    } else {
      var init := actions[..|actions| - 1];
      assert init[..n + 1] == actions[..n + 1];
      ReservationStays(init, n, id);
      OneReservation(Run(EMPTY_WALLET, init), actions[|actions| - 1], id);
    }
  }
}
