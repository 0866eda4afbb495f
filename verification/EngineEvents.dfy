/**
 * How the wallet consumes one partition of engine events: each event becomes commands, each
 * command is its own transaction, and the offset is saved after the last one.
 */
module EngineEvents {
  import opened Common
  import opened WalletTypes
  import opened WalletInvariant
  import opened WalletRuns

  datatype Settlement = Settlement(
    reservationId: string, debitAsset: Asset, debitAmount: int, creditAsset: Asset, creditAmount: int)

  datatype Fee = Fee(user: int, asset: Asset, amount: int, feeType: string)

  datatype Payment = Payment(user: int, asset: Asset, amount: int, positionId: string)

  datatype EngineEvent =
    | OrderCancelled(orderId: int, reservationId: string, releasedAmount: int)
    | OrderExpired(orderId: int, reservationId: string, releasedAmount: int, reason: string)
    | ReservationReleased(reservationId: string, releasedAmount: int, reason: string)
    | TradeExecuted(fillId: int, settlements: seq<Settlement>, fees: seq<Fee>)
    | FundingPaymentApplied(engineEventId: Option<string>, marketId: int, sequence: int, payments: seq<Payment>)
    | AccountDeltaOrdered(delta: AccountDelta)
    | NoMoney

  function ReleaseCommand(reservationId: string, amount: int, reason: string): seq<WalletAction> {
    if amount <= 0 then [] else [DoRelease(ReleaseReservation(reservationId, amount, reason))]
  }

  function SettleCommand(fillId: int, x: Settlement): WalletAction {
    DoSettle(SettleTrade(fillId, x.reservationId, x.debitAsset, x.debitAmount, x.creditAsset, x.creditAmount))
  }

  /** A fee is charged as a negative account delta. */
  function FeeCommand(fillId: int, index: nat, fee: Fee): WalletAction {
    DoAccountDelta(AccountDelta(fee.user, fee.asset, -fee.amount, 0, "TRADE_FEE",
      "fill:" + Decimal(fillId) + ":fee:" + Decimal(index) + ":" + Decimal(fee.user) + ":" + fee.feeType))
  }

  function PaymentCommand(reference: string, index: nat, payment: Payment): WalletAction {
    DoAccountDelta(AccountDelta(payment.user, payment.asset, payment.amount, 0, "FUNDING_PAYMENT",
      reference + ":payment:" + Decimal(index) + ":" + payment.positionId))
  }

  function CommandsOf(event: EngineEvent): seq<WalletAction> {
    match event
    case OrderCancelled(order, id, amount) =>
      ReleaseCommand(id, amount, "order_cancelled:" + Decimal(order))
    case OrderExpired(order, id, amount, reason) =>
      ReleaseCommand(id, amount, "order_expired:" + Decimal(order) + ":" + reason)
    case ReservationReleased(id, amount, reason) =>
      ReleaseCommand(id, amount, "reservation_released:" + reason)
    case TradeExecuted(fill, settlements, fees) =>
      seq(|settlements|, i requires 0 <= i < |settlements| => SettleCommand(fill, settlements[i]))
      + seq(|fees|, i requires 0 <= i < |fees| => FeeCommand(fill, i, fees[i]))
    case FundingPaymentApplied(id, market, sequence, payments) =>
      var reference := if id.Some? then id.value else "funding:" + Decimal(market) + ":" + Decimal(sequence);
      seq(|payments|, i requires 0 <= i < |payments| => PaymentCommand(reference, i, payments[i]))
    case AccountDeltaOrdered(d) =>
      [DoAccountDelta(d.(kind := "ACCOUNT_DELTA"))]
    case NoMoney => []
  }

  // ---- fees and funding debits ----

  /**
   * wallet.events promises an AccountDeltaApplied for a fee. The upsert refuses every
   * debit: a positive fee changes nothing, in any state, and stops the consumer unless its
   * ledger row exists already.
   */
  lemma PositiveFeeIsNeverCharged(s: WalletState, fillId: int, index: nat, fee: Fee)
    requires fee.amount > 0
    ensures Next(s, FeeCommand(fillId, index, fee)) == s
    ensures var d := FeeCommand(fillId, index, fee).delta;
      Attempt(s, FeeCommand(fillId, index, fee)).Err?
      <==> LedgerKey(Account(d.user, d.asset), d.kind, d.reference) !in s.ledger
  {
  }

  // ---- the consumer ----

  datatype Loop =
    | Stopped
    | Waiting(offset: nat)
    | Working(offset: nat, command: nat)

  datatype Partition = Partition(wallet: WalletState, events: seq<EngineEvent>, stored: Option<nat>, loop: Loop)

  datatype PartitionStep =
    | Restart
    | Fetch
    | RunCommand
    | SaveOffset
    | Crash
    | Arrive(event: EngineEvent)
    | Elsewhere(transaction: WalletAction)

  function CurrentCommand(p: Partition): Option<WalletAction> {
    if p.loop.Working? && p.loop.offset < |p.events| && p.loop.command < |CommandsOf(p.events[p.loop.offset])|
    then Some(CommandsOf(p.events[p.loop.offset])[p.loop.command])
    else None
  }

  function TransactionOf(p: Partition, step: PartitionStep): Option<WalletAction> {
    match step
    case RunCommand => CurrentCommand(p)
    case Elsewhere(a) => Some(a)
    case _ => None
  }

  function LoopAfter(p: Partition, step: PartitionStep): Loop {
    match step
    case Restart => if p.loop.Stopped? then Waiting(if p.stored.Some? then p.stored.value else 0) else p.loop
    case Fetch => if p.loop.Waiting? && p.loop.offset < |p.events| then Working(p.loop.offset, 0) else p.loop
    case RunCommand =>
      (match CurrentCommand(p)
       case None => p.loop
       case Some(a) => if Attempt(p.wallet, a).Ok? then p.loop.(command := p.loop.command + 1) else Stopped)
    case SaveOffset => if p.loop.Working? && CurrentCommand(p).None? then Waiting(p.loop.offset + 1) else p.loop
    case Crash => Stopped
    case _ => p.loop
  }

  function NextPartition(p: Partition, step: PartitionStep): Partition {
    Partition(
      NextIf(p.wallet, TransactionOf(p, step)),
      if step.Arrive? then p.events + [step.event] else p.events,
      if step.SaveOffset? && p.loop.Working? && CurrentCommand(p).None?
      then (if p.stored.Some? && p.stored.value >= p.loop.offset + 1 then p.stored else Some(p.loop.offset + 1))
      else p.stored,
      LoopAfter(p, step))
  }

  const EMPTY_PARTITION := Partition(EMPTY_WALLET, [], None, Stopped)

  function PartitionRun(steps: seq<PartitionStep>): Partition {
    if steps == [] then EMPTY_PARTITION else NextPartition(PartitionRun(steps[..|steps| - 1]), steps[|steps| - 1])
  }

  /** The wallet transactions of a run, in order. */
  function Trace(steps: seq<PartitionStep>): seq<WalletAction> {
    if steps == [] then [] else
      var before := steps[..|steps| - 1];
      Then(Trace(before), TransactionOf(PartitionRun(before), steps[|steps| - 1]))
  }

  lemma {:induction false} TraceRuns(steps: seq<PartitionStep>)
    ensures PartitionRun(steps).wallet == Run(EMPTY_WALLET, Trace(steps))
  {
    if steps != [] {
      var before := steps[..|steps| - 1];
      TraceRuns(before);
      RunThen(EMPTY_WALLET, Trace(before), TransactionOf(PartitionRun(before), steps[|steps| - 1]));
    }
  }

  // ---- no event is skipped, no settlement is repeated ----

  /** The trace a command leaves in the tables once it has been accepted. */
  predicate Accepted(s: WalletState, a: WalletAction) {
    match a
    case DoRelease(r) => HasKey(s.outbox, ReleasedKey(r.reservationId, r.reason, r.amount))
    case DoSettle(t) => HasKey(s.outbox, SettledKey(t.fillId, t.reservationId))
    case DoAccountDelta(d) =>
      (d.totalDelta == 0 && d.lockedDelta == 0) || LedgerKey(Account(d.user, d.asset), d.kind, d.reference) in s.ledger
    case _ => true
  }

  lemma CommitIsAccepted(s: WalletState, a: WalletAction)
    requires Valid(s) && Attempt(s, a).Ok?
    ensures Accepted(Next(s, a), a)
  {
    match a
    case DoRelease(r) => StepKeys(s, a, ReleasedKey(r.reservationId, r.reason, r.amount));
    case DoSettle(t) => StepKeys(s, a, SettledKey(t.fillId, t.reservationId));
    case _ =>
  }

  lemma StaysAccepted(s: WalletState, a: WalletAction, later: WalletAction)
    requires Valid(s) && Accepted(s, a)
    ensures Accepted(Next(s, later), a)
  {
    match a
    case DoRelease(r) => StepKeys(s, later, ReleasedKey(r.reservationId, r.reason, r.amount));
    case DoSettle(t) => StepKeys(s, later, SettledKey(t.fillId, t.reservationId));
    case DoAccountDelta(_) => NextGrows(s, later);
    case _ =>
  }

  /** The first `commands` commands of event `offset` have been accepted. */
  ghost predicate AcceptedUpTo(p: Partition, offset: nat, commands: nat) {
    && offset < |p.events|
    && commands <= |CommandsOf(p.events[offset])|
    && forall i | 0 <= i < commands :: Accepted(p.wallet, CommandsOf(p.events[offset])[i])
  }

  ghost predicate AllAcceptedBelow(p: Partition, offset: nat) {
    offset <= |p.events| && forall o: nat | o < offset :: AcceptedUpTo(p, o, |CommandsOf(p.events[o])|)
  }

  ghost predicate PartitionOk(p: Partition) {
    && Valid(p.wallet)
    && (p.stored.Some? ==> AllAcceptedBelow(p, p.stored.value))
    && (p.loop.Waiting? ==> AllAcceptedBelow(p, p.loop.offset))
    && (p.loop.Working? ==> AllAcceptedBelow(p, p.loop.offset) && AcceptedUpTo(p, p.loop.offset, p.loop.command))
  }

  ghost predicate Later(p: Partition, q: Partition) {
    && p.events <= q.events
    && forall a | Accepted(p.wallet, a) :: Accepted(q.wallet, a)
  }

  lemma StepIsLater(p: Partition, step: PartitionStep)
    requires Valid(p.wallet)
    ensures Later(p, NextPartition(p, step)) && Valid(NextPartition(p, step).wallet)
  {
    var tx := TransactionOf(p, step);
    if tx.Some? {
      StepFacts(p.wallet, tx.value);
      forall a | Accepted(p.wallet, a) ensures Accepted(Next(p.wallet, tx.value), a) {
        StaysAccepted(p.wallet, a, tx.value);
      }
    }
  }

  lemma KeepsUpTo(p: Partition, q: Partition, offset: nat, commands: nat)
    requires Later(p, q) && AcceptedUpTo(p, offset, commands)
    ensures AcceptedUpTo(q, offset, commands)
  {
    assert q.events[offset] == p.events[offset];
  }

  lemma KeepsBelow(p: Partition, q: Partition, offset: nat)
    requires Later(p, q) && AllAcceptedBelow(p, offset)
    ensures AllAcceptedBelow(q, offset)
  {
    forall o: nat | o < offset ensures AcceptedUpTo(q, o, |CommandsOf(q.events[o])|) {
      KeepsUpTo(p, q, o, |CommandsOf(p.events[o])|);
    }
  }

  /** What later partitions still know about the offsets of an earlier one. */
  ghost predicate StillAccepted(p: Partition, q: Partition) {
    && (p.stored.Some? ==> AllAcceptedBelow(q, p.stored.value))
    && (!p.loop.Stopped? ==> AllAcceptedBelow(q, p.loop.offset))
    && (p.loop.Working? ==> AcceptedUpTo(q, p.loop.offset, p.loop.command))
  }

  lemma LaterStillAccepts(p: Partition, q: Partition)
    requires PartitionOk(p) && Later(p, q)
    ensures StillAccepted(p, q)
  {
    if p.stored.Some? {
      KeepsBelow(p, q, p.stored.value);
    }
    if !p.loop.Stopped? {
      KeepsBelow(p, q, p.loop.offset);
    }
    if p.loop.Working? {
      KeepsUpTo(p, q, p.loop.offset, p.loop.command);
    }
  }

  /** The loop moves on to the next command, or stops. */
  lemma CommandTried(p: Partition, q: Partition)
    requires PartitionOk(p) && Later(p, q) && Valid(q.wallet) && CurrentCommand(p).Some?
    requires q.events == p.events && q.stored == p.stored
    requires q.loop == Stopped
      || (q.loop == p.loop.(command := p.loop.command + 1) && Accepted(q.wallet, CurrentCommand(p).value))
    ensures PartitionOk(q)
  {
    LaterStillAccepts(p, q);
  }

  lemma RunCommandOk(p: Partition)
    requires PartitionOk(p)
    ensures PartitionOk(NextPartition(p, RunCommand))
  {
    var a := CurrentCommand(p);
    if a.Some? {
      StepIsLater(p, RunCommand);
      if Attempt(p.wallet, a.value).Ok? {
        CommitIsAccepted(p.wallet, a.value);
      }
      CommandTried(p, NextPartition(p, RunCommand));
    }
  }

  lemma BelowOneMore(p: Partition, offset: nat, commands: nat)
    requires AllAcceptedBelow(p, offset) && AcceptedUpTo(p, offset, commands)
      && commands == |CommandsOf(p.events[offset])|
    ensures AllAcceptedBelow(p, offset + 1)
  {
  }

  lemma SaveOffsetOk(p: Partition)
    requires PartitionOk(p)
    ensures PartitionOk(NextPartition(p, SaveOffset))
  {
    var q := NextPartition(p, SaveOffset);
    assert Later(p, q) && q.wallet == p.wallet;
    if p.loop.Working? && CurrentCommand(p).None? {
      BelowOneMore(p, p.loop.offset, p.loop.command);
      KeepsBelow(p, q, p.loop.offset + 1);
      if p.stored.Some? {
        KeepsBelow(p, q, p.stored.value);
      }
    } else {
      assert q == p;
    }
  }

  lemma PartitionStepOk(p: Partition, step: PartitionStep)
    requires PartitionOk(p)
    ensures PartitionOk(NextPartition(p, step))
  {
    match step
    case RunCommand => RunCommandOk(p);
    case SaveOffset => SaveOffsetOk(p);
    case _ =>
      StepIsLater(p, step);
      LaterStillAccepts(p, NextPartition(p, step));
  }

  lemma {:induction false} EveryPartitionIsOk(steps: seq<PartitionStep>)
    ensures PartitionOk(PartitionRun(steps))
  {
    if steps == [] {
      EmptyIsValid();
    } else {
      EveryPartitionIsOk(steps[..|steps| - 1]);
      PartitionStepOk(PartitionRun(steps[..|steps| - 1]), steps[|steps| - 1]);
    }
  }

  /**
   * The offset discipline: with the consumer stopping anywhere and anything else happening in
   * the wallet, every event below the stored offset has been accepted whole. Each of its
   * settlements has been applied exactly once, each of its releases at least once.
   */
  lemma PassedEventsAreApplied(steps: seq<PartitionStep>, offset: nat, i: nat)
    requires PartitionRun(steps).stored.Some? && offset < PartitionRun(steps).stored.value
    ensures offset < |PartitionRun(steps).events|
    ensures var commands := CommandsOf(PartitionRun(steps).events[offset]);
      i < |commands| ==>
        && Accepted(PartitionRun(steps).wallet, commands[i])
        && (commands[i].DoSettle? ==>
              Effects(Trace(steps), SettledKey(commands[i].settle.fillId, commands[i].settle.reservationId)) == 1)
        && (commands[i].DoRelease? ==>
              Effects(Trace(steps), ReleasedKey(commands[i].release.reservationId, commands[i].release.reason,
                commands[i].release.amount)) >= 1)
  {
    var p := PartitionRun(steps);
    EveryPartitionIsOk(steps);
    TraceRuns(steps);
    assert AcceptedUpTo(p, offset, |CommandsOf(p.events[offset])|);
    var commands := CommandsOf(p.events[offset]);
    if i < |commands| {
      assert Accepted(p.wallet, commands[i]);
      match commands[i]
      case DoSettle(t) => EffectsPerKey(Trace(steps), SettledKey(t.fillId, t.reservationId));
      case DoRelease(r) => EffectsPerKey(Trace(steps), ReleasedKey(r.reservationId, r.reason, r.amount));
      case _ =>
    }
  }
}
