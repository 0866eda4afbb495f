/**
 * Which stops the consumer of engine events survives, and how it stalls: a command of the
 * current event fails now and in every later state, so the offset is never saved again.
 */
module EngineStalls {
  import opened Common
  import opened WalletTypes
  import opened WalletTransactions
  import opened LedgerProcessor
  import opened WalletInvariant
  import opened WalletRuns
  import opened EngineEvents

  /** The ledger row that an account delta books. */
  function DeltaRow(d: AccountDelta): LedgerKey {
    LedgerKey(Account(d.user, d.asset), d.kind, d.reference)
  }

  /** A settlement of reservation r that no state of r, or of the ledger, to come can admit. */
  predicate CannotSettle(r: Reservation, ledger: map<LedgerKey, int>, t: SettleTrade) {
    || !r.status.Active? || r.account.asset != t.debitAsset || t.debitAmount > r.remaining
    || LedgerKey(Account(r.account.user, t.debitAsset), "TRADE_DEBIT", Decimal(t.fillId)) in ledger
    || LedgerKey(Account(r.account.user, t.creditAsset), "TRADE_CREDIT", Decimal(t.fillId)) in ledger
  }

  /** What is wrong with a command for good: its own amounts, or what has become of its reservation and ledger rows. */
  predicate Hopeless(s: WalletState, a: WalletAction) {
    match a
    case DoSettle(t) =>
      || t.debitAmount <= 0 || !(0 <= t.creditAmount <= I64_MAX)
      || (t.reservationId in s.reservations && CannotSettle(s.reservations[t.reservationId], s.ledger, t))
    case DoRelease(r) =>
      || r.amount <= 0
      || (r.reservationId in s.reservations
          && !(s.reservations[r.reservationId].status.Active? && r.amount <= s.reservations[r.reservationId].remaining))
    case DoAccountDelta(d) => !(0 <= d.lockedDelta <= d.totalDelta <= I64_MAX) && DeltaRow(d) !in s.ledger
    case _ => false
  }

  /** What may pass: the reservation is not there yet, or the credited balance has no room. */
  predicate Premature(s: WalletState, a: WalletAction) {
    match a
    case DoSettle(t) =>
      if t.reservationId !in s.reservations then true else
        var moved := t.creditAmount - (if t.creditAsset == t.debitAsset then t.debitAmount else 0);
        BalanceOf(s, Account(s.reservations[t.reservationId].account.user, t.creditAsset), Total) + moved > I64_MAX
    case DoRelease(r) => r.reservationId !in s.reservations
    case DoAccountDelta(d) =>
      DeltaRow(d) !in s.ledger && BalanceOf(s, Account(d.user, d.asset), Total) + d.totalDelta > I64_MAX
    case _ => false
  }

  lemma DeltaFailsIff(s: WalletState, d: AccountDelta)
    requires Valid(s)
    ensures AccountDeltaTx(s, d).Err? <==> Hopeless(s, DoAccountDelta(d)) || Premature(s, DoAccountDelta(d))
  {
    AccountDeltaTakesEffectIff(s, d);
    assert RowOk(BalanceRow(s.collaterals, Account(d.user, d.asset)));
    assert Effect(s, DoAccountDelta(d)).Some? <==> AccountDeltaTx(s, d).Ok? && AccountDeltaTx(s, d).value.value.Some?;
  }

  /** A command of an engine event fails exactly if it is hopeless or premature. */
  lemma FailsIff(s: WalletState, a: WalletAction)
    requires Valid(s) && (a.DoSettle? || a.DoRelease? || a.DoAccountDelta?)
    ensures Attempt(s, a).Err? <==> Hopeless(s, a) || Premature(s, a)
  {
    match a
    case DoSettle(t) => SettleCommitsIff(s, t);
    case DoRelease(r) => ReleaseCommitsIff(s, r);
    case DoAccountDelta(d) => DeltaFailsIff(s, d);
  }

  /** No transaction gives a reservation more to release, or makes it active again. */
  lemma NothingIsReserved(s: WalletState, a: WalletAction, id: string)
    requires Valid(s) && id in s.reservations
    ensures var t := Next(s, a);
      && id in t.reservations
      && t.reservations[id].remaining <= s.reservations[id].remaining
      && (t.reservations[id].status.Active? ==> s.reservations[id].status.Active?)
  {
  }

  /** Hopeless settlements and releases stay so; a delta does until somebody else books its row. */
  lemma StaysHopelessIff(s: WalletState, a: WalletAction, later: WalletAction)
    requires Valid(s) && Hopeless(s, a)
    ensures Hopeless(Next(s, later), a) <==> (a.DoAccountDelta? ==> DeltaRow(a.delta) !in Next(s, later).ledger)
  {
    NextGrows(s, later);
    match a
    case DoSettle(t) =>
      if t.reservationId in s.reservations {
        NothingIsReserved(s, later, t.reservationId);
      }
    case DoRelease(r) =>
      if r.reservationId in s.reservations {
        NothingIsReserved(s, later, r.reservationId);
      }
    case _ =>
  }

  // ---- the consumer ----

  /** The offset saved is that of event o, and the loop has not passed its command i. */
  predicate Behind(p: Partition, o: nat, i: nat) {
    && (p.stored == Some(o) || (p.stored.None? && o == 0))
    && o < |p.events| && i < |CommandsOf(p.events[o])|
    && (p.loop.Stopped? || p.loop == Waiting(o) || (p.loop.Working? && p.loop.offset == o && p.loop.command <= i))
  }

  ghost predicate Stalled(p: Partition, o: nat, i: nat) {
    Valid(p.wallet) && Behind(p, o, i) && Hopeless(p.wallet, CommandsOf(p.events[o])[i])
  }

  /** The command that fails stops the loop; the ones before it do not take the loop past it. */
  lemma RunStaysBehind(p: Partition, o: nat, i: nat)
    requires Behind(p, o, i) && Attempt(p.wallet, CommandsOf(p.events[o])[i]).Err?
    ensures var q := NextPartition(p, RunCommand);
      Behind(q, o, i) && q.stored == p.stored && q.events == p.events
  {
    if p.loop.Working? {
      assert CurrentCommand(p) == Some(CommandsOf(p.events[o])[p.loop.command]);
    }
  }

  lemma SaveIsNotReached(p: Partition, o: nat, i: nat)
    requires Behind(p, o, i)
    ensures NextPartition(p, SaveOffset) == p
  {
    if p.loop.Working? {
      assert CurrentCommand(p) == Some(CommandsOf(p.events[o])[p.loop.command]);
    }
  }

  /** No step of the loop passes a command that fails. */
  lemma LoopStaysBehind(p: Partition, step: PartitionStep, o: nat, i: nat)
    requires Behind(p, o, i) && Attempt(p.wallet, CommandsOf(p.events[o])[i]).Err?
    ensures var q := NextPartition(p, step);
      Behind(q, o, i) && q.stored == p.stored && q.events[o] == p.events[o]
  {
    match step
    case RunCommand => RunStaysBehind(p, o, i);
    case SaveOffset => SaveIsNotReached(p, o, i);
    case _ => assert NextPartition(p, step).events[o] == p.events[o];
  }

  lemma WalletStaysValid(p: Partition, step: PartitionStep, a: WalletAction)
    requires Valid(p.wallet) && Hopeless(p.wallet, a)
    ensures Valid(NextPartition(p, step).wallet)
    ensures !a.DoAccountDelta? ==> Hopeless(NextPartition(p, step).wallet, a)
    ensures a.DoAccountDelta? ==>
      (Hopeless(NextPartition(p, step).wallet, a) <==> DeltaRow(a.delta) !in NextPartition(p, step).wallet.ledger)
  {
    StepIsLater(p, step);
    var tx := TransactionOf(p, step);
    if tx.Some? {
      StaysHopelessIff(p.wallet, a, tx.value);
    }
  }

  /**
   * No step passes a hopeless command, so the saved offset stays; it is stalled as long as the
   * command stays hopeless.
   */
  lemma StallStep(p: Partition, step: PartitionStep, o: nat, i: nat)
    requires Stalled(p, o, i)
    ensures var a, q := CommandsOf(p.events[o])[i], NextPartition(p, step);
      && Valid(q.wallet) && Behind(q, o, i) && q.stored == p.stored && q.events[o] == p.events[o]
      && (Stalled(q, o, i) <==> (a.DoAccountDelta? ==> DeltaRow(a.delta) !in q.wallet.ledger))
  {
    var a := CommandsOf(p.events[o])[i];
    FailsIff(p.wallet, a);
    LoopStaysBehind(p, step, o, i);
    WalletStaysValid(p, step, a);
  }

  function Resumed(p: Partition, steps: seq<PartitionStep>): Partition {
    if steps == [] then p else NextPartition(Resumed(p, steps[..|steps| - 1]), steps[|steps| - 1])
  }

  /**
   * A stalled consumer never saves another offset, whatever it and everybody else do: behind a
   * settlement or a release for good, behind a delta as long as its ledger row is absent.
   */
  lemma {:induction false} StalledForGood(p: Partition, steps: seq<PartitionStep>, o: nat, i: nat)
    requires Stalled(p, o, i)
    requires var a := CommandsOf(p.events[o])[i];
      a.DoAccountDelta? ==> DeltaRow(a.delta) !in Resumed(p, steps).wallet.ledger
    ensures Stalled(Resumed(p, steps), o, i)
    ensures Resumed(p, steps).stored == p.stored && Resumed(p, steps).events[o] == p.events[o]
  {
    if steps != [] {
      var before := Resumed(p, steps[..|steps| - 1]);
      var tx := TransactionOf(before, steps[|steps| - 1]);
      if tx.Some? {
        NextGrows(before.wallet, tx.value);
      }
      StalledForGood(p, steps[..|steps| - 1], o, i);
      StallStep(before, steps[|steps| - 1], o, i);
    }
  }

  // ---- how it comes to that ----

  /** A running loop is at the event whose offset is saved. */
  predicate AtStored(p: Partition) {
    !p.loop.Stopped? ==> p.stored == Some(p.loop.offset) || (p.stored.None? && p.loop.offset == 0)
  }

  lemma {:induction false} EveryLoopIsAtStored(steps: seq<PartitionStep>)
    ensures AtStored(PartitionRun(steps))
  {
    if steps != [] {
      EveryLoopIsAtStored(steps[..|steps| - 1]);
    }
  }

  /** A settlement that the partition has applied is hopeless from then on. */
  lemma AppliedSettlementIsHopeless(s: WalletState, t: SettleTrade)
    requires Valid(s) && Accepted(s, DoSettle(t))
    ensures Hopeless(s, DoSettle(t))
  {
    StoredRowIsVouched(s, SettledKey(t.fillId, t.reservationId));
  }

  /** Stopping after some commands of an event leaves the consumer stalled at those of them that are hopeless. */
  lemma StopStallsAtHopeless(steps: seq<PartitionStep>, i: nat)
    requires PartitionRun(steps).loop.Working? && i < PartitionRun(steps).loop.command
    ensures var p, q := PartitionRun(steps), NextPartition(PartitionRun(steps), Crash);
      && p.loop.offset < |p.events| && i < |CommandsOf(p.events[p.loop.offset])|
      && var a := CommandsOf(p.events[p.loop.offset])[i];
      && (Stalled(q, p.loop.offset, i) <==> Hopeless(p.wallet, a))
      && (a.DoSettle? ==> Stalled(q, p.loop.offset, i))
  {
    var p := PartitionRun(steps);
    EveryPartitionIsOk(steps);
    EveryLoopIsAtStored(steps);
    assert AcceptedUpTo(p, p.loop.offset, p.loop.command);
    var a := CommandsOf(p.events[p.loop.offset])[i];
    assert Accepted(p.wallet, a);
    if a.DoSettle? {
      AppliedSettlementIsHopeless(p.wallet, a.settle);
    }
  }

  // ---- which stops are survived ----

  function Again(k: nat): seq<PartitionStep> {
    seq(k, i => RunCommand)
  }

  /** The consumer stops, starts again and fetches the event. */
  function Restarted(p: Partition): Partition {
    NextPartition(NextPartition(NextPartition(p, Crash), Restart), Fetch)
  }

  /** The commands that had run run again, and take the loop back to where it had stopped. */
  predicate Survives(p: Partition)
    requires p.loop.Working?
  {
    Resumed(Restarted(p), Again(p.loop.command)).loop == p.loop
  }

  lemma RestartedAt(p: Partition, o: nat, k: nat)
    requires AtStored(p) && p.loop == Working(o, k) && o < |p.events|
    ensures Restarted(p) == p.(loop := Working(o, 0))
  {
  }

  lemma RunsOnce(q: Partition, o: nat, j: nat)
    requires q.loop == Working(o, j) && o < |q.events| && j < |CommandsOf(q.events[o])|
    requires Attempt(q.wallet, CommandsOf(q.events[o])[j]).Ok?
    ensures NextPartition(q, RunCommand)
         == q.(wallet := Next(q.wallet, CommandsOf(q.events[o])[j]), loop := Working(o, j + 1))
  {
    assert CurrentCommand(q) == Some(CommandsOf(q.events[o])[j]);
  }

  /** Commands that succeed and, but for the last, change nothing run through. */
  lemma {:induction false} RunsThrough(q: Partition, o: nat, k: nat)
    requires q.loop == Working(o, 0) && o < |q.events| && k <= |CommandsOf(q.events[o])|
    requires forall i | 0 <= i < k :: Attempt(q.wallet, CommandsOf(q.events[o])[i]).Ok?
    requires forall i | 0 <= i < k - 1 :: Next(q.wallet, CommandsOf(q.events[o])[i]) == q.wallet
    ensures Resumed(q, Again(k)).loop == Working(o, k) && Resumed(q, Again(k)).events == q.events
    ensures k == 0 || Resumed(q, Again(k)).wallet == Next(q.wallet, CommandsOf(q.events[o])[k - 1])
  {
    if k > 0 {
      RunsThrough(q, o, k - 1);
      assert Again(k)[..k - 1] == Again(k - 1);
      RunsOnce(Resumed(q, Again(k - 1)), o, k - 1);
    }
  }

  /** An event is a single release, or settlements and then deltas, so a release is always alone. */
  lemma CommandsShape(event: EngineEvent, i: nat)
    requires i < |CommandsOf(event)|
    ensures var a := CommandsOf(event)[i];
      && (a.DoSettle? || a.DoRelease? || a.DoAccountDelta?)
      && (a.DoRelease? ==> |CommandsOf(event)| == 1)
      && (a.DoSettle? ==> CommandsOf(event)[0].DoSettle?)
  {
  }

  /** An accepted settlement is hopeless; an accepted delta is accepted again for nothing; a release may commit. */
  lemma AcceptedAgain(s: WalletState, a: WalletAction)
    requires Valid(s) && Accepted(s, a) && (a.DoSettle? || a.DoRelease? || a.DoAccountDelta?)
    ensures a.DoSettle? ==> Hopeless(s, a)
    ensures a.DoAccountDelta? ==> !Hopeless(s, a) && Attempt(s, a).Ok? && Next(s, a) == s
    ensures a.DoRelease? ==> (Hopeless(s, a) <==> Attempt(s, a).Err?)
  {
    match a
    case DoSettle(t) => AppliedSettlementIsHopeless(s, t);
    case DoRelease(r) =>
      StoredRowIsVouched(s, ReleasedKey(r.reservationId, r.reason, r.amount));
      FailsIff(s, a);
    case DoAccountDelta(d) =>
  }

  lemma NoneHopelessRunsThrough(p: Partition, o: nat, k: nat)
    requires PartitionOk(p) && AtStored(p) && p.loop == Working(o, k)
    requires forall i | 0 <= i < k :: !Hopeless(p.wallet, CommandsOf(p.events[o])[i])
    ensures Survives(p)
  {
    var q, commands := Restarted(p), CommandsOf(p.events[o]);
    RestartedAt(p, o, k);
    forall i | 0 <= i < k
      ensures Attempt(q.wallet, commands[i]).Ok? && (i < k - 1 ==> Next(q.wallet, commands[i]) == q.wallet)
    {
      assert Accepted(p.wallet, commands[i]);
      CommandsShape(p.events[o], i);
      AcceptedAgain(p.wallet, commands[i]);
    }
    RunsThrough(q, o, k);
  }

  lemma HopelessIsNotPassed(p: Partition, o: nat, k: nat, i: nat)
    requires PartitionOk(p) && AtStored(p) && p.loop == Working(o, k)
    requires i < k && Hopeless(p.wallet, CommandsOf(p.events[o])[i])
    ensures !Survives(p)
  {
    var a := CommandsOf(p.events[o])[i];
    assert Accepted(p.wallet, a);
    CommandsShape(p.events[o], i);
    AcceptedAgain(p.wallet, a);
    RestartedAt(p, o, k);
    StalledForGood(Restarted(p), Again(k), o, i);
  }

  /**
   * A stop between a command and the saving of the event's offset is survived, that is, the
   * restarted loop comes back to where it was, exactly if none of the commands that had run is
   * hopeless by then.
   */
  lemma StopIsSurvivedIff(steps: seq<PartitionStep>)
    requires PartitionRun(steps).loop.Working?
    ensures var p := PartitionRun(steps);
      && p.loop.offset < |p.events| && p.loop.command <= |CommandsOf(p.events[p.loop.offset])|
      && (Survives(p)
          <==> forall i | 0 <= i < p.loop.command :: !Hopeless(p.wallet, CommandsOf(p.events[p.loop.offset])[i]))
  {
    var p := PartitionRun(steps);
    EveryPartitionIsOk(steps);
    EveryLoopIsAtStored(steps);
    var o, k := p.loop.offset, p.loop.command;
    if forall i | 0 <= i < k :: !Hopeless(p.wallet, CommandsOf(p.events[o])[i]) {
      NoneHopelessRunsThrough(p, o, k);
    } else {
      var i: nat :| i < k && Hopeless(p.wallet, CommandsOf(p.events[o])[i]);
      HopelessIsNotPassed(p, o, k, i);
    }
  }

  /** Some accepted command is hopeless only if the first one is a settlement, or a release that no longer commits. */
  lemma HopelessByFirst(s: WalletState, event: EngineEvent, i: nat)
    requires Valid(s) && i < |CommandsOf(event)|
    requires Accepted(s, CommandsOf(event)[i]) && Accepted(s, CommandsOf(event)[0])
    ensures var first := CommandsOf(event)[0];
      && (Hopeless(s, first) <==> first.DoSettle? || (first.DoRelease? && Attempt(s, first).Err?))
      && (Hopeless(s, CommandsOf(event)[i]) ==> Hopeless(s, first))
  {
    CommandsShape(event, 0);
    AcceptedAgain(s, CommandsOf(event)[0]);
    CommandsShape(event, i);
    AcceptedAgain(s, CommandsOf(event)[i]);
  }

  /** What a caller can check: the event's first command is no settlement, and if it is a release it still commits. */
  lemma StopIsSurvivedByFirstIff(steps: seq<PartitionStep>)
    requires PartitionRun(steps).loop.Working? && PartitionRun(steps).loop.command > 0
    ensures var p := PartitionRun(steps);
      && p.loop.offset < |p.events| && 0 < |CommandsOf(p.events[p.loop.offset])|
      && var first := CommandsOf(p.events[p.loop.offset])[0];
      (Survives(p) <==> !first.DoSettle? && (first.DoRelease? ==> Attempt(p.wallet, first).Ok?))
  {
    var p := PartitionRun(steps);
    EveryPartitionIsOk(steps);
    StopIsSurvivedIff(steps);
    var event := p.events[p.loop.offset];
    assert AcceptedUpTo(p, p.loop.offset, p.loop.command);
    assert Accepted(p.wallet, CommandsOf(event)[0]);
    forall i: nat | i < p.loop.command
      ensures Hopeless(p.wallet, CommandsOf(event)[i]) ==> Hopeless(p.wallet, CommandsOf(event)[0])
    {
      assert Accepted(p.wallet, CommandsOf(event)[i]);
      HopelessByFirst(p.wallet, event, i);
    }
    HopelessByFirst(p.wallet, event, 0);
  }

  /** A stop that is not survived is the end: no continuation saves another offset. */
  lemma UnsurvivedStopIsFinal(steps: seq<PartitionStep>, more: seq<PartitionStep>)
    requires PartitionRun(steps).loop.Working? && !Survives(PartitionRun(steps))
    ensures Resumed(NextPartition(PartitionRun(steps), Crash), more).stored == PartitionRun(steps).stored
  {
    var p := PartitionRun(steps);
    EveryPartitionIsOk(steps);
    StopIsSurvivedIff(steps);
    var i: nat :| i < p.loop.command && Hopeless(p.wallet, CommandsOf(p.events[p.loop.offset])[i]);
    assert AcceptedUpTo(p, p.loop.offset, p.loop.command);
    assert Accepted(p.wallet, CommandsOf(p.events[p.loop.offset])[i]);
    CommandsShape(p.events[p.loop.offset], i);
    AcceptedAgain(p.wallet, CommandsOf(p.events[p.loop.offset])[i]);
    StopStallsAtHopeless(steps, i);
    StalledForGood(NextPartition(p, Crash), more, p.loop.offset, i);
  }

  // ---- stalls without a stop ----

  predicate ChargesAt(event: EngineEvent, i: nat) {
    event.TradeExecuted? && |event.settlements| <= i < |event.settlements| + |event.fees|
    && event.fees[i - |event.settlements|].amount > 0
  }

  function ChargeOf(event: EngineEvent, i: nat): WalletAction
    requires ChargesAt(event, i)
  {
    FeeCommand(event.fillId, i - |event.settlements|, event.fees[i - |event.settlements|])
  }

  lemma ChargeIsADebit(event: EngineEvent, i: nat)
    requires ChargesAt(event, i)
    ensures i < |CommandsOf(event)| && CommandsOf(event)[i] == ChargeOf(event, i)
    ensures ChargeOf(event, i).delta.totalDelta < 0
  {
  }

  /**
   * A positive fee whose ledger row is absent stalls the consumer as soon as it comes to the event,
   * without any crash.
   */
  lemma PositiveFeeStalls(p: Partition, steps: seq<PartitionStep>, o: nat, i: nat)
    requires p == PartitionRun(steps) && o < |p.events| && ChargesAt(p.events[o], i)
    requires p.loop == Waiting(o) || (p.loop.Working? && p.loop.offset == o && p.loop.command <= i)
    requires DeltaRow(ChargeOf(p.events[o], i).delta) !in p.wallet.ledger
    ensures Stalled(p, o, i)
  {
    EveryPartitionIsOk(steps);
    EveryLoopIsAtStored(steps);
    ChargeIsADebit(p.events[o], i);
  }

  /** The two settlements book the same ledger row: they debit one account, or credit one. */
  predicate Collide(s: WalletState, x: SettleTrade, y: SettleTrade)
    requires x.reservationId in s.reservations && y.reservationId in s.reservations
  {
    var left, right := s.reservations[x.reservationId].account, s.reservations[y.reservationId].account;
    left == right || (left.user == right.user && x.creditAsset == y.creditAsset)
  }

  /** Of two settlements of one fill that collide, the second is hopeless as soon as the first has committed. */
  lemma SecondSettlementIsHopeless(s: WalletState, x: SettleTrade, y: SettleTrade)
    requires Valid(s) && SettleTx(s, x).Ok?
    requires x.fillId == y.fillId && y.reservationId in s.reservations && Collide(s, x, y)
    ensures Hopeless(Next(s, DoSettle(x)), DoSettle(y))
  {
    NextGrows(s, DoSettle(x));
  }

  lemma SettlementsOfOneFill(event: EngineEvent, i: nat, j: nat)
    requires i < |CommandsOf(event)| && j < |CommandsOf(event)|
    requires CommandsOf(event)[i].DoSettle? && CommandsOf(event)[j].DoSettle?
    ensures CommandsOf(event)[i].settle.fillId == CommandsOf(event)[j].settle.fillId
  {
  }

  /**
   * A trade of a user with himself in one margin asset: its second settlement books the ledger
   * row of the first, so the consumer stalls at it, again without any crash.
   */
  lemma SelfTradeStalls(p: Partition, steps: seq<PartitionStep>, o: nat, i: nat, j: nat)
    requires p == PartitionRun(steps) && p.loop == Working(o, i) && o < |p.events| && i < j < |CommandsOf(p.events[o])|
    requires CommandsOf(p.events[o])[i].DoSettle? && CommandsOf(p.events[o])[j].DoSettle?
    requires SettleTx(p.wallet, CommandsOf(p.events[o])[i].settle).Ok?
    requires CommandsOf(p.events[o])[j].settle.reservationId in p.wallet.reservations
    requires Collide(p.wallet, CommandsOf(p.events[o])[i].settle, CommandsOf(p.events[o])[j].settle)
    ensures Stalled(NextPartition(p, RunCommand), o, j)
  {
    var x, y := CommandsOf(p.events[o])[i].settle, CommandsOf(p.events[o])[j].settle;
    EveryPartitionIsOk(steps);
    EveryLoopIsAtStored(steps);
    SettlementsOfOneFill(p.events[o], i, j);
    SecondSettlementIsHopeless(p.wallet, x, y);
    StepIsLater(p, RunCommand);
    RunsOnce(p, o, i);
  }

  // ---- a run that ends stalled ----

  lemma PartitionRunSnoc(steps: seq<PartitionStep>, step: PartitionStep)
    ensures PartitionRun(steps + [step]) == NextPartition(PartitionRun(steps), step)
  {
    assert (steps + [step])[..|steps|] == steps;
  }

  predicate Funds(d: Deposit, intent: PlaceOrderIntent) {
    && 0 < d.amount <= I64_MAX && intent.requiredMargin == d.amount
    && intent.envelope.user == d.envelope.user && intent.marginAsset == d.asset
  }

  /** A deposit and an order that reserves all of it, from an empty database. */
  lemma DepositThenReserve(d: Deposit, intent: PlaceOrderIntent, id: string)
    requires Funds(d, intent)
    ensures var s := Run(EMPTY_WALLET, [DoDeposit(d), DoReserve(intent, id)]);
      && s.ledger.Keys == {LedgerKey(Account(d.envelope.user, d.asset), "DEPOSIT", d.reference)}
      && s.collaterals == map[Account(d.envelope.user, d.asset) := Collateral(d.amount, d.amount)]
      && id in s.reservations && s.reservations[id].status.Active? && s.reservations[id].remaining == d.amount
      && s.reservations[id].account == Account(d.envelope.user, d.asset)
  {
    var account := Account(d.envelope.user, d.asset);
    var m := DepositMessage(d, Collateral(d.amount, 0));
    EnqueueSingle([], m);
    var funded := Next(EMPTY_WALLET, DoDeposit(d));
    assert funded.collaterals == map[account := Collateral(d.amount, 0)] && funded.outbox == [NewRow(m)];
    EnqueueTwoNew(funded.outbox, ReservedMessage(intent, id), PlaceOrderMessage(intent, id));
    assert ReserveTx(funded, intent, id).Ok?;
    RunThen(EMPTY_WALLET, [], Some(DoDeposit(d)));
    RunThen(EMPTY_WALLET, [DoDeposit(d)], Some(DoReserve(intent, id)));
    assert [] + [DoDeposit(d)] == [DoDeposit(d)];
    assert [DoDeposit(d)] + [DoReserve(intent, id)] == [DoDeposit(d), DoReserve(intent, id)];
  }

  /** Any such order, filled once, and the consumer stopped right after the settlement: it is stalled. */
  lemma SettledThenStopped(d: Deposit, intent: PlaceOrderIntent, id: string, fill: int)
    returns (steps: seq<PartitionStep>)
    requires Funds(d, intent)
    ensures PartitionRun(steps).loop == Working(0, 1) && !Survives(PartitionRun(steps))
    ensures Stalled(PartitionRun(steps + [Crash]), 0, 0)
  {
    var event := TradeExecuted(fill, [Settlement(id, d.asset, d.amount, d.asset, d.amount)], []);
    var settle := SettleTrade(fill, id, d.asset, d.amount, d.asset, d.amount);
    var actions := [DoDeposit(d), DoReserve(intent, id)];
    DepositThenReserve(d, intent, id);
    EveryRunIsValid(actions);
    var w := Run(EMPTY_WALLET, actions);
    SettleCommitsIff(w, settle);
    steps := Prelude(DoDeposit(d), DoReserve(intent, id), event);
    PreludeRuns(DoDeposit(d), DoReserve(intent, id), event);
    assert CommandsOf(event) == [DoSettle(settle)];
    PartitionRunSnoc(steps, RunCommand);
    RunsOnce(PartitionRun(steps), 0, 0);
    steps := steps + [RunCommand];
    PartitionRunSnoc(steps, Crash);
    StopStallsAtHopeless(steps, 0);
    StopIsSurvivedByFirstIff(steps);
  }

  function Prelude(a: WalletAction, b: WalletAction, event: EngineEvent): seq<PartitionStep> {
    [Elsewhere(a), Elsewhere(b)] + [Arrive(event)] + [Restart] + [Fetch]
  }

  lemma TwoElsewhere(a: WalletAction, b: WalletAction)
    ensures PartitionRun([Elsewhere(a), Elsewhere(b)]) == Partition(Run(EMPTY_WALLET, [a, b]), [], None, Stopped)
  {
    PartitionRunSnoc([], Elsewhere(a));
    PartitionRunSnoc([Elsewhere(a)], Elsewhere(b));
    assert [] + [Elsewhere(a)] == [Elsewhere(a)] && [Elsewhere(a)] + [Elsewhere(b)] == [Elsewhere(a), Elsewhere(b)];
    RunThen(EMPTY_WALLET, [], Some(a));
    RunThen(EMPTY_WALLET, [a], Some(b));
    assert [] + [a] == [a] && [a] + [b] == [a, b];
  }

  lemma ArriveAndFetch(p: Partition, event: EngineEvent)
    requires p.events == [] && p.stored.None? && p.loop.Stopped?
    ensures NextPartition(NextPartition(NextPartition(p, Arrive(event)), Restart), Fetch)
         == Partition(p.wallet, [event], None, Working(0, 0))
  {
  }

  lemma PreludeRuns(a: WalletAction, b: WalletAction, event: EngineEvent)
    ensures PartitionRun(Prelude(a, b, event)) == Partition(Run(EMPTY_WALLET, [a, b]), [event], None, Working(0, 0))
  {
    var first := [Elsewhere(a), Elsewhere(b)];
    TwoElsewhere(a, b);
    ArriveAndFetch(PartitionRun(first), event);
    PartitionRunSnoc(first, Arrive(event));
    PartitionRunSnoc(first + [Arrive(event)], Restart);
    PartitionRunSnoc(first + [Arrive(event)] + [Restart], Fetch);
  }
}
