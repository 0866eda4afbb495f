/**
 * What clients are told: every reply, stored or answered, at once or replayed much later, is
 * true of the transaction that one handler of the same key has run.
 */
module TrueReplies {
  import opened Common
  import opened WalletTypes
  import opened WalletTransactions
  import opened LedgerProcessor
  import opened WalletInvariant
  import opened WalletRuns
  import opened OutboxOrigins
  import opened CommandHandlers

  /** The reply says what the command's transaction found, or has done, when it ran on s. */
  predicate ReplyTells(reply: WalletReply, c: Command, id: string, s: WalletState) {
    var user, t := EnvelopeOf(c).user, Next(s, ActionOf(c, id));
    match reply
    case BalanceUpdated(_, asset, total, locked) =>
      && Attempt(s, ActionOf(c, id)).Ok? && Left(t, user, asset, total, locked)
      && (match c
          case DepositCommand(d) => asset == d.asset && total == BalanceOf(s, Account(user, asset), Total) + d.amount
          case WithdrawCommand(w) => asset == w.asset && total == BalanceOf(s, Account(user, asset), Total) - w.amount
          case _ => false)
    case FundsReserved(_, reserved, asset, amount) =>
      && Attempt(s, ActionOf(c, id)).Ok? && reserved == id && id !in s.reservations && id in t.reservations
      && c.PlaceOrderCommand? && asset == c.intent.marginAsset && amount == c.intent.requiredMargin
      && t.reservations[id].account == Account(user, asset) && t.reservations[id].remaining == amount
    case InsufficientFunds(_, asset, required, available) =>
      && (match c
          case WithdrawCommand(w) => asset == w.asset && required == w.amount
          case PlaceOrderCommand(intent) => asset == intent.marginAsset && required == intent.requiredMargin
          case _ => false)
      && available == Free(s, Account(user, asset))
      && (Account(user, asset) !in s.collaterals || available < required)
    case CommandAccepted(_) => c.CancelOrderCommand? && Attempt(s, ActionOf(c, id)).Ok?
    case CommandRejected(_, _) => false
  }

  /** At step n some handler of the key ran its transaction, and the reply is true of that. */
  ghost predicate TrueAt(steps: seq<DeskStep>, n: nat, key: ReplyKey, reply: WalletReply) {
    && n < |steps| && steps[n].Transact?
    && var d := DeskRun(steps[..n]);
    && steps[n].handler in d.handlers && d.handlers[steps[n].handler].Missed?
    && var c := d.handlers[steps[n].handler].command;
    && ReplyKeyOf(c) == key && ReplyTells(reply, c, steps[n].reservationId, d.wallet)
  }

  ghost predicate IsTrue(steps: seq<DeskStep>, key: ReplyKey, reply: WalletReply) {
    exists n: nat :: TrueAt(steps, n, key, reply)
  }

  ghost predicate StoredAreTrue(steps: seq<DeskStep>, replies: map<ReplyKey, StoredReply>) {
    forall key | key in replies :: IsTrue(steps, key, replies[key].reply)
  }

  /** An answer is true, and carries the request id of the one who asked. */
  ghost predicate HandlerIsTrue(steps: seq<DeskStep>, handler: Handler) {
    match handler
    case Answered(c, reply) => reply.requestId == EnvelopeOf(c).requestId && IsTrue(steps, ReplyKeyOf(c), reply)
    case Refusing(c, available) => CanBeRefused(c) && IsTrue(steps, ReplyKeyOf(c), RefusalReply(c, available))
    case _ => true
  }

  ghost predicate AllTrue(steps: seq<DeskStep>) {
    && StoredAreTrue(steps, DeskRun(steps).wallet.replies)
    && forall h | h in DeskRun(steps).handlers :: HandlerIsTrue(steps, DeskRun(steps).handlers[h])
  }

  lemma TrueStays(steps: seq<DeskStep>, step: DeskStep, key: ReplyKey, reply: WalletReply)
    requires IsTrue(steps, key, reply)
    ensures IsTrue(steps + [step], key, reply)
  {
    var n: nat :| TrueAt(steps, n, key, reply);
    assert (steps + [step])[..n] == steps[..n];
    assert TrueAt(steps + [step], n, key, reply);
  }

  lemma HandlerStaysTrue(steps: seq<DeskStep>, step: DeskStep, handler: Handler)
    requires HandlerIsTrue(steps, handler)
    ensures HandlerIsTrue(steps + [step], handler)
  {
    match handler
    case Answered(c, reply) => TrueStays(steps, step, ReplyKeyOf(c), reply);
    case Refusing(c, available) => TrueStays(steps, step, ReplyKeyOf(c), RefusalReply(c, available));
    case _ =>
  }

  lemma StoredStayTrue(steps: seq<DeskStep>, step: DeskStep, replies: map<ReplyKey, StoredReply>)
    requires StoredAreTrue(steps, replies)
    ensures StoredAreTrue(steps + [step], replies)
  {
    forall key | key in replies ensures IsTrue(steps + [step], key, replies[key].reply) {
      TrueStays(steps, step, key, replies[key].reply);
    }
  }

  lemma RecordedAreTrue(steps: seq<DeskStep>, replies: map<ReplyKey, StoredReply>, key: ReplyKey, requestId: string,
      reply: WalletReply)
    requires StoredAreTrue(steps, replies) && IsTrue(steps, key, reply)
    ensures StoredAreTrue(steps, RecordReply(replies, key, requestId, reply))
  {
  }

  /** A stored reply is replayed with nothing changed but the request id. */
  lemma ReplayedIsTrue(steps: seq<DeskStep>, key: ReplyKey, reply: WalletReply, requestId: string)
    requires IsTrue(steps, key, reply)
    ensures IsTrue(steps, key, WithRequestId(reply, requestId))
  {
    var n: nat :| TrueAt(steps, n, key, reply);
    assert TrueAt(steps, n, key, WithRequestId(reply, requestId));
  }

  // ---- one transaction ----

  lemma SuccessTells(s: WalletState, c: Command, id: string)
    requires ReplyTo(s, c, id).Ok?
    ensures ReplyTells(ReplyTo(s, c, id).value, c, id, s)
    ensures ReplyTo(s, c, id).value.requestId == EnvelopeOf(c).requestId
  {
  }

  lemma RefusalTells(s: WalletState, c: Command, id: string)
    requires Valid(s) && CanBeRefused(c) && ReplyTo(s, c, id).Err? && ReplyTo(s, c, id).error.NotEnough?
    ensures ReplyTells(RefusalReply(c, ReplyTo(s, c, id).error.available), c, id, s)
  {
    match c
    case WithdrawCommand(w) =>
      WithdrawCommitsIff(s, w);
      assert WithdrawTx(s, w) == Err(NotEnough(ReplyTo(s, c, id).error.available));
    case PlaceOrderCommand(intent) =>
      ReserveCommitsIff(s, intent, id);
      assert ReserveTx(s, intent, id) == Err(NotEnough(ReplyTo(s, c, id).error.available));
    case _ =>
  }

  lemma TransactTells(steps: seq<DeskStep>, h: nat, id: string)
    requires h in DeskRun(steps).handlers && DeskRun(steps).handlers[h].Missed?
    ensures var c := DeskRun(steps).handlers[h].command;
      var after := AfterTransact(DeskRun(steps).wallet, c, id);
      && HandlerIsTrue(steps + [Transact(h, id)], after)
      && (after.Answered? ==> IsTrue(steps + [Transact(h, id)], ReplyKeyOf(c), after.reply))
  {
    var d, c := DeskRun(steps), DeskRun(steps).handlers[h].command;
    var all := steps + [Transact(h, id)];
    assert all[..|steps|] == steps;
    EveryDeskIsOk(steps);
    if ReplyTo(d.wallet, c, id).Ok? {
      SuccessTells(d.wallet, c, id);
      assert TrueAt(all, |steps|, ReplyKeyOf(c), ReplyTo(d.wallet, c, id).value);
    } else if ReplyTo(d.wallet, c, id).error.NotEnough? && CanBeRefused(c) {
      RefusalTells(d.wallet, c, id);
      assert TrueAt(all, |steps|, ReplyKeyOf(c), RefusalReply(c, ReplyTo(d.wallet, c, id).error.available));
    }
  }

  // ---- every step ----

  lemma StoredAfterTransact(steps: seq<DeskStep>, h: nat, id: string)
    requires AllTrue(steps) && h in DeskRun(steps).handlers && DeskRun(steps).handlers[h].Missed?
    ensures StoredAreTrue(steps + [Transact(h, id)], NextDesk(DeskRun(steps), Transact(h, id)).wallet.replies)
  {
    var d, c, all := DeskRun(steps), DeskRun(steps).handlers[h].command, steps + [Transact(h, id)];
    StoredStayTrue(steps, Transact(h, id), d.wallet.replies);
    TransactTells(steps, h, id);
    if ReplyTo(d.wallet, c, id).Ok? {
      RepliesOfCommand(d.wallet, c, id);
      RecordedAreTrue(all, d.wallet.replies, ReplyKeyOf(c), EnvelopeOf(c).requestId, ReplyTo(d.wallet, c, id).value);
    } else {
      FailedCommand(d.wallet, c, id);
    }
  }

  lemma StoredAfterRefusal(steps: seq<DeskStep>, h: nat)
    requires AllTrue(steps) && h in DeskRun(steps).handlers && DeskRun(steps).handlers[h].Refusing?
    ensures StoredAreTrue(steps + [StoreRefusal(h)], NextDesk(DeskRun(steps), StoreRefusal(h)).wallet.replies)
  {
    var d, c := DeskRun(steps), DeskRun(steps).handlers[h].command;
    var reply := RefusalReply(c, DeskRun(steps).handlers[h].available);
    RepliesOfRefusal(d.wallet, c, d.handlers[h].available);
    assert HandlerIsTrue(steps, d.handlers[h]);
    StoredStayTrue(steps, StoreRefusal(h), d.wallet.replies);
    TrueStays(steps, StoreRefusal(h), ReplyKeyOf(c), reply);
    RecordedAreTrue(steps + [StoreRefusal(h)], d.wallet.replies, ReplyKeyOf(c), EnvelopeOf(c).requestId, reply);
  }

  lemma StoredAfter(steps: seq<DeskStep>, step: DeskStep)
    requires AllTrue(steps)
    ensures StoredAreTrue(steps + [step], NextDesk(DeskRun(steps), step).wallet.replies)
  {
    var d := DeskRun(steps);
    if TransactionOf(d, step).None? {
      StoredStayTrue(steps, step, d.wallet.replies);
    } else {
      match step
      case Transact(h, id) => StoredAfterTransact(steps, h, id);
      case StoreRefusal(h) => StoredAfterRefusal(steps, h);
      case Background(a) =>
        BackgroundWritesNoReply(d.wallet, a);
        StoredStayTrue(steps, step, d.wallet.replies);
      case _ =>
    }
  }

  lemma RepliesOfCommand(s: WalletState, c: Command, id: string)
    requires ReplyTo(s, c, id).Ok?
    ensures Next(s, ActionOf(c, id)).replies
         == RecordReply(s.replies, ReplyKeyOf(c), EnvelopeOf(c).requestId, ReplyTo(s, c, id).value)
  {
  }

  lemma RepliesOfRefusal(s: WalletState, c: Command, available: int)
    ensures Next(s, RefusalAction(c, available)).replies
         == RecordReply(s.replies, ReplyKeyOf(c), EnvelopeOf(c).requestId, RefusalReply(c, available))
  {
  }

  lemma ReplayTells(steps: seq<DeskStep>, step: DeskStep, c: Command, reply: WalletReply)
    requires IsTrue(steps, ReplyKeyOf(c), reply)
    ensures HandlerIsTrue(steps + [step], Answered(c, WithRequestId(reply, EnvelopeOf(c).requestId)))
  {
    TrueStays(steps, step, ReplyKeyOf(c), reply);
    ReplayedIsTrue(steps + [step], ReplyKeyOf(c), reply, EnvelopeOf(c).requestId);
  }

  lemma LookupTells(steps: seq<DeskStep>, h: nat)
    requires AllTrue(steps) && h in DeskRun(steps).handlers
    ensures HandlerIsTrue(steps + [Lookup(h)], HandlersAfter(DeskRun(steps), Lookup(h))[h])
  {
    var d, c := DeskRun(steps), DeskRun(steps).handlers[h].command;
    var key := ReplyKeyOf(c);
    HandlerStaysTrue(steps, Lookup(h), d.handlers[h]);
    if d.handlers[h].Received? && key in d.wallet.replies {
      ReplayTells(steps, Lookup(h), c, d.wallet.replies[key].reply);
    }
  }

  /** A step changes no handler but the one that makes it. */
  lemma OtherHandlers(d: Desk, step: DeskStep, h: nat)
    requires h in HandlersAfter(d, step)
    ensures h !in d.handlers ==> HandlersAfter(d, step)[h].Received?
    ensures h in d.handlers && HandlersAfter(d, step)[h] != d.handlers[h] ==>
      || (step == Lookup(h))
      || (step.Transact? && step.handler == h && d.handlers[h].Missed?)
      || (step == StoreRefusal(h) && d.handlers[h].Refusing?)
  {
  }

  lemma HandlerAfter(steps: seq<DeskStep>, step: DeskStep, h: nat)
    requires AllTrue(steps) && h in HandlersAfter(DeskRun(steps), step)
    ensures HandlerIsTrue(steps + [step], HandlersAfter(DeskRun(steps), step)[h])
  {
    var d := DeskRun(steps);
    OtherHandlers(d, step, h);
    if h in d.handlers {
      HandlerStaysTrue(steps, step, d.handlers[h]);
      if step == Lookup(h) {
        LookupTells(steps, h);
      } else if step.Transact? && step.handler == h && d.handlers[h].Missed? {
        TransactTells(steps, h, step.reservationId);
      }
    }
  }

  /**
   * In every interleaving of handlers, redeliveries, stops and background transactions, every
   * stored reply and every answer is true: a balance is the one the command has left, reserved
   * funds are reserved, and a refusal names what was free, which was too little.
   */
  lemma {:induction false} EveryReplyIsTrue(steps: seq<DeskStep>)
    ensures AllTrue(steps)
  {
    if steps != [] {
      var init, last := steps[..|steps| - 1], steps[|steps| - 1];
      assert steps == init + [last];
      EveryReplyIsTrue(init);
      DeskRunSnoc(init, last);
      StoredAfter(init, last);
      forall h | h in DeskRun(steps).handlers ensures HandlerIsTrue(steps, DeskRun(steps).handlers[h]) {
        HandlerAfter(init, last, h);
      }
    }
  }
}
