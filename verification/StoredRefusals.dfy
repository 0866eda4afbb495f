/**
 * Stored refusals. A refusal that is stored does not mean that nothing was applied: exactly
 * the commits that find one already there leave both behind.
 */
module StoredRefusals {
  import opened Common
  import opened WalletTypes
  import opened WalletTransactions
  import opened WalletInvariant
  import opened WalletRuns
  import opened CommandHandlers

  predicate RefusedAt(s: WalletState, c: Command) {
    ReplyKeyOf(c) in s.replies && s.replies[ReplyKeyOf(c)].reply.InsufficientFunds?
  }

  /**
   * A commit does not replace what is stored under its key: its own reply is the stored one
   * exactly when none, or the same one, was there. So a refusal is stored after a commit exactly
   * when one was stored before it.
   */
  lemma RefusalSurvivesCommitIff(s: WalletState, c: Command, id: string)
    requires Valid(s) && ReplyTo(s, c, id).Ok?
    ensures var t := Next(s, ActionOf(c, id));
      && ReplyKeyOf(c) in t.replies
      && (t.replies[ReplyKeyOf(c)].reply == ReplyTo(s, c, id).value
          <==> ReplyKeyOf(c) !in s.replies || s.replies[ReplyKeyOf(c)].reply == ReplyTo(s, c, id).value)
    ensures RefusedAt(Next(s, ActionOf(c, id)), c) <==> RefusedAt(s, c)
  {
    CommittedCommand(s, c, id);
  }

  /** A transaction of c's key that commits although a refusal is stored under it. */
  predicate CommitsOverRefusal(d: Desk, step: DeskStep, c: Command) {
    && step.Transact? && step.handler in d.handlers && d.handlers[step.handler].Missed?
    && KeyOf(d.handlers[step.handler].command) == KeyOf(c)
    && ReplyTo(d.wallet, d.handlers[step.handler].command, step.reservationId).Ok?
    && RefusedAt(d.wallet, c)
  }

  /** A queued row of a command means that a reply is stored for it. */
  predicate RowHasReply(s: WalletState, c: Command) {
    HasKey(s.outbox, KeyOf(c)) ==> ReplyKeyOf(c) in s.replies
  }

  lemma ReplyStays(s: WalletState, a: WalletAction, key: ReplyKey)
    requires key in s.replies
    ensures key in Next(s, a).replies && Next(s, a).replies[key].reply == s.replies[key].reply
  {
    RepliesAfter(s, a);
  }

  lemma RowHasReplyKept(s: WalletState, a: WalletAction, c: Command)
    requires Valid(s) && CanBeRefused(c) && RowHasReply(s, c)
    ensures RowHasReply(Next(s, a), c)
  {
    StepKeys(s, a, KeyOf(c));
    if ReplyKeyOf(c) in s.replies {
      ReplyStays(s, a, ReplyKeyOf(c));
    }
  }

  lemma {:induction false} EveryRowHasReply(actions: seq<WalletAction>, c: Command)
    requires CanBeRefused(c)
    ensures RowHasReply(Run(EMPTY_WALLET, actions), c)
  {
    if actions != [] {
      var before := actions[..|actions| - 1];
      EveryRowHasReply(before, c);
      EveryRunIsValid(before);
      RowHasReplyKept(Run(EMPTY_WALLET, before), actions[|actions| - 1], c);
    }
  }

  /** The transaction of the step takes effect under c's key. */
  predicate TakesEffect(d: Desk, step: DeskStep, c: Command) {
    var tx := TransactionOf(d, step);
    tx.Some? && KeyOf(c) in EffectKeys(tx.value) && Effect(d.wallet, tx.value).Some?
  }

  /** Only a handler of the same key can take effect under it, and it takes effect by committing. */
  lemma TakesEffectIff(d: Desk, step: DeskStep, c: Command)
    requires CanBeRefused(c)
    ensures TakesEffect(d, step, c) && RefusedAt(d.wallet, c) <==> CommitsOverRefusal(d, step, c)
    ensures TakesEffect(d, step, c) ==>
      && step.Transact? && step.handler in d.handlers && d.handlers[step.handler].Missed?
      && ReplyKeyOf(d.handlers[step.handler].command) == ReplyKeyOf(c)
      && ReplyTo(d.wallet, d.handlers[step.handler].command, step.reservationId).Ok?
  {
  }

  lemma EffectsSnoc(steps: seq<DeskStep>, step: DeskStep, c: Command)
    ensures Effects(Trace(steps + [step]), KeyOf(c))
         == Effects(Trace(steps), KeyOf(c)) + if TakesEffect(DeskRun(steps), step, c) then 1 else 0
  {
    assert (steps + [step])[..|steps|] == steps;
    TraceRuns(steps);
    EffectsThen(Trace(steps), TransactionOf(DeskRun(steps), step), KeyOf(c));
  }

  /** The stored reply is a refusal, and the effect has been committed. */
  predicate RefusedYetApplied(steps: seq<DeskStep>, c: Command) {
    RefusedAt(DeskRun(steps).wallet, c) && Effects(Trace(steps), KeyOf(c)) == 1
  }

  lemma RefusedYetAppliedSnoc(steps: seq<DeskStep>, step: DeskStep, c: Command)
    requires CanBeRefused(c)
    ensures RefusedYetApplied(steps + [step], c)
       <==> RefusedYetApplied(steps, c) || CommitsOverRefusal(DeskRun(steps), step, c)
  {
    var d := DeskRun(steps);
    var key := KeyOf(c);
    TraceRuns(steps);
    TraceRuns(steps + [step]);
    DeskRunSnoc(steps, step);
    EveryRunIsValid(Trace(steps));
    EffectsPerKey(Trace(steps), key);
    EffectsPerKey(Trace(steps + [step]), key);
    EveryRowHasReply(Trace(steps), c);
    EffectsSnoc(steps, step, c);
    TakesEffectIff(d, step, c);
    var tx := TransactionOf(d, step);
    if TakesEffect(d, step, c) {
      var own := d.handlers[step.handler].command;
      RefusalSurvivesCommitIff(d.wallet, own, step.reservationId);
    } else if tx.Some? && ReplyKeyOf(c) in d.wallet.replies {
      ReplyStays(d.wallet, tx.value, ReplyKeyOf(c));
    }
  }

  /** The n-th step of the run is a transaction of c's key that commits over a stored refusal. */
  ghost predicate CommitsAt(steps: seq<DeskStep>, n: nat, c: Command) {
    n < |steps| && CommitsOverRefusal(DeskRun(steps[..n]), steps[n], c)
  }

  ghost predicate CommittedOverRefusal(steps: seq<DeskStep>, c: Command) {
    exists n: nat :: CommitsAt(steps, n, c)
  }

  lemma CommitsAtSnoc(steps: seq<DeskStep>, step: DeskStep, n: nat, c: Command)
    ensures CommitsAt(steps + [step], n, c)
       <==> CommitsAt(steps, n, c) || (n == |steps| && CommitsOverRefusal(DeskRun(steps), step, c))
  {
    if n <= |steps| {
      assert (steps + [step])[..n] == steps[..n];
      assert steps[..|steps|] == steps;
    }
  }

  lemma CommittedOverRefusalSnoc(steps: seq<DeskStep>, step: DeskStep, c: Command)
    ensures CommittedOverRefusal(steps + [step], c)
       <==> CommittedOverRefusal(steps, c) || CommitsOverRefusal(DeskRun(steps), step, c)
  {
    forall n: nat
      ensures CommitsAt(steps + [step], n, c)
         <==> CommitsAt(steps, n, c) || (n == |steps| && CommitsOverRefusal(DeskRun(steps), step, c))
    {
      CommitsAtSnoc(steps, step, n, c);
    }
    if CommitsOverRefusal(DeskRun(steps), step, c) {
      assert CommitsAt(steps + [step], |steps|, c);
    }
  }

  /**
   * For every interleaving and every withdrawal or order: the stored reply is a refusal and yet
   * the effect was committed, exactly if some transaction of the key committed at a moment at
   * which a refusal was already stored.
   */
  lemma {:induction false} RefusedYetAppliedIff(steps: seq<DeskStep>, c: Command)
    requires CanBeRefused(c)
    ensures RefusedYetApplied(steps, c) <==> CommittedOverRefusal(steps, c)
  {
    if steps != [] {
      var init, last := steps[..|steps| - 1], steps[|steps| - 1];
      assert steps == init + [last];
      RefusedYetAppliedIff(init, c);
      RefusedYetAppliedSnoc(init, last, c);
      CommittedOverRefusalSnoc(init, last, c);
    }
  }

  // ---- a run in which it happens ----

  lemma BothMiss(c: Command) returns (steps: seq<DeskStep>)
    ensures DeskRun(steps) == Desk(EMPTY_WALLET, map[0 := Missed(c), 1 := Missed(c)])
  {
    DeskRunSnoc([], Receive(0, c));
    assert DeskRun([]) == EMPTY_DESK;
    steps := [] + [Receive(0, c)];
    DeskRunSnoc(steps, Receive(1, c));
    steps := steps + [Receive(1, c)];
    assert DeskRun(steps) == Desk(EMPTY_WALLET, map[0 := Received(c), 1 := Received(c)]);
    DeskRunSnoc(steps, Lookup(0));
    steps := steps + [Lookup(0)];
    DeskRunSnoc(steps, Lookup(1));
    steps := steps + [Lookup(1)];
  }

  /** Two handlers of one withdrawal both miss the reply; the first finds no funds. */
  lemma RefusedWithARivalWaiting(w: Withdraw) returns (steps: seq<DeskStep>)
    requires w.amount > 0
    ensures var c := WithdrawCommand(w);
      var refusal := InsufficientFunds(w.envelope.requestId, w.asset, w.amount, 0);
      DeskRun(steps) == Desk(EMPTY_WALLET.(replies := map[ReplyKeyOf(c) := StoredReply(w.envelope.requestId, refusal)]),
                             map[0 := Answered(c, refusal), 1 := Missed(c)])
  {
    var c := WithdrawCommand(w);
    steps := BothMiss(c);
    DeskRunSnoc(steps, Transact(0, ""));
    steps := steps + [Transact(0, "")];
    assert DeskRun(steps) == Desk(EMPTY_WALLET, map[0 := Refusing(c, 0), 1 := Missed(c)]);
    DeskRunSnoc(steps, StoreRefusal(0));
    steps := steps + [StoreRefusal(0)];
  }

  /** Where a third handler's deposit leaves the desk: funds, and one row of ledger and outbox. */
  ghost predicate Funded(desk: Desk, w: Withdraw, d: Deposit) {
    var c := WithdrawCommand(w);
    var account := Account(w.envelope.user, w.asset);
    && ReplyKeyOf(c) in desk.wallet.replies && desk.wallet.replies[ReplyKeyOf(c)].reply.InsufficientFunds?
    && desk.wallet.collaterals == map[account := Collateral(w.amount, 0)]
    && desk.wallet.ledger.Keys == {LedgerKey(account, "DEPOSIT", d.reference)}
    && desk.wallet.outbox == [NewRow(DepositMessage(d, Collateral(d.amount, 0)))]
    && 1 in desk.handlers && desk.handlers[1] == Missed(c)
  }

  lemma DepositArrives(w: Withdraw, d: Deposit) returns (steps: seq<DeskStep>)
    requires w.amount > 0 && d.amount == w.amount <= I64_MAX
    requires d.asset == w.asset && d.envelope.user == w.envelope.user
    ensures Funded(DeskRun(steps), w, d)
  {
    steps := RefusedWithARivalWaiting(w);
    var refused := DeskRun(steps);
    DeskRunSnoc(steps, Receive(2, DepositCommand(d)));
    steps := steps + [Receive(2, DepositCommand(d))];
    DeskRunSnoc(steps, Lookup(2));
    steps := steps + [Lookup(2)];
    var waiting := DeskRun(steps);
    assert waiting.wallet == refused.wallet && waiting.handlers[2] == Missed(DepositCommand(d));
    EnqueueSingle([], DepositMessage(d, Collateral(d.amount, 0)));
    assert DepositTx(waiting.wallet, d).Ok?;
    DeskRunSnoc(steps, Transact(2, ""));
    steps := steps + [Transact(2, "")];
  }

  lemma FundedWithdrawalCommits(s: WalletState, w: Withdraw, d: Deposit)
    requires w.amount > 0 && d.amount == w.amount <= I64_MAX
    requires s.collaterals == map[Account(w.envelope.user, w.asset) := Collateral(w.amount, 0)]
    requires s.ledger.Keys == {LedgerKey(Account(w.envelope.user, w.asset), "DEPOSIT", d.reference)}
    requires s.outbox == [NewRow(DepositMessage(d, Collateral(d.amount, 0)))]
    ensures WithdrawTx(s, w).Ok?
  {
    EnqueueSingle(s.outbox, WithdrawalMessage(w, Collateral(0, 0)));
    assert FindRow(s.outbox, KeyOf(WithdrawCommand(w))).None?;
  }

  /**
   * A deposit arrives in between, and the rival's withdrawal is applied: the stored reply
   * still says insufficient funds, and later requests are told so.
   */
  lemma RefusalStoredYetApplied(w: Withdraw, d: Deposit) returns (steps: seq<DeskStep>)
    requires w.amount > 0 && d.amount == w.amount <= I64_MAX
    requires d.asset == w.asset && d.envelope.user == w.envelope.user
    ensures var wallet := DeskRun(steps).wallet;
      && ReplyKeyOf(WithdrawCommand(w)) in wallet.replies
      && wallet.replies[ReplyKeyOf(WithdrawCommand(w))].reply.InsufficientFunds?
      && Effects(Trace(steps), KeyOf(WithdrawCommand(w))) == 1
  {
    var c := WithdrawCommand(w);
    steps := DepositArrives(w, d);
    var funded := DeskRun(steps);
    EveryDeskIsOk(steps);
    FundedWithdrawalCommits(funded.wallet, w, d);
    CommittedCommand(funded.wallet, c, "");
    DeskRunSnoc(steps, Transact(1, ""));
    steps := steps + [Transact(1, "")];
    TraceRuns(steps);
    EffectsPerKey(Trace(steps), KeyOf(c));
  }
}
