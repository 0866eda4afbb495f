/**
 * Handlers of client commands. Each looks for a stored reply in one step and runs its
 * transaction in another, so any number of them can race, stop and be redelivered.
 */
module CommandHandlers {
  import opened Common
  import opened WalletTypes
  import opened WalletTransactions
  import opened WalletInvariant
  import opened WalletRuns

  datatype Command =
    | DepositCommand(deposit: Deposit)
    | WithdrawCommand(withdraw: Withdraw)
    | PlaceOrderCommand(intent: PlaceOrderIntent)
    | CancelOrderCommand(cancel: CancelOrderIntent)

  datatype Handler =
    | Received(command: Command)
    | Missed(command: Command)
    | Refusing(command: Command, available: int)
    | Answered(command: Command, reply: WalletReply)
    | Failed(command: Command, error: WalletError)

  datatype Desk = Desk(wallet: WalletState, handlers: map<nat, Handler>)

  datatype DeskStep =
    | Receive(handler: nat, command: Command)
    | Lookup(handler: nat)
    | Transact(handler: nat, reservationId: string)
    | StoreRefusal(handler: nat)
    | Vanish(handler: nat)
    | Background(transaction: WalletAction)

  function EnvelopeOf(c: Command): Envelope {
    match c
    case DepositCommand(d) => d.envelope
    case WithdrawCommand(w) => w.envelope
    case PlaceOrderCommand(intent) => intent.envelope
    case CancelOrderCommand(cancel) => cancel.envelope
  }

  function CommandType(c: Command): string {
    match c
    case DepositCommand(_) => "Deposit"
    case WithdrawCommand(_) => "Withdraw"
    case PlaceOrderCommand(_) => "PlaceOrderIntent"
    case CancelOrderCommand(_) => "CancelOrderIntent"
  }

  function ReplyKeyOf(c: Command): ReplyKey {
    ReplyKey(EnvelopeOf(c).user, CommandType(c), EnvelopeOf(c).idempotencyKey)
  }

  function KeyOf(c: Command): DedupeKey {
    var env := EnvelopeOf(c);
    match c
    case DepositCommand(_) => DepositKey(env.user, env.idempotencyKey)
    case WithdrawCommand(_) => WithdrawalKey(env.user, env.idempotencyKey)
    case PlaceOrderCommand(_) => PlaceOrderKey(env.user, env.idempotencyKey)
    case CancelOrderCommand(_) => CancelOrderKey(env.user, env.idempotencyKey)
  }

  function ActionOf(c: Command, reservationId: string): WalletAction {
    match c
    case DepositCommand(d) => DoDeposit(d)
    case WithdrawCommand(w) => DoWithdraw(w)
    case PlaceOrderCommand(intent) => DoReserve(intent, reservationId)
    case CancelOrderCommand(cancel) => DoCancel(cancel)
  }

  function ReplyTo(s: WalletState, c: Command, reservationId: string): Result<WalletReply, WalletError> {
    match c
    case DepositCommand(d) => var done :- DepositTx(s, d); Ok(done.value)
    case WithdrawCommand(w) => var done :- WithdrawTx(s, w); Ok(done.value)
    case PlaceOrderCommand(intent) => var done :- ReserveTx(s, intent, reservationId); Ok(done.value)
    case CancelOrderCommand(cancel) => var done :- CancelTx(s, cancel); Ok(done.value)
  }

  /** A stored reply is replayed under the request id of the new request. */
  function WithRequestId(reply: WalletReply, requestId: string): WalletReply {
    reply.(requestId := requestId)
  }

  function RefusalAction(c: Command, available: int): WalletAction {
    match c
    case WithdrawCommand(w) => DoRefuse(ReplyKeyOf(c), w.envelope.requestId, w.asset, w.amount, available)
    case PlaceOrderCommand(i) =>
      DoRefuse(ReplyKeyOf(c), i.envelope.requestId, i.marginAsset, i.requiredMargin, available)
    case _ => DoRefuse(ReplyKeyOf(c), EnvelopeOf(c).requestId, USDC, 0, available)
  }

  function RefusalReply(c: Command, available: int): WalletReply {
    var a := RefusalAction(c, available);
    InsufficientFunds(a.requestId, a.asset, a.required, a.available)
  }

  predicate CanBeRefused(c: Command) {
    c.WithdrawCommand? || c.PlaceOrderCommand?
  }

  /** The transactions that engine events and ingress bring. */
  predicate IsBackground(a: WalletAction) {
    a.DoRelease? || a.DoSettle? || a.DoAccountDelta? || a.DoIngress?
  }

  /** The wallet transaction a step runs, if any. */
  function TransactionOf(d: Desk, step: DeskStep): Option<WalletAction> {
    match step
    case Transact(h, id) =>
      if h in d.handlers && d.handlers[h].Missed? then Some(ActionOf(d.handlers[h].command, id)) else None
    case StoreRefusal(h) =>
      if h in d.handlers && d.handlers[h].Refusing?
      then Some(RefusalAction(d.handlers[h].command, d.handlers[h].available))
      else None
    case Background(a) => if IsBackground(a) then Some(a) else None
    case _ => None
  }

  function AfterTransact(s: WalletState, c: Command, reservationId: string): Handler {
    match ReplyTo(s, c, reservationId)
    case Ok(reply) => Answered(c, reply)
    case Err(e) => if e.NotEnough? && CanBeRefused(c) then Refusing(c, e.available) else Failed(c, e)
  }

  function HandlersAfter(d: Desk, step: DeskStep): map<nat, Handler> {
    match step
    case Receive(h, c) => if h in d.handlers then d.handlers else d.handlers[h := Received(c)]
    case Lookup(h) =>
      if h !in d.handlers || !d.handlers[h].Received? then d.handlers else
        var c := d.handlers[h].command;
        if ReplyKeyOf(c) in d.wallet.replies
        then d.handlers[h := Answered(c, WithRequestId(d.wallet.replies[ReplyKeyOf(c)].reply, EnvelopeOf(c).requestId))]
        else d.handlers[h := Missed(c)]
    case Transact(h, id) =>
      if h !in d.handlers || !d.handlers[h].Missed? then d.handlers
      else d.handlers[h := AfterTransact(d.wallet, d.handlers[h].command, id)]
    case StoreRefusal(h) =>
      if h !in d.handlers || !d.handlers[h].Refusing? then d.handlers
      else
        var c := d.handlers[h].command;
        d.handlers[h := Answered(c, RefusalReply(c, d.handlers[h].available))]
    case Vanish(h) => d.handlers - {h}
    case Background(_) => d.handlers
  }

  function NextDesk(d: Desk, step: DeskStep): Desk {
    Desk(NextIf(d.wallet, TransactionOf(d, step)), HandlersAfter(d, step))
  }

  const EMPTY_DESK := Desk(EMPTY_WALLET, map[])

  function DeskRun(steps: seq<DeskStep>): Desk {
    if steps == [] then EMPTY_DESK else NextDesk(DeskRun(steps[..|steps| - 1]), steps[|steps| - 1])
  }

  /** The wallet transactions of a run, in the order in which they committed or failed. */
  function Trace(steps: seq<DeskStep>): seq<WalletAction> {
    if steps == [] then [] else
      var before := steps[..|steps| - 1];
      Then(Trace(before), TransactionOf(DeskRun(before), steps[|steps| - 1]))
  }

  lemma {:induction false} TraceRuns(steps: seq<DeskStep>)
    ensures DeskRun(steps).wallet == Run(EMPTY_WALLET, Trace(steps))
  {
    if steps != [] {
      var before := steps[..|steps| - 1];
      TraceRuns(before);
      RunThen(EMPTY_WALLET, Trace(before), TransactionOf(DeskRun(before), steps[|steps| - 1]));
    }
  }

  lemma DeskRunSnoc(steps: seq<DeskStep>, step: DeskStep)
    ensures DeskRun(steps + [step]) == NextDesk(DeskRun(steps), step)
  {
    assert (steps + [step])[..|steps + [step]| - 1] == steps;
  }

  // ---- what a reply means ----

  predicate IsSuccess(reply: WalletReply) {
    reply.BalanceUpdated? || reply.FundsReserved?
  }

  /**
   * Stored success replies of the three money commands, and every stored deposit reply, have their
   * row in the outbox.
   */
  ghost predicate RepliesBacked(s: WalletState) {
    && (forall key | key in s.replies && key.commandType == "Deposit" ::
          IsSuccess(s.replies[key].reply) && HasKey(s.outbox, DepositKey(key.user, key.idempotencyKey)))
    && (forall key | key in s.replies && key.commandType == "Withdraw" && IsSuccess(s.replies[key].reply) ::
          HasKey(s.outbox, WithdrawalKey(key.user, key.idempotencyKey)))
    && (forall key | key in s.replies && key.commandType == "PlaceOrderIntent" && IsSuccess(s.replies[key].reply) ::
          HasKey(s.outbox, PlaceOrderKey(key.user, key.idempotencyKey)))
  }

  /** A handler that answers success has its row in the outbox. */
  ghost predicate AnswersBacked(d: Desk) {
    forall h | h in d.handlers && d.handlers[h].Answered? && IsSuccess(d.handlers[h].reply)
        && !d.handlers[h].command.CancelOrderCommand? ::
      HasKey(d.wallet.outbox, KeyOf(d.handlers[h].command))
  }

  ghost predicate DeskOk(d: Desk) {
    && Valid(d.wallet)
    && RepliesBacked(d.wallet)
    && AnswersBacked(d)
    && forall h | h in d.handlers && d.handlers[h].Refusing? :: CanBeRefused(d.handlers[h].command)
  }

  lemma KeysStay(s: WalletState, a: WalletAction, key: DedupeKey)
    requires Valid(s) && IsEffectKey(key) && HasKey(s.outbox, key)
    ensures HasKey(Next(s, a).outbox, key)
  {
    StepKeys(s, a, key);
  }

  lemma AllKeysStay(s: WalletState, a: WalletAction)
    requires Valid(s)
    ensures forall key | IsEffectKey(key) && HasKey(s.outbox, key) :: HasKey(Next(s, a).outbox, key)
  {
    forall key | IsEffectKey(key) && HasKey(s.outbox, key) ensures HasKey(Next(s, a).outbox, key) {
      KeysStay(s, a, key);
    }
  }

  /** A transaction that writes no reply keeps the stored ones backed. */
  lemma BackedWithoutReply(s: WalletState, a: WalletAction)
    requires Valid(s) && RepliesBacked(s) && Next(s, a).replies == s.replies
    ensures RepliesBacked(Next(s, a))
  {
    var t := Next(s, a);
    forall key | key in t.replies && key.commandType == "Deposit"
      ensures HasKey(t.outbox, DepositKey(key.user, key.idempotencyKey))
    {
      KeysStay(s, a, DepositKey(key.user, key.idempotencyKey));
    }
    forall key | key in t.replies && key.commandType == "Withdraw" && IsSuccess(t.replies[key].reply)
      ensures HasKey(t.outbox, WithdrawalKey(key.user, key.idempotencyKey))
    {
      KeysStay(s, a, WithdrawalKey(key.user, key.idempotencyKey));
    }
    forall key | key in t.replies && key.commandType == "PlaceOrderIntent" && IsSuccess(t.replies[key].reply)
      ensures HasKey(t.outbox, PlaceOrderKey(key.user, key.idempotencyKey))
    {
      KeysStay(s, a, PlaceOrderKey(key.user, key.idempotencyKey));
    }
  }

  /** The same for one that upserts a reply which is itself backed. */
  lemma BackedWithReply(s: WalletState, a: WalletAction, at: ReplyKey, requestId: string, reply: WalletReply)
    requires Valid(s) && RepliesBacked(s)
    requires Next(s, a).replies == RecordReply(s.replies, at, requestId, reply)
    requires at.commandType == "Deposit" ==>
      IsSuccess(reply) && HasKey(Next(s, a).outbox, DepositKey(at.user, at.idempotencyKey))
    requires at.commandType == "Withdraw" && IsSuccess(reply)
      ==> HasKey(Next(s, a).outbox, WithdrawalKey(at.user, at.idempotencyKey))
    requires at.commandType == "PlaceOrderIntent" && IsSuccess(reply)
      ==> HasKey(Next(s, a).outbox, PlaceOrderKey(at.user, at.idempotencyKey))
    ensures RepliesBacked(Next(s, a))
  {
    var t := Next(s, a);
    forall key | key in t.replies && key.commandType == "Deposit"
      ensures IsSuccess(t.replies[key].reply) && HasKey(t.outbox, DepositKey(key.user, key.idempotencyKey))
    {
      if key in s.replies { KeysStay(s, a, DepositKey(key.user, key.idempotencyKey)); }
    }
    forall key | key in t.replies && key.commandType == "Withdraw" && IsSuccess(t.replies[key].reply)
      ensures HasKey(t.outbox, WithdrawalKey(key.user, key.idempotencyKey))
    {
      if key in s.replies { KeysStay(s, a, WithdrawalKey(key.user, key.idempotencyKey)); }
    }
    forall key | key in t.replies && key.commandType == "PlaceOrderIntent" && IsSuccess(t.replies[key].reply)
      ensures HasKey(t.outbox, PlaceOrderKey(key.user, key.idempotencyKey))
    {
      if key in s.replies { KeysStay(s, a, PlaceOrderKey(key.user, key.idempotencyKey)); }
    }
  }

  /** A committed command has its row in the outbox and its reply recorded. */
  lemma CommittedCommand(s: WalletState, c: Command, id: string)
    requires Valid(s) && ReplyTo(s, c, id).Ok?
    ensures var t := Next(s, ActionOf(c, id));
      && t.replies == RecordReply(s.replies, ReplyKeyOf(c), EnvelopeOf(c).requestId, ReplyTo(s, c, id).value)
      && (!c.CancelOrderCommand? ==> IsSuccess(ReplyTo(s, c, id).value) && HasKey(t.outbox, KeyOf(c)))
      && (c.CancelOrderCommand? ==> !IsSuccess(ReplyTo(s, c, id).value))
  {
    if !c.CancelOrderCommand? {
      StepKeys(s, ActionOf(c, id), KeyOf(c));
    }
  }

  /** A command's reply and its transaction fail together. */
  lemma FailedCommand(s: WalletState, c: Command, id: string)
    requires ReplyTo(s, c, id).Err?
    ensures Next(s, ActionOf(c, id)) == s
  {
  }

  lemma OthersBacked(d: Desk, t: Desk, h: nat)
    requires AnswersBacked(d)
    requires forall key | IsEffectKey(key) && HasKey(d.wallet.outbox, key) :: HasKey(t.wallet.outbox, key)
    requires forall k | k in t.handlers && k != h :: k in d.handlers && t.handlers[k] == d.handlers[k]
    requires h in t.handlers && t.handlers[h].Answered? && IsSuccess(t.handlers[h].reply)
        && !t.handlers[h].command.CancelOrderCommand?
      ==> HasKey(t.wallet.outbox, KeyOf(t.handlers[h].command))
    ensures AnswersBacked(t)
  {
  }

  lemma CommitOk(d: Desk, h: nat, id: string)
    requires DeskOk(d) && h in d.handlers && d.handlers[h].Missed?
    requires ReplyTo(d.wallet, d.handlers[h].command, id).Ok?
    ensures DeskOk(NextDesk(d, Transact(h, id)))
  {
    var c := d.handlers[h].command;
    var a := ActionOf(c, id);
    var t := NextDesk(d, Transact(h, id));
    assert t.wallet == Next(d.wallet, a);
    CommittedCommand(d.wallet, c, id);
    StepFacts(d.wallet, a);
    BackedWithReply(d.wallet, a, ReplyKeyOf(c), EnvelopeOf(c).requestId, ReplyTo(d.wallet, c, id).value);
    AllKeysStay(d.wallet, a);
    OthersBacked(d, t, h);
  }

  lemma TransactOk(d: Desk, h: nat, id: string)
    requires DeskOk(d) && h in d.handlers && d.handlers[h].Missed?
    ensures DeskOk(NextDesk(d, Transact(h, id)))
  {
    if ReplyTo(d.wallet, d.handlers[h].command, id).Ok? {
      CommitOk(d, h, id);
    } else {
      FailedCommand(d.wallet, d.handlers[h].command, id);
      assert NextDesk(d, Transact(h, id)).wallet == d.wallet;
      OthersBacked(d, NextDesk(d, Transact(h, id)), h);
    }
  }

  lemma StoreRefusalOk(d: Desk, h: nat)
    requires DeskOk(d) && h in d.handlers && d.handlers[h].Refusing?
    ensures DeskOk(NextDesk(d, StoreRefusal(h)))
  {
    var c := d.handlers[h].command;
    var a := RefusalAction(c, d.handlers[h].available);
    var t := NextDesk(d, StoreRefusal(h));
    StepFacts(d.wallet, a);
    AllKeysStay(d.wallet, a);
    BackedWithReply(d.wallet, a, ReplyKeyOf(c), a.requestId, RefusalReply(c, d.handlers[h].available));
    OthersBacked(d, t, h);
  }

  /** Engine events and ingress write no replies. */
  lemma BackgroundWritesNoReply(s: WalletState, a: WalletAction)
    requires IsBackground(a)
    ensures Next(s, a).replies == s.replies
  {
  }

  lemma StepIsValid(s: WalletState, a: WalletAction)
    requires Valid(s)
    ensures Valid(Next(s, a))
  {
    StepFacts(s, a);
  }

  lemma BackgroundOk(d: Desk, a: WalletAction)
    requires DeskOk(d) && IsBackground(a)
    ensures DeskOk(NextDesk(d, Background(a)))
  {
    var t := NextDesk(d, Background(a));
    assert t.wallet == Next(d.wallet, a) && t.handlers == d.handlers;
    BackgroundWritesNoReply(d.wallet, a);
    StepIsValid(d.wallet, a);
    AllKeysStay(d.wallet, a);
    BackedWithoutReply(d.wallet, a);
    SameHandlersBacked(d, t);
  }

  lemma SameHandlersBacked(d: Desk, t: Desk)
    requires AnswersBacked(d) && t.handlers == d.handlers
    requires forall key | IsEffectKey(key) && HasKey(d.wallet.outbox, key) :: HasKey(t.wallet.outbox, key)
    ensures AnswersBacked(t)
  {
    forall h | h in t.handlers && t.handlers[h].Answered? && IsSuccess(t.handlers[h].reply)
        && !t.handlers[h].command.CancelOrderCommand?
      ensures HasKey(t.wallet.outbox, KeyOf(t.handlers[h].command))
    {
      assert IsEffectKey(KeyOf(t.handlers[h].command));
    }
  }

  lemma DeskStepOk(d: Desk, step: DeskStep)
    requires DeskOk(d)
    ensures DeskOk(NextDesk(d, step))
  {
    if TransactionOf(d, step).Some? {
      match step
      case Transact(h, id) => TransactOk(d, h, id);
      case StoreRefusal(h) => StoreRefusalOk(d, h);
      case Background(a) => BackgroundOk(d, a);
      case _ =>
    } else if step.Lookup? {
      OthersBacked(d, NextDesk(d, step), step.handler);
    }
  }

  lemma {:induction false} EveryDeskIsOk(steps: seq<DeskStep>)
    ensures DeskOk(DeskRun(steps))
  {
    if steps == [] {
      EmptyIsValid();
    } else {
      EveryDeskIsOk(steps[..|steps| - 1]);
      DeskStepOk(DeskRun(steps[..|steps| - 1]), steps[|steps| - 1]);
    }
  }

  /**
   * However the handlers of one (user, command type, key) interleave, stop and are redelivered:
   * their effect is committed at most once, and every one of them that answers success
   * answers for an effect that was committed exactly once.
   */
  lemma AtMostOneEffect(steps: seq<DeskStep>, c: Command)
    requires !c.CancelOrderCommand?
    ensures Effects(Trace(steps), KeyOf(c)) <= 1
    ensures forall h | h in DeskRun(steps).handlers && DeskRun(steps).handlers[h].Answered?
              && !DeskRun(steps).handlers[h].command.CancelOrderCommand?
              && KeyOf(DeskRun(steps).handlers[h].command) == KeyOf(c)
              && IsSuccess(DeskRun(steps).handlers[h].reply) ::
              Effects(Trace(steps), KeyOf(c)) == 1
  {
    TraceRuns(steps);
    EffectsPerKey(Trace(steps), KeyOf(c));
    EveryDeskIsOk(steps);
  }

  /** A stored success reply stands for exactly one effect; for deposits, every stored reply does. */
  lemma StoredSuccessMeansOneEffect(steps: seq<DeskStep>, c: Command)
    requires !c.CancelOrderCommand?
    requires ReplyKeyOf(c) in DeskRun(steps).wallet.replies
    requires c.DepositCommand? || IsSuccess(DeskRun(steps).wallet.replies[ReplyKeyOf(c)].reply)
    ensures Effects(Trace(steps), KeyOf(c)) == 1
  {
    TraceRuns(steps);
    EffectsPerKey(Trace(steps), KeyOf(c));
    EveryDeskIsOk(steps);
  }
}
