/** Runs of wallet transactions: any number of them, in any order, from an empty database. */
module WalletRuns {
  import opened Common
  import opened WalletTypes
  import opened WalletTransactions
  import opened LedgerProcessor
  import opened WalletInvariant

  datatype WalletAction =
    | DoDeposit(deposit: Deposit)
    | DoWithdraw(withdraw: Withdraw)
    | DoReserve(intent: PlaceOrderIntent, reservationId: string)
    | DoCancel(cancel: CancelOrderIntent)
    | DoRefuse(key: ReplyKey, requestId: string, asset: Asset, required: int, available: int)
    | DoRelease(release: ReleaseReservation)
    | DoSettle(settle: SettleTrade)
    | DoAccountDelta(delta: AccountDelta)
    | DoIngress(text: string, marketId: int, partition: Option<int>)

  function Attempt(s: WalletState, a: WalletAction): Result<WalletState, WalletError> {
    match a
    case DoDeposit(d) => var done :- DepositTx(s, d); Ok(done.state)
    case DoWithdraw(w) => var done :- WithdrawTx(s, w); Ok(done.state)
    case DoReserve(intent, id) => var done :- ReserveTx(s, intent, id); Ok(done.state)
    case DoCancel(c) => var done :- CancelTx(s, c); Ok(done.state)
    case DoRefuse(key, requestId, asset, required, available) =>
      Ok(RecordReplyTx(s, key, requestId, InsufficientFunds(requestId, asset, required, available)))
    case DoRelease(r) => var done :- ReleaseTx(s, r); Ok(done.state)
    case DoSettle(t) => var done :- SettleTx(s, t); Ok(done.state)
    case DoAccountDelta(d) => var done :- AccountDeltaTx(s, d); Ok(done.state)
    case DoIngress(text, market, partition) => var done :- IngressTx(s, text, market, partition); Ok(done.state)
  }

  /** A transaction that fails leaves the tables as they were. */
  function Next(s: WalletState, a: WalletAction): WalletState {
    match Attempt(s, a)
    case Ok(t) => t
    case Err(_) => s
  }

  function Run(s: WalletState, actions: seq<WalletAction>): WalletState {
    if actions == [] then s
    else Next(Run(s, actions[..|actions| - 1]), actions[|actions| - 1])
  }

  /** A step of a machine that may or may not run a transaction. */
  function NextIf(s: WalletState, tx: Option<WalletAction>): WalletState {
    match tx
    case Some(a) => Next(s, a)
    case None => s
  }

  function Then(actions: seq<WalletAction>, tx: Option<WalletAction>): seq<WalletAction> {
    if tx.Some? then actions + [tx.value] else actions
  }

  lemma RunThen(s: WalletState, actions: seq<WalletAction>, tx: Option<WalletAction>)
    ensures Run(s, Then(actions, tx)) == NextIf(Run(s, actions), tx)
  {
    if tx.Some? {
      assert (actions + [tx.value])[..|actions|] == actions;
    }
  }

  /** The wallet event of an action that commits a change of balances or reservations. */
  function Effect(s: WalletState, a: WalletAction): Option<Message> {
    if Attempt(s, a).Err? then None else
      match a
      case DoDeposit(d) => Some(DepositMessage(d,
        BalanceRow(Next(s, a).collaterals, Account(d.envelope.user, d.asset))))
      case DoWithdraw(w) => Some(WithdrawalMessage(w,
        BalanceRow(Next(s, a).collaterals, Account(w.envelope.user, w.asset))))
      case DoReserve(intent, id) => Some(ReservedMessage(intent, id))
      case DoRelease(r) =>
        if r.reservationId in s.reservations then Some(ReleasedMessage(r, s.reservations[r.reservationId].account))
          else None
      case DoSettle(t) =>
        if t.reservationId in s.reservations
          then Some(SettledMessage(t, s.reservations[t.reservationId].account.user)) else None
      case DoAccountDelta(d) =>
        (match AccountDeltaTx(s, d).value.value
         case None => None
         case Some(row) => Some(AccountDeltaMessage(d, row)))
      case _ => None
  }

  predicate HasKey(outbox: seq<OutboxRow>, key: DedupeKey) {
    FindRow(outbox, key).Some?
  }

  /** A release that the reservation covers although the same (reservation, reason, amount) was released before. */
  predicate RepeatsRelease(s: WalletState, a: WalletAction) {
    && a.DoRelease? && a.release.reservationId in s.reservations
    && s.reservations[a.release.reservationId].status.Active?
    && 0 < a.release.amount <= s.reservations[a.release.reservationId].remaining
    && HasKey(s.outbox, ReleasedKey(a.release.reservationId, a.release.reason, a.release.amount))
  }

  /** The rows an action appends to the outbox. */
  function NewMessages(s: WalletState, a: WalletAction): seq<Message> {
    match Effect(s, a)
    case Some(m) =>
      if RepeatsRelease(s, a) then []
      else if a.DoReserve? then [m, PlaceOrderMessage(a.intent, a.reservationId)]
      else [m]
    case None =>
      if |Next(s, a).outbox| == |s.outbox| then []
      else if a.DoCancel? then [CancelMessage(a.cancel)]
      else if a.DoIngress? then [IngressMessage(a.text, a.marketId, a.partition)]
      else []
  }

  function Rows(messages: seq<Message>): seq<OutboxRow> {
    seq(|messages|, i requires 0 <= i < |messages| => NewRow(messages[i]))
  }

  /**
   * The invariant is kept, the balances move by exactly what the event announces, and the
   * outbox gains exactly the new messages, all with new keys.
   */
  ghost predicate StepOk(s: WalletState, a: WalletAction) {
    var t := Next(s, a);
    && Valid(t)
    && t.outbox == s.outbox + Rows(NewMessages(s, a))
    && (forall m | m in NewMessages(s, a) :: !HasKey(s.outbox, m.dedupeKey))
    && (match Effect(s, a)
        case Some(m) => MovesBy(s, t, m)
        case None => SameBalances(s, t))
  }

  lemma RowsOfOne(m: Message)
    ensures Rows([m]) == [NewRow(m)]
  {
  }

  lemma RowsOfNone(outbox: seq<OutboxRow>)
    ensures outbox + Rows([]) == outbox
  {
  }

  /** An effect that adds just its own event. */
  lemma OneEvent(s: WalletState, a: WalletAction, m: Message)
    requires !a.DoReserve? && !a.DoRelease?
    requires Effect(s, a) == Some(m) && Valid(Next(s, a))
    requires Next(s, a).outbox == s.outbox + [NewRow(m)] && !HasKey(s.outbox, m.dedupeKey)
    requires MovesBy(s, Next(s, a), m)
    ensures StepOk(s, a)
  {
    RowsOfOne(m);
  }

  lemma NoEvent(s: WalletState, a: WalletAction)
    requires Effect(s, a).None? && Valid(Next(s, a)) && Next(s, a).outbox == s.outbox
    requires Next(s, a).collaterals == s.collaterals
    ensures StepOk(s, a)
  {
    RowsOfNone(s.outbox);
  }

  lemma ReserveFacts(s: WalletState, intent: PlaceOrderIntent, id: string)
    requires Valid(s) && ReserveTx(s, intent, id).Ok?
    ensures StepOk(s, DoReserve(intent, id))
  {
    ReserveStep(s, intent, id);
    var messages := [ReservedMessage(intent, id), PlaceOrderMessage(intent, id)];
    assert NewMessages(s, DoReserve(intent, id)) == messages;
    assert Rows(messages) == [NewRow(messages[0]), NewRow(messages[1])];
  }

  lemma ReleaseFacts(s: WalletState, release: ReleaseReservation)
    requires Valid(s) && ReleaseTx(s, release).Ok?
    ensures StepOk(s, DoRelease(release))
  {
    ReleaseStep(s, release);
    RowsOfOne(ReleasedMessage(release, s.reservations[release.reservationId].account));
    RowsOfNone(s.outbox);
  }

  /** One message for the engine, or none when it is in the outbox already. */
  lemma EngineMessageOnly(s: WalletState, a: WalletAction, m: Message)
    requires (a.DoIngress? && m == IngressMessage(a.text, a.marketId, a.partition))
          || (a.DoCancel? && m == CancelMessage(a.cancel))
    requires Valid(Next(s, a)) && Next(s, a).collaterals == s.collaterals
    requires Next(s, a).outbox == s.outbox
          || (!HasKey(s.outbox, m.dedupeKey) && Next(s, a).outbox == s.outbox + [NewRow(m)])
    ensures StepOk(s, a)
  {
    RowsOfOne(m);
    RowsOfNone(s.outbox);
  }

  /** One transaction, whichever it is. */
  lemma StepFacts(s: WalletState, a: WalletAction)
    requires Valid(s)
    ensures StepOk(s, a)
  {
    if Attempt(s, a).Err? {
      NoEvent(s, a);
    } else {
      match a
      case DoDeposit(d) =>
        DepositStep(s, d);
        OneEvent(s, a, Effect(s, a).value);
      case DoWithdraw(w) =>
        WithdrawStep(s, w);
        OneEvent(s, a, Effect(s, a).value);
      case DoReserve(intent, id) =>
        ReserveFacts(s, intent, id);
      case DoCancel(c) =>
        CancelStep(s, c);
        EngineMessageOnly(s, a, CancelMessage(c));
      case DoRefuse(_, _, _, _, _) =>
        KeepVouched(s, Next(s, a));
        NoEvent(s, a);
      case DoRelease(r) =>
        ReleaseFacts(s, r);
      case DoSettle(x) =>
        SettleStep(s, x);
        OneEvent(s, a, Effect(s, a).value);
      case DoAccountDelta(d) =>
        AccountDeltaStep(s, d);
        if Effect(s, a).Some? {
          OneEvent(s, a, Effect(s, a).value);
        } else {
          NoEvent(s, a);
        }
      case DoIngress(text, market, partition) =>
        IngressStep(s, text, market, partition);
        EngineMessageOnly(s, a, IngressMessage(text, market, partition));
    }
  }

  /** Wallet safety in every reachable state. */
  lemma {:induction false} EveryRunIsValid(actions: seq<WalletAction>)
    ensures Valid(Run(EMPTY_WALLET, actions))
  {
    if actions == [] {
      EmptyIsValid();
    } else {
      EveryRunIsValid(actions[..|actions| - 1]);
      StepFacts(Run(EMPTY_WALLET, actions[..|actions| - 1]), actions[|actions| - 1]);
    }
  }

  // ---- when exactly a command of a client commits ----

  /** What of an account is not locked. */
  function Free(s: WalletState, account: Account): int {
    BalanceOf(s, account, Total) - BalanceOf(s, account, Locked)
  }

  /** A deposit needs a new reference, a new idempotency key and room in the column. */
  lemma DepositCommitsIff(s: WalletState, d: Deposit)
    requires Valid(s)
    ensures var account := Account(d.envelope.user, d.asset);
      DepositTx(s, d).Ok? <==>
        && 0 <= d.amount && BalanceOf(s, account, Total) + d.amount <= I64_MAX
        && LedgerKey(account, "DEPOSIT", d.reference) !in s.ledger
        && !HasKey(s.outbox, DepositKey(d.envelope.user, d.envelope.idempotencyKey))
  {
    StoredRowIsVouched(s, DepositKey(d.envelope.user, d.envelope.idempotencyKey));
    var collaterals := Credit(s.collaterals, Account(d.envelope.user, d.asset), d.amount);
    if collaterals.Ok? {
      EnqueueSingle(s.outbox, DepositMessage(d, collaterals.value[Account(d.envelope.user, d.asset)]));
    }
  }

  /**
   * A withdrawal, beyond the funds, needs a new idempotency key. It is short of funds exactly
   * where too little is free.
   */
  lemma WithdrawCommitsIff(s: WalletState, w: Withdraw)
    requires Valid(s)
    ensures var account := Account(w.envelope.user, w.asset);
      && (WithdrawTx(s, w).Ok? <==>
            && account in s.collaterals && w.amount <= Free(s, account)
            && BalanceOf(s, account, Total) - w.amount <= I64_MAX
            && LedgerKey(account, "WITHDRAW", w.envelope.idempotencyKey) !in s.ledger
            && !HasKey(s.outbox, WithdrawalKey(w.envelope.user, w.envelope.idempotencyKey)))
      && (forall n :: WithdrawTx(s, w) == Err(NotEnough(n)) <==>
            (account !in s.collaterals || Free(s, account) < w.amount) && n == Free(s, account))
  {
    var account := Account(w.envelope.user, w.asset);
    StoredRowIsVouched(s, WithdrawalKey(w.envelope.user, w.envelope.idempotencyKey));
    if account in s.collaterals {
      EnqueueSingle(s.outbox, WithdrawalMessage(w, Collateral(s.collaterals[account].total - w.amount,
        s.collaterals[account].locked)));
    }
  }

  /** Another reservation of the user under the same idempotency key. */
  ghost predicate KeyTaken(s: WalletState, user: int, idempotencyKey: string) {
    exists id :: id in s.reservations && s.reservations[id].account.user == user
      && s.reservations[id].idempotencyKey == idempotencyKey
  }

  /** An order, beyond the funds, needs a positive margin, a fresh reservation id and a new idempotency key. */
  lemma ReserveCommitsIff(s: WalletState, intent: PlaceOrderIntent, id: string)
    requires Valid(s)
    ensures var account := Account(intent.envelope.user, intent.marginAsset);
      && (ReserveTx(s, intent, id).Ok? <==>
            && account in s.collaterals && 0 < intent.requiredMargin <= Free(s, account)
            && id !in s.reservations && !KeyTaken(s, intent.envelope.user, intent.envelope.idempotencyKey))
      && (forall n :: ReserveTx(s, intent, id) == Err(NotEnough(n)) <==>
            (account !in s.collaterals || Free(s, account) < intent.requiredMargin) && n == Free(s, account))
  {
    var m, n := ReservedMessage(intent, id), PlaceOrderMessage(intent, id);
    StoredRowIsVouched(s, m.dedupeKey);
    StoredRowIsVouched(s, n.dedupeKey);
    if id !in s.reservations && !KeyTaken(s, intent.envelope.user, intent.envelope.idempotencyKey) {
      EnqueueTwoNew(s.outbox, m, n);
    }
  }

  lemma EnqueueTwoNew(outbox: seq<OutboxRow>, m: Message, n: Message)
    requires FindRow(outbox, m.dedupeKey).None? && FindRow(outbox, n.dedupeKey).None? && m.dedupeKey != n.dedupeKey
    ensures Enqueue(outbox, [m, n]).Ok?
  {
    assert [m, n][1..] == [n];
    FindRowAppend(outbox, NewRow(m), n.dedupeKey);
    EnqueueSingle(outbox + [NewRow(m)], n);
  }

  // ---- when exactly a transaction of an engine event commits ----

  /** Nothing but the reservation decides whether a release commits: its UPDATEs never miss or fail. */
  lemma ReleaseCommitsIff(s: WalletState, release: ReleaseReservation)
    requires Valid(s)
    ensures ReleaseTx(s, release).Ok? <==>
      && release.reservationId in s.reservations
      && s.reservations[release.reservationId].status.Active?
      && 0 < release.amount <= s.reservations[release.reservationId].remaining
  {
    if release.reservationId in s.reservations {
      var r := s.reservations[release.reservationId];
      EnqueueSingle(s.outbox, ReleasedMessage(release, r.account));
      StoredRowIsVouched(s, ReleasedMessage(release, r.account).dedupeKey);
      if r.status.Active? {
        RemainderIsLocked(s, release.reservationId);
      }
    }
  }

  /** Beyond the reservation, a settlement needs unused ledger keys and a credit that the column can hold. */
  lemma SettleCommitsIff(s: WalletState, settle: SettleTrade)
    requires Valid(s)
    ensures SettleTx(s, settle).Ok? <==>
      && settle.reservationId in s.reservations
      && var r := s.reservations[settle.reservationId];
      var credit := Account(r.account.user, settle.creditAsset);
      && r.status.Active?
      && r.account.asset == settle.debitAsset
      && 0 < settle.debitAmount <= r.remaining
      && LedgerKey(r.account, "TRADE_DEBIT", Decimal(settle.fillId)) !in s.ledger
      && LedgerKey(credit, "TRADE_CREDIT", Decimal(settle.fillId)) !in s.ledger
      && 0 <= settle.creditAmount <= I64_MAX
      && BalanceOf(s, credit, Total) - (if settle.creditAsset == settle.debitAsset then settle.debitAmount else 0)
        + settle.creditAmount <= I64_MAX
  {
    if settle.reservationId in s.reservations {
      var r := s.reservations[settle.reservationId];
      var m := SettledMessage(settle, r.account.user);
      EnqueueSingle(s.outbox, m);
      StoredRowIsVouched(s, m.dedupeKey);
      if r.status.Active? && r.account.asset == settle.debitAsset && 0 < settle.debitAmount <= r.remaining {
        assert r.account == Account(r.account.user, settle.debitAsset);
        RemainderIsLocked(s, settle.reservationId);
        SettleCollateralOkIff(s.collaterals, r.account.user, settle);
      }
    }
  }

  lemma SettleCollateralOkIff(table: map<Account, Collateral>, user: int, settle: SettleTrade)
    requires RowsOk(table)
    requires Account(user, settle.debitAsset) in table
      && table[Account(user, settle.debitAsset)].locked >= settle.debitAmount > 0
    ensures SettleCollateral(table, user, settle).Ok? <==>
      && 0 <= settle.creditAmount <= I64_MAX
      && BalanceRow(table, Account(user, settle.creditAsset)).total
         - (if settle.creditAsset == settle.debitAsset then settle.debitAmount else 0) + settle.creditAmount <= I64_MAX
  {
  }

  /**
   * An account delta takes effect only if it adds: the guard of the upsert's DO UPDATE,
   * written for debits too, is never reached by one.
   */
  lemma AccountDeltaTakesEffectIff(s: WalletState, d: AccountDelta)
    requires Valid(s)
    ensures Effect(s, DoAccountDelta(d)).Some? <==>
      && !(d.totalDelta == 0 && d.lockedDelta == 0)
      && LedgerKey(Account(d.user, d.asset), d.kind, d.reference) !in s.ledger
      && 0 <= d.lockedDelta <= d.totalDelta
      && BalanceOf(s, Account(d.user, d.asset), Total) + d.totalDelta <= I64_MAX
  {
    var account := Account(d.user, d.asset);
    if Attempt(s, DoAccountDelta(d)).Ok? {
      AccountDeltaStep(s, d);
    }
    StoredRowIsVouched(s, AccountDeltaKey(d.kind, d.reference, d.user, d.asset));
    if UpsertDelta(s.collaterals, account, d.totalDelta, d.lockedDelta).Ok? {
      var row := UpsertDelta(s.collaterals, account, d.totalDelta, d.lockedDelta).value[account];
      EnqueueSingle(s.outbox, AccountDeltaMessage(d, row));
    }
  }

  /**
   * The upsert that the DO UPDATE guard describes: the existing row plus the delta, whatever
   * its sign, as long as the result satisfies the constraints.
   */
  function IntendedUpsert(table: map<Account, Collateral>, account: Account, totalDelta: int, lockedDelta: int)
    : Result<map<Account, Collateral>, WalletError>
  {
    var was := BalanceRow(table, account);
    var row := Collateral(was.total + totalDelta, was.locked + lockedDelta);
    if 0 <= row.locked <= row.total then Write(table, account, row) else Err(InvalidAccountDelta)
  }

  /** The statement does what its guard describes exactly when the delta is no debit, or is refused anyway. */
  lemma UpsertIsIntendedIff(table: map<Account, Collateral>, account: Account, totalDelta: int, lockedDelta: int)
    requires RowsOk(table)
    requires totalDelta <= I64_MAX
    ensures UpsertDelta(table, account, totalDelta, lockedDelta)
      == IntendedUpsert(table, account, totalDelta, lockedDelta)
      <==> (0 <= lockedDelta <= totalDelta
            || !(0 <= BalanceRow(table, account).locked + lockedDelta <= BalanceRow(table, account).total + totalDelta))
  {
  }

  // ---- at most one effect per key ----

  /** The keys an action's effect is known under. */
  function EffectKeys(a: WalletAction): set<DedupeKey> {
    match a
    case DoDeposit(d) => {DepositKey(d.envelope.user, d.envelope.idempotencyKey)}
    case DoWithdraw(w) => {WithdrawalKey(w.envelope.user, w.envelope.idempotencyKey)}
    case DoReserve(intent, id) => {PlaceOrderKey(intent.envelope.user, intent.envelope.idempotencyKey), ReservedKey(id)}
    case DoRelease(r) => {ReleasedKey(r.reservationId, r.reason, r.amount)}
    case DoSettle(t) => {SettledKey(t.fillId, t.reservationId)}
    case DoAccountDelta(d) => {AccountDeltaKey(d.kind, d.reference, d.user, d.asset)}
    case _ => {}
  }

  /** How many actions of a run committed an effect under the key. */
  function Effects(actions: seq<WalletAction>, key: DedupeKey): nat {
    if actions == [] then 0 else
      var before := actions[..|actions| - 1];
      var a := actions[|actions| - 1];
      Effects(before, key) + (if key in EffectKeys(a) && Effect(Run(EMPTY_WALLET, before), a).Some? then 1 else 0)
  }

  lemma EffectsThen(actions: seq<WalletAction>, tx: Option<WalletAction>, key: DedupeKey)
    ensures Effects(Then(actions, tx), key) == Effects(actions, key)
      + if tx.Some? && key in EffectKeys(tx.value) && Effect(Run(EMPTY_WALLET, actions), tx.value).Some? then 1 else 0
  {
    if tx.Some? {
      assert (actions + [tx.value])[..|actions|] == actions;
    }
  }

  predicate IsEffectKey(key: DedupeKey) {
    !key.CancelOrderKey? && !key.IngressKey?
  }

  lemma {:induction false} HasKeyAppend(outbox: seq<OutboxRow>, messages: seq<Message>, key: DedupeKey)
    ensures HasKey(outbox + Rows(messages), key) <==>
      HasKey(outbox, key) || exists m :: m in messages && m.dedupeKey == key
  {
    if |messages| == 0 {
      assert outbox + Rows(messages) == outbox;
    } else {
      var rest := messages[..|messages| - 1];
      HasKeyAppend(outbox, rest, key);
      var all := outbox + Rows(messages);
      assert all[..|all| - 1] == outbox + Rows(rest);
    }
  }

  /** The effect keys of the new messages are those of the action, if it took effect. */
  lemma NewKeys(s: WalletState, a: WalletAction, key: DedupeKey)
    requires IsEffectKey(key)
    ensures (exists m :: m in NewMessages(s, a) && m.dedupeKey == key)
      <==> key in EffectKeys(a) && Effect(s, a).Some? && !RepeatsRelease(s, a)
  {
    if Effect(s, a).Some? && !RepeatsRelease(s, a) {
      var m := Effect(s, a).value;
      assert m in NewMessages(s, a);
      if a.DoReserve? {
        assert PlaceOrderMessage(a.intent, a.reservationId) in NewMessages(s, a);
      }
    }
  }

  /** A key is in the outbox afterwards iff it was there before or the action took effect under it. */
  lemma StepKeys(s: WalletState, a: WalletAction, key: DedupeKey)
    requires Valid(s) && IsEffectKey(key)
    ensures HasKey(Next(s, a).outbox, key) <==> HasKey(s.outbox, key) || (key in EffectKeys(a) && Effect(s, a).Some?)
    ensures key in EffectKeys(a) && Effect(s, a).Some? && HasKey(s.outbox, key) ==> key.ReleasedKey?
  {
    StepFacts(s, a);
    HasKeyAppend(s.outbox, NewMessages(s, a), key);
    NewKeys(s, a, key);
  }

  /**
   * However many handlers deliver, redeliver and race for a key, its effect is committed at
   * most once, and exactly once iff its row is in the outbox. A release can commit again;
   * for it only "at least once" is equivalent to the row.
   */
  lemma {:induction false} EffectsPerKey(actions: seq<WalletAction>, key: DedupeKey)
    requires IsEffectKey(key)
    ensures var stored := HasKey(Run(EMPTY_WALLET, actions).outbox, key);
      && (stored <==> Effects(actions, key) >= 1)
      && (!key.ReleasedKey? ==> Effects(actions, key) <= 1)
  {
    if actions != [] {
      var before := actions[..|actions| - 1];
      EffectsPerKey(before, key);
      EveryRunIsValid(before);
      StepKeys(Run(EMPTY_WALLET, before), actions[|actions| - 1], key);
    }
  }

  // ---- redelivery ----

  /** No transaction removes a ledger row, or a reservation, or gives a reservation to another account. */
  lemma NextGrows(s: WalletState, a: WalletAction)
    ensures Grows(s, Next(s, a))
  {
  }

  lemma {:induction false} RunGrows(s: WalletState, actions: seq<WalletAction>)
    ensures Grows(s, Run(s, actions))
  {
    if actions != [] {
      RunGrows(s, actions[..|actions| - 1]);
      NextGrows(Run(s, actions[..|actions| - 1]), actions[|actions| - 1]);
    }
  }

  /** A settlement that has committed is refused by every later state, whatever happened in between. */
  lemma RedeliveredSettlementIsRefused(s: WalletState, settle: SettleTrade, between: seq<WalletAction>)
    requires SettleTx(s, settle).Ok?
    ensures SettleTx(Run(Next(s, DoSettle(settle)), between), settle).Err?
  {
    var t := Next(s, DoSettle(settle));
    RunGrows(t, between);
    assert LedgerKey(Account(s.reservations[settle.reservationId].account.user, settle.debitAsset),
      "TRADE_DEBIT", Decimal(settle.fillId)) in t.ledger;
  }

  /** An account delta that has taken effect is accepted again, and ignored, by every later state. */
  lemma RedeliveredDeltaIsIgnored(s: WalletState, d: AccountDelta, between: seq<WalletAction>)
    requires Effect(s, DoAccountDelta(d)).Some?
    ensures var t := Run(Next(s, DoAccountDelta(d)), between);
      AccountDeltaTx(t, d) == Ok(Done(t, None))
  {
    RunGrows(Next(s, DoAccountDelta(d)), between);
  }

  lemma {:induction false} RunKeepsKeys(s: WalletState, actions: seq<WalletAction>, key: DedupeKey)
    requires Valid(s) && IsEffectKey(key) && HasKey(s.outbox, key)
    ensures Valid(Run(s, actions)) && HasKey(Run(s, actions).outbox, key)
  {
    if actions != [] {
      var before := Run(s, actions[..|actions| - 1]);
      RunKeepsKeys(s, actions[..|actions| - 1], key);
      StepFacts(before, actions[|actions| - 1]);
      StepKeys(before, actions[|actions| - 1], key);
    }
  }

  /**
   * However much later a committed release comes again, it commits again, repeating its key,
   * exactly if the reservation is still active and what remains then covers it; at once, exactly
   * if what remained before was twice the amount.
   */
  lemma RedeliveredReleaseCommitsIff(s: WalletState, release: ReleaseReservation, between: seq<WalletAction>)
    requires Valid(s) && ReleaseTx(s, release).Ok?
    ensures var t := Run(Next(s, DoRelease(release)), between);
      && release.reservationId in t.reservations
      && var r := t.reservations[release.reservationId];
      && (ReleaseTx(t, release).Ok? <==> r.status.Active? && release.amount <= r.remaining)
      && (ReleaseTx(t, release).Ok? <==> RepeatsRelease(t, DoRelease(release)))
    ensures ReleaseTx(Next(s, DoRelease(release)), release).Ok?
      <==> 2 * release.amount <= s.reservations[release.reservationId].remaining
  {
    var n := Next(s, DoRelease(release));
    var key := ReleasedKey(release.reservationId, release.reason, release.amount);
    ReleaseStep(s, release);
    ReleaseCommitsIff(s, release);
    StepKeys(s, DoRelease(release), key);
    RunGrows(n, between);
    RunKeepsKeys(n, between, key);
    ReleaseCommitsIff(Run(n, between), release);
    ReleaseCommitsIff(n, release);
  }

  // ---- stored replies ----

  ghost predicate OneReply(before: map<ReplyKey, StoredReply>, after: map<ReplyKey, StoredReply>) {
    exists key, requestId, reply :: after == RecordReply(before, key, requestId, reply)
  }

  lemma RepliesOfDeposit(s: WalletState, d: Deposit)
    requires DepositTx(s, d).Ok?
    ensures OneReply(s.replies, DepositTx(s, d).value.state.replies)
  {
    var env := d.envelope;
    assert DepositTx(s, d).value.state.replies == RecordReply(
      s.replies, ReplyKey(env.user, "Deposit", env.idempotencyKey), env.requestId, DepositTx(s, d).value.value);
  }

  lemma RepliesOfWithdraw(s: WalletState, w: Withdraw)
    requires WithdrawTx(s, w).Ok?
    ensures OneReply(s.replies, WithdrawTx(s, w).value.state.replies)
  {
    var env := w.envelope;
    assert WithdrawTx(s, w).value.state.replies == RecordReply(
      s.replies, ReplyKey(env.user, "Withdraw", env.idempotencyKey), env.requestId, WithdrawTx(s, w).value.value);
  }

  lemma RepliesOfReserve(s: WalletState, intent: PlaceOrderIntent, id: string)
    requires ReserveTx(s, intent, id).Ok?
    ensures OneReply(s.replies, ReserveTx(s, intent, id).value.state.replies)
  {
    var env := intent.envelope;
    assert ReserveTx(s, intent, id).value.state.replies == RecordReply(
      s.replies, ReplyKey(env.user, "PlaceOrderIntent", env.idempotencyKey), env.requestId,
      ReserveTx(s, intent, id).value.value);
  }

  lemma RepliesOfCancel(s: WalletState, c: CancelOrderIntent)
    requires CancelTx(s, c).Ok?
    ensures OneReply(s.replies, CancelTx(s, c).value.state.replies)
  {
    var env := c.envelope;
    assert CancelTx(s, c).value.state.replies == RecordReply(
      s.replies, ReplyKey(env.user, "CancelOrderIntent", env.idempotencyKey), env.requestId,
      CancelTx(s, c).value.value);
  }

  /** Every transaction leaves the replies alone or upserts one of them. */
  lemma RepliesAfter(s: WalletState, a: WalletAction)
    ensures Next(s, a).replies == s.replies || OneReply(s.replies, Next(s, a).replies)
  {
    if Attempt(s, a).Ok? {
      match a
      case DoDeposit(d) => RepliesOfDeposit(s, d);
      case DoWithdraw(w) => RepliesOfWithdraw(s, w);
      case DoReserve(intent, id) => RepliesOfReserve(s, intent, id);
      case DoCancel(c) => RepliesOfCancel(s, c);
      case _ =>
    }
  }

  /** Once written, the payload of a stored reply never changes, over any continuation of the run. */
  lemma {:induction false} StoredReplyIsFinal(s: WalletState, actions: seq<WalletAction>, key: ReplyKey)
    requires key in s.replies
    ensures key in Run(s, actions).replies && Run(s, actions).replies[key].reply == s.replies[key].reply
  {
    if actions != [] {
      var before := actions[..|actions| - 1];
      StoredReplyIsFinal(s, before, key);
      RepliesAfter(Run(s, before), actions[|actions| - 1]);
    }
  }

  /** The reply that a transaction writes: its key, and the request that gets it. */
  function Asked(a: WalletAction): Option<(ReplyKey, string)> {
    match a
    case DoDeposit(d) => Some((ReplyKey(d.envelope.user, "Deposit", d.envelope.idempotencyKey), d.envelope.requestId))
    case DoWithdraw(w) => Some((ReplyKey(w.envelope.user, "Withdraw", w.envelope.idempotencyKey), w.envelope.requestId))
    case DoReserve(i, _) =>
      Some((ReplyKey(i.envelope.user, "PlaceOrderIntent", i.envelope.idempotencyKey), i.envelope.requestId))
    case DoCancel(c) =>
      Some((ReplyKey(c.envelope.user, "CancelOrderIntent", c.envelope.idempotencyKey), c.envelope.requestId))
    case DoRefuse(key, requestId, _, _, _) => Some((key, requestId))
    case _ => None
  }

  /** The last request of a run whose reply was written under the key. */
  function LastRequest(actions: seq<WalletAction>, key: ReplyKey): Option<string> {
    if actions == [] then None
    else
      var init, last := actions[..|actions| - 1], actions[|actions| - 1];
      if Asked(last).Some? && Asked(last).value.0 == key && Attempt(Run(EMPTY_WALLET, init), last).Ok?
      then Some(Asked(last).value.1)
      else LastRequest(init, key)
  }

  lemma RequestAfter(s: WalletState, a: WalletAction, key: ReplyKey)
    ensures var t := Next(s, a);
      if Asked(a).Some? && Asked(a).value.0 == key && Attempt(s, a).Ok?
      then key in t.replies && t.replies[key].requestId == Asked(a).value.1
      else (key in t.replies <==> key in s.replies) && (key in s.replies ==> t.replies[key] == s.replies[key])
  {
  }

  /** A reply is stored exactly for the keys that a transaction has written, under the last request that did. */
  lemma {:induction false} StoredUnderTheLastRequest(actions: seq<WalletAction>, key: ReplyKey)
    ensures var replies, last := Run(EMPTY_WALLET, actions).replies, LastRequest(actions, key);
      && (key in replies <==> last.Some?)
      && (key in replies ==> last == Some(replies[key].requestId))
  {
    if actions != [] {
      StoredUnderTheLastRequest(actions[..|actions| - 1], key);
      RequestAfter(Run(EMPTY_WALLET, actions[..|actions| - 1]), actions[|actions| - 1], key);
    }
  }
}
