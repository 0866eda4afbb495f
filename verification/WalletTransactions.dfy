/**
 * What each wallet transaction does to the tables, as a function of the tables.
 * An Err is a rolled-back transaction: nothing was written.
 * WalletRepository carries the statements out in place and is proved equal to these functions.
 */
module WalletTransactions {
  import opened Common
  import opened WalletTypes

  datatype Done<+T> = Done(state: WalletState, value: T)

  type Tx<+T> = Result<Done<T>, WalletError>

  // ---- table constraints and single statements ----

  /** The three CHECKs of user_collaterals, and the BIGINT range of its columns. */
  predicate RowOk(row: Collateral) {
    0 <= row.locked <= row.total <= I64_MAX
  }

  function BalanceRow(table: map<Account, Collateral>, account: Account): Collateral {
    if account in table then table[account] else Collateral(0, 0)
  }

  function Available(table: map<Account, Collateral>, account: Account): int {
    BalanceRow(table, account).total - BalanceRow(table, account).locked
  }

  /** UPDATE of one row that is known to match its WHERE clause. */
  function Write(table: map<Account, Collateral>, account: Account, row: Collateral)
    : Result<map<Account, Collateral>, WalletError>
  {
    if RowOk(row) then Ok(table[account := row]) else Err(Storage)
  }

  /** INSERT (total=amount, locked=0) ON CONFLICT DO UPDATE SET total=total+amount. */
  function Credit(table: map<Account, Collateral>, account: Account, amount: int)
    : Result<map<Account, Collateral>, WalletError>
  {
    if !RowOk(Collateral(amount, 0)) then Err(Storage)
    else Write(table, account, BalanceRow(table, account).(total := BalanceRow(table, account).total + amount))
  }

  /** UPDATE SET locked=locked-amount WHERE locked >= amount; nobody looks whether a row matched. */
  function Unlock(table: map<Account, Collateral>, account: Account, amount: int)
    : Result<map<Account, Collateral>, WalletError>
  {
    if account in table && table[account].locked >= amount
    then Write(table, account, table[account].(locked := table[account].locked - amount))
    else Ok(table)
  }

  /** UPDATE SET locked=locked-amount, total=total-amount WHERE locked >= amount AND total >= amount; unchecked too. */
  function Spend(table: map<Account, Collateral>, account: Account, amount: int)
    : Result<map<Account, Collateral>, WalletError>
  {
    if account in table && table[account].locked >= amount && table[account].total >= amount
    then Write(table, account, Collateral(table[account].total - amount, table[account].locked - amount))
    else Ok(table)
  }

  /** INSERT INTO wallet_ledger; a second row under the same key is a unique violation. */
  function Book(ledger: map<LedgerKey, int>, key: LedgerKey, amount: int): Result<map<LedgerKey, int>, WalletError> {
    if key in ledger then Err(Storage) else Ok(ledger[key := amount])
  }

  /** The upsert keeps the stored payload and only replaces the request id. */
  function RecordReply(replies: map<ReplyKey, StoredReply>, key: ReplyKey, requestId: string, reply: WalletReply)
    : map<ReplyKey, StoredReply>
  {
    if key in replies then replies[key := replies[key].(requestId := requestId)]
    else replies[key := StoredReply(requestId, reply)]
  }

  function FindRow(outbox: seq<OutboxRow>, key: DedupeKey): (found: Option<nat>)
    ensures found.Some? ==> found.value < |outbox| && outbox[found.value].message.dedupeKey == key
    ensures found.None? ==> forall i | 0 <= i < |outbox| :: outbox[i].message.dedupeKey != key
  {
    if outbox == [] then None
    else if outbox[|outbox| - 1].message.dedupeKey == key then Some(|outbox| - 1)
    else FindRow(outbox[..|outbox| - 1], key)
  }

  /** INSERT ON CONFLICT(dedupe_key) DO NOTHING, then compare a duplicate with the stored row. */
  function EnqueueOne(outbox: seq<OutboxRow>, message: Message): Result<seq<OutboxRow>, WalletError> {
    match FindRow(outbox, message.dedupeKey)
    case None => Ok(outbox + [OutboxRow(message, Pending, 0, None)])
    case Some(i) => if outbox[i].message == message then Ok(outbox) else Err(IdempotencyConflict)
  }

  function Enqueue(outbox: seq<OutboxRow>, messages: seq<Message>): Result<seq<OutboxRow>, WalletError>
    decreases |messages|
  {
    if messages == [] then Ok(outbox) else
      var next :- EnqueueOne(outbox, messages[0]);
      Enqueue(next, messages[1..])
  }

  // ---- the message each transaction enqueues ----

  function EventMessage(key: DedupeKey, messageKey: string, event: WalletEvent): Message {
    Message(key, WalletEvents, None, messageKey, EventPayload(event))
  }

  function DepositMessage(d: Deposit, row: Collateral): Message {
    var key := DepositKey(d.envelope.user, d.envelope.idempotencyKey);
    EventMessage(key, Decimal(d.envelope.user),
      DepositEvent(Some(key), d.envelope.requestId, d.envelope.user, d.asset, d.amount, d.reference, row.total,
        row.locked))
  }

  function WithdrawalMessage(w: Withdraw, row: Collateral): Message {
    var key := WithdrawalKey(w.envelope.user, w.envelope.idempotencyKey);
    EventMessage(key, Decimal(w.envelope.user),
      WithdrawalEvent(Some(key), w.envelope.requestId, w.envelope.user, w.asset, w.amount, w.destination, row.total,
        row.locked))
  }

  function ReservedMessage(intent: PlaceOrderIntent, reservationId: string): Message {
    var key := ReservedKey(reservationId);
    EventMessage(key, Decimal(intent.envelope.user),
      ReservedEvent(Some(key), intent.envelope.requestId, intent.envelope.user, reservationId, intent.marginAsset,
        intent.requiredMargin))
  }

  function PlaceOrderMessage(intent: PlaceOrderIntent, reservationId: string): Message {
    Message(PlaceOrderKey(intent.envelope.user, intent.envelope.idempotencyKey), EngineInputs, None,
      Decimal(intent.marketId), CommandPayload(PlaceOrder(intent, reservationId)))
  }

  function CancelMessage(cancel: CancelOrderIntent): Message {
    Message(CancelOrderKey(cancel.envelope.user, cancel.envelope.idempotencyKey), EngineInputs, None,
      Decimal(cancel.marketId), CommandPayload(CancelOrder(cancel)))
  }

  /** The event names the amount released, but not what remains. */
  function ReleasedMessage(release: ReleaseReservation, account: Account): Message {
    var key := ReleasedKey(release.reservationId, release.reason, release.amount);
    EventMessage(key, release.reservationId,
      ReleasedEvent(Some(key), account.user, release.reservationId, account.asset, release.amount, release.reason))
  }

  function SettledMessage(settle: SettleTrade, user: int): Message {
    var key := SettledKey(settle.fillId, settle.reservationId);
    EventMessage(key, settle.reservationId,
      SettledEvent(Some(key), user, settle.fillId, settle.reservationId,
        settle.debitAsset, settle.debitAmount, settle.creditAsset, settle.creditAmount))
  }

  function AccountDeltaMessage(d: AccountDelta, row: Collateral): Message {
    var key := AccountDeltaKey(d.kind, d.reference, d.user, d.asset);
    EventMessage(key, Decimal(d.user),
      AccountDeltaEvent(Some(key), d.user, d.asset, d.totalDelta, d.lockedDelta, d.kind, d.reference, row.total,
        row.locked))
  }

  /** engine-ingress goes through the same table, for its own inputs only. */
  function IngressMessage(text: string, marketId: int, partition: Option<int>): Message {
    Message(IngressKey(text), EngineInputs, partition, Decimal(marketId), CommandPayload(EngineInput(marketId, text)))
  }

  // ---- transactions ----

  function DepositTx(s: WalletState, d: Deposit): Tx<WalletReply> {
    var account := Account(d.envelope.user, d.asset);
    var collaterals :- Credit(s.collaterals, account, d.amount);
    var ledger :- Book(s.ledger, LedgerKey(account, "DEPOSIT", d.reference), d.amount);
    var row := collaterals[account];
    var reply := BalanceUpdated(d.envelope.requestId, d.asset, row.total, row.locked);
    var replies := RecordReply(s.replies, ReplyKey(d.envelope.user, "Deposit", d.envelope.idempotencyKey),
      d.envelope.requestId, reply);
    var outbox :- Enqueue(s.outbox, [DepositMessage(d, row)]);
    Ok(Done(WalletState(collaterals, s.reservations, ledger, replies, outbox), reply))
  }

  function WithdrawTx(s: WalletState, w: Withdraw): Tx<WalletReply> {
    var account := Account(w.envelope.user, w.asset);
    if account !in s.collaterals || Available(s.collaterals, account) < w.amount then
      Err(NotEnough(Available(s.collaterals, account)))
    else
      var collaterals :- Write(s.collaterals, account,
        s.collaterals[account].(total := s.collaterals[account].total - w.amount));
      var ledger :- Book(s.ledger, LedgerKey(account, "WITHDRAW", w.envelope.idempotencyKey), -w.amount);
      var row := collaterals[account];
      var reply := BalanceUpdated(w.envelope.requestId, w.asset, row.total, row.locked);
      var replies := RecordReply(s.replies, ReplyKey(w.envelope.user, "Withdraw", w.envelope.idempotencyKey),
        w.envelope.requestId, reply);
      var outbox :- Enqueue(s.outbox, [WithdrawalMessage(w, row)]);
      Ok(Done(WalletState(collaterals, s.reservations, ledger, replies, outbox), reply))
  }

  /** The two unique keys and the CHECK of wallet_reservations. */
  predicate CanInsertReservation(
    reservations: map<string, Reservation>, id: string, user: int, idempotencyKey: string, amount: int)
  {
    && id !in reservations
    && amount > 0
    && !exists other | other in reservations ::
         reservations[other].account.user == user && reservations[other].idempotencyKey == idempotencyKey
  }

  /** reservationId is the identifier drawn at random. */
  function ReserveTx(s: WalletState, intent: PlaceOrderIntent, reservationId: string): Tx<WalletReply> {
    var env := intent.envelope;
    var account := Account(env.user, intent.marginAsset);
    if account !in s.collaterals || Available(s.collaterals, account) < intent.requiredMargin then
      Err(NotEnough(Available(s.collaterals, account)))
    else
      var collaterals :- Write(s.collaterals, account,
        s.collaterals[account].(locked := s.collaterals[account].locked + intent.requiredMargin));
      if !CanInsertReservation(s.reservations, reservationId, env.user, env.idempotencyKey, intent.requiredMargin) then
        Err(Storage)
      else
        var reservations := s.reservations[reservationId :=
          Reservation(account, intent.requiredMargin, intent.requiredMargin, Active, env.idempotencyKey,
            env.requestId)];
        var reply := FundsReserved(env.requestId, reservationId, intent.marginAsset, intent.requiredMargin);
        var replies := RecordReply(s.replies, ReplyKey(env.user, "PlaceOrderIntent", env.idempotencyKey),
          env.requestId, reply);
        var outbox :- Enqueue(s.outbox,
          [ReservedMessage(intent, reservationId), PlaceOrderMessage(intent, reservationId)]);
        Ok(Done(WalletState(collaterals, reservations, s.ledger, replies, outbox), reply))
  }

  function CancelTx(s: WalletState, cancel: CancelOrderIntent): Tx<WalletReply> {
    var env := cancel.envelope;
    var reply := CommandAccepted(env.requestId);
    var replies := RecordReply(s.replies, ReplyKey(env.user, "CancelOrderIntent", env.idempotencyKey), env.requestId,
      reply);
    var outbox :- Enqueue(s.outbox, [CancelMessage(cancel)]);
    Ok(Done(s.(replies := replies, outbox := outbox), reply))
  }

  function RecordReplyTx(s: WalletState, key: ReplyKey, requestId: string, reply: WalletReply): WalletState {
    s.(replies := RecordReply(s.replies, key, requestId, reply))
  }

  function ReleaseTx(s: WalletState, release: ReleaseReservation): Tx<Reservation> {
    if release.reservationId !in s.reservations then Err(ReservationNotFound) else
      var r := s.reservations[release.reservationId];
      if !r.status.Active? || release.amount <= 0 || release.amount > r.remaining then Err(InvalidReservationState) else
        var collaterals :- Unlock(s.collaterals, r.account, release.amount);
        var remaining := r.remaining - release.amount;
        var updated := r.(remaining := remaining, status := if remaining == 0 then Released else Active);
        var outbox :- Enqueue(s.outbox, [ReleasedMessage(release, r.account)]);
        Ok(Done(s.(collaterals := collaterals, reservations := s.reservations[release.reservationId := updated],
          outbox := outbox), updated))
  }

  datatype CollateralEffect = UnlockReservedOnly(amount: int) | TransferDebitToCredit(debit: int, credit: int)

  function SettlementEffect(settle: SettleTrade): CollateralEffect {
    if settle.debitAsset == settle.creditAsset && settle.debitAmount == settle.creditAmount
    then UnlockReservedOnly(settle.debitAmount)
    else TransferDebitToCredit(settle.debitAmount, settle.creditAmount)
  }

  function SettleCollateral(table: map<Account, Collateral>, user: int, settle: SettleTrade)
    : Result<map<Account, Collateral>, WalletError>
  {
    match SettlementEffect(settle)
    case UnlockReservedOnly(amount) => Unlock(table, Account(user, settle.debitAsset), amount)
    case TransferDebitToCredit(debit, credit) =>
      var spent :- Spend(table, Account(user, settle.debitAsset), debit);
      Credit(spent, Account(user, settle.creditAsset), credit)
  }

  /** The two ledger rows of a settlement. */
  function BookSettlement(ledger: map<LedgerKey, int>, user: int, settle: SettleTrade)
    : Result<map<LedgerKey, int>, WalletError>
  {
    var fill := Decimal(settle.fillId);
    var debited :- Book(ledger, LedgerKey(Account(user, settle.debitAsset), "TRADE_DEBIT", fill), -settle.debitAmount);
    Book(debited, LedgerKey(Account(user, settle.creditAsset), "TRADE_CREDIT", fill), settle.creditAmount)
  }

  function SettleTx(s: WalletState, settle: SettleTrade): Tx<Reservation> {
    if settle.reservationId !in s.reservations then Err(ReservationNotFound) else
      var r := s.reservations[settle.reservationId];
      if !r.status.Active? || r.account.asset != settle.debitAsset || settle.debitAmount <= 0
        || settle.debitAmount > r.remaining then
        Err(InvalidReservationState)
      else
        var user := r.account.user;
        var collaterals :- SettleCollateral(s.collaterals, user, settle);
        var ledger :- BookSettlement(s.ledger, user, settle);
        var remaining := r.remaining - settle.debitAmount;
        var updated := r.(remaining := remaining, status := if remaining == 0 then Settled else Active);
        var outbox :- Enqueue(s.outbox, [SettledMessage(settle, user)]);
        Ok(Done(WalletState(collaterals, s.reservations[settle.reservationId := updated], ledger, s.replies, outbox),
          updated))
  }

  /**
   * The upsert of an account delta. Its SELECT yields a row only for deltas that could
   * open an account, and that filter comes before the conflict with an existing account.
   */
  function UpsertDelta(table: map<Account, Collateral>, account: Account, totalDelta: int, lockedDelta: int)
    : Result<map<Account, Collateral>, WalletError>
  {
    if !(totalDelta >= 0 && lockedDelta >= 0 && lockedDelta <= totalDelta) then Err(InvalidAccountDelta)
    else if totalDelta > I64_MAX then Err(Storage)
    else if account !in table then Write(table, account, Collateral(totalDelta, lockedDelta))
    else
      var row := Collateral(table[account].total + totalDelta, table[account].locked + lockedDelta);
      if row.total >= 0 && row.locked >= 0 && row.locked <= row.total then Write(table, account, row)
      else Err(InvalidAccountDelta)
  }

  function AccountDeltaTx(s: WalletState, d: AccountDelta): Tx<Option<Collateral>> {
    var account := Account(d.user, d.asset);
    var key := LedgerKey(account, d.kind, d.reference);
    if (d.totalDelta == 0 && d.lockedDelta == 0) || key in s.ledger then Ok(Done(s, None)) else
      var collaterals :- UpsertDelta(s.collaterals, account, d.totalDelta, d.lockedDelta);
      var row := collaterals[account];
      var outbox :- Enqueue(s.outbox, [AccountDeltaMessage(d, row)]);
      Ok(Done(s.(collaterals := collaterals, ledger := s.ledger[key := d.totalDelta], outbox := outbox), Some(row)))
  }

  function IngressTx(s: WalletState, text: string, marketId: int, partition: Option<int>): Tx<()> {
    var outbox :- EnqueueOne(s.outbox, IngressMessage(text, marketId, partition));
    Ok(Done(s.(outbox := outbox), ()))
  }
}
