/**
 * What every wallet transaction keeps: rows satisfy their constraints, the active
 * reservations of an account are covered by its locked funds, and every outbox row is
 * backed by the table row that stops its transaction from committing twice.
 */
module WalletInvariant {
  import opened Common
  import opened TableSums
  import opened WalletTypes
  import opened WalletTransactions
  import opened LedgerProcessor

  // ---- the invariant ----

  /** What one reservation claims of the locked funds of an account. */
  function Claim(account: Account): (string, Reservation) -> int {
    (id: string, r: Reservation) => if r.status.Active? && r.account == account then r.remaining else 0
  }

  ghost function ActiveClaims(reservations: map<string, Reservation>, account: Account): int {
    TableSum(reservations, Claim(account))
  }

  predicate ReservationOk(r: Reservation) {
    && 0 < r.amount
    && 0 <= r.remaining <= r.amount
    && (r.status.Active? <==> r.remaining > 0)
  }

  ghost predicate RowsOk(collaterals: map<Account, Collateral>) {
    forall account | account in collaterals :: RowOk(collaterals[account])
  }

  ghost predicate ReservationsOk(reservations: map<string, Reservation>) {
    forall id | id in reservations :: ReservationOk(reservations[id])
  }

  ghost predicate Backed(collaterals: map<Account, Collateral>, reservations: map<string, Reservation>) {
    forall account :: ActiveClaims(reservations, account) <= BalanceRow(collaterals, account).locked
  }

  ghost predicate UniqueKeys(outbox: seq<OutboxRow>) {
    forall i, j | 0 <= i < j < |outbox| :: outbox[i].message.dedupeKey != outbox[j].message.dedupeKey
  }

  /** The row that a message leaves behind in the ledger or the reservations. */
  predicate Vouched(ledger: map<LedgerKey, int>, reservations: map<string, Reservation>, m: Message) {
    match m.payload
    case EventPayload(e) =>
      && m.topic.WalletEvents?
      && e.eventId == Some(m.dedupeKey)
      && (match m.dedupeKey
          case DepositKey(user, _) =>
            e.DepositEvent? && e.user == user && LedgerKey(Account(user, e.asset), "DEPOSIT", e.reference) in ledger
          case WithdrawalKey(user, key) =>
            e.WithdrawalEvent? && e.user == user && LedgerKey(Account(user, e.asset), "WITHDRAW", key) in ledger
          case ReservedKey(id) =>
            && e.ReservedEvent? && e.reservationId == id && id in reservations
            && reservations[id].account == Account(e.user, e.asset) && reservations[id].amount == e.amount
          case ReleasedKey(id, reason, amount) =>
            id in reservations && m == ReleasedMessage(ReleaseReservation(id, amount, reason), reservations[id].account)
          case SettledKey(fill, id) =>
            && e.SettledEvent?
            && id in reservations && reservations[id].account == Account(e.user, e.debitAsset)
            && LedgerKey(reservations[id].account, "TRADE_DEBIT", Decimal(fill)) in ledger
          case AccountDeltaKey(kind, reference, user, asset) =>
            e.AccountDeltaEvent? && LedgerKey(Account(user, asset), kind, reference) in ledger
          case _ => false)
    case CommandPayload(c) =>
      && m.topic.EngineInputs?
      && (match m.dedupeKey
          case PlaceOrderKey(user, key) =>
            && c.PlaceOrder? && c.reservationId in reservations
            && reservations[c.reservationId].account.user == user
            && reservations[c.reservationId].idempotencyKey == key
          case CancelOrderKey(_, _) => true
          case IngressKey(_) => true
          case _ => false)
  }

  ghost predicate AllVouched(s: WalletState) {
    forall i | 0 <= i < |s.outbox| :: Vouched(s.ledger, s.reservations, s.outbox[i].message)
  }

  ghost predicate Valid(s: WalletState) {
    && RowsOk(s.collaterals)
    && ReservationsOk(s.reservations)
    && Backed(s.collaterals, s.reservations)
    && UniqueKeys(s.outbox)
    && AllVouched(s)
  }

  lemma EmptyIsValid()
    ensures Valid(EMPTY_WALLET)
  {
  }

  // ---- balances ----

  function BalanceOf(s: WalletState, account: Account, column: Column): int {
    if column.Total? then BalanceRow(s.collaterals, account).total else BalanceRow(s.collaterals, account).locked
  }

  /** Between two states the balances moved by exactly what the message's event announces. */
  ghost predicate MovesBy(s: WalletState, t: WalletState, m: Message) {
    m.payload.EventPayload? &&
    forall account, column ::
      BalanceOf(t, account, column) == BalanceOf(s, account, column) + Announced(m.payload.event, account, column)
  }

  ghost predicate SameBalances(s: WalletState, t: WalletState) {
    forall account, column :: BalanceOf(t, account, column) == BalanceOf(s, account, column)
  }

  function NewRow(m: Message): OutboxRow {
    OutboxRow(m, Pending, 0, None)
  }

  // ---- helpers ----

  /** Ledger rows and reservations are only added; a reservation never changes hands, nor its amount and key. */
  ghost predicate Grows(s: WalletState, t: WalletState) {
    && s.ledger.Keys <= t.ledger.Keys
    && forall id | id in s.reservations :: id in t.reservations && SameOwner(s.reservations[id], t.reservations[id])
  }

  predicate SameOwner(r: Reservation, after: Reservation) {
    after.account == r.account && after.amount == r.amount && after.idempotencyKey == r.idempotencyKey
  }

  lemma AppendVouched(s: WalletState, t: WalletState, m: Message)
    requires UniqueKeys(s.outbox) && AllVouched(s) && Grows(s, t)
    requires t.outbox == s.outbox + [NewRow(m)]
    requires FindRow(s.outbox, m.dedupeKey).None?
    requires Vouched(t.ledger, t.reservations, m)
    ensures UniqueKeys(t.outbox) && AllVouched(t)
  {
    KeepVouched(s, t.(outbox := s.outbox));
  }

  lemma KeepVouched(s: WalletState, t: WalletState)
    requires AllVouched(s) && Grows(s, t) && t.outbox == s.outbox
    ensures AllVouched(t)
  {
    forall i | 0 <= i < |t.outbox|
      ensures Vouched(t.ledger, t.reservations, t.outbox[i].message)
    {
      assert Vouched(s.ledger, s.reservations, s.outbox[i].message);
    }
  }

  lemma StoredRowIsVouched(s: WalletState, key: DedupeKey)
    requires AllVouched(s)
    ensures var found := FindRow(s.outbox, key);
      found.Some? ==> Vouched(s.ledger, s.reservations, s.outbox[found.value].message)
  {
  }

  lemma EnqueueSingle(outbox: seq<OutboxRow>, m: Message)
    ensures Enqueue(outbox, [m]) == EnqueueOne(outbox, m)
  {
    assert [m][1..] == [];
  }

  lemma EnqueuePair(outbox: seq<OutboxRow>, m: Message, n: Message)
    requires Enqueue(outbox, [m, n]).Ok?
    ensures EnqueueOne(outbox, m).Ok?
    ensures Enqueue(outbox, [m, n]) == EnqueueOne(EnqueueOne(outbox, m).value, n)
  {
    assert [m, n][1..] == [n];
    EnqueueSingle(EnqueueOne(outbox, m).value, n);
  }

  /** The claims of one account change by what changes in the reservation that is written. */
  lemma ClaimsAfterPut(reservations: map<string, Reservation>, id: string, r: Reservation, account: Account)
    ensures ActiveClaims(reservations[id := r], account)
         == ActiveClaims(reservations, account) + Claim(account)(id, r)
            - (if id in reservations then Claim(account)(id, reservations[id]) else 0)
  {
    Put(reservations, id, r, Claim(account));
  }

  /**
   * The guard that nobody checks: an active reservation's remainder is covered by the
   * locked funds of its account.
   */
  lemma RemainderIsLocked(s: WalletState, id: string)
    requires RowsOk(s.collaterals) && ReservationsOk(s.reservations) && Backed(s.collaterals, s.reservations)
    requires id in s.reservations && s.reservations[id].status.Active?
    ensures s.reservations[id].account in s.collaterals
    ensures s.reservations[id].remaining <= s.collaterals[s.reservations[id].account].locked
  {
    var account := s.reservations[id].account;
    RowWithinSum(s.reservations, id, Claim(account));
    assert ActiveClaims(s.reservations, account) <= BalanceRow(s.collaterals, account).locked;
  }

  // ---- one lemma per transaction ----

  lemma DepositStep(s: WalletState, d: Deposit)
    requires Valid(s) && DepositTx(s, d).Ok?
    ensures var t := DepositTx(s, d).value.state;
      && Valid(t)
      && Account(d.envelope.user, d.asset) in t.collaterals
      && var m := DepositMessage(d, t.collaterals[Account(d.envelope.user, d.asset)]);
      && FindRow(s.outbox, m.dedupeKey).None?
      && t.outbox == s.outbox + [NewRow(m)]
      && MovesBy(s, t, m)
  {
    var t := DepositTx(s, d).value.state;
    var m := DepositMessage(d, t.collaterals[Account(d.envelope.user, d.asset)]);
    EnqueueSingle(s.outbox, m);
    StoredRowIsVouched(s, m.dedupeKey);
    AppendVouched(s, t, m);
    forall account ensures BalanceRow(t.collaterals, account).locked == BalanceRow(s.collaterals, account).locked {}
  }

  lemma WithdrawStep(s: WalletState, w: Withdraw)
    requires Valid(s) && WithdrawTx(s, w).Ok?
    ensures var t := WithdrawTx(s, w).value.state;
      && Valid(t)
      && Account(w.envelope.user, w.asset) in t.collaterals
      && var m := WithdrawalMessage(w, t.collaterals[Account(w.envelope.user, w.asset)]);
      && FindRow(s.outbox, m.dedupeKey).None?
      && t.outbox == s.outbox + [NewRow(m)]
      && MovesBy(s, t, m)
  {
    var t := WithdrawTx(s, w).value.state;
    var m := WithdrawalMessage(w, t.collaterals[Account(w.envelope.user, w.asset)]);
    EnqueueSingle(s.outbox, m);
    StoredRowIsVouched(s, m.dedupeKey);
    AppendVouched(s, t, m);
    forall account ensures BalanceRow(t.collaterals, account).locked == BalanceRow(s.collaterals, account).locked {}
  }

  /** Two new messages, each vouched for by the new tables. */
  lemma AppendPair(s: WalletState, t: WalletState, m: Message, n: Message)
    requires UniqueKeys(s.outbox) && AllVouched(s) && Grows(s, t)
    requires t.outbox == s.outbox + [NewRow(m), NewRow(n)] && m.dedupeKey != n.dedupeKey
    requires FindRow(s.outbox, m.dedupeKey).None? && FindRow(s.outbox, n.dedupeKey).None?
    requires Vouched(t.ledger, t.reservations, m) && Vouched(t.ledger, t.reservations, n)
    ensures UniqueKeys(t.outbox) && AllVouched(t)
  {
    var half := t.(outbox := s.outbox + [NewRow(m)]);
    AppendVouched(s, half, m);
    FindRowAppend(s.outbox, NewRow(m), n.dedupeKey);
    assert t.outbox == half.outbox + [NewRow(n)];
    AppendVouched(half, t, n);
  }

  /** The outbox half of a reservation. */
  lemma ReserveQueues(s: WalletState, intent: PlaceOrderIntent, id: string)
    requires UniqueKeys(s.outbox) && AllVouched(s) && ReserveTx(s, intent, id).Ok?
    ensures var t := ReserveTx(s, intent, id).value.state;
      var m, n := ReservedMessage(intent, id), PlaceOrderMessage(intent, id);
      && UniqueKeys(t.outbox) && AllVouched(t)
      && FindRow(s.outbox, m.dedupeKey).None? && FindRow(s.outbox, n.dedupeKey).None?
      && t.outbox == s.outbox + [NewRow(m), NewRow(n)]
  {
    var t := ReserveTx(s, intent, id).value.state;
    var m, n := ReservedMessage(intent, id), PlaceOrderMessage(intent, id);
    EnqueuePair(s.outbox, m, n);
    ReserveKeysAreNew(s, intent, id);
    FindRowAppend(s.outbox, NewRow(m), n.dedupeKey);
    assert t.outbox == s.outbox + [NewRow(m), NewRow(n)];
    AppendPair(s, t, m, n);
  }

  /** The claims half: a new reservation claims exactly what is locked for it. */
  lemma LockedForReservation(
    collaterals: map<Account, Collateral>, reservations: map<string, Reservation>, id: string, r: Reservation)
    requires Backed(collaterals, reservations) && id !in reservations && r.account in collaterals && r.status.Active?
    ensures var row := collaterals[r.account];
      Backed(collaterals[r.account := row.(locked := row.locked + r.remaining)], reservations[id := r])
  {
    var row := collaterals[r.account];
    var t := collaterals[r.account := row.(locked := row.locked + r.remaining)];
    forall other ensures ActiveClaims(reservations[id := r], other) <= BalanceRow(t, other).locked {
      ClaimsAfterPut(reservations, id, r, other);
      assert ActiveClaims(reservations, other) <= BalanceRow(collaterals, other).locked;
    }
  }

  lemma ReserveStep(s: WalletState, intent: PlaceOrderIntent, id: string)
    requires Valid(s) && ReserveTx(s, intent, id).Ok?
    ensures var t := ReserveTx(s, intent, id).value.state;
      var m := ReservedMessage(intent, id);
      var n := PlaceOrderMessage(intent, id);
      && Valid(t)
      && FindRow(s.outbox, m.dedupeKey).None?
      && FindRow(s.outbox, n.dedupeKey).None?
      && t.outbox == s.outbox + [NewRow(m), NewRow(n)]
      && MovesBy(s, t, m)
  {
    var t := ReserveTx(s, intent, id).value.state;
    ReserveQueues(s, intent, id);
    LockedForReservation(s.collaterals, s.reservations, id, t.reservations[id]);
  }

  lemma ReserveKeysAreNew(s: WalletState, intent: PlaceOrderIntent, id: string)
    requires AllVouched(s) && id !in s.reservations
    requires Enqueue(s.outbox, [ReservedMessage(intent, id), PlaceOrderMessage(intent, id)]).Ok?
    ensures FindRow(s.outbox, ReservedMessage(intent, id).dedupeKey).None?
    ensures FindRow(s.outbox, PlaceOrderMessage(intent, id).dedupeKey).None?
  {
    var m := ReservedMessage(intent, id);
    var n := PlaceOrderMessage(intent, id);
    EnqueuePair(s.outbox, m, n);
    StoredRowIsVouched(s, m.dedupeKey);
    FindRowAppend(s.outbox, NewRow(m), n.dedupeKey);
    StoredRowIsVouched(s, n.dedupeKey);
  }

  lemma FindRowAppend(outbox: seq<OutboxRow>, row: OutboxRow, key: DedupeKey)
    ensures row.message.dedupeKey != key ==> FindRow(outbox + [row], key) == FindRow(outbox, key)
  {
    assert (outbox + [row])[..|outbox + [row]| - 1] == outbox;
  }

  lemma CancelStep(s: WalletState, cancel: CancelOrderIntent)
    requires Valid(s) && CancelTx(s, cancel).Ok?
    ensures var t := CancelTx(s, cancel).value.state;
      && Valid(t)
      && (t.outbox == s.outbox
          || (FindRow(s.outbox, CancelMessage(cancel).dedupeKey).None?
            && t.outbox == s.outbox + [NewRow(CancelMessage(cancel))]))
  {
    var t := CancelTx(s, cancel).value.state;
    var m := CancelMessage(cancel);
    EnqueueSingle(s.outbox, m);
    if FindRow(s.outbox, m.dedupeKey).None? {
      AppendVouched(s, t, m);
    } else {
      KeepVouched(s, t);
    }
  }

  lemma IngressStep(s: WalletState, text: string, marketId: int, partition: Option<int>)
    requires Valid(s) && IngressTx(s, text, marketId, partition).Ok?
    ensures var t := IngressTx(s, text, marketId, partition).value.state;
      var m := IngressMessage(text, marketId, partition);
      && Valid(t)
      && (t.outbox == s.outbox || (FindRow(s.outbox, m.dedupeKey).None? && t.outbox == s.outbox + [NewRow(m)]))
  {
    var t := IngressTx(s, text, marketId, partition).value.state;
    var m := IngressMessage(text, marketId, partition);
    if FindRow(s.outbox, m.dedupeKey).None? {
      AppendVouched(s, t, m);
    }
  }

  /**
   * A release always unlocks what it releases, although nobody checks that. It adds its
   * outbox row unless the same (reservation, reason, amount) was released before.
   */
  lemma ReleaseStep(s: WalletState, release: ReleaseReservation)
    requires Valid(s) && ReleaseTx(s, release).Ok?
    ensures var t := ReleaseTx(s, release).value.state;
      var m := ReleasedMessage(release, s.reservations[release.reservationId].account);
      && Valid(t)
      && t.outbox == (if FindRow(s.outbox, m.dedupeKey).None? then s.outbox + [NewRow(m)] else s.outbox)
      && MovesBy(s, t, m)
  {
    var t := ReleaseTx(s, release).value.state;
    var id := release.reservationId;
    var r := s.reservations[id];
    var m := ReleasedMessage(release, r.account);
    EnqueueSingle(s.outbox, m);
    RemainderIsLocked(s, id);
    BackedAfterConsuming(s, t, id, release.amount);
    if FindRow(s.outbox, m.dedupeKey).None? {
      AppendVouched(s, t, m);
    } else {
      KeepVouched(s, t);
    }
  }

  /** Taking the same amount off a reservation and off the locked funds keeps the funds covered. */
  lemma BackedAfterConsuming(s: WalletState, t: WalletState, id: string, amount: int)
    requires Backed(s.collaterals, s.reservations)
    requires id in s.reservations && s.reservations[id].status.Active? && id in t.reservations
    requires t.reservations == s.reservations[id := t.reservations[id]]
    requires t.reservations[id].account == s.reservations[id].account
    requires t.reservations[id].remaining == s.reservations[id].remaining - amount
    requires !t.reservations[id].status.Active? ==> t.reservations[id].remaining == 0
    requires forall account ::
      BalanceRow(t.collaterals, account).locked
      == BalanceRow(s.collaterals, account).locked - (if account == s.reservations[id].account then amount else 0)
    ensures Backed(t.collaterals, t.reservations)
  {
    forall account
      ensures ActiveClaims(t.reservations, account) <= BalanceRow(t.collaterals, account).locked
    {
      ClaimsAfterPut(s.reservations, id, t.reservations[id], account);
      assert ActiveClaims(s.reservations, account) <= BalanceRow(s.collaterals, account).locked;
    }
  }

  /** The collateral part of a settlement, when the debit is covered by the locked funds. */
  lemma SettleCollateralMoves(table: map<Account, Collateral>, user: int, settle: SettleTrade)
    requires RowsOk(table)
    requires Account(user, settle.debitAsset) in table
      && table[Account(user, settle.debitAsset)].locked >= settle.debitAmount > 0
    requires SettleCollateral(table, user, settle).Ok?
    ensures var after := SettleCollateral(table, user, settle).value;
      && RowsOk(after)
      && forall account ::
           && BalanceRow(after, account).locked
              == BalanceRow(table, account).locked
                 - (if account == Account(user, settle.debitAsset) then settle.debitAmount else 0)
           && BalanceRow(after, account).total
              == BalanceRow(table, account).total
                 - (if account == Account(user, settle.debitAsset) then settle.debitAmount else 0)
                 + (if account == Account(user, settle.creditAsset) then settle.creditAmount else 0)
  {
  }

  /** The outbox half of a settlement. */
  lemma SettleQueues(s: WalletState, settle: SettleTrade)
    requires UniqueKeys(s.outbox) && AllVouched(s) && SettleTx(s, settle).Ok?
    ensures var t := SettleTx(s, settle).value.state;
      var m := SettledMessage(settle, s.reservations[settle.reservationId].account.user);
      && UniqueKeys(t.outbox) && AllVouched(t)
      && FindRow(s.outbox, m.dedupeKey).None?
      && t.outbox == s.outbox + [NewRow(m)]
  {
    var t := SettleTx(s, settle).value.state;
    var r := s.reservations[settle.reservationId];
    var m := SettledMessage(settle, r.account.user);
    assert r.account == Account(r.account.user, settle.debitAsset);
    EnqueueSingle(s.outbox, m);
    StoredRowIsVouched(s, m.dedupeKey);
    AppendVouched(s, t, m);
  }

  /** The half of balances and claims. */
  lemma SettleBalances(s: WalletState, settle: SettleTrade)
    requires Valid(s) && SettleTx(s, settle).Ok?
    ensures var t := SettleTx(s, settle).value.state;
      && RowsOk(t.collaterals) && ReservationsOk(t.reservations) && Backed(t.collaterals, t.reservations)
      && MovesBy(s, t, SettledMessage(settle, s.reservations[settle.reservationId].account.user))
  {
    var t := SettleTx(s, settle).value.state;
    var id := settle.reservationId;
    var r := s.reservations[id];
    assert r.account == Account(r.account.user, settle.debitAsset);
    RemainderIsLocked(s, id);
    SettleCollateralMoves(s.collaterals, r.account.user, settle);
    BackedAfterConsuming(s, t, id, settle.debitAmount);
  }

  lemma SettleStep(s: WalletState, settle: SettleTrade)
    requires Valid(s) && SettleTx(s, settle).Ok?
    ensures var t := SettleTx(s, settle).value.state;
      var m := SettledMessage(settle, s.reservations[settle.reservationId].account.user);
      && Valid(t)
      && FindRow(s.outbox, m.dedupeKey).None?
      && t.outbox == s.outbox + [NewRow(m)]
      && MovesBy(s, t, m)
  {
    SettleQueues(s, settle);
    SettleBalances(s, settle);
  }

  lemma AccountDeltaQueues(s: WalletState, d: AccountDelta)
    requires UniqueKeys(s.outbox) && AllVouched(s)
    requires AccountDeltaTx(s, d).Ok? && AccountDeltaTx(s, d).value.value.Some?
    ensures var done := AccountDeltaTx(s, d).value;
      var m := AccountDeltaMessage(d, done.value.value);
      && UniqueKeys(done.state.outbox) && AllVouched(done.state)
      && FindRow(s.outbox, m.dedupeKey).None?
      && done.state.outbox == s.outbox + [NewRow(m)]
  {
    var done := AccountDeltaTx(s, d).value;
    var m := AccountDeltaMessage(d, done.value.value);
    EnqueueSingle(s.outbox, m);
    StoredRowIsVouched(s, m.dedupeKey);
    AppendVouched(s, done.state, m);
  }

  lemma AccountDeltaMoves(s: WalletState, d: AccountDelta)
    requires RowsOk(s.collaterals) && Backed(s.collaterals, s.reservations)
    requires AccountDeltaTx(s, d).Ok? && AccountDeltaTx(s, d).value.value.Some?
    ensures var done := AccountDeltaTx(s, d).value;
      && RowsOk(done.state.collaterals) && done.state.reservations == s.reservations
      && Backed(done.state.collaterals, s.reservations)
      && MovesBy(s, done.state, AccountDeltaMessage(d, done.value.value))
  {
    var t := AccountDeltaTx(s, d).value.state;
    forall account ensures ActiveClaims(s.reservations, account) <= BalanceRow(t.collaterals, account).locked {
      assert ActiveClaims(s.reservations, account) <= BalanceRow(s.collaterals, account).locked;
    }
  }

  lemma AccountDeltaStep(s: WalletState, d: AccountDelta)
    requires Valid(s) && AccountDeltaTx(s, d).Ok?
    ensures var done := AccountDeltaTx(s, d).value;
      && Valid(done.state)
      && (done.value.None? ==> done.state == s)
      && (done.value.Some? ==>
            var m := AccountDeltaMessage(d, done.value.value);
            && FindRow(s.outbox, m.dedupeKey).None?
            && done.state.outbox == s.outbox + [NewRow(m)]
            && MovesBy(s, done.state, m))
  {
    var done := AccountDeltaTx(s, d).value;
    if done.value.Some? {
      AccountDeltaQueues(s, d);
      AccountDeltaMoves(s, d);
    }
  }
}
