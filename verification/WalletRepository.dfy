/**
 * The wallet repository, statement by statement. Every transaction takes a copy of the
 * tables, updates them in place, and puts the copy back when a statement fails.
 */
module WalletRepository {
  import opened Common
  import opened WalletTypes
  import opened WalletTransactions
  import opened OutboxTable

  class Repository {
    var collaterals: map<Account, Collateral>
    var reservations: map<string, Reservation>
    var ledger: map<LedgerKey, int>
    var replies: map<ReplyKey, StoredReply>
    var outbox: seq<OutboxRow>

    ghost function State(): WalletState
      reads this
    {
      WalletState(collaterals, reservations, ledger, replies, outbox)
    }

    /** The method left the tables, and answers, as the transaction function says. */
    ghost predicate Did<T>(before: WalletState, tx: Tx<T>, r: Result<T, WalletError>)
      reads this
    {
      match tx
      case Ok(done) => State() == done.state && r == Ok(done.value)
      case Err(e) => State() == before && r == Err(e)
    }

    constructor ()
      ensures State() == EMPTY_WALLET
    {
      collaterals, reservations, ledger, replies, outbox := map[], map[], map[], map[], [];
    }

    method Begin() returns (copy: WalletState)
      ensures copy == State()
    {
      copy := WalletState(collaterals, reservations, ledger, replies, outbox);
    }

    method Rollback(copy: WalletState)
      modifies this
      ensures State() == copy
    {
      collaterals, reservations, ledger, replies, outbox :=
        copy.collaterals, copy.reservations, copy.ledger, copy.replies, copy.outbox;
    }

    // ---- statements ----

    method CreditInTx(account: Account, amount: int) returns (ok: bool)
      modifies this`collaterals
      ensures ok == Credit(old(collaterals), account, amount).Ok?
      ensures ok ==> collaterals == Credit(old(collaterals), account, amount).value
    {
      if amount < 0 || amount > I64_MAX {
        return false;
      }
      if account !in collaterals {
        collaterals := collaterals[account := Collateral(amount, 0)];
        return true;
      }
      var row := collaterals[account].(total := collaterals[account].total + amount);
      if !(0 <= row.locked <= row.total <= I64_MAX) {
        return false;
      }
      collaterals := collaterals[account := row];
      ok := true;
    }

    /** An UPDATE of total and locked by the given amounts, guarded by the row's CHECKs. */
    method AddInTx(account: Account, totalDelta: int, lockedDelta: int) returns (ok: bool)
      requires account in collaterals
      modifies this`collaterals
      ensures var was := old(collaterals)[account];
        var row := Collateral(was.total + totalDelta, was.locked + lockedDelta);
        && ok == Write(old(collaterals), account, row).Ok?
        && collaterals == (if ok then Write(old(collaterals), account, row).value else old(collaterals))
    {
      var row := Collateral(collaterals[account].total + totalDelta, collaterals[account].locked + lockedDelta);
      if !(0 <= row.locked <= row.total <= I64_MAX) {
        return false;
      }
      collaterals := collaterals[account := row];
      ok := true;
    }

    method BookInTx(account: Account, amount: int, kind: string, reference: string) returns (ok: bool)
      modifies this`ledger
      ensures ok == Book(old(ledger), LedgerKey(account, kind, reference), amount).Ok?
      ensures ledger
        == (if ok then Book(old(ledger), LedgerKey(account, kind, reference), amount).value else old(ledger))
    {
      var key := LedgerKey(account, kind, reference);
      if key in ledger {
        return false;
      }
      ledger := ledger[key := amount];
      ok := true;
    }

    method RecordReplyInTx(user: int, commandType: string, idempotencyKey: string, requestId: string,
        reply: WalletReply)
      modifies this`replies
      ensures replies == RecordReply(old(replies), ReplyKey(user, commandType, idempotencyKey), requestId, reply)
    {
      var key := ReplyKey(user, commandType, idempotencyKey);
      if key in replies {
        replies := replies[key := StoredReply(requestId, replies[key].reply)];
      } else {
        replies := replies[key := StoredReply(requestId, reply)];
      }
    }

    /** Stops at the first message whose key belongs to a different message. */
    method EnqueueInTx(messages: seq<Message>) returns (ok: bool)
      modifies this`outbox
      ensures ok == Enqueue(old(outbox), messages).Ok?
      ensures ok ==> outbox == Enqueue(old(outbox), messages).value
      ensures !ok ==> Enqueue(old(outbox), messages) == Err(IdempotencyConflict)
    {
      var i := 0;
      while i < |messages|
        invariant 0 <= i <= |messages|
        invariant Enqueue(outbox, messages[i..]) == Enqueue(old(outbox), messages)
      {
        var message := messages[i];
        assert messages[i..][0] == message && messages[i..][1..] == messages[i + 1..];
        match FindRow(outbox, message.dedupeKey) {
          case None =>
            outbox := outbox + [OutboxRow(message, Pending, 0, None)];
          case Some(row) =>
            if outbox[row].message != message {
              return false;
            }
        }
        i := i + 1;
      }
      ok := true;
    }

    /** The end of every command's transaction: its reply and its messages. */
    method AnswerInTx(key: ReplyKey, requestId: string, reply: WalletReply, messages: seq<Message>) returns (ok: bool)
      modifies this`replies, this`outbox
      ensures replies == RecordReply(old(replies), key, requestId, reply)
      ensures ok == Enqueue(old(outbox), messages).Ok?
      ensures ok ==> outbox == Enqueue(old(outbox), messages).value
      ensures !ok ==> Enqueue(old(outbox), messages) == Err(IdempotencyConflict)
    {
      RecordReplyInTx(key.user, key.commandType, key.idempotencyKey, requestId, reply);
      ok := EnqueueInTx(messages);
    }

    // ---- transactions of wallet commands ----

    method ApplyDeposit(d: Deposit) returns (r: Result<WalletReply, WalletError>)
      modifies this
      ensures Did(old(State()), DepositTx(old(State()), d), r)
    {
      var copy := Begin();
      var account := Account(d.envelope.user, d.asset);
      var credited := CreditInTx(account, d.amount);
      if !credited {
        Rollback(copy);
        return Err(Storage);
      }
      var booked := BookInTx(account, d.amount, "DEPOSIT", d.reference);
      if !booked {
        Rollback(copy);
        return Err(Storage);
      }
      var row := collaterals[account];
      var reply := BalanceUpdated(d.envelope.requestId, d.asset, row.total, row.locked);
      var key := ReplyKey(d.envelope.user, "Deposit", d.envelope.idempotencyKey);
      var queued := AnswerInTx(key, d.envelope.requestId, reply, [DepositMessage(d, row)]);
      if !queued {
        Rollback(copy);
        return Err(IdempotencyConflict);
      }
      return Ok(reply);
    }

    method ApplyWithdraw(w: Withdraw) returns (r: Result<WalletReply, WalletError>)
      modifies this
      ensures Did(old(State()), WithdrawTx(old(State()), w), r)
    {
      var copy := Begin();
      var account := Account(w.envelope.user, w.asset);
      if account !in collaterals {
        return Err(NotEnough(0));
      }
      var available := collaterals[account].total - collaterals[account].locked;
      if available < w.amount {
        return Err(NotEnough(available));
      }
      var updated := AddInTx(account, -w.amount, 0);
      if !updated {
        Rollback(copy);
        return Err(Storage);
      }
      var booked := BookInTx(account, -w.amount, "WITHDRAW", w.envelope.idempotencyKey);
      if !booked {
        Rollback(copy);
        return Err(Storage);
      }
      var row := collaterals[account];
      var reply := BalanceUpdated(w.envelope.requestId, w.asset, row.total, row.locked);
      var key := ReplyKey(w.envelope.user, "Withdraw", w.envelope.idempotencyKey);
      var queued := AnswerInTx(key, w.envelope.requestId, reply, [WithdrawalMessage(w, row)]);
      if !queued {
        Rollback(copy);
        return Err(IdempotencyConflict);
      }
      return Ok(reply);
    }

    method ReserveFunds(intent: PlaceOrderIntent, reservationId: string) returns (r: Result<WalletReply, WalletError>)
      modifies this
      ensures Did(old(State()), ReserveTx(old(State()), intent, reservationId), r)
    {
      var copy := Begin();
      var env := intent.envelope;
      var account := Account(env.user, intent.marginAsset);
      if account !in collaterals {
        return Err(NotEnough(0));
      }
      var available := collaterals[account].total - collaterals[account].locked;
      if available < intent.requiredMargin {
        return Err(NotEnough(available));
      }
      var updated := AddInTx(account, 0, intent.requiredMargin);
      if !updated {
        Rollback(copy);
        return Err(Storage);
      }
      var twice := exists other | other in reservations ::
        reservations[other].account.user == env.user && reservations[other].idempotencyKey == env.idempotencyKey;
      if reservationId in reservations || intent.requiredMargin <= 0 || twice {
        Rollback(copy);
        return Err(Storage);
      }
      reservations := reservations[reservationId :=
        Reservation(account, intent.requiredMargin, intent.requiredMargin, Active, env.idempotencyKey, env.requestId)];
      var reply := FundsReserved(env.requestId, reservationId, intent.marginAsset, intent.requiredMargin);
      var key := ReplyKey(env.user, "PlaceOrderIntent", env.idempotencyKey);
      var messages := [ReservedMessage(intent, reservationId), PlaceOrderMessage(intent, reservationId)];
      var queued := AnswerInTx(key, env.requestId, reply, messages);
      if !queued {
        Rollback(copy);
        return Err(IdempotencyConflict);
      }
      return Ok(reply);
    }

    method ForwardCancel(cancel: CancelOrderIntent) returns (r: Result<WalletReply, WalletError>)
      modifies this
      ensures Did(old(State()), CancelTx(old(State()), cancel), r)
    {
      var copy := Begin();
      var env := cancel.envelope;
      var reply := CommandAccepted(env.requestId);
      var key := ReplyKey(env.user, "CancelOrderIntent", env.idempotencyKey);
      var queued := AnswerInTx(key, env.requestId, reply, [CancelMessage(cancel)]);
      if !queued {
        Rollback(copy);
        return Err(IdempotencyConflict);
      }
      return Ok(reply);
    }

    // ---- transactions of engine events ----

    method Release(release: ReleaseReservation) returns (r: Result<Reservation, WalletError>)
      modifies this
      ensures Did(old(State()), ReleaseTx(old(State()), release), r)
    {
      var copy := Begin();
      if release.reservationId !in reservations {
        return Err(ReservationNotFound);
      }
      var reservation := reservations[release.reservationId];
      if !reservation.status.Active? || release.amount <= 0 || release.amount > reservation.remaining {
        return Err(InvalidReservationState);
      }
      var account := reservation.account;
      if account in collaterals && collaterals[account].locked >= release.amount {
        var unlocked := AddInTx(account, 0, -release.amount);
        if !unlocked {
          Rollback(copy);
          return Err(Storage);
        }
      }
      var remaining := reservation.remaining - release.amount;
      var updated := reservation.(remaining := remaining, status := if remaining == 0 then Released else Active);
      reservations := reservations[release.reservationId := updated];
      var queued := EnqueueInTx([ReleasedMessage(release, account)]);
      if !queued {
        Rollback(copy);
        return Err(IdempotencyConflict);
      }
      return Ok(updated);
    }

    method SettleCollateralInTx(user: int, settle: SettleTrade) returns (ok: bool)
      modifies this`collaterals
      ensures ok == SettleCollateral(old(collaterals), user, settle).Ok?
      ensures ok ==> collaterals == SettleCollateral(old(collaterals), user, settle).value
      ensures !ok ==> SettleCollateral(old(collaterals), user, settle) == Err(Storage)
    {
      var debit := Account(user, settle.debitAsset);
      match SettlementEffect(settle) {
        case UnlockReservedOnly(amount) =>
          ok := true;
          if debit in collaterals && collaterals[debit].locked >= amount {
            ok := AddInTx(debit, 0, -amount);
          }
        case TransferDebitToCredit(spent, earned) =>
          if debit in collaterals && collaterals[debit].locked >= spent && collaterals[debit].total >= spent {
            ok := AddInTx(debit, -spent, -spent);
            if !ok {
              return;
            }
          }
          ok := CreditInTx(Account(user, settle.creditAsset), earned);
      }
    }

    method BookSettlementInTx(user: int, settle: SettleTrade) returns (ok: bool)
      modifies this`ledger
      ensures ok == BookSettlement(old(ledger), user, settle).Ok?
      ensures ok ==> ledger == BookSettlement(old(ledger), user, settle).value
      ensures !ok ==> BookSettlement(old(ledger), user, settle) == Err(Storage)
    {
      var fill := Decimal(settle.fillId);
      ok := BookInTx(Account(user, settle.debitAsset), -settle.debitAmount, "TRADE_DEBIT", fill);
      if ok {
        ok := BookInTx(Account(user, settle.creditAsset), settle.creditAmount, "TRADE_CREDIT", fill);
      }
    }

    method Settle(settle: SettleTrade) returns (r: Result<Reservation, WalletError>)
      modifies this
      ensures Did(old(State()), SettleTx(old(State()), settle), r)
    {
      var copy := Begin();
      if settle.reservationId !in reservations {
        return Err(ReservationNotFound);
      }
      var reservation := reservations[settle.reservationId];
      if !reservation.status.Active? || reservation.account.asset != settle.debitAsset
        || settle.debitAmount <= 0 || settle.debitAmount > reservation.remaining {
        return Err(InvalidReservationState);
      }
      var user := reservation.account.user;
      var moved := SettleCollateralInTx(user, settle);
      if !moved {
        Rollback(copy);
        return Err(Storage);
      }
      var booked := BookSettlementInTx(user, settle);
      if !booked {
        Rollback(copy);
        return Err(Storage);
      }
      var remaining := reservation.remaining - settle.debitAmount;
      var updated := reservation.(remaining := remaining, status := if remaining == 0 then Settled else Active);
      reservations := reservations[settle.reservationId := updated];
      var queued := EnqueueInTx([SettledMessage(settle, user)]);
      if !queued {
        Rollback(copy);
        return Err(IdempotencyConflict);
      }
      return Ok(updated);
    }

    method ApplyAccountDelta(d: AccountDelta) returns (r: Result<Option<Collateral>, WalletError>)
      modifies this
      ensures Did(old(State()), AccountDeltaTx(old(State()), d), r)
    {
      if d.totalDelta == 0 && d.lockedDelta == 0 {
        return Ok(None);
      }
      var copy := Begin();
      var account := Account(d.user, d.asset);
      var isNew := BookInTx(account, d.totalDelta, d.kind, d.reference);
      if !isNew {
        return Ok(None);
      }
      // the SELECT of the upsert yields no row
      if !(d.totalDelta >= 0 && d.lockedDelta >= 0 && d.lockedDelta <= d.totalDelta) {
        Rollback(copy);
        return Err(InvalidAccountDelta);
      }
      if d.totalDelta > I64_MAX {
        Rollback(copy);
        return Err(Storage);
      }
      if account !in collaterals {
        collaterals := collaterals[account := Collateral(d.totalDelta, d.lockedDelta)];
      } else {
        var total := collaterals[account].total + d.totalDelta;
        var locked := collaterals[account].locked + d.lockedDelta;
        if !(total >= 0 && locked >= 0 && locked <= total) {
          Rollback(copy);
          return Err(InvalidAccountDelta);
        }
        var added := AddInTx(account, d.totalDelta, d.lockedDelta);
        if !added {
          Rollback(copy);
          return Err(Storage);
        }
      }
      var row := collaterals[account];
      var queued := EnqueueInTx([AccountDeltaMessage(d, row)]);
      if !queued {
        Rollback(copy);
        return Err(IdempotencyConflict);
      }
      return Ok(Some(row));
    }

    // ---- the relay's statements ----

    /** The rows that were claimed, in outbox_id order, now PROCESSING with one more attempt. */
    method ClaimOutboxMessages(limit: nat, ready: set<nat>) returns (ids: seq<nat>)
      modifies this`outbox
      ensures ids == Claimable(old(outbox), ready, limit, 0)
      ensures outbox == Claim(old(outbox), ids)
    {
      ids := SelectClaimable(limit, ready);
      ghost var was := outbox;
      assert Claim(was, ids[..0]) == was;
      var k := 0;
      while k < |ids|
        invariant 0 <= k <= |ids|
        invariant outbox == Claim(was, ids[..k])
      {
        ClaimOneMore(was, ids[..k], ids[k]);
        assert ids[..k + 1] == ids[..k] + [ids[k]];
        var row := outbox[ids[k]];
        outbox := outbox[ids[k] := row.(status := Processing, attempts := row.attempts + 1)];
        k := k + 1;
      }
      assert ids[..k] == ids;
    }

    method SelectClaimable(limit: nat, ready: set<nat>) returns (ids: seq<nat>)
      ensures ids == Claimable(outbox, ready, limit, 0)
    {
      ids := [];
      var i := 0;
      while i < |outbox| && |ids| < limit
        invariant 0 <= i <= |outbox| && |ids| <= limit
        invariant ids + Claimable(outbox, ready, limit - |ids|, i) == Claimable(outbox, ready, limit, 0)
      {
        ClaimableFirst(outbox, ready, limit - |ids|, i, ids, Claimable(outbox, ready, limit, 0));
        if outbox[i].status.Pending? && i in ready {
          ids := ids + [i];
        }
        i := i + 1;
      }
    }

    method MarkOutboxPublished(id: nat, position: StreamPosition)
      modifies this`outbox
      ensures outbox == MarkPublished(old(outbox), id, position)
    {
      if id < |outbox| {
        outbox := outbox[id := outbox[id].(status := Published, published := Some(position))];
      }
    }

    method MarkOutboxPending(id: nat)
      modifies this`outbox
      ensures outbox == MarkPending(old(outbox), id)
    {
      if id < |outbox| {
        outbox := outbox[id := outbox[id].(status := Pending)];
      }
    }

    method RequeueStaleOutboxMessages(stale: set<nat>)
      modifies this`outbox
      ensures outbox == Requeue(old(outbox), stale)
    {
      var i := 0;
      while i < |outbox|
        invariant 0 <= i <= |outbox| == |old(outbox)|
        invariant forall k | 0 <= k < i :: outbox[k] == Requeue(old(outbox), stale)[k]
        invariant forall k | i <= k < |outbox| :: outbox[k] == old(outbox)[k]
      {
        if i in stale && outbox[i].status.Processing? {
          outbox := outbox[i := outbox[i].(status := Pending)];
        }
        i := i + 1;
      }
    }
  }
}
