/** The two ledgers, the wallet's own and the ledger service's, agree row by row, however the stream is delivered. */
module Ledgers {
  import opened Common
  import opened WalletTypes
  import opened LedgerProcessor
  import opened WalletInvariant
  import opened OutboxRelay
  import opened LedgerJournal
  import opened InternalLedger
  import opened Pipeline

  /** In every run of the pipeline too, the wallet's ledger is what the queued events say. */
  lemma {:induction false} EveryReachBooks(relays: nat, actions: seq<Action>)
    ensures BooksMatch(Reach(relays, actions).wallet)
  {
    if actions != [] {
      var s := Reach(relays, actions[..|actions| - 1]);
      EveryReachBooks(relays, actions[..|actions| - 1]);
      EveryReachIsSound(relays, actions[..|actions| - 1]);
      match actions[|actions| - 1]
      case OnWallet(a) => StepMatches(s.wallet, a);
      case OnRelay(step) =>
        RelayStepExtends(WorldOf(s), step);
        SameBooks(s.wallet, RelayStep(WorldOf(s), step).outbox);
      case _ =>
    }
  }

  lemma SameBooks(s: WalletState, outbox: seq<OutboxRow>)
    requires BooksMatch(s) && |outbox| == |s.outbox|
    requires forall i | 0 <= i < |outbox| :: outbox[i].message == s.outbox[i].message
    ensures BooksMatch(s.(outbox := outbox))
  {
    var t := s.(outbox := outbox);
    forall i, key ensures Owns(t, i, key) <==> Owns(s, i, key) {
    }
    forall key | key in t.ledger ensures exists i :: Owns(t, i, key) {
      var i :| Owns(s, i, key);
      assert Owns(t, i, key);
    }
  }

  /** In every run the journal says what its events say, and its entries are theirs. */
  lemma {:induction false} EveryJournalSaysItsEvents(relays: nat, actions: seq<Action>)
    ensures SaysItsEvents(Reach(relays, actions).ledger)
  {
    if actions != [] {
      var s, last := Reach(relays, actions[..|actions| - 1]), actions[|actions| - 1];
      EveryJournalSaysItsEvents(relays, actions[..|actions| - 1]);
      EveryReachIsSound(relays, actions[..|actions| - 1]);
      if last.Consume? && CanConsume(s, last.partition) {
        var k, e := ConsumedEvent(s, last.partition);
        RecordSaysItsEvent(s.ledger, StreamPosition(last.partition, s.consumers[last.partition]), e);
      }
    }
  }

  /**
   * The entry has its row in the wallet's ledger: same account and amount, and but for withdrawals
   * same kind and reference. The journal names a withdrawal's request, the wallet its key.
   */
  predicate HasItsRow(ledger: map<LedgerKey, int>, e: WalletEvent, entry: Entry) {
    match e
    case ReservedEvent(_, _, _, _, _, _) => entry.totalDelta == 0 && entry.kind == "RESERVE"
    case ReleasedEvent(_, _, _, _, _, _) => entry.totalDelta == 0 && entry.kind == "RELEASE"
    case WithdrawalEvent(id, requestId, _, _, _, _, _, _) =>
      && entry.kind == "WITHDRAWAL" && entry.reference == requestId
      && id.Some? && id.value.WithdrawalKey?
      && var key := LedgerKey(entry.account, "WITHDRAW", id.value.idempotencyKey);
      && key in ledger && ledger[key] == entry.totalDelta
    case _ =>
      var key := LedgerKey(entry.account, entry.kind, entry.reference);
      key in ledger && ledger[key] == entry.totalDelta
  }

  /** An entry that only locks or unlocks names a reservation of its account; a RESERVE entry locks its whole amount. */
  predicate NamesAReservation(reservations: map<string, Reservation>, e: WalletEvent, entry: Entry) {
    e.ReservedEvent? || e.ReleasedEvent? ==>
      && entry.reference in reservations && reservations[entry.reference].account == entry.account
      && (e.ReservedEvent? ==> entry.lockedDelta == reservations[entry.reference].amount)
      && (e.ReleasedEvent? ==> entry.lockedDelta == -e.amount)
  }

  lemma EntriesHaveRows(s: WalletState, i: nat, entry: Entry)
    requires Valid(s) && BooksMatch(s) && i < |s.outbox| && s.outbox[i].message.payload.EventPayload?
    requires entry in EntriesOf(s.outbox[i].message.payload.event)
    ensures HasItsRow(s.ledger, s.outbox[i].message.payload.event, entry)
    ensures NamesAReservation(s.reservations, s.outbox[i].message.payload.event, entry)
  {
    var m := s.outbox[i].message;
    assert Vouched(s.ledger, s.reservations, m);
    forall key | key in Bookings(m) ensures key in s.ledger && s.ledger[key] == Bookings(m)[key] {
      assert Owns(s, i, key);
    }
    RowsOfEntry(m, entry);
  }

  /** Entry by entry: what the event's row in the wallet's ledger is. */
  lemma RowsOfEntry(m: Message, entry: Entry)
    requires m.payload.EventPayload? && entry in EntriesOf(m.payload.event)
    requires m.payload.event.eventId == Some(m.dedupeKey)
    requires m.payload.event.WithdrawalEvent? ==> m.dedupeKey.WithdrawalKey?
    ensures HasItsRow(Bookings(m), m.payload.event, entry)
  {
  }

  /** So in every run, crashes and replays included, each journaled entry has its row in the wallet's ledger. */
  lemma JournalIsInTheWalletsLedger(relays: nat, actions: seq<Action>, i: nat, entry: Entry)
    requires i < |Reach(relays, actions).ledger.journal|
    requires entry in EntriesOf(Reach(relays, actions).ledger.journal[i].payload)
    ensures var s := Reach(relays, actions);
      && HasItsRow(s.wallet.ledger, s.ledger.journal[i].payload, entry)
      && NamesAReservation(s.wallet.reservations, s.ledger.journal[i].payload, entry)
  {
    var s := Reach(relays, actions);
    EveryReachIsSound(relays, actions);
    EveryReachBooks(relays, actions);
    var row := s.ledger.journal[i];
    assert JournalRowSound(s, row);
    var k := EventRecord(s, row.position.partition, row.position.offset);
    EntriesHaveRows(s.wallet, k, entry);
  }
}
