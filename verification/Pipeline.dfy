/**
 * The whole accounting pipeline: wallet transactions, relays that publish and crash, and a
 * ledger consumer that stops and replays. Its runs reconcile to the unit.
 */
module Pipeline {
  import opened Common
  import opened WalletTypes
  import opened WalletTransactions
  import opened LedgerProcessor
  import opened WalletInvariant
  import opened WalletRuns
  import opened OutboxRelay
  import opened LedgerJournal

  /** `consumers` holds, per partition of wallet.events, the offset a running ledger consumer reads next. */
  datatype System = System(
    wallet: WalletState, log: seq<StreamRecord>, relays: seq<Relay>, ledger: LedgerState, consumers: map<int, nat>)

  datatype Action =
    | OnWallet(transaction: WalletAction)
    | OnRelay(step: RelayAction)
    | RestartConsumer(partition: int)
    | Consume(partition: int)

  function WorldOf(s: System): World {
    World(s.wallet.outbox, s.log, s.relays)
  }

  function EventLane(s: System, partition: int): seq<StreamRecord> {
    Lane(s.log, WalletEvents, partition)
  }

  function Step(s: System, a: Action): System {
    match a
    case OnWallet(transaction) => s.(wallet := Next(s.wallet, transaction))
    case OnRelay(step) =>
      var w := RelayStep(WorldOf(s), step);
      s.(wallet := s.wallet.(outbox := w.outbox), log := w.log, relays := w.relays)
    case RestartConsumer(p) =>
      s.(consumers := s.consumers[p := if p in s.ledger.offsets then s.ledger.offsets[p] else 0])
    case Consume(p) =>
      if p !in s.consumers || s.consumers[p] >= |EventLane(s, p)| then s else
        var offset := s.consumers[p];
        var consumers := s.consumers[p := offset + 1];
        match EventLane(s, p)[offset].payload
        case EventPayload(e) =>
          s.(ledger := RecordWalletEvent(s.ledger, StreamPosition(p, offset), RecordOf(e)), consumers := consumers)
        case CommandPayload(_) =>
          s.(ledger := s.ledger.(offsets := SaveOffset(s.ledger.offsets, p, offset + 1)), consumers := consumers)
  }

  function Initial(relays: nat): System {
    System(EMPTY_WALLET, [], seq(relays, i => Down), EMPTY_LEDGER, map[])
  }

  function Reach(relays: nat, actions: seq<Action>): System {
    if actions == [] then Initial(relays)
    else Step(Reach(relays, actions[..|actions| - 1]), actions[|actions| - 1])
  }

  // ---- sums over the outbox ----

  /** What a row adds that the ledger does not have yet. */
  function RowPending(row: OutboxRow, done: set<DedupeKey>, account: Account, column: Column): int {
    if row.message.payload.EventPayload? && row.message.dedupeKey !in done
    then EventDelta(row.message.payload.event, account, column)
    else 0
  }

  /** The deltas of committed outbox rows whose event is not journaled. */
  function Pending(outbox: seq<OutboxRow>, done: set<DedupeKey>, account: Account, column: Column): int {
    if outbox == [] then 0
    else
      var last := outbox[|outbox| - 1];
      Pending(outbox[..|outbox| - 1], done, account, column) + RowPending(last, done, account, column)
  }

  lemma PendingAppend(outbox: seq<OutboxRow>, row: OutboxRow, done: set<DedupeKey>, account: Account, column: Column)
    ensures Pending(outbox + [row], done, account, column)
         == Pending(outbox, done, account, column) + RowPending(row, done, account, column)
  {
    assert (outbox + [row])[..|outbox + [row]| - 1] == outbox;
  }

  lemma {:induction false} PendingSameMessages(a: seq<OutboxRow>, b: seq<OutboxRow>, done: set<DedupeKey>,
      account: Account, column: Column)
    requires |a| == |b| && forall i | 0 <= i < |a| :: a[i].message == b[i].message
    ensures Pending(a, done, account, column) == Pending(b, done, account, column)
  {
    if a != [] {
      PendingSameMessages(a[..|a| - 1], b[..|b| - 1], done, account, column);
    }
  }

  /** Journaling a row's event takes that row, and only it, out of the pending sum. */
  lemma {:induction false} PendingAfterJournal(outbox: seq<OutboxRow>, k: nat, done: set<DedupeKey>, account: Account,
      column: Column)
    requires UniqueKeys(outbox) && k < |outbox| && outbox[k].message.payload.EventPayload?
    requires outbox[k].message.dedupeKey !in done
    ensures Pending(outbox, done + {outbox[k].message.dedupeKey}, account, column)
         == Pending(outbox, done, account, column) - EventDelta(outbox[k].message.payload.event, account, column)
  {
    var init, last := outbox[..|outbox| - 1], outbox[|outbox| - 1];
    var key := outbox[k].message.dedupeKey;
    if k == |outbox| - 1 {
      PendingIgnores(init, key, done, account, column);
    } else {
      PendingAfterJournal(init, k, done, account, column);
      assert last.message.dedupeKey != key;
    }
  }

  lemma {:induction false} PendingIgnores(outbox: seq<OutboxRow>, key: DedupeKey, done: set<DedupeKey>,
      account: Account, column: Column)
    requires forall i | 0 <= i < |outbox| :: outbox[i].message.dedupeKey != key
    ensures Pending(outbox, done + {key}, account, column) == Pending(outbox, done, account, column)
  {
    if outbox != [] {
      PendingIgnores(outbox[..|outbox| - 1], key, done, account, column);
    }
  }

  lemma {:induction false} NothingPending(outbox: seq<OutboxRow>, done: set<DedupeKey>, account: Account,
      column: Column)
    requires forall i | 0 <= i < |outbox| && outbox[i].message.payload.EventPayload? ::
      outbox[i].message.dedupeKey in done
    ensures Pending(outbox, done, account, column) == 0
  {
    if outbox != [] {
      NothingPending(outbox[..|outbox| - 1], done, account, column);
    }
  }

  // ---- the invariant ----

  /** Each journal row is the record at its position, and its id is the key of an outbox row. */
  ghost predicate JournalSound(s: System) {
    && JournaledOnce(s.ledger.journal)
    && forall i | 0 <= i < |s.ledger.journal| :: JournalRowSound(s, s.ledger.journal[i])
  }

  predicate JournalRowSound(s: System, row: JournalRow) {
    var lane := EventLane(s, row.position.partition);
    && row.position.offset < |lane|
    && lane[row.position.offset].payload == EventPayload(row.payload)
    && row.logicalEventId == row.payload.eventId
    && row.logicalEventId.Some?
    && HasKey(s.wallet.outbox, row.logicalEventId.value)
  }

  /** Everything before an offset that a consumer holds or stored is journaled. */
  ghost predicate JournaledBelow(s: System, partition: int, offset: nat) {
    && offset <= |EventLane(s, partition)|
    && forall o | 0 <= o < offset :: RecordJournaled(s, EventLane(s, partition)[o])
  }

  predicate RecordJournaled(s: System, record: StreamRecord) {
    record.payload.EventPayload? ==>
      record.payload.event.eventId.Some? && record.payload.event.eventId.value in Journaled(s.ledger.journal)
  }

  ghost predicate OffsetsSound(s: System) {
    && (forall p | p in s.consumers :: JournaledBelow(s, p, s.consumers[p]))
    && (forall p | p in s.ledger.offsets :: JournaledBelow(s, p, s.ledger.offsets[p]))
  }

  ghost predicate Sound(s: System) {
    && Valid(s.wallet)
    && WorldOk(WorldOf(s))
    && JournalSound(s)
    && OffsetsSound(s)
  }

  // ---- every step keeps it ----

  lemma {:induction false} LaneInLog(log: seq<StreamRecord>, topic: Topic, partition: int, k: nat)
    requires k < |Lane(log, topic, partition)|
    ensures Lane(log, topic, partition)[k] in log
    ensures Lane(log, topic, partition)[k].topic == topic && Lane(log, topic, partition)[k].partition == partition
  {
    var init := log[..|log| - 1];
    if k < |Lane(init, topic, partition)| {
      LaneInLog(init, topic, partition, k);
    }
  }

  /** A record of wallet.events is a copy of an outbox row with a wallet event under its own key. */
  lemma EventRecord(s: System, partition: int, k: nat) returns (i: nat)
    requires Valid(s.wallet) && WorldOk(WorldOf(s)) && k < |EventLane(s, partition)|
    ensures i < |s.wallet.outbox|
    ensures var m := s.wallet.outbox[i].message;
      && EventLane(s, partition)[k].payload == m.payload
      && m.payload.EventPayload?
      && m.payload.event.eventId == Some(m.dedupeKey)
  {
    LaneInLog(s.log, WalletEvents, partition, k);
    var record := EventLane(s, partition)[k];
    var j :| 0 <= j < |s.log| && s.log[j] == record;
    assert Carries(s.log[j], s.wallet.outbox[s.log[j].outboxId].message);
    i := record.outboxId;
    assert Vouched(s.wallet.ledger, s.wallet.reservations, s.wallet.outbox[i].message);
  }

  /** The stream only grows, the outbox keeps its keys, and the journal keeps its rows. */
  ghost predicate Continues(s: System, t: System) {
    && (forall p :: EventLane(s, p) <= EventLane(t, p))
    && (forall key :: HasKey(s.wallet.outbox, key) ==> HasKey(t.wallet.outbox, key))
    && Journaled(s.ledger.journal) <= Journaled(t.ledger.journal)
  }

  lemma KeepsBelow(s: System, t: System, partition: int, offset: nat)
    requires Continues(s, t) && JournaledBelow(s, partition, offset)
    ensures JournaledBelow(t, partition, offset)
  {
    assert EventLane(s, partition) <= EventLane(t, partition);
    forall o | 0 <= o < offset ensures RecordJournaled(t, EventLane(t, partition)[o]) {
      assert RecordJournaled(s, EventLane(s, partition)[o]);
    }
  }

  lemma KeepsOffsets(s: System, t: System)
    requires Continues(s, t) && OffsetsSound(s)
    requires t.consumers == s.consumers && t.ledger.offsets == s.ledger.offsets
    ensures OffsetsSound(t)
  {
    forall p | p in t.consumers ensures JournaledBelow(t, p, t.consumers[p]) {
      KeepsBelow(s, t, p, s.consumers[p]);
    }
    forall p | p in t.ledger.offsets ensures JournaledBelow(t, p, t.ledger.offsets[p]) {
      KeepsBelow(s, t, p, s.ledger.offsets[p]);
    }
  }

  lemma KeepsJournal(s: System, t: System)
    requires Continues(s, t) && JournalSound(s) && t.ledger.journal == s.ledger.journal
    ensures JournalSound(t)
  {
    forall i | 0 <= i < |t.ledger.journal| ensures JournalRowSound(t, t.ledger.journal[i]) {
      var row := s.ledger.journal[i];
      assert JournalRowSound(s, row);
      assert EventLane(s, row.position.partition) <= EventLane(t, row.position.partition);
    }
  }

  lemma {:induction false} HasKeySame(a: seq<OutboxRow>, b: seq<OutboxRow>, key: DedupeKey)
    requires |a| <= |b| && forall i | 0 <= i < |a| :: a[i].message == b[i].message
    ensures HasKey(a, key) ==> HasKey(b, key)
  {
    if HasKey(a, key) {
      var i := FindRow(a, key).value;
      assert b[i].message.dedupeKey == key;
    }
  }

  lemma WalletStepSound(s: System, a: WalletAction)
    requires Sound(s)
    ensures Sound(Step(s, OnWallet(a)))
  {
    var t := Step(s, OnWallet(a));
    StepFacts(s.wallet, a);
    EnqueueKeeps(WorldOf(s), NewMessages(s.wallet, a));
    assert WorldOf(t) == WorldStep(WorldOf(s), OfWallet(NewMessages(s.wallet, a)));
    forall key ensures HasKey(s.wallet.outbox, key) ==> HasKey(t.wallet.outbox, key) {
      HasKeySame(s.wallet.outbox, t.wallet.outbox, key);
    }
    KeepsOffsets(s, t);
    KeepsJournal(s, t);
  }

  /** A relay step changes no message and appends at most one record. */
  lemma RelayStepExtends(w: World, a: RelayAction)
    requires WorldOk(w)
    ensures Extends(w, RelayStep(w, a)) && |RelayStep(w, a).outbox| == |w.outbox|
  {
  }

  lemma LanesGrow(w: World, t: World, topic: Topic, partition: int)
    requires Extends(w, t)
    ensures Lane(w.log, topic, partition) <= Lane(t.log, topic, partition)
  {
    if t.log != w.log {
      assert t.log == w.log + [t.log[|t.log| - 1]];
      LaneAppend(w.log, t.log[|t.log| - 1], topic, partition);
    }
  }

  lemma RelayedWalletIsValid(s: WalletState, outbox: seq<OutboxRow>)
    requires Valid(s) && |outbox| == |s.outbox|
    requires forall i | 0 <= i < |outbox| :: outbox[i].message == s.outbox[i].message
    ensures Valid(s.(outbox := outbox))
  {
    forall i | 0 <= i < |outbox| ensures Vouched(s.ledger, s.reservations, outbox[i].message) {
      assert Vouched(s.ledger, s.reservations, s.outbox[i].message);
    }
  }

  lemma RelaySound(s: System, a: RelayAction)
    requires Sound(s)
    ensures Sound(Step(s, OnRelay(a)))
  {
    var t := Step(s, OnRelay(a));
    var w := WorldOf(s);
    RelayStepExtends(w, a);
    RelayStepKeeps(w, a);
    assert WorldOf(t) == RelayStep(w, a);
    RelayedWalletIsValid(s.wallet, t.wallet.outbox);
    forall p ensures EventLane(s, p) <= EventLane(t, p) {
      LanesGrow(w, RelayStep(w, a), WalletEvents, p);
    }
    forall key ensures HasKey(s.wallet.outbox, key) ==> HasKey(t.wallet.outbox, key) {
      HasKeySame(s.wallet.outbox, t.wallet.outbox, key);
    }
    KeepsOffsets(s, t);
    KeepsJournal(s, t);
  }

  lemma JournaledAppend(journal: seq<JournalRow>, row: JournalRow)
    ensures Journaled(journal + [row])
         == Journaled(journal) + if row.logicalEventId.Some? then {row.logicalEventId.value} else {}
  {
    var all := journal + [row];
    assert all[|journal|] == row;
    forall key | key in Journaled(journal) ensures key in Journaled(all) {
      var i :| 0 <= i < |journal| && journal[i].logicalEventId == Some(key);
      assert all[i].logicalEventId == Some(key);
    }
  }

  /** The event at (p, offset) is new to the ledger exactly when its id is not journaled. */
  lemma ConflictMeansJournaled(s: System, p: int, offset: nat, e: WalletEvent)
    requires JournalSound(s) && offset < |EventLane(s, p)| && EventLane(s, p)[offset].payload == EventPayload(e)
    requires e.eventId.Some?
    ensures Conflicts(s.ledger.journal, StreamPosition(p, offset), e.eventId)
      <==> e.eventId.value in Journaled(s.ledger.journal)
  {
    if Conflicts(s.ledger.journal, StreamPosition(p, offset), e.eventId) {
      var i :| 0 <= i < |s.ledger.journal|
        && (s.ledger.journal[i].position == StreamPosition(p, offset)
          || s.ledger.journal[i].logicalEventId == e.eventId);
      assert JournalRowSound(s, s.ledger.journal[i]);
    }
  }

  predicate CanConsume(s: System, p: int) {
    p in s.consumers && s.consumers[p] < |EventLane(s, p)|
  }

  /** A consumed record is an event with the key of an outbox row, and it is recorded at its position. */
  lemma ConsumedEvent(s: System, p: int) returns (k: nat, e: WalletEvent)
    requires Valid(s.wallet) && WorldOk(WorldOf(s)) && CanConsume(s, p)
    ensures k < |s.wallet.outbox| && s.wallet.outbox[k].message.payload == EventPayload(e)
    ensures e.eventId == Some(s.wallet.outbox[k].message.dedupeKey)
    ensures EventLane(s, p)[s.consumers[p]].payload == EventPayload(e)
    ensures Step(s, Consume(p)) == s.(
      ledger := RecordWalletEvent(s.ledger, StreamPosition(p, s.consumers[p]), RecordOf(e)),
      consumers := s.consumers[p := s.consumers[p] + 1])
  {
    k := EventRecord(s, p, s.consumers[p]);
    e := s.wallet.outbox[k].message.payload.event;
  }

  lemma RecordedJournal(s: System, position: StreamPosition, e: WalletEvent)
    requires JournalSound(s) && position.offset < |EventLane(s, position.partition)|
    requires EventLane(s, position.partition)[position.offset].payload == EventPayload(e) && e.eventId.Some?
    ensures var ledger := RecordWalletEvent(s.ledger, position, RecordOf(e));
      && JournaledOnce(ledger.journal)
      && Journaled(ledger.journal) == Journaled(s.ledger.journal) + {e.eventId.value}
      && (ledger.journal == s.ledger.journal || ledger.journal == s.ledger.journal + [RowOf(position, RecordOf(e))])
  {
    ConflictMeansJournaled(s, position.partition, position.offset, e);
    RecordKeepsOnce(s.ledger, position, RecordOf(e));
    JournaledAppend(s.ledger.journal, RowOf(position, RecordOf(e)));
  }

  lemma ConsumeKeepsJournal(s: System, p: int)
    requires Sound(s) && CanConsume(s, p)
    ensures var t := Step(s, Consume(p));
      JournalSound(t) && Continues(s, t) && RecordJournaled(t, EventLane(t, p)[s.consumers[p]])
  {
    var k, e := ConsumedEvent(s, p);
    var t := Step(s, Consume(p));
    RecordedJournal(s, StreamPosition(p, s.consumers[p]), e);
    assert HasKey(s.wallet.outbox, s.wallet.outbox[k].message.dedupeKey);
    forall i | 0 <= i < |t.ledger.journal| ensures JournalRowSound(t, t.ledger.journal[i]) {
      if i < |s.ledger.journal| {
        assert JournalRowSound(s, s.ledger.journal[i]);
      }
    }
  }

  lemma ConsumeKeepsOffsets(s: System, t: System, p: int)
    requires OffsetsSound(s) && Continues(s, t) && CanConsume(s, p)
    requires EventLane(t, p) == EventLane(s, p) && RecordJournaled(t, EventLane(t, p)[s.consumers[p]])
    requires t.consumers == s.consumers[p := s.consumers[p] + 1]
    requires t.ledger.offsets == SaveOffset(s.ledger.offsets, p, s.consumers[p] + 1)
    ensures OffsetsSound(t)
  {
    KeepsBelow(s, t, p, s.consumers[p]);
    assert JournaledBelow(t, p, s.consumers[p] + 1);
    forall q | q in t.consumers && q != p ensures JournaledBelow(t, q, t.consumers[q]) {
      KeepsBelow(s, t, q, s.consumers[q]);
    }
    forall q | q in t.ledger.offsets ensures JournaledBelow(t, q, t.ledger.offsets[q]) {
      if q in s.ledger.offsets {
        KeepsBelow(s, t, q, s.ledger.offsets[q]);
      }
    }
  }

  lemma ConsumeSound(s: System, p: int)
    requires Sound(s)
    ensures Sound(Step(s, Consume(p)))
  {
    if CanConsume(s, p) {
      var k, e := ConsumedEvent(s, p);
      var t := Step(s, Consume(p));
      assert t.wallet == s.wallet && WorldOf(t) == WorldOf(s);
      ConsumeKeepsJournal(s, p);
      ConsumeKeepsOffsets(s, t, p);
    }
  }

  lemma StepSound(s: System, a: Action)
    requires Sound(s)
    ensures Sound(Step(s, a))
  {
    match a
    case OnWallet(transaction) => WalletStepSound(s, transaction);
    case OnRelay(step) => RelaySound(s, step);
    case RestartConsumer(p) => RestartSound(s, p);
    case Consume(p) => ConsumeSound(s, p);
  }

  lemma RestartSound(s: System, p: int)
    requires Sound(s)
    ensures Sound(Step(s, RestartConsumer(p)))
  {
    var t := Step(s, RestartConsumer(p));
    KeepsJournal(s, t);
    forall q | q in t.consumers ensures JournaledBelow(t, q, t.consumers[q]) {
      if q != p {
        KeepsBelow(s, t, q, s.consumers[q]);
      } else if p in s.ledger.offsets {
        KeepsBelow(s, t, p, s.ledger.offsets[p]);
      }
    }
    forall q | q in t.ledger.offsets ensures JournaledBelow(t, q, t.ledger.offsets[q]) {
      KeepsBelow(s, t, q, s.ledger.offsets[q]);
    }
  }

  lemma {:induction false} EveryReachIsSound(relays: nat, actions: seq<Action>)
    ensures Sound(Reach(relays, actions))
  {
    if actions == [] {
      EmptyIsValid();
      EveryWorldIsOk(relays, []);
    } else {
      EveryReachIsSound(relays, actions[..|actions| - 1]);
      StepSound(Reach(relays, actions[..|actions| - 1]), actions[|actions| - 1]);
    }
  }

  // ---- reconciliation ----

  /** What a step unlocks without an event: a release that repeats an earlier (reservation, reason, amount). */
  function UnreportedBy(s: System, a: Action, account: Account): nat {
    if a.OnWallet? && RepeatsRelease(s.wallet, a.transaction)
      && a.transaction.release.reservationId in s.wallet.reservations
      && s.wallet.reservations[a.transaction.release.reservationId].account == account
      && a.transaction.release.amount > 0
    then a.transaction.release.amount
    else 0
  }

  function Unreported(relays: nat, actions: seq<Action>, account: Account): nat {
    if actions == [] then 0 else
      var before := actions[..|actions| - 1];
      Unreported(relays, before, account) + UnreportedBy(Reach(relays, before), actions[|actions| - 1], account)
  }

  /** Journaled deltas plus those of committed rows not yet journaled, less the balance. */
  function Imbalance(s: System, account: Account, column: Column): int {
    JournalDelta(s.ledger.entries, account, column)
    + Pending(s.wallet.outbox, Journaled(s.ledger.journal), account, column)
    - BalanceOf(s.wallet, account, column)
  }

  /** The new messages: the event of the effect, and nothing else that the ledger will read. */
  lemma NewMessagesShape(s: WalletState, a: WalletAction)
    ensures var messages := NewMessages(s, a);
      if Effect(s, a).Some? && !RepeatsRelease(s, a)
      then (messages == [Effect(s, a).value]
            || (a.DoReserve? && messages == [Effect(s, a).value, PlaceOrderMessage(a.intent, a.reservationId)]))
      else (messages == [] || (|messages| == 1 && messages[0].payload.CommandPayload?))
  {
  }

  lemma PendingOne(outbox: seq<OutboxRow>, m: Message, done: set<DedupeKey>, account: Account, column: Column)
    ensures Pending(outbox + Rows([m]), done, account, column)
         == Pending(outbox, done, account, column) + RowPending(NewRow(m), done, account, column)
  {
    RowsOfOne(m);
    PendingAppend(outbox, NewRow(m), done, account, column);
  }

  lemma PendingTwo(outbox: seq<OutboxRow>, m: Message, n: Message, done: set<DedupeKey>, account: Account,
      column: Column)
    requires n.payload.CommandPayload?
    ensures Pending(outbox + Rows([m, n]), done, account, column)
         == Pending(outbox, done, account, column) + RowPending(NewRow(m), done, account, column)
  {
    PendingAppend(outbox, NewRow(m), done, account, column);
    PendingAppend(outbox + [NewRow(m)], NewRow(n), done, account, column);
    assert Rows([m, n]) == [NewRow(m), NewRow(n)];
    assert outbox + Rows([m, n]) == outbox + [NewRow(m)] + [NewRow(n)];
  }

  /** What a wallet transaction adds to the pending sum: its event, unless the row was there already. */
  lemma PendingAfterWallet(s: System, a: WalletAction, account: Account, column: Column)
    requires Sound(s)
    ensures var done := Journaled(s.ledger.journal);
      Pending(Next(s.wallet, a).outbox, done, account, column)
      == Pending(s.wallet.outbox, done, account, column)
         + if Effect(s.wallet, a).Some? && !RepeatsRelease(s.wallet, a)
           then Announced(Effect(s.wallet, a).value.payload.event, account, column) else 0
  {
    var outbox, done := s.wallet.outbox, Journaled(s.ledger.journal);
    var messages := NewMessages(s.wallet, a);
    StepFacts(s.wallet, a);
    NewMessagesShape(s.wallet, a);
    if messages == [] {
      RowsOfNone(outbox);
    } else {
      var m := messages[0];
      if Effect(s.wallet, a).Some? {
        EntriesAddUp(m.payload.event, account, column);
        NotJournaledYet(s, m);
      }
      if |messages| == 1 {
        assert messages == [m];
        PendingOne(outbox, m, done, account, column);
      } else {
        PendingTwo(outbox, m, messages[1], done, account, column);
      }
    }
  }

  lemma BalanceAfterWallet(s: System, a: WalletAction, account: Account, column: Column)
    requires Sound(s)
    ensures BalanceOf(Next(s.wallet, a), account, column)
      == BalanceOf(s.wallet, account, column)
         + if Effect(s.wallet, a).Some? then Announced(Effect(s.wallet, a).value.payload.event, account, column) else 0
  {
    StepFacts(s.wallet, a);
  }

  /** A repeated release announces, again, what it unlocks. */
  lemma RepeatedRelease(s: System, a: WalletAction, account: Account, column: Column)
    requires Sound(s) && RepeatsRelease(s.wallet, a)
    ensures Effect(s.wallet, a).Some?
    ensures Announced(Effect(s.wallet, a).value.payload.event, account, column)
         == -(if column.Locked? then UnreportedBy(s, OnWallet(a), account) else 0)
  {
    ReleaseCommitsIff(s.wallet, a.release);
  }

  lemma WalletImbalance(s: System, a: WalletAction, account: Account, column: Column)
    requires Sound(s)
    ensures Imbalance(Step(s, OnWallet(a)), account, column)
         == Imbalance(s, account, column) + if column.Locked? then UnreportedBy(s, OnWallet(a), account) else 0
  {
    PendingAfterWallet(s, a, account, column);
    BalanceAfterWallet(s, a, account, column);
    if RepeatsRelease(s.wallet, a) {
      RepeatedRelease(s, a, account, column);
    }
  }

  lemma NotJournaledYet(s: System, m: Message)
    requires Sound(s) && !HasKey(s.wallet.outbox, m.dedupeKey)
    ensures m.dedupeKey !in Journaled(s.ledger.journal)
  {
    forall i | 0 <= i < |s.ledger.journal| ensures s.ledger.journal[i].logicalEventId != Some(m.dedupeKey) {
      assert JournalRowSound(s, s.ledger.journal[i]);
    }
  }

  lemma ConsumeImbalance(s: System, p: int, account: Account, column: Column)
    requires Sound(s)
    ensures Imbalance(Step(s, Consume(p)), account, column) == Imbalance(s, account, column)
  {
    if CanConsume(s, p) {
      var k, e := ConsumedEvent(s, p);
      var position := StreamPosition(p, s.consumers[p]);
      ConflictMeansJournaled(s, p, s.consumers[p], e);
      RecordedJournal(s, position, e);
      if e.eventId.value !in Journaled(s.ledger.journal) {
        JournalDeltaAppend(s.ledger.entries, |s.ledger.journal|, EntriesOf(e), account, column);
        PendingAfterJournal(s.wallet.outbox, k, Journaled(s.ledger.journal), account, column);
      }
    }
  }

  lemma StepImbalance(s: System, a: Action, account: Account, column: Column)
    requires Sound(s)
    ensures Imbalance(Step(s, a), account, column)
         == Imbalance(s, account, column) + if column.Locked? then UnreportedBy(s, a, account) else 0
  {
    match a
    case OnWallet(transaction) =>
      WalletImbalance(s, transaction, account, column);
    case OnRelay(step) =>
      RelayStepExtends(WorldOf(s), step);
      PendingSameMessages(s.wallet.outbox, Step(s, a).wallet.outbox, Journaled(s.ledger.journal), account, column);
    case RestartConsumer(_) =>
    case Consume(p) =>
      ConsumeImbalance(s, p, account, column);
  }

  /**
   * Reconciliation in every reachable state: journaled deltas plus the deltas of committed
   * but not yet journaled rows equal the balance, of every account and column, up to what
   * repeated releases unlocked without an event.
   */
  lemma {:induction false} Reconciles(relays: nat, actions: seq<Action>, account: Account, column: Column)
    ensures var s := Reach(relays, actions);
      JournalDelta(s.ledger.entries, account, column)
      + Pending(s.wallet.outbox, Journaled(s.ledger.journal), account, column)
      == BalanceOf(s.wallet, account, column) + if column.Locked? then Unreported(relays, actions, account) else 0
  {
    if actions != [] {
      var before := actions[..|actions| - 1];
      Reconciles(relays, before, account, column);
      EveryReachIsSound(relays, before);
      StepImbalance(Reach(relays, before), actions[|actions| - 1], account, column);
    }
  }

  /** No action of the run is a release that repeats an earlier one. */
  ghost predicate NoRepeatedRelease(relays: nat, actions: seq<Action>) {
    forall n | 0 <= n < |actions| ::
      actions[n].OnWallet? ==> !RepeatsRelease(Reach(relays, actions[..n]).wallet, actions[n].transaction)
  }

  lemma {:induction false} NoRepeatNothingUnreported(relays: nat, actions: seq<Action>, account: Account)
    requires NoRepeatedRelease(relays, actions)
    ensures Unreported(relays, actions, account) == 0
  {
    if actions != [] {
      var before := actions[..|actions| - 1];
      assert forall n | 0 <= n < |before| :: actions[..n] == before[..n] && actions[n] == before[n];
      NoRepeatNothingUnreported(relays, before, account);
    }
  }

  lemma {:induction false} UnreportedGrows(relays: nat, actions: seq<Action>, n: nat, account: Account)
    requires n <= |actions|
    ensures Unreported(relays, actions[..n], account) <= Unreported(relays, actions, account)
    decreases |actions|
  {
    if n < |actions| {
      UnreportedGrows(relays, actions[..|actions| - 1], n, account);
      assert actions[..|actions| - 1][..n] == actions[..n];
    } else {
      assert actions[..n] == actions;
    }
  }

  lemma UnreportedAt(relays: nat, actions: seq<Action>, n: nat, account: Account)
    requires n < |actions|
    ensures Unreported(relays, actions[..n + 1], account)
         == Unreported(relays, actions[..n], account) + UnreportedBy(Reach(relays, actions[..n]), actions[n], account)
  {
    assert actions[..n + 1][..n] == actions[..n];
  }

  lemma RepeatIsUnreported(relays: nat, actions: seq<Action>, n: nat) returns (account: Account)
    requires n < |actions| && actions[n].OnWallet?
    requires RepeatsRelease(Reach(relays, actions[..n]).wallet, actions[n].transaction)
    ensures Unreported(relays, actions, account) > 0
  {
    var s := Reach(relays, actions[..n]);
    var release := actions[n].transaction.release;
    EveryReachIsSound(relays, actions[..n]);
    ReleaseCommitsIff(s.wallet, release);
    account := s.wallet.reservations[release.reservationId].account;
    UnreportedAt(relays, actions, n, account);
    UnreportedGrows(relays, actions, n + 1, account);
  }

  /** The books balance for every account exactly in the runs without a repeated release. */
  lemma ReconcilesExactlyIff(relays: nat, actions: seq<Action>)
    ensures NoRepeatedRelease(relays, actions) <==>
      forall account, column :: Imbalance(Reach(relays, actions), account, column) == 0
  {
    if NoRepeatedRelease(relays, actions) {
      forall account, column ensures Imbalance(Reach(relays, actions), account, column) == 0 {
        Reconciles(relays, actions, account, column);
        NoRepeatNothingUnreported(relays, actions, account);
      }
    } else {
      var n: nat :| n < |actions| && actions[n].OnWallet?
        && RepeatsRelease(Reach(relays, actions[..n]).wallet, actions[n].transaction);
      var account := RepeatIsUnreported(relays, actions, n);
      Reconciles(relays, actions, account, Locked);
      assert Imbalance(Reach(relays, actions), account, Locked) > 0;
    }
  }

  /** Everything is published, and the ledger has read every lane to its end. */
  ghost predicate Drained(s: System) {
    && (forall i | 0 <= i < |s.wallet.outbox| :: s.wallet.outbox[i].status.Published?)
    && (forall p :: |EventLane(s, p)| > 0 ==> p in s.ledger.offsets && s.ledger.offsets[p] == |EventLane(s, p)|)
  }

  lemma DrainedIsJournaled(s: System, i: nat)
    requires Sound(s) && Drained(s)
    requires i < |s.wallet.outbox| && s.wallet.outbox[i].message.payload.EventPayload?
    ensures s.wallet.outbox[i].message.dedupeKey in Journaled(s.ledger.journal)
  {
    var m := s.wallet.outbox[i].message;
    assert Vouched(s.wallet.ledger, s.wallet.reservations, m);
    assert WorldOf(s).outbox[i].published.Some?;
    var position := s.wallet.outbox[i].published.value;
    assert HoldsRow(s.log, m.topic, position, i);
    var lane := EventLane(s, position.partition);
    LaneInLog(s.log, WalletEvents, position.partition, position.offset);
    var j :| 0 <= j < |s.log| && s.log[j] == lane[position.offset];
    assert Carries(s.log[j], m);
    assert JournaledBelow(s, position.partition, s.ledger.offsets[position.partition]);
    assert RecordJournaled(s, lane[position.offset]);
  }

  /** A drained run: the journal alone equals the balances, up to repeated releases. */
  lemma DrainedReconciles(relays: nat, actions: seq<Action>, account: Account, column: Column)
    requires Drained(Reach(relays, actions))
    ensures var s := Reach(relays, actions);
      JournalDelta(s.ledger.entries, account, column)
      == BalanceOf(s.wallet, account, column) + if column.Locked? then Unreported(relays, actions, account) else 0
  {
    var s := Reach(relays, actions);
    Reconciles(relays, actions, account, column);
    EveryReachIsSound(relays, actions);
    forall i: nat | i < |s.wallet.outbox| && s.wallet.outbox[i].message.payload.EventPayload?
      ensures s.wallet.outbox[i].message.dedupeKey in Journaled(s.ledger.journal)
    {
      DrainedIsJournaled(s, i);
    }
    NothingPending(s.wallet.outbox, Journaled(s.ledger.journal), account, column);
  }
}
