/** The ledger service: one journal row per logical wallet event, with its entries and the offset. */
module LedgerJournal {
  import opened Common
  import opened WalletTypes
  import opened LedgerProcessor

  datatype JournalRow = JournalRow(
    position: StreamPosition, logicalEventId: Option<DedupeKey>, eventType: string, user: int, payload: WalletEvent)

  /** A row of ledger_entries; `event` is the journal row it belongs to. */
  datatype JournalEntry = JournalEntry(event: nat, entry: Entry)

  /** One topic is consumed, so offsets are kept by partition. */
  datatype LedgerState = LedgerState(journal: seq<JournalRow>, entries: seq<JournalEntry>, offsets: map<int, nat>)

  const EMPTY_LEDGER := LedgerState([], [], map[])

  /** ON CONFLICT DO NOTHING: by stream position, or by logical id when there is one. */
  predicate Conflicts(journal: seq<JournalRow>, position: StreamPosition, id: Option<DedupeKey>) {
    exists i :: 0 <= i < |journal| && (journal[i].position == position || (id.Some? && journal[i].logicalEventId == id))
  }

  function SaveOffset(offsets: map<int, nat>, partition: int, next: nat): map<int, nat> {
    if partition in offsets && offsets[partition] >= next then offsets else offsets[partition := next]
  }

  function Tagged(event: nat, entries: seq<Entry>): seq<JournalEntry> {
    seq(|entries|, i requires 0 <= i < |entries| => JournalEntry(event, entries[i]))
  }

  function RowOf(position: StreamPosition, record: LedgerRecord): JournalRow {
    JournalRow(position, record.logicalEventId, record.eventType, record.user, record.payload)
  }

  /** One transaction: the journal row, its entries and the consumer offset. */
  function RecordWalletEvent(l: LedgerState, position: StreamPosition, record: LedgerRecord): LedgerState {
    var offsets := SaveOffset(l.offsets, position.partition, position.offset + 1);
    if Conflicts(l.journal, position, record.logicalEventId) then l.(offsets := offsets)
    else LedgerState(l.journal + [RowOf(position, record)], l.entries + Tagged(|l.journal|, record.entries), offsets)
  }

  class Repository {
    var journal: seq<JournalRow>
    var entries: seq<JournalEntry>
    var offsets: map<int, nat>

    ghost function State(): LedgerState
      reads this
    {
      LedgerState(journal, entries, offsets)
    }

    constructor ()
      ensures State() == EMPTY_LEDGER
    {
      journal, entries, offsets := [], [], map[];
    }

    method SaveQueueOffset(partition: int, next: nat)
      modifies this`offsets
      ensures offsets == SaveOffset(old(offsets), partition, next)
    {
      if partition !in offsets || offsets[partition] < next {
        offsets := offsets[partition := next];
      }
    }

    /** Answers whether the event was new; the offset advances either way. */
    method Record(position: StreamPosition, record: LedgerRecord) returns (inserted: bool)
      modifies this
      ensures State() == RecordWalletEvent(old(State()), position, record)
      ensures inserted <==> !Conflicts(old(journal), position, record.logicalEventId)
    {
      inserted := !Conflicts(journal, position, record.logicalEventId);
      if inserted {
        var event := |journal|;
        journal := journal + [RowOf(position, record)];
        var i := 0;
        while i < |record.entries|
          invariant 0 <= i <= |record.entries|
          invariant entries == old(entries) + Tagged(event, record.entries[..i])
          invariant journal == old(journal) + [RowOf(position, record)] && offsets == old(offsets)
        {
          entries := entries + [JournalEntry(event, record.entries[i])];
          assert Tagged(event, record.entries[..i + 1])
            == Tagged(event, record.entries[..i]) + [JournalEntry(event, record.entries[i])];
          i := i + 1;
        }
        assert record.entries[..|record.entries|] == record.entries;
      }
      SaveQueueOffset(position.partition, position.offset + 1);
    }
  }

  // ---- what the journal adds up to ----

  function JournalDelta(entries: seq<JournalEntry>, account: Account, column: Column): int {
    if entries == [] then 0
    else
      var last := entries[|entries| - 1];
      JournalDelta(entries[..|entries| - 1], account, column) + EntryDelta(last.entry, account, column)
  }

  lemma {:induction false} JournalDeltaAppend(entries: seq<JournalEntry>, event: nat, added: seq<Entry>,
      account: Account, column: Column)
    ensures JournalDelta(entries + Tagged(event, added), account, column)
         == JournalDelta(entries, account, column) + EntriesDelta(added, account, column)
  {
    if added == [] {
      assert entries + Tagged(event, added) == entries;
    } else {
      var init, last := added[..|added| - 1], added[|added| - 1];
      var all := entries + Tagged(event, added);
      assert all[..|all| - 1] == entries + Tagged(event, init);
      JournalDeltaAppend(entries, event, init, account, column);
      assert added == init + [last];
      EntriesDeltaConcat(init, [last], account, column);
      assert EntriesDelta([last], account, column) == EntryDelta(last, account, column);
    }
  }

  /** The logical events that have a journal row. */
  function Journaled(journal: seq<JournalRow>): set<DedupeKey> {
    set i | 0 <= i < |journal| && journal[i].logicalEventId.Some? :: journal[i].logicalEventId.value
  }

  /** At most one journal row per logical event and per stream position. */
  ghost predicate JournaledOnce(journal: seq<JournalRow>) {
    forall i, j | 0 <= i < j < |journal| ::
      && journal[i].position != journal[j].position
      && (journal[i].logicalEventId.Some? ==> journal[i].logicalEventId != journal[j].logicalEventId)
  }

  /** Redelivery in any order, any number of times, keeps one row per event, and always moves the offset up. */
  lemma RecordKeepsOnce(l: LedgerState, position: StreamPosition, record: LedgerRecord)
    requires JournaledOnce(l.journal)
    ensures var t := RecordWalletEvent(l, position, record);
      && JournaledOnce(t.journal)
      && position.partition in t.offsets && t.offsets[position.partition] > position.offset
      && (forall p | p in l.offsets :: p in t.offsets && t.offsets[p] >= l.offsets[p])
      && RecordWalletEvent(t, position, record) == t
  {
    var t := RecordWalletEvent(l, position, record);
    if !Conflicts(l.journal, position, record.logicalEventId) {
      assert t.journal[|l.journal|].position == position;
    }
  }

  // ---- what the journal says ----

  /** The entries of all the journal's events, row by row, each tagged with its row. */
  function AllEntries(journal: seq<JournalRow>): seq<JournalEntry> {
    if journal == [] then []
    else
      AllEntries(journal[..|journal| - 1]) + Tagged(|journal| - 1, EntriesOf(journal[|journal| - 1].payload))
  }

  /** The entries are those of the journaled events, and each row names its event's kind, user and logical id. */
  ghost predicate SaysItsEvents(l: LedgerState) {
    && l.entries == AllEntries(l.journal)
    && forall i | 0 <= i < |l.journal| ::
      && l.journal[i].user == l.journal[i].payload.user
      && l.journal[i].eventType == EventType(l.journal[i].payload)
      && l.journal[i].logicalEventId == l.journal[i].payload.eventId
  }

  lemma RecordSaysItsEvent(l: LedgerState, position: StreamPosition, event: WalletEvent)
    requires SaysItsEvents(l)
    ensures SaysItsEvents(RecordWalletEvent(l, position, RecordOf(event)))
  {
    if !Conflicts(l.journal, position, event.eventId) {
      var all := RecordWalletEvent(l, position, RecordOf(event)).journal;
      assert all[..|all| - 1] == l.journal;
    }
  }
}
