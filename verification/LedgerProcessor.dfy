/** How the ledger service turns one wallet event into journal entries. */
module LedgerProcessor {
  import opened Common
  import opened WalletTypes

  datatype Entry = Entry(account: Account, kind: string, totalDelta: int, lockedDelta: int, reference: string)

  datatype LedgerRecord = LedgerRecord(
    logicalEventId: Option<DedupeKey>, eventType: string, user: int, payload: WalletEvent, entries: seq<Entry>)

  function RecordOf(event: WalletEvent): LedgerRecord {
    LedgerRecord(event.eventId, EventType(event), event.user, event, EntriesOf(event))
  }

  function EventType(event: WalletEvent): string {
    match event
    case ReservedEvent(_, _, _, _, _, _) => "FundsReserved"
    case ReleasedEvent(_, _, _, _, _, _) => "FundsReleased"
    case SettledEvent(_, _, _, _, _, _, _, _) => "TradeSettled"
    case DepositEvent(_, _, _, _, _, _, _, _) => "DepositApplied"
    case WithdrawalEvent(_, _, _, _, _, _, _, _) => "WithdrawalApplied"
    case AccountDeltaEvent(_, _, _, _, _, _, _, _, _) => "AccountDeltaApplied"
  }

  function EntriesOf(event: WalletEvent): seq<Entry> {
    match event
    case ReservedEvent(_, _, user, id, asset, amount) =>
      [Entry(Account(user, asset), "RESERVE", 0, amount, id)]
    case ReleasedEvent(_, user, id, asset, amount, _) =>
      [Entry(Account(user, asset), "RELEASE", 0, -amount, id)]
    case SettledEvent(_, user, fill, _, debitAsset, debit, creditAsset, credit) =>
      [Entry(Account(user, debitAsset), "TRADE_DEBIT", -debit, -debit, Decimal(fill)),
       Entry(Account(user, creditAsset), "TRADE_CREDIT", credit, 0, Decimal(fill))]
    case DepositEvent(_, _, user, asset, amount, reference, _, _) =>
      [Entry(Account(user, asset), "DEPOSIT", amount, 0, reference)]
    case WithdrawalEvent(_, requestId, user, asset, amount, _, _, _) =>
      [Entry(Account(user, asset), "WITHDRAWAL", -amount, 0, requestId)]
    case AccountDeltaEvent(_, user, asset, total, locked, kind, reference, _, _) =>
      [Entry(Account(user, asset), kind, total, locked, reference)]
  }

  // ---- what a list of entries adds to one column of one account ----

  datatype Column = Total | Locked

  function EntryDelta(entry: Entry, account: Account, column: Column): int {
    if entry.account != account then 0
    else if column.Total? then entry.totalDelta
    else entry.lockedDelta
  }

  function EntriesDelta(entries: seq<Entry>, account: Account, column: Column): int {
    if entries == [] then 0
    else EntryDelta(entries[0], account, column) + EntriesDelta(entries[1..], account, column)
  }

  function EventDelta(event: WalletEvent, account: Account, column: Column): int {
    EntriesDelta(EntriesOf(event), account, column)
  }

  lemma {:induction false} EntriesDeltaConcat(left: seq<Entry>, right: seq<Entry>, account: Account, column: Column)
    ensures EntriesDelta(left + right, account, column)
         == EntriesDelta(left, account, column) + EntriesDelta(right, account, column)
  {
    if left == [] {
      assert left + right == right;
    } else {
      EntriesDeltaConcat(left[1..], right, account, column);
      assert (left + right)[0] == left[0];
      assert (left + right)[1..] == left[1..] + right;
    }
  }

  /** What an event says about one column of its user's accounts. */
  function Announced(event: WalletEvent, account: Account, column: Column): int {
    if account.user != event.user then 0 else
      match event
      case ReservedEvent(_, _, _, _, asset, amount) =>
        if column.Locked? && account.asset == asset then amount else 0
      case ReleasedEvent(_, _, _, asset, amount, _) =>
        if column.Locked? && account.asset == asset then -amount else 0
      case SettledEvent(_, _, _, _, debitAsset, debit, creditAsset, credit) =>
        (if account.asset == debitAsset then -debit else 0)
        + (if column.Total? && account.asset == creditAsset then credit else 0)
      case DepositEvent(_, _, _, asset, amount, _, _, _) =>
        if column.Total? && account.asset == asset then amount else 0
      case WithdrawalEvent(_, _, _, asset, amount, _, _, _) =>
        if column.Total? && account.asset == asset then -amount else 0
      case AccountDeltaEvent(_, _, asset, total, locked, _, _, _, _) =>
        if account.asset == asset then (if column.Total? then total else locked) else 0
  }

  /** The one or two entries of an event add up to what the event announces. */
  lemma EntriesAddUp(event: WalletEvent, account: Account, column: Column)
    ensures EventDelta(event, account, column) == Announced(event, account, column)
  {
    var entries := EntriesOf(event);
    if event.SettledEvent? {
      assert entries[1..] == [entries[1]];
      assert EntriesDelta([entries[1]], account, column) == EntryDelta(entries[1], account, column);
    } else {
      assert EntriesDelta(entries[1..], account, column) == 0;
      assert EventDelta(event, account, column) == EntryDelta(entries[0], account, column);
    }
  }

  function Constructor(event: WalletEvent): nat {
    match event
    case ReservedEvent(_, _, _, _, _, _) => 0
    case ReleasedEvent(_, _, _, _, _, _) => 1
    case SettledEvent(_, _, _, _, _, _, _, _) => 2
    case DepositEvent(_, _, _, _, _, _, _, _) => 3
    case WithdrawalEvent(_, _, _, _, _, _, _, _) => 4
    case AccountDeltaEvent(_, _, _, _, _, _, _, _, _) => 5
  }

  /** The type that is journaled tells the kinds of event apart. */
  lemma EventTypesDiffer(e: WalletEvent, f: WalletEvent)
    ensures EventType(e) == EventType(f) <==> Constructor(e) == Constructor(f)
  {
    assert "FundsReserved"[7] != "FundsReleased"[7];
  }
}
