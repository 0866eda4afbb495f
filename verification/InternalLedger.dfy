/**
 * The wallet's own ledger: every row was booked with one queued event, and the rows of an
 * account add up to its balance.
 */
module InternalLedger {
  import opened Common
  import opened TableSums
  import opened WalletTypes
  import opened WalletTransactions
  import opened LedgerProcessor
  import opened WalletInvariant
  import opened WalletRuns

  /** The rows that a queued event stands for. */
  function Bookings(m: Message): map<LedgerKey, int> {
    if !m.payload.EventPayload? then map[] else
      match m.payload.event
      case DepositEvent(_, _, user, asset, amount, reference, _, _) =>
        map[LedgerKey(Account(user, asset), "DEPOSIT", reference) := amount]
      case WithdrawalEvent(_, _, user, asset, amount, _, _, _) =>
        if !m.dedupeKey.WithdrawalKey? then map[]
        else map[LedgerKey(Account(user, asset), "WITHDRAW", m.dedupeKey.idempotencyKey) := -amount]
      case SettledEvent(_, user, fill, _, debitAsset, debit, creditAsset, credit) =>
        map[LedgerKey(Account(user, debitAsset), "TRADE_DEBIT", Decimal(fill)) := -debit,
            LedgerKey(Account(user, creditAsset), "TRADE_CREDIT", Decimal(fill)) := credit]
      case AccountDeltaEvent(_, user, asset, total, _, kind, reference, _, _) =>
        map[LedgerKey(Account(user, asset), kind, reference) := total]
      case ReservedEvent(_, _, _, _, _, _) => map[]
      case ReleasedEvent(_, _, _, _, _, _) => map[]
  }

  /** What a ledger row adds to an account. */
  function Amount(account: Account): (LedgerKey, int) -> int {
    (key: LedgerKey, amount: int) => if key.account == account then amount else 0
  }

  /** The sum of an account's ledger rows. */
  ghost function Booked(ledger: map<LedgerKey, int>, account: Account): int {
    TableSum(ledger, Amount(account))
  }

  // ---- one transaction ----

  function Booking(s: WalletState, a: WalletAction): map<LedgerKey, int> {
    match Effect(s, a)
    case Some(m) => Bookings(m)
    case None => map[]
  }

  /** A transaction adds the rows of its event, all new, and touches no other row. */
  ghost predicate AddsItsRows(s: WalletState, a: WalletAction) {
    && Next(s, a).ledger == s.ledger + Booking(s, a)
    && s.ledger.Keys !! Booking(s, a).Keys
  }

  lemma LedgerStep(s: WalletState, a: WalletAction)
    ensures AddsItsRows(s, a)
  {
    match a
    case DoDeposit(d) => DepositRows(s, d);
    case DoWithdraw(w) => WithdrawalRows(s, w);
    case DoSettle(t) => SettlementRows(s, t);
    case DoAccountDelta(d) => DeltaRows(s, d);
    case _ => NoRows(s, a);
  }

  lemma NoRows(s: WalletState, a: WalletAction)
    requires !a.DoDeposit? && !a.DoWithdraw? && !a.DoSettle? && !a.DoAccountDelta?
    ensures AddsItsRows(s, a)
  {
    assert Next(s, a).ledger == s.ledger;
    assert Booking(s, a) == map[];
  }

  lemma DepositRows(s: WalletState, d: Deposit)
    ensures AddsItsRows(s, DoDeposit(d))
  {
    if DepositTx(s, d).Ok? {
      DepositBooks(s, d);
      assert Booking(s, DoDeposit(d))
        == map[LedgerKey(Account(d.envelope.user, d.asset), "DEPOSIT", d.reference) := d.amount];
    }
  }

  lemma DepositBooks(s: WalletState, d: Deposit)
    requires DepositTx(s, d).Ok?
    ensures var key := LedgerKey(Account(d.envelope.user, d.asset), "DEPOSIT", d.reference);
      key !in s.ledger && DepositTx(s, d).value.state.ledger == s.ledger[key := d.amount]
  {
  }

  lemma WithdrawalRows(s: WalletState, w: Withdraw)
    ensures AddsItsRows(s, DoWithdraw(w))
  {
    if WithdrawTx(s, w).Ok? {
      WithdrawalBooks(s, w);
      assert Booking(s, DoWithdraw(w))
        == map[LedgerKey(Account(w.envelope.user, w.asset), "WITHDRAW", w.envelope.idempotencyKey) := -w.amount];
    }
  }

  lemma WithdrawalBooks(s: WalletState, w: Withdraw)
    requires WithdrawTx(s, w).Ok?
    ensures var key := LedgerKey(Account(w.envelope.user, w.asset), "WITHDRAW", w.envelope.idempotencyKey);
      key !in s.ledger && WithdrawTx(s, w).value.state.ledger == s.ledger[key := -w.amount]
  {
  }

  lemma DeltaRows(s: WalletState, d: AccountDelta)
    ensures AddsItsRows(s, DoAccountDelta(d))
  {
    if AccountDeltaTx(s, d).Ok? && AccountDeltaTx(s, d).value.value.Some? {
      var key := LedgerKey(Account(d.user, d.asset), d.kind, d.reference);
      assert key !in s.ledger && AccountDeltaTx(s, d).value.state.ledger == s.ledger[key := d.totalDelta];
      assert Booking(s, DoAccountDelta(d)) == map[key := d.totalDelta];
    }
  }

  lemma SettlementBooks(ledger: map<LedgerKey, int>, user: int, settle: SettleTrade)
    requires BookSettlement(ledger, user, settle).Ok?
    ensures var debit := LedgerKey(Account(user, settle.debitAsset), "TRADE_DEBIT", Decimal(settle.fillId));
      var credit := LedgerKey(Account(user, settle.creditAsset), "TRADE_CREDIT", Decimal(settle.fillId));
      && debit !in ledger && credit !in ledger
      && BookSettlement(ledger, user, settle).value
         == ledger + map[debit := -settle.debitAmount, credit := settle.creditAmount]
  {
    var debit := LedgerKey(Account(user, settle.debitAsset), "TRADE_DEBIT", Decimal(settle.fillId));
    var credit := LedgerKey(Account(user, settle.creditAsset), "TRADE_CREDIT", Decimal(settle.fillId));
    assert debit.kind != credit.kind;
    assert ledger[debit := -settle.debitAmount][credit := settle.creditAmount]
      == ledger + map[debit := -settle.debitAmount, credit := settle.creditAmount];
  }

  lemma SettlementRows(s: WalletState, settle: SettleTrade)
    ensures AddsItsRows(s, DoSettle(settle))
  {
    if SettleTx(s, settle).Ok? {
      var user := s.reservations[settle.reservationId].account.user;
      SettlementBooks(s.ledger, user, settle);
      assert Next(s, DoSettle(settle)).ledger == BookSettlement(s.ledger, user, settle).value;
      assert Effect(s, DoSettle(settle)) == Some(SettledMessage(settle, user));
    }
  }

  lemma SumOfOne(key: LedgerKey, amount: int, account: Account)
    ensures Booked(map[key := amount], account) == Amount(account)(key, amount)
  {
    TakeOut(map[key := amount], key, Amount(account));
    assert map[key := amount] - {key} == map[];
  }

  lemma SumOfTwo(debit: LedgerKey, x: int, credit: LedgerKey, y: int, account: Account)
    requires debit != credit
    ensures Booked(map[debit := x, credit := y], account) == Amount(account)(debit, x) + Amount(account)(credit, y)
  {
    SumOfOne(debit, x, account);
    Put(map[debit := x], credit, y, Amount(account));
    assert map[debit := x][credit := y] == map[debit := x, credit := y];
  }

  /** The rows of an event add up to what it announces of the account's total. */
  lemma BookingsAddUp(m: Message, account: Account)
    requires m.payload.EventPayload? && (m.payload.event.WithdrawalEvent? ==> m.dedupeKey.WithdrawalKey?)
    ensures Booked(Bookings(m), account) == Announced(m.payload.event, account, Total)
  {
    match m.payload.event
    case DepositEvent(_, _, user, asset, amount, reference, _, _) =>
      SumOfOne(LedgerKey(Account(user, asset), "DEPOSIT", reference), amount, account);
    case WithdrawalEvent(_, _, user, asset, amount, _, _, _) =>
      SumOfOne(LedgerKey(Account(user, asset), "WITHDRAW", m.dedupeKey.idempotencyKey), -amount, account);
    case SettledEvent(_, user, fill, _, debitAsset, debit, creditAsset, credit) =>
      SumOfTwo(LedgerKey(Account(user, debitAsset), "TRADE_DEBIT", Decimal(fill)), -debit,
        LedgerKey(Account(user, creditAsset), "TRADE_CREDIT", Decimal(fill)), credit, account);
    case AccountDeltaEvent(_, user, asset, total, _, kind, reference, _, _) =>
      SumOfOne(LedgerKey(Account(user, asset), kind, reference), total, account);
    case _ =>
  }

  lemma BookingMoves(s: WalletState, a: WalletAction, account: Account)
    requires Valid(s)
    ensures Booked(Booking(s, a), account) == BalanceOf(Next(s, a), account, Total) - BalanceOf(s, account, Total)
  {
    StepFacts(s, a);
    var m := Effect(s, a);
    if m.Some? {
      BookingsAddUp(m.value, account);
    } else {
      assert BalanceOf(Next(s, a), account, Total) == BalanceOf(s, account, Total);
    }
  }

  // ---- the balances ----

  /** The central law of the ledger: in every run an account's total is the sum of its ledger rows. */
  lemma {:induction false} LedgerIsTheBalance(actions: seq<WalletAction>, account: Account)
    ensures Booked(Run(EMPTY_WALLET, actions).ledger, account) == BalanceOf(Run(EMPTY_WALLET, actions), account, Total)
  {
    if actions != [] {
      var init, last := actions[..|actions| - 1], actions[|actions| - 1];
      var s := Run(EMPTY_WALLET, init);
      LedgerIsTheBalance(init, account);
      EveryRunIsValid(init);
      LedgerStep(s, last);
      BookingMoves(s, last, account);
      DisjointUnion(s.ledger, Booking(s, last), Amount(account));
    }
  }

  // ---- the events ----

  /** Row i of the outbox stands for the ledger row. */
  predicate Owns(s: WalletState, i: int, key: LedgerKey) {
    0 <= i < |s.outbox| && key in Bookings(s.outbox[i].message)
  }

  /** The ledger holds the rows of the queued events, each of them from one event, and no others. */
  ghost predicate BooksMatch(s: WalletState) {
    && (forall i, key | Owns(s, i, key) :: key in s.ledger && s.ledger[key] == Bookings(s.outbox[i].message)[key])
    && (forall key | key in s.ledger :: exists i :: Owns(s, i, key))
    && (forall i, j, key | Owns(s, i, key) && Owns(s, j, key) :: i == j)
  }

  /** Of the messages of a transaction only the first can stand for rows, and it stands for all. */
  lemma FirstMessageBooks(s: WalletState, a: WalletAction, i: nat)
    ensures i < |NewMessages(s, a)| ==> Bookings(NewMessages(s, a)[i]) == if i == 0 then Booking(s, a) else map[]
    ensures Booking(s, a) != map[] ==> NewMessages(s, a) != []
  {
  }

  lemma NewOwners(s: WalletState, a: WalletAction, i: int, key: LedgerKey)
    requires Valid(s)
    ensures i < |s.outbox| ==> (Owns(Next(s, a), i, key) <==> Owns(s, i, key))
    ensures i < |s.outbox| && Owns(s, i, key) ==> Next(s, a).outbox[i].message == s.outbox[i].message
    ensures i >= |s.outbox| && Owns(Next(s, a), i, key) ==>
      i == |s.outbox| && key in Booking(s, a) && Bookings(Next(s, a).outbox[i].message) == Booking(s, a)
    ensures key in Booking(s, a) ==> Owns(Next(s, a), |s.outbox|, key)
  {
    StepFacts(s, a);
    FirstMessageBooks(s, a, 0);
    if |s.outbox| <= i < |Next(s, a).outbox| {
      assert Next(s, a).outbox[i].message == NewMessages(s, a)[i - |s.outbox|];
      FirstMessageBooks(s, a, i - |s.outbox|);
    }
  }

  lemma StepMatches(s: WalletState, a: WalletAction)
    requires Valid(s) && BooksMatch(s)
    ensures BooksMatch(Next(s, a))
  {
    var t := Next(s, a);
    LedgerStep(s, a);
    forall i, key | Owns(t, i, key) ensures key in t.ledger && t.ledger[key] == Bookings(t.outbox[i].message)[key] {
      NewOwners(s, a, i, key);
    }
    forall key | key in t.ledger ensures exists i :: Owns(t, i, key) {
      if key in s.ledger {
        var i :| Owns(s, i, key);
        NewOwners(s, a, i, key);
        assert Owns(t, i, key);
      } else {
        NewOwners(s, a, |s.outbox|, key);
      }
    }
    forall i, j, key | Owns(t, i, key) && Owns(t, j, key) ensures i == j {
      NewOwners(s, a, i, key);
      NewOwners(s, a, j, key);
    }
  }

  /** So in every run the ledger is, row by row and to the unit, what the queued events say. */
  lemma {:induction false} LedgerIsTheEvents(actions: seq<WalletAction>)
    ensures BooksMatch(Run(EMPTY_WALLET, actions))
  {
    if actions != [] {
      LedgerIsTheEvents(actions[..|actions| - 1]);
      EveryRunIsValid(actions[..|actions| - 1]);
      StepMatches(Run(EMPTY_WALLET, actions[..|actions| - 1]), actions[|actions| - 1]);
    }
  }

  // ---- the totals that the events report ----

  /** What the events of an outbox announce of one column, all together. */
  function Told(outbox: seq<OutboxRow>, account: Account, column: Column): int {
    if outbox == [] then 0
    else
      var m := outbox[|outbox| - 1].message;
      Told(outbox[..|outbox| - 1], account, column)
      + if m.payload.EventPayload? then Announced(m.payload.event, account, column) else 0
  }

  /** The account and the total that an event reports. */
  function Reported(event: WalletEvent): Option<(Account, int)> {
    match event
    case DepositEvent(_, _, user, asset, _, _, total, _) => Some((Account(user, asset), total))
    case WithdrawalEvent(_, _, user, asset, _, _, total, _) => Some((Account(user, asset), total))
    case AccountDeltaEvent(_, user, asset, _, _, _, _, total, _) => Some((Account(user, asset), total))
    case _ => None
  }

  /** Row i reports what the rows up to it have told. */
  predicate ReportsWhatIsTold(outbox: seq<OutboxRow>, i: nat)
    requires i < |outbox|
  {
    var m := outbox[i].message;
    m.payload.EventPayload? && Reported(m.payload.event).Some? ==>
      var r := Reported(m.payload.event).value;
      r.1 == Told(outbox[..i + 1], r.0, Total)
  }

  lemma ToldSnoc(outbox: seq<OutboxRow>, m: Message, account: Account, column: Column)
    ensures Told(outbox + [NewRow(m)], account, column) == Told(outbox, account, column)
      + if m.payload.EventPayload? then Announced(m.payload.event, account, column) else 0
  {
    assert (outbox + [NewRow(m)])[..|outbox|] == outbox;
  }

  function FirstAnnounces(messages: seq<Message>, account: Account): int {
    if messages != [] && messages[0].payload.EventPayload? then Announced(messages[0].payload.event, account, Total)
    else 0
  }

  /** The messages of one transaction: none, its event, the event and the order for the engine, or an engine message. */
  lemma ToldByMessages(outbox: seq<OutboxRow>, messages: seq<Message>, account: Account)
    requires |messages| <= 1 || (|messages| == 2 && messages[1].payload.CommandPayload?)
    ensures Told(outbox + Rows(messages), account, Total) == Told(outbox, account, Total)
      + FirstAnnounces(messages, account)
  {
    if messages == [] {
      RowsOfNone(outbox);
    } else {
      ToldSnoc(outbox, messages[0], account, Total);
      if |messages| == 2 {
        ToldSnoc(outbox + [NewRow(messages[0])], messages[1], account, Total);
        assert outbox + Rows(messages) == outbox + [NewRow(messages[0])] + [NewRow(messages[1])];
      } else {
        assert outbox + Rows(messages) == outbox + [NewRow(messages[0])];
      }
    }
  }

  lemma MessagesAnnounce(s: WalletState, a: WalletAction, account: Account)
    ensures var messages := NewMessages(s, a);
      && (|messages| <= 1 || (|messages| == 2 && messages[1].payload.CommandPayload?))
      && FirstAnnounces(messages, account)
         == (if Effect(s, a).Some? then Announced(Effect(s, a).value.payload.event, account, Total) else 0)
  {
  }

  /** The messages of one transaction tell what it moves of the total. */
  lemma StepTells(s: WalletState, a: WalletAction, account: Account)
    requires Valid(s)
    ensures Told(Next(s, a).outbox, account, Total) - Told(s.outbox, account, Total)
      == BalanceOf(Next(s, a), account, Total) - BalanceOf(s, account, Total)
  {
    StepFacts(s, a);
    ToldByMessages(s.outbox, NewMessages(s, a), account);
    MessagesAnnounce(s, a, account);
    assert Effect(s, a).None? ==> BalanceOf(Next(s, a), account, Total) == BalanceOf(s, account, Total);
  }

  lemma {:induction false} TotalsAreTold(actions: seq<WalletAction>, account: Account)
    ensures Told(Run(EMPTY_WALLET, actions).outbox, account, Total)
      == BalanceOf(Run(EMPTY_WALLET, actions), account, Total)
  {
    if actions != [] {
      TotalsAreTold(actions[..|actions| - 1], account);
      EveryRunIsValid(actions[..|actions| - 1]);
      StepTells(Run(EMPTY_WALLET, actions[..|actions| - 1]), actions[|actions| - 1], account);
    }
  }

  /** An event that reports a total is the only message of its transaction, and reports the new one. */
  lemma ReportIsNew(s: WalletState, a: WalletAction, i: nat)
    requires i < |NewMessages(s, a)|
    ensures var m := NewMessages(s, a)[i];
      m.payload.EventPayload? && Reported(m.payload.event).Some? ==>
        && |NewMessages(s, a)| == 1
        && var r := Reported(m.payload.event).value;
      r.1 == BalanceOf(Next(s, a), r.0, Total)
  {
  }

  lemma StepReports(s: WalletState, a: WalletAction, i: nat)
    requires Valid(s) && |s.outbox| <= i < |Next(s, a).outbox|
    requires forall account :: Told(Next(s, a).outbox, account, Total) == BalanceOf(Next(s, a), account, Total)
    ensures ReportsWhatIsTold(Next(s, a).outbox, i)
  {
    var t := Next(s, a);
    StepFacts(s, a);
    assert t.outbox[i].message == NewMessages(s, a)[i - |s.outbox|];
    ReportIsNew(s, a, i - |s.outbox|);
    if |NewMessages(s, a)| == 1 {
      assert t.outbox[..i + 1] == t.outbox;
    }
  }

  /**
   * In every run each total that a queued event reports is the sum of what the events up to
   * and including it announce, so whoever reads them in order can check each report.
   */
  lemma {:induction false} ReportsAreTold(actions: seq<WalletAction>, i: nat)
    requires i < |Run(EMPTY_WALLET, actions).outbox|
    ensures ReportsWhatIsTold(Run(EMPTY_WALLET, actions).outbox, i)
  {
    if actions != [] {
      var init, last := actions[..|actions| - 1], actions[|actions| - 1];
      var s, t := Run(EMPTY_WALLET, init), Run(EMPTY_WALLET, actions);
      EveryRunIsValid(init);
      StepFacts(s, last);
      if i < |s.outbox| {
        ReportsAreTold(init, i);
        assert t.outbox[..i + 1] == s.outbox[..i + 1];
      } else {
        forall account ensures Told(t.outbox, account, Total) == BalanceOf(t, account, Total) {
          TotalsAreTold(actions, account);
        }
        StepReports(s, last, i);
      }
    }
  }
}
