/** What an engine event pays, account by account, once all its commands have committed. */
module EventPayments {
  import opened Common
  import opened WalletTypes
  import opened LedgerProcessor
  import opened WalletInvariant
  import opened WalletRuns
  import opened DedupeKeys
  import opened EngineEvents
  import opened EngineStalls

  // ---- what an event owes, on its own fields ----

  function OwnerOf(s: WalletState, reservationId: string): Option<int> {
    if reservationId in s.reservations then Some(s.reservations[reservationId].account.user) else None
  }

  /** A settlement takes its debit from total and locked of the reservation's owner, and gives him its credit. */
  function SettlementOwes(s: WalletState, x: Settlement, account: Account, column: Column): int {
    if OwnerOf(s, x.reservationId) != Some(account.user) then 0
    else
      (if account.asset == x.debitAsset then -x.debitAmount else 0)
      + (if account.asset == x.creditAsset && column.Total? then x.creditAmount else 0)
  }

  function SettlementsOwe(s: WalletState, xs: seq<Settlement>, account: Account, column: Column): int {
    if xs == [] then 0
    else SettlementsOwe(s, xs[..|xs| - 1], account, column) + SettlementOwes(s, xs[|xs| - 1], account, column)
  }

  /** A fee that is not booked yet is taken from its user's total. */
  function FeeOwes(s: WalletState, fill: int, i: nat, fee: Fee, account: Account, column: Column): int {
    if account == Account(fee.user, fee.asset) && column.Total? && !IsBooked(s, FeeCommand(fill, i, fee))
    then -fee.amount else 0
  }

  function FeesOwe(s: WalletState, fill: int, fees: seq<Fee>, account: Account, column: Column): int {
    if fees == [] then 0
    else
      FeesOwe(s, fill, fees[..|fees| - 1], account, column)
      + FeeOwes(s, fill, |fees| - 1, fees[|fees| - 1], account, column)
  }

  /** A funding payment that is not booked yet is added to its user's total. */
  function PaymentOwes(s: WalletState, reference: string, i: nat, payment: Payment, account: Account, column: Column)
    : int
  {
    if account == Account(payment.user, payment.asset) && column.Total?
      && !IsBooked(s, PaymentCommand(reference, i, payment))
    then payment.amount else 0
  }

  function PaymentsOwe(s: WalletState, reference: string, payments: seq<Payment>, account: Account, column: Column): int
  {
    if payments == [] then 0
    else
      PaymentsOwe(s, reference, payments[..|payments| - 1], account, column)
      + PaymentOwes(s, reference, |payments| - 1, payments[|payments| - 1], account, column)
  }

  /** A release of a positive amount unlocks it. */
  function ReleaseOwes(s: WalletState, reservationId: string, amount: int, account: Account, column: Column): int {
    if reservationId in s.reservations && s.reservations[reservationId].account == account && column.Locked?
      && amount > 0
    then -amount else 0
  }

  /** A delta that is not booked yet moves both columns of its account. */
  function DeltaOwes(s: WalletState, d: AccountDelta, account: Account, column: Column): int {
    if account != Account(d.user, d.asset) || LedgerKey(account, "ACCOUNT_DELTA", d.reference) in s.ledger then 0
    else if column.Total? then d.totalDelta
    else d.lockedDelta
  }

  predicate IsBooked(s: WalletState, a: WalletAction) {
    a.DoAccountDelta? && DeltaRow(a.delta) in s.ledger
  }

  function Reference(id: Option<string>, market: int, sequence: int): string {
    if id.Some? then id.value else "funding:" + Decimal(market) + ":" + Decimal(sequence)
  }

  function EventOwes(s: WalletState, event: EngineEvent, account: Account, column: Column): int {
    match event
    case OrderCancelled(_, id, amount) => ReleaseOwes(s, id, amount, account, column)
    case OrderExpired(_, id, amount, _) => ReleaseOwes(s, id, amount, account, column)
    case ReservationReleased(id, amount, _) => ReleaseOwes(s, id, amount, account, column)
    case TradeExecuted(fill, settlements, fees) =>
      SettlementsOwe(s, settlements, account, column) + FeesOwe(s, fill, fees, account, column)
    case FundingPaymentApplied(id, market, sequence, payments) =>
      PaymentsOwe(s, Reference(id, market, sequence), payments, account, column)
    case AccountDeltaOrdered(d) => DeltaOwes(s, d, account, column)
    case NoMoney => 0
  }

  // ---- what a command moves, seen from an earlier state ----

  predicate IsEngineCommand(a: WalletAction) {
    a.DoSettle? || a.DoRelease? || (a.DoAccountDelta? && a.delta.kind !in {"TRADE_DEBIT", "TRADE_CREDIT"})
  }

  function CommandOwes(s: WalletState, a: WalletAction, account: Account, column: Column): int {
    match a
    case DoSettle(t) =>
      SettlementOwes(s, Settlement(t.reservationId, t.debitAsset, t.debitAmount, t.creditAsset, t.creditAmount),
        account, column)
    case DoRelease(r) => ReleaseOwes(s, r.reservationId, r.amount, account, column)
    case DoAccountDelta(d) =>
      if account != Account(d.user, d.asset) || DeltaRow(d) in s.ledger then 0
      else if column.Total? then d.totalDelta
      else d.lockedDelta
    case _ => 0
  }

  function CommandsOwe(s: WalletState, commands: seq<WalletAction>, account: Account, column: Column): int {
    if commands == [] then 0
    else
      CommandsOwe(s, commands[..|commands| - 1], account, column)
      + CommandOwes(s, commands[|commands| - 1], account, column)
  }

  predicate CommitsAt(s: WalletState, commands: seq<WalletAction>, i: nat)
    requires i < |commands|
  {
    Attempt(Run(s, commands[..i]), commands[i]).Ok?
  }

  /** Every command of the sequence commits when it is reached. */
  ghost predicate AllCommit(s: WalletState, commands: seq<WalletAction>) {
    forall i: nat | i < |commands| :: CommitsAt(s, commands, i)
  }

  predicate DifferentRows(commands: seq<WalletAction>) {
    forall i, j | 0 <= i < j < |commands| && commands[i].DoAccountDelta? && commands[j].DoAccountDelta? ::
      DeltaRow(commands[i].delta) != DeltaRow(commands[j].delta)
  }

  lemma CommitMoves(s: WalletState, a: WalletAction, account: Account, column: Column)
    requires Valid(s) && IsEngineCommand(a) && Attempt(s, a).Ok?
    ensures Valid(Next(s, a))
    ensures BalanceOf(Next(s, a), account, column) == BalanceOf(s, account, column) + CommandOwes(s, a, account, column)
  {
    StepFacts(s, a);
    CommitAnnounces(s, a, account, column);
    assert Effect(s, a).None? ==> BalanceOf(Next(s, a), account, column) == BalanceOf(s, account, column);
  }

  lemma CommitAnnounces(s: WalletState, a: WalletAction, account: Account, column: Column)
    requires IsEngineCommand(a) && Attempt(s, a).Ok?
    ensures CommandOwes(s, a, account, column)
      == if Effect(s, a).Some? then Announced(Effect(s, a).value.payload.event, account, column) else 0
  {
  }

  /** The ledger rows that the deltas among the commands book. */
  function RowsOf(commands: seq<WalletAction>): set<LedgerKey> {
    set a | a in commands && a.DoAccountDelta? :: DeltaRow(a.delta)
  }

  /** The rows of t that s does not have are rows of settlements, or among `rows`. */
  ghost predicate BooksOnly(s: WalletState, t: WalletState, rows: set<LedgerKey>) {
    forall key | key in t.ledger && key !in s.ledger :: key.kind in {"TRADE_DEBIT", "TRADE_CREDIT"} || key in rows
  }

  ghost predicate SameOwners(s: WalletState, t: WalletState) {
    && t.reservations.Keys == s.reservations.Keys
    && forall id | id in s.reservations :: t.reservations[id].account == s.reservations[id].account
  }

  /** Engine commands open no reservations and change no owner. */
  lemma CommandKeepsOwners(s: WalletState, a: WalletAction)
    requires IsEngineCommand(a)
    ensures SameOwners(s, Next(s, a))
  {
  }

  /** Each books its own rows. */
  lemma CommandBooks(s: WalletState, a: WalletAction)
    requires IsEngineCommand(a)
    ensures BooksOnly(s, Next(s, a), RowsOf([a]))
  {
    assert a in [a];
  }

  lemma {:induction false} CommandsLeave(s: WalletState, commands: seq<WalletAction>)
    requires forall a <- commands :: IsEngineCommand(a)
    ensures SameOwners(s, Run(s, commands)) && BooksOnly(s, Run(s, commands), RowsOf(commands))
    ensures s.ledger.Keys <= Run(s, commands).ledger.Keys
  {
    if commands != [] {
      var init, last := commands[..|commands| - 1], commands[|commands| - 1];
      assert commands == init + [last];
      assert forall a <- init :: a in commands;
      CommandsLeave(s, init);
      assert last in commands;
      CommandKeepsOwners(Run(s, init), last);
      CommandBooks(Run(s, init), last);
      NextGrows(Run(s, init), last);
      assert RowsOf(commands) == RowsOf(init) + RowsOf([last]);
    }
  }

  /** What a command owes where it runs is what it owed before the commands ahead of it. */
  lemma OwesTheSame(s: WalletState, init: seq<WalletAction>, a: WalletAction, account: Account, column: Column)
    requires (forall b <- init :: IsEngineCommand(b)) && IsEngineCommand(a)
    requires a.DoAccountDelta? ==> DeltaRow(a.delta) !in RowsOf(init)
    ensures CommandOwes(Run(s, init), a, account, column) == CommandOwes(s, a, account, column)
  {
    CommandsLeave(s, init);
  }

  lemma PrefixCommits(s: WalletState, init: seq<WalletAction>, last: WalletAction)
    requires AllCommit(s, init + [last])
    ensures AllCommit(s, init) && Attempt(Run(s, init), last).Ok?
  {
    var all := init + [last];
    forall i: nat | i < |init| ensures CommitsAt(s, init, i) {
      assert init[..i] == all[..i] && CommitsAt(s, all, i);
    }
    assert all[..|init|] == init && CommitsAt(s, all, |init|);
  }

  lemma LastCommandPays(s: WalletState, init: seq<WalletAction>, last: WalletAction, account: Account, column: Column)
    requires Valid(Run(s, init)) && Attempt(Run(s, init), last).Ok? && IsEngineCommand(last)
    requires CommandOwes(Run(s, init), last, account, column) == CommandOwes(s, last, account, column)
    ensures Valid(Run(s, init + [last]))
    ensures BalanceOf(Run(s, init + [last]), account, column) - BalanceOf(Run(s, init), account, column)
         == CommandsOwe(s, init + [last], account, column) - CommandsOwe(s, init, account, column)
  {
    assert (init + [last])[..|init|] == init;
    CommitMoves(Run(s, init), last, account, column);
  }

  lemma PrefixRows(init: seq<WalletAction>, last: WalletAction)
    requires DifferentRows(init + [last])
    ensures DifferentRows(init)
    ensures last.DoAccountDelta? ==> DeltaRow(last.delta) !in RowsOf(init)
  {
    var all := init + [last];
    assert all[|init|] == last && forall i | 0 <= i < |init| :: all[i] == init[i];
  }

  lemma {:induction false} CommandsPay(s: WalletState, commands: seq<WalletAction>, account: Account, column: Column)
    requires Valid(s) && AllCommit(s, commands)
    requires (forall a <- commands :: IsEngineCommand(a)) && DifferentRows(commands)
    ensures Valid(Run(s, commands))
    ensures BalanceOf(Run(s, commands), account, column)
         == BalanceOf(s, account, column) + CommandsOwe(s, commands, account, column)
  {
    if commands != [] {
      var init, last := commands[..|commands| - 1], commands[|commands| - 1];
      assert commands == init + [last];
      assert (forall a <- init :: a in commands) && last in commands;
      PrefixCommits(s, init, last);
      PrefixRows(init, last);
      CommandsPay(s, init, account, column);
      OwesTheSame(s, init, last, account, column);
      LastCommandPays(s, init, last, account, column);
    }
  }

  // ---- the commands of an event ----

  lemma {:induction false} CommandsOweConcat(s: WalletState, left: seq<WalletAction>, right: seq<WalletAction>,
      account: Account, column: Column)
    ensures CommandsOwe(s, left + right, account, column)
         == CommandsOwe(s, left, account, column) + CommandsOwe(s, right, account, column)
  {
    if right == [] {
      assert left + right == left;
    } else {
      var init := right[..|right| - 1];
      assert (left + right)[..|left + right| - 1] == left + init;
      CommandsOweConcat(s, left, init, account, column);
    }
  }

  function SettleCommands(fill: int, xs: seq<Settlement>): seq<WalletAction> {
    seq(|xs|, i requires 0 <= i < |xs| => SettleCommand(fill, xs[i]))
  }

  function FeeCommands(fill: int, fees: seq<Fee>): seq<WalletAction> {
    seq(|fees|, i requires 0 <= i < |fees| => FeeCommand(fill, i, fees[i]))
  }

  function PaymentCommands(reference: string, payments: seq<Payment>): seq<WalletAction> {
    seq(|payments|, i requires 0 <= i < |payments| => PaymentCommand(reference, i, payments[i]))
  }

  lemma {:induction false} SettleCommandsOwe(s: WalletState, fill: int, xs: seq<Settlement>, account: Account,
      column: Column)
    ensures CommandsOwe(s, SettleCommands(fill, xs), account, column) == SettlementsOwe(s, xs, account, column)
  {
    if xs != [] {
      var init := xs[..|xs| - 1];
      SettleCommandsOwe(s, fill, init, account, column);
      assert SettleCommands(fill, xs)[..|xs| - 1] == SettleCommands(fill, init);
    }
  }

  lemma {:induction false} FeeCommandsOwe(s: WalletState, fill: int, fees: seq<Fee>, account: Account, column: Column)
    ensures CommandsOwe(s, FeeCommands(fill, fees), account, column) == FeesOwe(s, fill, fees, account, column)
  {
    if fees != [] {
      var init := fees[..|fees| - 1];
      FeeCommandsOwe(s, fill, init, account, column);
      assert FeeCommands(fill, fees)[..|fees| - 1] == FeeCommands(fill, init);
    }
  }

  lemma {:induction false} PaymentCommandsOwe(s: WalletState, reference: string, payments: seq<Payment>,
      account: Account, column: Column)
    ensures CommandsOwe(s, PaymentCommands(reference, payments), account, column)
         == PaymentsOwe(s, reference, payments, account, column)
  {
    if payments != [] {
      var init := payments[..|payments| - 1];
      PaymentCommandsOwe(s, reference, init, account, column);
      assert PaymentCommands(reference, payments)[..|payments| - 1] == PaymentCommands(reference, init);
    }
  }

  lemma CommandsOweWhatTheEventOwes(s: WalletState, event: EngineEvent, account: Account, column: Column)
    ensures CommandsOwe(s, CommandsOf(event), account, column) == EventOwes(s, event, account, column)
  {
    match event
    case TradeExecuted(fill, settlements, fees) =>
      assert CommandsOf(event) == SettleCommands(fill, settlements) + FeeCommands(fill, fees);
      CommandsOweConcat(s, SettleCommands(fill, settlements), FeeCommands(fill, fees), account, column);
      SettleCommandsOwe(s, fill, settlements, account, column);
      FeeCommandsOwe(s, fill, fees, account, column);
    case FundingPaymentApplied(id, market, sequence, payments) =>
      assert CommandsOf(event) == PaymentCommands(Reference(id, market, sequence), payments);
      PaymentCommandsOwe(s, Reference(id, market, sequence), payments, account, column);
    case AccountDeltaOrdered(_) => OneCommandOwes(s, CommandsOf(event)[0], account, column);
    case OrderCancelled(order, id, amount) =>
      ReleaseCommandOwes(s, id, amount, "order_cancelled:" + Decimal(order), account, column);
    case OrderExpired(order, id, amount, reason) =>
      ReleaseCommandOwes(s, id, amount, "order_expired:" + Decimal(order) + ":" + reason, account, column);
    case ReservationReleased(id, amount, reason) =>
      ReleaseCommandOwes(s, id, amount, "reservation_released:" + reason, account, column);
    case NoMoney =>
  }

  lemma OneCommandOwes(s: WalletState, a: WalletAction, account: Account, column: Column)
    ensures CommandsOwe(s, [a], account, column) == CommandOwes(s, a, account, column)
  {
    assert [a][..0] == [];
  }

  lemma ReleaseCommandOwes(s: WalletState, id: string, amount: int, reason: string, account: Account, column: Column)
    ensures CommandsOwe(s, ReleaseCommand(id, amount, reason), account, column)
         == ReleaseOwes(s, id, amount, account, column)
  {
    if amount > 0 {
      OneCommandOwes(s, DoRelease(ReleaseReservation(id, amount, reason)), account, column);
    }
  }

  lemma AfterSamePrefix(prefix: string, a: string, b: string)
    requires prefix + a == prefix + b
    ensures a == b
  {
    assert (prefix + a)[|prefix|..] == a && (prefix + b)[|prefix|..] == b;
  }

  lemma IndexedApart(prefix: string, i: nat, a: string, j: nat, b: string)
    requires prefix + (Decimal(i) + ":" + a) == prefix + (Decimal(j) + ":" + b)
    ensures i == j
  {
    AfterSamePrefix(prefix, Decimal(i) + ":" + a, Decimal(j) + ":" + b);
    NumberThenText(i, a, j, b);
  }

  lemma FeeReference(fill: int, i: nat, fee: Fee)
    ensures FeeCommand(fill, i, fee).delta.reference
      == ("fill:" + Decimal(fill) + ":fee:") + (Decimal(i) + ":" + (Decimal(fee.user) + ":" + fee.feeType))
  {
    var prefix := "fill:" + Decimal(fill) + ":fee:";
    assert prefix + Decimal(i) + ":" + Decimal(fee.user) + ":" + fee.feeType
      == prefix + (Decimal(i) + ":" + (Decimal(fee.user) + ":" + fee.feeType));
  }

  lemma PaymentReference(reference: string, i: nat, payment: Payment)
    ensures PaymentCommand(reference, i, payment).delta.reference
      == (reference + ":payment:") + (Decimal(i) + ":" + payment.positionId)
  {
    assert reference + ":payment:" + Decimal(i) + ":" + payment.positionId
      == (reference + ":payment:") + (Decimal(i) + ":" + payment.positionId);
  }

  lemma FeeRowsDiffer(fill: int, i: nat, fee: Fee, j: nat, other: Fee)
    requires i != j
    ensures DeltaRow(FeeCommand(fill, i, fee).delta) != DeltaRow(FeeCommand(fill, j, other).delta)
  {
    FeeReference(fill, i, fee);
    FeeReference(fill, j, other);
    if FeeCommand(fill, i, fee).delta.reference == FeeCommand(fill, j, other).delta.reference {
      IndexedApart("fill:" + Decimal(fill) + ":fee:", i, Decimal(fee.user) + ":" + fee.feeType,
        j, Decimal(other.user) + ":" + other.feeType);
    }
  }

  lemma PaymentRowsDiffer(reference: string, i: nat, payment: Payment, j: nat, other: Payment)
    requires i != j
    ensures DeltaRow(PaymentCommand(reference, i, payment).delta) != DeltaRow(PaymentCommand(reference, j, other).delta)
  {
    PaymentReference(reference, i, payment);
    PaymentReference(reference, j, other);
    if PaymentCommand(reference, i, payment).delta.reference == PaymentCommand(reference, j, other).delta.reference {
      IndexedApart(reference + ":payment:", i, payment.positionId, j, other.positionId);
    }
  }

  /** No two deltas of one event book the same row. */
  lemma RowsOfAnEventDiffer(event: EngineEvent)
    ensures DifferentRows(CommandsOf(event))
  {
    var commands := CommandsOf(event);
    forall i, j | 0 <= i < j < |commands| && commands[i].DoAccountDelta? && commands[j].DoAccountDelta?
      ensures DeltaRow(commands[i].delta) != DeltaRow(commands[j].delta)
    {
      if event.TradeExecuted? {
        var k, l := i - |event.settlements|, j - |event.settlements|;
        FeeRowsDiffer(event.fillId, k, event.fees[k], l, event.fees[l]);
      } else {
        PaymentRowsDiffer(Reference(event.engineEventId, event.marketId, event.sequence), i, event.payments[i],
          j, event.payments[j]);
      }
    }
  }

  lemma CommandsAreEngineCommands(event: EngineEvent)
    ensures forall a <- CommandsOf(event) :: IsEngineCommand(a)
  {
  }

  /**
   * Once all commands of an event have committed, every balance has moved by what the event
   * owes, no more and no less; what was booked before is not paid again.
   */
  lemma EventPays(s: WalletState, event: EngineEvent, account: Account, column: Column)
    requires Valid(s) && AllCommit(s, CommandsOf(event))
    ensures BalanceOf(Run(s, CommandsOf(event)), account, column)
         == BalanceOf(s, account, column) + EventOwes(s, event, account, column)
  {
    CommandsAreEngineCommands(event);
    RowsOfAnEventDiffer(event);
    CommandsPay(s, CommandsOf(event), account, column);
    CommandsOweWhatTheEventOwes(s, event, account, column);
  }

  // ---- which event a command is of ----

  /** The three reasons start apart, and the first two go on with the order. */
  lemma ReasonsNameTheEvent(order: int, other: int, reason: string, text: string)
    ensures "order_cancelled:" + Decimal(order) == "order_cancelled:" + Decimal(other) ==> order == other
    ensures "order_expired:" + Decimal(order) + ":" + reason == "order_expired:" + Decimal(other) + ":" + text
      ==> order == other && reason == text
    ensures "reservation_released:" + reason == "reservation_released:" + text ==> reason == text
    ensures "order_cancelled:" + Decimal(order) != "order_expired:" + Decimal(other) + ":" + text
    ensures "order_cancelled:" + Decimal(order) != "reservation_released:" + text
    ensures "order_expired:" + Decimal(order) + ":" + reason != "reservation_released:" + text
  {
    if "order_cancelled:" + Decimal(order) == "order_cancelled:" + Decimal(other) {
      AfterSamePrefix("order_cancelled:", Decimal(order), Decimal(other));
      DecimalInjective(order, other);
    }
    ExpiredReason(order, reason);
    ExpiredReason(other, text);
    if "order_expired:" + Decimal(order) + ":" + reason == "order_expired:" + Decimal(other) + ":" + text {
      AfterSamePrefix("order_expired:", Decimal(order) + ":" + reason, Decimal(other) + ":" + text);
      NumberThenText(order, reason, other, text);
    }
    if "reservation_released:" + reason == "reservation_released:" + text {
      AfterSamePrefix("reservation_released:", reason, text);
    }
    assert ("order_cancelled:" + Decimal(order))[6] == 'c' && ("order_cancelled:" + Decimal(order))[0] == 'o';
    assert ("order_expired:" + (Decimal(order) + ":" + reason))[0] == 'o';
    assert ("order_expired:" + (Decimal(other) + ":" + text))[6] == 'e';
    assert ("reservation_released:" + text)[0] == 'r';
  }

  lemma ExpiredReason(order: int, reason: string)
    ensures "order_expired:" + Decimal(order) + ":" + reason == "order_expired:" + (Decimal(order) + ":" + reason)
  {
  }

  predicate IsReleaseEvent(event: EngineEvent) {
    event.OrderCancelled? || event.OrderExpired? || event.ReservationReleased?
  }

  /**
   * Two release events that lead to the same command are the same event, so a dedupe key is
   * shared only by events that say the same, word for word.
   */
  lemma SameReleaseSameEvent(e: EngineEvent, f: EngineEvent)
    requires IsReleaseEvent(e) && IsReleaseEvent(f) && CommandsOf(e) != [] && CommandsOf(e) == CommandsOf(f)
    ensures e == f
  {
    var order := if e.ReservationReleased? then 0 else e.orderId;
    var other := if f.ReservationReleased? then 0 else f.orderId;
    var reason := if e.OrderCancelled? then "" else e.reason;
    var text := if f.OrderCancelled? then "" else f.reason;
    assert CommandsOf(e)[0].release == CommandsOf(f)[0].release;
    ReasonsNameTheEvent(order, other, reason, text);
    ReasonsNameTheEvent(other, order, text, reason);
  }

  /** Two fees that share a ledger row are the same fee of the same fill. */
  lemma SameFeeRow(fill: int, i: nat, fee: Fee, other: int, j: nat, also: Fee)
    requires DeltaRow(FeeCommand(fill, i, fee).delta) == DeltaRow(FeeCommand(other, j, also).delta)
    ensures fill == other && i == j && fee.user == also.user && fee.asset == also.asset && fee.feeType == also.feeType
  {
    FeeReference(fill, i, fee);
    FeeReference(other, j, also);
    FeeTail(fill, Decimal(i) + ":" + (Decimal(fee.user) + ":" + fee.feeType),
      other, Decimal(j) + ":" + (Decimal(also.user) + ":" + also.feeType));
    NumberThenText(i, Decimal(fee.user) + ":" + fee.feeType, j, Decimal(also.user) + ":" + also.feeType);
    NumberThenText(fee.user, fee.feeType, also.user, also.feeType);
  }

  /** So are two payments of funding events without an id of their own. */
  lemma SameFundingRow(market: int, sequence: int, i: nat, payment: Payment, other: int, later: int, j: nat,
      also: Payment)
    requires DeltaRow(PaymentCommand(Reference(None, market, sequence), i, payment).delta)
          == DeltaRow(PaymentCommand(Reference(None, other, later), j, also).delta)
    ensures market == other && sequence == later && i == j
    ensures payment.user == also.user && payment.asset == also.asset && payment.positionId == also.positionId
  {
    PaymentReference(Reference(None, market, sequence), i, payment);
    PaymentReference(Reference(None, other, later), j, also);
    FundingTail(market, sequence, Decimal(i) + ":" + payment.positionId,
      other, later, Decimal(j) + ":" + also.positionId);
    NumberThenText(i, payment.positionId, j, also.positionId);
  }

  lemma FundingPrefix(market: int, sequence: int, tail: string)
    ensures (Reference(None, market, sequence) + ":payment:") + tail
      == "funding:" + (Decimal(market) + ":" + (Decimal(sequence) + ":" + ("payment:" + tail)))
  {
  }

  lemma FundingTail(market: int, sequence: int, tail: string, other: int, later: int, rest: string)
    requires (Reference(None, market, sequence) + ":payment:") + tail
          == (Reference(None, other, later) + ":payment:") + rest
    ensures market == other && sequence == later && tail == rest
  {
    FundingPrefix(market, sequence, tail);
    FundingPrefix(other, later, rest);
    var left, right := Decimal(sequence) + ":" + ("payment:" + tail), Decimal(later) + ":" + ("payment:" + rest);
    AfterSamePrefix("funding:", Decimal(market) + ":" + left, Decimal(other) + ":" + right);
    NumberThenText(market, left, other, right);
    NumberThenText(sequence, "payment:" + tail, later, "payment:" + rest);
    AfterSamePrefix("payment:", tail, rest);
  }

  lemma FeePrefix(fill: int, tail: string)
    ensures ("fill:" + Decimal(fill) + ":fee:") + tail == "fill:" + (Decimal(fill) + ":" + ("fee:" + tail))
  {
  }

  lemma FeeTail(fill: int, tail: string, other: int, rest: string)
    requires ("fill:" + Decimal(fill) + ":fee:") + tail == ("fill:" + Decimal(other) + ":fee:") + rest
    ensures fill == other && tail == rest
  {
    FeePrefix(fill, tail);
    FeePrefix(other, rest);
    AfterSamePrefix("fill:", Decimal(fill) + ":" + ("fee:" + tail), Decimal(other) + ":" + ("fee:" + rest));
    NumberThenText(fill, "fee:" + tail, other, "fee:" + rest);
    AfterSamePrefix("fee:", tail, rest);
  }

  // ---- the consumer ----

  /** k commands run in a row from the first: the loop has come to command k only if all of them committed. */
  lemma {:induction false} LoopRanThem(p: Partition, o: nat, k: nat)
    requires p.loop == Working(o, 0) && o < |p.events|
    ensures var q, commands := Resumed(p, Again(k)), CommandsOf(p.events[o]);
      && q.events == p.events && (q.loop.Working? ==> q.loop.offset == o && q.loop.command <= k)
      && (q.loop == Working(o, k) ==>
            k <= |commands| && AllCommit(p.wallet, commands[..k]) && q.wallet == Run(p.wallet, commands[..k]))
  {
    var commands := CommandsOf(p.events[o]);
    if k > 0 {
      LoopRanThem(p, o, k - 1);
      assert Again(k)[..k - 1] == Again(k - 1);
      var before := Resumed(p, Again(k - 1));
      if Resumed(p, Again(k)).loop == Working(o, k) {
        assert before.loop == Working(o, k - 1) && CurrentCommand(before) == Some(commands[k - 1]);
        CommitsOneMore(p.wallet, commands, k - 1);
      }
    }
  }

  lemma CommitsOneMore(s: WalletState, commands: seq<WalletAction>, k: nat)
    requires k < |commands| && AllCommit(s, commands[..k]) && Attempt(Run(s, commands[..k]), commands[k]).Ok?
    ensures AllCommit(s, commands[..k + 1])
    ensures Run(s, commands[..k + 1]) == Next(Run(s, commands[..k]), commands[k])
  {
    var all := commands[..k + 1];
    assert all[..k] == commands[..k];
    forall i: nat | i < |all| ensures CommitsAt(s, all, i) {
      if i < k {
        assert all[..i] == commands[..k][..i] && CommitsAt(s, commands[..k], i);
      }
    }
  }

  /** So a consumer that runs an event through, before anything else happens, has paid what it owes. */
  lemma LoopPays(steps: seq<PartitionStep>, account: Account, column: Column)
    requires PartitionRun(steps).loop.Working? && PartitionRun(steps).loop.command == 0
    ensures var p := PartitionRun(steps);
      && p.loop.offset < |p.events|
      && var event := p.events[p.loop.offset];
         var q := Resumed(p, Again(|CommandsOf(event)|));
      q.loop == Working(p.loop.offset, |CommandsOf(event)|) ==>
        BalanceOf(q.wallet, account, column)
        == BalanceOf(p.wallet, account, column) + EventOwes(p.wallet, event, account, column)
  {
    var p := PartitionRun(steps);
    EveryPartitionIsOk(steps);
    var event := p.events[p.loop.offset];
    var n := |CommandsOf(event)|;
    LoopRanThem(p, p.loop.offset, n);
    if Resumed(p, Again(n)).loop == Working(p.loop.offset, n) {
      assert CommandsOf(event)[..n] == CommandsOf(event);
      EventPays(p.wallet, event, account, column);
    }
  }
}
