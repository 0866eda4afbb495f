/** The wallet's tables, commands, replies and events. */
module WalletTypes {
  import opened Common

  datatype Asset = USDC | USDT | SOL | ETH | BTC | PERP | HYP

  /** The primary key of user_collaterals. */
  datatype Account = Account(user: int, asset: Asset)

  datatype Envelope = Envelope(requestId: string, idempotencyKey: string, user: int, replyPartition: int)

  datatype Deposit = Deposit(envelope: Envelope, asset: Asset, amount: int, reference: string)

  datatype Withdraw = Withdraw(envelope: Envelope, asset: Asset, amount: int, destination: string)

  datatype PlaceOrderIntent = PlaceOrderIntent(
    envelope: Envelope, orderId: int, marketId: int, long: bool, quantity: int, price: int,
    marginAsset: Asset, requiredMargin: int, leverage: int, reduceOnly: bool)

  datatype CancelOrderIntent = CancelOrderIntent(envelope: Envelope, marketId: int, orderId: int)

  datatype ReleaseReservation = ReleaseReservation(reservationId: string, amount: int, reason: string)

  datatype SettleTrade = SettleTrade(
    fillId: int, reservationId: string,
    debitAsset: Asset, debitAmount: int, creditAsset: Asset, creditAmount: int)

  datatype AccountDelta = AccountDelta(
    user: int, asset: Asset, totalDelta: int, lockedDelta: int, kind: string, reference: string)

  // ---- replies and events ----

  datatype WalletReply =
    | FundsReserved(requestId: string, reservationId: string, asset: Asset, amount: int)
    | InsufficientFunds(requestId: string, asset: Asset, required: int, available: int)
    | BalanceUpdated(requestId: string, asset: Asset, total: int, locked: int)
    | CommandAccepted(requestId: string)
    | CommandRejected(requestId: string, reason: string)

  /**
   * The text keys that make outbox rows unique, one constructor per format string.
   * DedupeKeys.RenderIsInjective shows that no two of them render to the same text.
   */
  datatype DedupeKey =
    | DepositKey(user: int, idempotencyKey: string)
    | WithdrawalKey(user: int, idempotencyKey: string)
    | ReservedKey(reservationId: string)
    | ReleasedKey(reservationId: string, reason: string, amount: int)
    | SettledKey(fillId: int, reservationId: string)
    | AccountDeltaKey(kind: string, reference: string, user: int, asset: Asset)
    | PlaceOrderKey(user: int, idempotencyKey: string)
    | CancelOrderKey(user: int, idempotencyKey: string)
    | IngressKey(text: string)

  datatype WalletEvent =
    | ReservedEvent(eventId: Option<DedupeKey>, requestId: string, user: int, reservationId: string, asset: Asset,
      amount: int)
    | ReleasedEvent(eventId: Option<DedupeKey>, user: int, reservationId: string, asset: Asset, amount: int,
      reason: string)
    | SettledEvent(eventId: Option<DedupeKey>, user: int, fillId: int, reservationId: string,
                   debitAsset: Asset, debitAmount: int, creditAsset: Asset, creditAmount: int)
    | DepositEvent(eventId: Option<DedupeKey>, requestId: string, user: int, asset: Asset, amount: int,
      reference: string, total: int, locked: int)
    | WithdrawalEvent(eventId: Option<DedupeKey>, requestId: string, user: int, asset: Asset, amount: int,
      destination: string, total: int, locked: int)
    | AccountDeltaEvent(eventId: Option<DedupeKey>, user: int, asset: Asset, totalDelta: int, lockedDelta: int,
                        kind: string, reference: string, total: int, locked: int)

  datatype EngineCommand =
    | PlaceOrder(intent: PlaceOrderIntent, reservationId: string)
    | CancelOrder(cancel: CancelOrderIntent)
    | EngineInput(marketId: int, text: string)

  // ---- tables ----

  datatype Collateral = Collateral(total: int, locked: int)

  datatype ReservationStatus = Active | Released | Settled

  datatype Reservation = Reservation(
    account: Account, amount: int, remaining: int, status: ReservationStatus,
    idempotencyKey: string, requestId: string)

  /** The unique key of wallet_ledger. */
  datatype LedgerKey = LedgerKey(account: Account, kind: string, reference: string)

  /** The primary key of wallet_idempotency. */
  datatype ReplyKey = ReplyKey(user: int, commandType: string, idempotencyKey: string)

  datatype StoredReply = StoredReply(requestId: string, reply: WalletReply)

  datatype Topic = WalletEvents | EngineInputs

  datatype Payload = EventPayload(event: WalletEvent) | CommandPayload(command: EngineCommand)

  /** A message to enqueue: exactly the columns that the duplicate check compares. */
  datatype Message = Message(
    dedupeKey: DedupeKey, topic: Topic, partition: Option<int>, messageKey: string, payload: Payload)

  datatype OutboxStatus = Pending | Processing | Published

  datatype StreamPosition = StreamPosition(partition: int, offset: nat)

  datatype OutboxRow = OutboxRow(
    message: Message, status: OutboxStatus, attempts: nat, published: Option<StreamPosition>)

  /** The wallet's database. The index of an outbox row is its outbox_id. */
  datatype WalletState = WalletState(
    collaterals: map<Account, Collateral>,
    reservations: map<string, Reservation>,
    ledger: map<LedgerKey, int>,
    replies: map<ReplyKey, StoredReply>,
    outbox: seq<OutboxRow>)

  datatype WalletError =
    | NotEnough(available: int)
    | IdempotencyConflict
    | ReservationNotFound
    | InvalidReservationState
    | InvalidAccountDelta
    | Storage

  const EMPTY_WALLET := WalletState(map[], map[], map[], map[], [])

  // ---- decimal text of an identifier ----

  function Decimal(n: int): string
    decreases n < 0, if n < 0 then -n else n
  {
    if n < 0 then "-" + Decimal(-n)
    else if n < 10 then [Digit(n)]
    else Decimal(n / 10) + [Digit(n % 10)]
  }

  function Digit(d: int): (c: char)
    requires 0 <= d < 10
  {
    "0123456789"[d]
  }
}
