# Verified model of the exchange's accounting, projection and fan-out

A Dafny model of the services behind the matching engine: the wallet and its outbox, the
relay that publishes the outbox, the ledger that journals the stream, the projector that keeps
positions, order status and the order book, the candles, and the WebSocket hub. A database
transaction is one atomic step over tables (`map` and `seq` fields of a class), a topic is an
append-only log, and crash, restart, redelivery and retry are steps of their own. Methods
update the tables in place, statement by statement and loop by loop, and each is proved equal
to a function of the old tables; runs of those functions are what the theorems are about.
CHECK and UNIQUE constraints of the migrations are part of the transactions. A proposed row's
CHECKs are evaluated before its conflict clause, as Postgres does.

## Where to start

- `Pipeline.dfy`: any run of wallet transactions, relays that crash, and a ledger that
  replays reconciles to the unit per account and column; exactly when, and why not otherwise.
  `PipelineDrain.dfy`: every reachable state can still be drained.
- `WalletRuns.dfy`, `WalletInvariant.dfy`, `CommandHandlers.dfy`, `StoredRefusals.dfy`, `EngineEvents.dfy`,
  `EngineStalls.dfy`: what every wallet state satisfies, effects under races, crashes and redelivery, and where they stall.
- `InternalLedger.dfy`, `Ledgers.dfy`, `ReservationRuns.dfy`, `EventPayments.dfy`: what the rows, locked funds and events
  add up to, and that both ledgers agree. `OutboxOrigins.dfy`, `TrueReplies.dfy`: every message and reply is true.
- `OutboxRelay.dfy`, `OutboxFinality.dfy`, `OutboxDelivery.dfy`, `RelayLoop.dfy`: the relay protocol and its loop.
- `Projector.dfy`: the trade transaction whole, and its two halves in `OrderStatus.dfy` and `PositionBook.dfy`.
- `Positions.dfy`, `PositionRuns.dfy`, `PositionOrders.dfy`: margin, quantity, profit and loss, and net exposure.
- `OrderStatus.dfy`, `OrderRows.dfy`, `OrderBook.dfy`, `OrderBookClient.dfy`, `Candles.dfy`: confluence and convergence.
- `Hub.dfy`, `EventDedupe.dfy`: mutable indexes against their simple meaning.

## What the code does not do

Each of these is proved with its exact condition, and most with a run in which it happens.

- A partial release that is delivered again is applied again while its event is deduplicated, because key and
  payload do not tell the two apart: the books are off by exactly the sum of such releases (`Pipeline.Reconciles`),
  and agree exactly in the runs without one (`Pipeline.ReconcilesExactlyIff`, `WalletRuns.RedeliveredReleaseCommitsIff`).
- docs/wallet-events.md (lines 119-136) announces an AccountDeltaApplied for fees. The upsert's SELECT filters negative
  deltas before the conflict clause, so no debit is ever applied (`WalletRuns.AccountDeltaTakesEffectIff`,
  `EngineEvents.PositiveFeeIsNeverCharged`). The model follows the code.
- The consumer of engine events does not survive every stop. Stopped after some command of an event and before its
  offset is saved, it comes back exactly if the event's first command is no settlement and, if a release, would commit
  again (`EngineStalls.StopIsSurvivedByFirstIff`); otherwise it never saves another offset
  (`EngineStalls.UnsurvivedStopIsFinal`). Without any stop it stalls at a positive fee whose ledger row is absent
  (`EngineStalls.PositiveFeeStalls`) and at a user's trade with himself in one margin asset
  (`EngineStalls.SelfTradeStalls`).
- A stored refusal can stand beside a committed effect: exactly where a transaction of the key commits while a refusal
  is stored (`StoredRefusals.RefusedYetAppliedIff`).
- PUBLISHED is not final: exactly the pending mark of a relay whose publish of the row failed takes it back
  (`OutboxFinality.PublishedThroughoutIff`). One live relay at a time is enough to exclude it.
- A reduce-only fill reverses a position exactly if it is larger (`Positions.ReduceOnlyReducesIff`).
- A context's status falls exactly where a fill finds a FILLED order no longer covered (`OrderStatus.StatusFallsIff`),
  the orders row also where an opening meets PARTIAL (`OrderStatus.OrdersRowFallsIff`). The reject reason depends on
  arrival order exactly where two replies write different ones (`OrderStatus.ReasonIsDeterminedIff`), and the orders row
  exactly where an order is open and partly filled (`OrderRows.RowIsDeterminedIff`).
- A price listed twice on one side of a delta is last-wins exactly if its first positive quantity is the last one, or
  none is positive (`OrderBook.LastWinsIff`). A delta that is overtaken is lost (`OrderBook.BookFollowsMaxima`).
- Loading an order's context checks no market, so a trade can leave a row of another market without its result at the
  last price: exactly where `PositionRuns.ForeignTradeIsMarkedIff` says (`PositionRuns.ForeignFillUnmarks`).
- A hub id named before it is handed out is heard but not held (`Hub.AgreementBreaksIff`, `Hub.NamedTooEarly`).

## Model

| member | source | states |
|---|---|---|
| WalletRepository.Repository.ApplyDeposit | apps/wallet/src/repository.rs:526-589 | In place: ledger row, upserted balance, stored reply and outbox row, or the tables exactly as before with the error that the first failing statement gives |
| WalletRepository.Repository.ApplyWithdraw | apps/wallet/src/repository.rs:640-708 | In place: funds check, conditional debit, ledger row, reply and outbox row, all or nothing, with the error of the first failing statement |
| WalletRepository.Repository.ReserveFunds | apps/wallet/src/repository.rs:393-480 | In place: availability check, lock, reservation row with its unique keys, reply and the two outbox rows, all or nothing |
| WalletRepository.Repository.ForwardCancel | apps/wallet/src/processor.rs:317-362 | In place: the cancel reply and its outbox row; balances and reservations untouched |
| WalletRepository.Repository.Release | apps/wallet/src/repository.rs:765-826 | In place: the reservation gives up the amount, the account unlocks it, and the event is queued once per (reservation, reason, amount) |
| WalletRepository.Repository.SettleCollateralInTx | apps/wallet/src/repository.rs:969-1000 | The unlock-only update for an exact same-asset settlement, and the debit and credit updates otherwise |
| WalletRepository.Repository.Settle | apps/wallet/src/repository.rs:944-1066 | In place: reservation, collateral, two ledger rows and the outbox row, all or nothing |
| WalletRepository.Repository.ApplyAccountDelta | apps/wallet/src/repository.rs:1138-1214 | In place: nothing for a zero or an already booked delta; otherwise ledger row, upsert as the filtered SELECT allows it, and outbox row |
| WalletRepository.Repository.BookInTx | apps/wallet/src/repository.rs:1468-1491 | A wallet_ledger row is inserted exactly when its (user, asset, kind, reference) is new |
| WalletRepository.Repository.RecordReplyInTx | apps/wallet/src/repository.rs:1399-1426 | The upsert of an idempotent reply keeps the stored payload |
| WalletRepository.Repository.EnqueueInTx | apps/wallet/src/repository.rs:1428-1466 | The loop appends each message whose key is new and fails where a queued row of that key differs in any compared column |
| WalletRepository.Repository.ClaimOutboxMessages | apps/wallet/src/repository.rs:64-88 | The first due PENDING rows up to the limit become PROCESSING with one more attempt, no other row changes |
| WalletRepository.Repository.MarkOutboxPublished | apps/wallet/src/repository.rs:90-99 | The row becomes PUBLISHED with its position, whatever status it had |
| WalletRepository.Repository.MarkOutboxPending | apps/wallet/src/repository.rs:101-108 | The row becomes PENDING, whatever status it had |
| WalletRepository.Repository.RequeueStaleOutboxMessages | apps/wallet/src/repository.rs:110-118 | Exactly the stale PROCESSING rows become PENDING |
| WalletInvariant.RemainderIsLocked | apps/wallet/src/repository.rs:786-798 | What remains of an active reservation is locked on its account, so the unchecked `locked >= $3` guards are true |
| WalletInvariant.DepositStep | apps/wallet/src/repository.rs:526-589 | A committed deposit keeps every table invariant and moves total by exactly what its event announces |
| WalletInvariant.WithdrawStep | apps/wallet/src/repository.rs:640-708 | The same for a withdrawal |
| WalletInvariant.ReserveStep | apps/wallet/src/repository.rs:393-480 | The same for a reservation, which moves locked |
| WalletInvariant.ReleaseStep | apps/wallet/src/repository.rs:765-826 | The same for a release; a repeated one queues no second row |
| WalletInvariant.SettleStep | apps/wallet/src/repository.rs:944-1066 | The same for a settlement, same-asset and cross-asset |
| WalletInvariant.AccountDeltaStep | apps/wallet/src/repository.rs:1138-1214 | The same for an account delta, which takes effect at most once per reference |
| WalletRuns.EveryRunIsValid | apps/wallet/src/repository.rs:393-1214 | In every reachable state 0 <= locked <= total, 0 <= remaining <= amount, ACTIVE exactly when remaining > 0, active remainders of an account at most its locked funds, outbox keys unique, each row backed by the table row that stops its transaction from committing again |
| WalletRuns.DepositCommitsIff | apps/wallet/src/repository.rs:526-589 | In any valid state a deposit commits exactly if its amount is not negative and fits, and its reference and idempotency key are new |
| WalletRuns.WithdrawCommitsIff | apps/wallet/src/repository.rs:640-708 | A withdrawal commits exactly if the account exists, total less locked covers it and its key is new; it is short of funds exactly if the account is absent or total less locked is below the amount, and then names that difference |
| WalletRuns.ReserveCommitsIff | apps/wallet/src/repository.rs:411-480 | An order is reserved exactly if total less locked covers a positive margin and reservation id and key are new; it is short of funds exactly if the account is absent or total less locked is below the margin, and then names that difference |
| WalletRuns.ReleaseCommitsIff | apps/wallet/src/repository.rs:773-826 | A release commits exactly when the reservation is active and covers the amount: neither the collateral update nor a constraint can stop it |
| WalletRuns.SettleCommitsIff | apps/wallet/src/repository.rs:952-1066 | A settlement commits exactly when the reservation covers it, its two ledger keys are unused and the credit fits |
| WalletRuns.AccountDeltaTakesEffectIff | apps/wallet/src/repository.rs:1146-1214 | A delta takes effect exactly when it is new, not zero, 0 <= locked delta <= total delta, and fits |
| WalletRuns.UpsertIsIntendedIff | apps/wallet/src/repository.rs:1175-1202 | The upsert does what its DO UPDATE guard describes exactly when the delta adds, or the described row would violate the constraints |
| WalletRuns.EffectsPerKey | apps/wallet/src/repository.rs:1428-1491 | In every run a dedupe key is in the outbox exactly when some action committed an effect under it, and no key but a release key has two effects |
| WalletRuns.RedeliveredSettlementIsRefused | apps/wallet/src/repository.rs:952-1066 | A committed settlement is refused in every later state |
| WalletRuns.RedeliveredDeltaIsIgnored | apps/wallet/src/repository.rs:1146-1170 | A delta that has taken effect is accepted and ignored in every later state |
| WalletRuns.RedeliveredReleaseCommitsIff | apps/wallet/src/repository.rs:773-821 | However much later, a committed release commits again exactly when the reservation is still active and covers it; at once, exactly when twice the amount remained |
| WalletRuns.StoredReplyIsFinal | apps/wallet/src/repository.rs:1399-1426 | A stored reply's payload never changes, over every continuation |
| WalletRuns.StoredUnderTheLastRequest | apps/wallet/src/repository.rs:1399-1426 | In every run a reply is stored exactly for the keys that a committed command has answered, under the request id of the last one |
| InternalLedger.LedgerIsTheBalance | apps/wallet/src/repository.rs:1468-1491 | The central law of wallet_ledger: in every run an account's total is the sum of its ledger rows |
| InternalLedger.LedgerIsTheEvents | apps/wallet/src/repository.rs:1468-1491 | In every run the ledger holds, key by key and to the unit, the rows that the queued events stand for, each row from one event, and no others |
| InternalLedger.ReportsAreTold | apps/wallet/src/processor.rs:94-150 | Each total that a queued event reports is the sum of what the events up to and including it announce for the account |
| ReservationRuns.EveryReservationIsAccounted | apps/wallet/src/repository.rs:773-826 | In every run amount less remaining of a reservation is what committed releases and settlements have taken off it |
| ReservationRuns.LockedIsWhatIsHeld | apps/wallet/src/repository.rs:393-1214 | In every run an account's locked funds are exactly the remainders of its active reservations plus what account deltas locked |
| ReservationRuns.StepEndsIff | apps/wallet/src/repository.rs:804-816 | A transaction ends a reservation exactly if it takes all that remains; RELEASED by a release, SETTLED by a settlement |
| OutboxOrigins.EveryRowHasAnOrigin | apps/wallet/src/repository.rs:1428-1466 | Each queued row was queued by one committed transaction of the run and says, field by field, what that was asked to do and the balances it left, under the stream key of its kind |
| OutboxOrigins.EveryOrderIsReserved | apps/wallet/src/repository.rs:436-480 | A queued PlaceOrder carries the intent and the reservation id of a committed reservation of the run, whose account, amount, key and request are the intent's, under its market's key |
| DedupeKeys.RenderIsInjective | apps/wallet/src/processor.rs:94-181 | The texts of different dedupe keys differ, for reservation ids and kinds without a colon |
| OutboxTexts.EngineCommandsAreDrawn | apps/wallet/src/redpanda.rs:739-839 | Whatever an engine event holds, its commands draw kinds without a colon |
| OutboxTexts.TextsActAsKeys | apps/wallet/src/repository.rs:24-62 | In every run the dedupe texts of the rows are pairwise different, and an insert conflicts by text exactly when it does by key |
| CommandHandlers.EveryDeskIsOk | apps/wallet/src/processor.rs:75-197 | In every interleaving of lookups, transactions, stored refusals, crashes, redeliveries and background transactions, every stored success and every success answered is backed by its committed effect |
| CommandHandlers.AtMostOneEffect | apps/wallet/src/processor.rs:82-124 | Any number of racing or redelivered handlers of one key commit at most one effect; a success answer stands for exactly one |
| CommandHandlers.StoredSuccessMeansOneEffect | apps/wallet/src/processor.rs:212-315 | A stored success reply stands for exactly one committed effect |
| TrueReplies.EveryReplyIsTrue | apps/wallet/src/processor.rs:75-197 | In every interleaving every reply, stored, answered or replayed, is true of the transaction that some handler of its key ran: the balance it left, the reservation it opened, or the amount that was free and too little; an answer carries the asker's request id |
| StoredRefusals.RefusalSurvivesCommitIff | apps/wallet/src/repository.rs:1399-1426 | After a commit a refusal is stored under its key exactly when one was stored before; the commit's own reply is the stored one exactly when none, or the same one, was |
| StoredRefusals.EveryRowHasReply | apps/wallet/src/processor.rs:82-150 | In every run a queued row of a withdrawal or order means that a reply is stored for it |
| StoredRefusals.RefusedYetAppliedIff | apps/wallet/src/processor.rs:122-315 | For every interleaving and every withdrawal or order, a refusal is stored beside the committed effect exactly if some transaction of the key committed at a moment at which a refusal was already stored |
| StoredRefusals.RefusalStoredYetApplied | apps/wallet/src/processor.rs:122-176 | Witness: a stored insufficient-funds reply beside the rival handler's committed withdrawal |
| EngineEvents.PositiveFeeIsNeverCharged | apps/wallet/src/redpanda.rs:739-839 | A positive fee's account delta changes nothing in any state, and fails unless its ledger row exists |
| EngineEvents.EveryPartitionIsOk | apps/wallet/src/redpanda.rs:354-423 | With crashes and restarts anywhere, everything below the stored offset, and below the running one, has been accepted |
| EngineEvents.PassedEventsAreApplied | apps/wallet/src/redpanda.rs:354-423 | Each settlement below the stored offset has been applied exactly once, each release at least once |
| EventPayments.EventPays | apps/wallet/src/redpanda.rs:739-839 | If all commands of an event commit, every balance moves by what the event's own fields owe: settlements to the reservation's owner, fees, funding payments and deltas not booked before, releases of a positive amount |
| EventPayments.LoopPays | apps/wallet/src/redpanda.rs:354-423 | So a consumer that runs an event through in one go has paid exactly what it owes |
| EventPayments.SameReleaseSameEvent | apps/wallet/src/redpanda.rs:741-755 | Two release events with the same command, and so the same dedupe key, are the same event word for word |
| EventPayments.SameFeeRow | apps/wallet/src/redpanda.rs:774-795 | Two fees that share a ledger row are the same fee of the same fill |
| EventPayments.SameFundingRow | apps/wallet/src/redpanda.rs:799-823 | Two payments of funding events without an id that share a ledger row are the same payment of the same event |
| EngineStalls.FailsIff | apps/wallet/src/repository.rs:773-1214 | In any state a command of an event fails exactly if it is hopeless (its amounts, its reservation's state, assets or remainder, a ledger row of its own, a delta that does not add) or premature (no reservation yet, no room) |
| EngineStalls.StaysHopelessIff | apps/wallet/src/repository.rs:773-1214 | A hopeless settlement or release is hopeless in every next state, a hopeless delta exactly while its ledger row is absent |
| EngineStalls.StalledForGood | apps/wallet/src/redpanda.rs:354-423 | A consumer at a hopeless command never saves another offset, whatever it and everybody else do: for good behind a settlement or release, behind a delta while its ledger row is absent |
| EngineStalls.StopStallsAtHopeless | apps/wallet/src/redpanda.rs:408-418 | After a stop before the saving of the offset, each command that had run and is hopeless stalls the consumer, as every settlement is |
| EngineStalls.StopIsSurvivedIff | apps/wallet/src/redpanda.rs:354-423 | Stopped after k commands of an event, restarted and fetching again, the loop is back where it was after k commands exactly if none of those is hopeless by then |
| EngineStalls.StopIsSurvivedByFirstIff | apps/wallet/src/redpanda.rs:408-418 | For k > 0: exactly if the event's first command is no settlement and, if it is a release, that release would commit again |
| EngineStalls.UnsurvivedStopIsFinal | apps/wallet/src/redpanda.rs:354-423 | After a stop that is not survived no continuation of consumer and other transactions saves another offset |
| EngineStalls.SettledThenStopped | apps/wallet/src/redpanda.rs:408-418 | Witness from an empty database: deposit, order, fill, and a stop right after the settlement ends stalled |
| EngineStalls.PositiveFeeStalls | apps/wallet/src/redpanda.rs:739-839 | Without any stop, a positive fee whose ledger row is absent stalls the consumer as soon as it comes to the event |
| EngineStalls.SecondSettlementIsHopeless | apps/wallet/src/repository.rs:1020-1041 | Of two settlements of one fill that debit one account, or credit one, the second is hopeless as soon as the first has committed |
| EngineStalls.SelfTradeStalls | apps/wallet/src/redpanda.rs:354-423 | So a trade of a user with himself in one margin asset stalls the consumer at its second settlement, without any stop |
| OutboxRelay.EveryWorldIsOk | apps/wallet/src/redpanda.rs:161-219 | With any number of relays crashing anywhere: each stream record carries its row's topic, key and payload, and its partition where it names one, a recorded position holds that row's payload, PUBLISHED rows have a position, and a row's records never exceed its attempts |
| OutboxRelay.RowsStay | apps/wallet/src/repository.rs:64-118 | No step of relay or wallet loses or rewrites an outbox row |
| OutboxDelivery.AttemptsCountClaims | apps/wallet/src/repository.rs:64-88 | A row's attempts are the number of its claims in the run |
| OutboxFinality.StepUndoesIff | apps/wallet/src/repository.rs:101-108 | Of all steps, exactly the pending mark of a relay whose publish of the row failed takes PUBLISHED back |
| OutboxFinality.StepChangesIff | apps/wallet/src/repository.rs:90-108 | A step changes a PUBLISHED row exactly if it is that, or the published mark of a relay that has it at another position |
| OutboxFinality.PositionMovesIff | apps/wallet/src/repository.rs:90-118 | Of all steps exactly a published mark at another position changes a row's recorded position, whatever its status |
| OutboxFinality.PublishedThroughoutIff | apps/wallet/src/repository.rs:90-108 | A row is PUBLISHED at every moment of a run exactly if no step of the run undoes it |
| OutboxFinality.RowThroughoutIff | apps/wallet/src/repository.rs:90-108 | The whole row is the same at every moment exactly if no step undoes it or moves its position |
| OutboxFinality.PublishedIsFinal | apps/wallet/src/redpanda.rs:161-219 | With at most one live relay at every moment no such step occurs, so a PUBLISHED row never changes again |
| OutboxFinality.SecondRelayUndoesPublished | apps/wallet/src/repository.rs:101-108 | Witness: with two live relays a PUBLISHED row goes back to PENDING |
| OutboxDelivery.RoundDrains | apps/wallet/src/redpanda.rs:161-219 | A successful round lowers the number of unpublished rows by the batch limit, or to zero |
| OutboxDelivery.RoundsDrain | apps/wallet/src/redpanda.rs:161-219 | Enough successful rounds leave every row PUBLISHED, whatever earlier relays left behind |
| RelayLoop.RelayProcess.RunOnce | apps/wallet/src/redpanda.rs:161-219 | One iteration of the loop, requeue, claim, publish and mark row by row, leaves table and log as the iteration function says |
| RelayLoop.IterationIsARun | apps/wallet/src/redpanda.rs:161-219 | That function is a run of the relay state machine, so every property of the runs holds of the loop |
| LedgerProcessor.EntriesAddUp | apps/ledger/src/processor.rs:45-177 | The entries built for any event add up, per account and column, to what the event announces |
| LedgerJournal.Repository.Record | apps/ledger/src/repository.rs:87-143 | In place: journal row, the loop of entries and the offset; a conflict by position or logical id leaves the journal alone, and the offset moves up either way |
| LedgerJournal.RecordKeepsOnce | apps/ledger/src/repository.rs:17-29 | At most one journal row per logical event and position; recording again changes nothing; offsets only grow |
| LedgerJournal.JournalDeltaAppend | apps/ledger/src/repository.rs:100-137 | Recording an event moves the journal's sums by exactly its entries |
| Ledgers.EveryJournalSaysItsEvents | apps/ledger/src/repository.rs:87-143 | In every run the entries are those of the journaled events, tagged with their row, and each row names its event's type, user and id |
| Ledgers.JournalIsInTheWalletsLedger | apps/ledger/src/processor.rs:45-177 | In every run each journaled entry has its row in the wallet's own ledger: same account and amount and, but for withdrawals, same kind and reference; entries that only lock or unlock name a reservation of the account |
| Pipeline.EveryReachIsSound | apps/ledger/src/repository.rs:87-143 | In every run of wallet, relays and ledger consumer, crashes and replays included, each journal row is a stream record of an outbox row and everything below a stored offset is journaled |
| Pipeline.Reconciles | apps/wallet/src/repository.rs:393-1214 | In every reachable state journaled deltas plus those of committed, not yet journaled rows equal the balance, per account and column, plus what repeated releases unlocked without an event |
| Pipeline.ReconcilesExactlyIff | apps/wallet/src/processor.rs:364-394 | The books agree for every account and column exactly in the runs without a repeated (reservation, reason, amount) release |
| Pipeline.DrainedReconciles | apps/wallet/src/redpanda.rs:161-219 | Once all is published and consumed the journal alone equals the balances, up to the same term |
| PipelineDrain.EveryReachCanDrain | apps/wallet/src/redpanda.rs:161-219 | With at least one relay process every reachable state has a continuation that is drained, after which the journal alone gives every balance |
| PositionMath.TruncIsFloor | apps/projector/src/repository.rs:2083-2097 | Rust's division is the floor for the non-negative operands of slices and averages |
| PositionMath.MarginSlice | apps/projector/src/repository.rs:2071-2081 | A slice is between one and the whole and within one unit per unit of quantity of its exact share |
| PositionMath.SlicesOfOneOrder | apps/projector/src/repository.rs:2071-2081 | k slices of one order miss the exact share by at most k * (Q - 1), despite flooring and the lift to one |
| PositionMath.AverageStep | apps/projector/src/repository.rs:2083-2097 | New average times new quantity is the notional less a remainder in [0, new quantity); the average stays between the two prices |
| PositionMath.AverageAccuracy | apps/projector/src/repository.rs:2083-2097 | After n same-side fills the average is within the prices, at most the true one, and loses at most (n - 1) * (quantity - 1) of notional |
| Positions.ProjectKeepsSane | apps/projector/src/repository.rs:1028-1076 | A fill leaves a positive quantity, a non-negative margin and an average in range, or no row |
| Positions.MarginIsConserved | apps/projector/src/repository.rs:1250-1324 | Over any run of fills, margin brought equals margin on the open row plus margins of all closed rows, none negative |
| Positions.QuantityIsConserved | apps/projector/src/repository.rs:1218-1324 | Over any run, the signed position is the sum of the fills applied, and entered quantity is open plus closed quantity |
| Positions.PnlFollowsCash | apps/projector/src/repository.rs:1218-1324 | Over any run, realized results with clamping put back equal cash plus the position at cost plus the long less the short remainders |
| Positions.RemaindersAreBounded | apps/projector/src/repository.rs:2083-2097 | The remainders are non-negative and bounded by the position sizes reached |
| Positions.FlatToFlat | apps/projector/src/repository.rs:1250-1324 | From flat to flat, results equal cash within those bounds |
| Positions.ClampedIff | apps/projector/src/repository.rs:2099-2106 | A closed row is unclamped exactly when the exact result fits 64 bits, and otherwise at the nearest bound |
| Positions.OneOrderMargin | apps/projector/src/repository.rs:1028-1076 | What one order's fills put on the row is its share of the order's margin, within one per fill |
| Positions.OneSidedAverage | apps/projector/src/repository.rs:1218-1248 | The stored average of a one-sided position is within the prices and less than n below the true average |
| Positions.ReduceOnlyReducesIff | apps/projector/src/repository.rs:1306-1321 | A reduce-only fill reduces exactly when it is not larger than an opposite position; then it reverses it |
| Positions.ReduceOnlyReverses | apps/projector/src/repository.rs:1306-1321 | Witness: a reduce-only short of 10 turns a long of 4 into a short of 6 |
| PositionBook.Repository.InsertOpenPosition | apps/projector/src/repository.rs:1162-1216 | The inserted row, with its margin slice and no unrealized result |
| PositionBook.Repository.IncreasePosition | apps/projector/src/repository.rs:1218-1248 | Quantity, margin and average of the increased row |
| PositionBook.Repository.ReduceOrReverse | apps/projector/src/repository.rs:1250-1390 | The closed row, and the reduced, deleted or reversed open row |
| PositionBook.Repository.ProjectPositionForFill | apps/projector/src/repository.rs:1028-1076 | The five branches of a fill on one slot; no other slot changes |
| PositionBook.Repository.RefreshPositionPnl | apps/projector/src/repository.rs:1078-1124 | The loop marks every open row of the market and no other |
| PositionBook.Repository.ProjectInsertedFill | apps/projector/src/repository.rs:604-646 | For an inserted fill: the market's price, both legs in order, and the refresh |
| Projector.Repository.ProjectTradeExecuted | apps/projector/src/repository.rs:538-651 | The whole transaction over one set of tables: contexts loaded, orders, fill row, both statuses, then the books for an inserted fill; an error leaves everything |
| Projector.RunIsBothMachines | apps/projector/src/repository.rs:538-651 | Any run of events is the order status machine and the position machine side by side over one fills table, each trade with the contexts it loaded |
| Projector.TradesHaveTheirContexts | apps/projector/src/repository.rs:1485-1575 | Each trade of the positions is a TradeExecuted of the run, maker and taker with the contexts last saved for their own orders by then |
| Projector.EveryProjectionBalances | apps/projector/src/repository.rs:538-651 | So the stored rows of every slot are sane and satisfy the margin, quantity and cash identities over the distinct fills of any run of events |
| PositionRuns.AcceptedAreTheDistinctTrades | apps/projector/src/repository.rs:565-602 | For any delivery, the inserted fills are pairwise distinct under both keys, and every other admissible trade shares a key with one of them |
| PositionRuns.SlotIsItsOwnRun | apps/projector/src/repository.rs:604-646 | A slot's stored rows are what its own legs leave, whatever other trades the delivery interleaves |
| PositionRuns.EveryRunBalances | apps/projector/src/repository.rs:565-646 | After any delivery with duplicates the stored rows of a slot satisfy the margin, quantity and cash identities over its distinct fills |
| PositionRuns.PositionIsTheSumOfItsFills | apps/projector/src/repository.rs:565-646 | Without reduce-only orders the signed position is the sum of the slot's distinct fills |
| PositionOrders.EveryRowNamesItsOrders | apps/projector/src/repository.rs:1250-1390 | After any delivery each closed row of a slot names the order that had opened the position and the order, price and side of the leg that closed it, and an open row the order that opened it |
| PositionOrders.LegsAreSides | apps/projector/src/repository.rs:604-646 | Each leg of a slot is the maker or taker side of a distinct fill, under that side's order |
| PositionRuns.EveryRunIsMarked | apps/projector/src/repository.rs:1078-1124 | In every reachable state each open row carries what it has gained at its market's last price, (price - average) * quantity or its negative for a short, or the nearest 64-bit bound, unless a trade of another market has touched it since |
| PositionRuns.AllRowsAreMarked | apps/projector/src/repository.rs:1078-1124 | All open rows are marked in every run in which orders trade in their own markets |
| PositionRuns.LegStaysMarkedIff | apps/projector/src/repository.rs:1028-1076 | A leg, maker or taker, on a marked row or an empty slot: the row it leaves is marked at the same price exactly if StaysMarked, a condition on the old row, the leg and that price alone, clamped results included |
| PositionRuns.UnclampedStaysMarkedIff | apps/projector/src/repository.rs:1218-1324 | Where the old result does not clamp: after an increase exactly if what truncating the average loses is quantity * (price - last), after a reduction exactly if the last price is the average, after an opening or reversal exactly if it is the leg's price, after a dropped leg always |
| PositionRuns.ForeignTradeIsMarkedIff | apps/projector/src/repository.rs:1485-1575 | Loading a context checks no market: a trade with one leg, maker or taker, on a slot of another market leaves that slot's row marked exactly under that condition |
| PositionRuns.ForeignOpeningIsMarkedIff | apps/projector/src/repository.rs:1485-1575 | For a maker who opens a position so: exactly if the trade's price is its own market's last price |
| PositionRuns.ForeignFillUnmarks | apps/projector/src/repository.rs:1485-1575 | Witness from the empty tables: a fill of another market leaves a row that is not marked |
| PositionRuns.EquityIsCashPlusMark | apps/projector/src/repository.rs:2099-2119 | Realized plus stored unrealized results equal cash plus the position at the last price, up to the remainders, wherever the gain fits the column; elsewhere the column is at its bound |
| PositionRuns.UnrealizedClampIff | apps/projector/src/repository.rs:2108-2119 | The stored unrealized result is the exact gain exactly if that fits 64 bits |
| PositionRuns.ImbalanceIsZeroIff | apps/projector/src/repository.rs:1040-1075 | A trade leaves its market's net open quantity alone exactly when both legs are dropped, or neither and the sides are opposite |
| PositionRuns.MarketNetsToZero | apps/projector/src/repository.rs:604-646 | A market nets to zero in every state, self-trades included, while every inserted trade is balanced |
| PositionRuns.NetStaysZeroIff | apps/projector/src/repository.rs:1040-1075 | A netted market stays netted exactly by the trades that are not inserted or are balanced |
| OrderStatus.Repository.SaveOrderContext | apps/projector/src/repository.rs:210-265 | Upsert that keeps the status |
| OrderStatus.Repository.MarkOrderAccepted | apps/projector/src/repository.rs:329-361 | The guarded status update of an acceptance; an error without a context |
| OrderStatus.Repository.MarkOrderRejected | apps/projector/src/repository.rs:363-397 | The guarded status update of a rejection, which always stores its reason |
| OrderStatus.Repository.ProjectOrderOpened | apps/projector/src/repository.rs:466-499 | Context and orders row, each with its own guard |
| OrderStatus.Repository.ProjectOrderCancelled | apps/projector/src/repository.rs:501-536 | Context and orders row become CANCELLED; without a context the orders row serves as one; without either an error |
| OrderStatus.Repository.CumulativeFilled | apps/projector/src/repository.rs:1999-2015 | The sum over the fills in which the order is maker or taker |
| OrderStatus.Repository.UpdateOrderAfterFill | apps/projector/src/repository.rs:1957-1997 | PARTIAL or FILLED by the cumulative quantity, unless CANCELLED, in both tables |
| OrderStatus.Repository.ProjectTradeOrders | apps/projector/src/repository.rs:538-605 | Contexts loaded with their fallback, missing orders, the fill row and both updates, also for a duplicate; an error without contexts |
| OrderStatus.StatusFallsIff | apps/projector/src/repository.rs:1957-2015 | In any tables and for any event a context's rank falls exactly where a fill of the order finds it FILLED and the fills below its quantity; CANCELLED is absorbing |
| OrderStatus.StatusNeverFallsBack | apps/projector/src/repository.rs:339-351 | Where saved quantities are steady no event lowers a context's rank |
| OrderStatus.OrdersRowFallsIff | apps/projector/src/repository.rs:1887-1890 | In any tables the orders row falls exactly there, or where an opening meets PARTIAL |
| OrderStatus.OrdersRowFallsBackIff | apps/projector/src/repository.rs:1887-1890 | Where saved quantities are steady it falls exactly where an opening meets PARTIAL |
| OrderStatus.LargerQuantityReopens | apps/projector/src/repository.rs:228-242 | Witness from empty tables: a filled order saved again with a larger quantity falls to PARTIAL when its fill is redelivered |
| OrderStatus.RunSettles | apps/projector/src/repository.rs:329-536 | Every event of a delivery commits, and each status is the one its set of events stands for |
| OrderStatus.StatusesAreConfluent | apps/projector/src/repository.rs:2052-2058 | Every order and multiplicity of the same events ends in the same fills and context statuses |
| OrderRows.RowSettles | apps/projector/src/repository.rs:466-651 | After any sequence of the events the status of an orders row is CANCELLED or FILLED as their set says, and otherwise what the last opening or fill left |
| OrderRows.RowIsDeterminedIff | apps/projector/src/repository.rs:1887-1890 | Every order and multiplicity of the same events leaves that row the same status exactly unless the order is opened and partly filled, neither cancelled nor full |
| OrderRows.FailsIffUnsaved | apps/projector/src/repository.rs:329-605 | From empty tables an event fails, and stops its consumer, exactly if no valid context of one of its orders was saved before, or it brings a value out of range |
| OrderRows.CancellationCancels | apps/projector/src/repository.rs:501-536 | A cancellation that finds a context makes the orders row CANCELLED, and the context's row too if there is one |
| OrderRows.CancelledStays | apps/projector/src/repository.rs:501-536 | No sequence of events moves an orders row out of CANCELLED |
| OrderRows.OrderKeepsItsTerms | apps/projector/src/repository.rs:1824-1955 | Over any run an orders row keeps the slot, side, quantity and margin it was inserted with |
| OrderRows.EveryOrderHasItsTerms | apps/projector/src/repository.rs:1824-1955 | In every run from empty tables those are the terms last saved for the order when the row was inserted |
| OrderRows.ReduceOnlyFollows | apps/projector/src/repository.rs:1864-1955 | An opening or a cancellation hands the context's reduce-only flag on to the row, and nothing else changes it |
| OrderRows.ContextIsTheLastSaved | apps/projector/src/repository.rs:210-265 | Over any run a context is the one last saved with a positive quantity |
| OrderStatus.ReasonsCommuteIff | apps/projector/src/repository.rs:339-385 | Two events commute on an order's reject_reason exactly if one of them writes none, or both write the same |
| OrderStatus.ReasonIsTheLastWritten | apps/projector/src/repository.rs:339-385 | After any run the reason is what the order's last reply has written |
| OrderStatus.ReasonIsDeterminedIff | apps/projector/src/repository.rs:339-385 | Every order of the same events leaves the same reason exactly if they write no two different ones |
| OrderStatus.ReasonIsNotConfluent | apps/projector/src/repository.rs:375-385 | Witness: an acceptance and a rejection of one saved order leave either reason |
| OrderBook.Repository.ApplyOrderbookLevel | apps/projector/src/repository.rs:974-1026 | Delete or upsert under the strict sequence guard |
| OrderBook.Repository.ApplySide | apps/projector/src/repository.rs:679-688 | The loop over one side's levels |
| OrderBook.Repository.ProjectOrderbookDelta | apps/projector/src/repository.rs:653-700 | Event row, guarded levels and state for a new delta; only the event row for a late one; nothing for a repeated or aborted one |
| OrderBook.FirstPositiveStands | apps/projector/src/repository.rs:974-1026 | Closed form for any entries: an unlisted price keeps its level, else the first positive entry stands, else the level goes |
| OrderBook.LastWinsIff | apps/projector/src/repository.rs:974-1026 | The stored level is the last-wins one exactly when no entry of the price is positive or the first positive one equals the last |
| OrderBook.SetThenRemovedStays | apps/projector/src/repository.rs:1014-1014 | Witness: a price set and removed in one delta stays in the book |
| OrderBook.BookFollowsStream | apps/projector/src/repository.rs:653-700 | After any at-least-once delivery in stream order, every level is what the last delta that mentions it says |
| OrderBook.BookFollowsMaxima | apps/projector/src/repository.rs:925-943 | After delivery in any order whatsoever, the book is that of the running maxima of the delivered sequences |
| OrderBook.LateIsDropped | apps/projector/src/repository.rs:925-943 | The book's sequence moves exactly with a new maximum, and a delta that is none leaves the levels alone |
| OrderBook.EveryLevelIsValid | apps/projector/src/repository.rs:974-1026 | After any deltas, malformed and aborted ones included, every level has a positive quantity and no negative price |
| OrderBook.EventsAreTheDelivered | apps/projector/src/repository.rs:653-700 | After delivery in any order the event rows are those of all deltas delivered, overtaken ones included |
| OrderBookClient.SideIsWholeIff | crates/db/src/orderbook.rs:41-74 | The snapshot's rows are a whole side exactly when the side has no more levels than the depth |
| OrderBookClient.BestIsFirst | crates/db/src/orderbook.rs:41-74 | A side's first row is its best price: no bid is higher, no ask lower |
| OrderBookClient.ClientLevelIsRightIff | docs/websocket.md:118-122 | Level by level, a client that starts from a torn snapshot agrees with the projector exactly where the level was in the snapshot, or not in the book, or mentioned since |
| OrderBookClient.TornSnapshotConverges | crates/db/src/orderbook.rs:13-39 | With sequence, bids and asks read at three successive states and both sides whole, the client ends with the projector's sequence and book |
| Candles.Repository.UpsertCandle | apps/timeseries/src/repository.rs:158-215 | Insert, or the six CASE, GREATEST, LEAST and sum updates |
| Candles.Repository.RecordTradeAndCandles | apps/timeseries/src/repository.rs:80-117 | Trade row and the loop of upserts for a new sequence, nothing for a recorded one, an abort for a violated constraint |
| Candles.CandleIsUnique | apps/timeseries/src/repository.rs:177-202 | The description of a candle of a set of trades determines it |
| Candles.BucketStartIff | apps/timeseries/src/processor.rs:73-75 | The bucket of a time starts on the interval's grid, at the one start with start <= time < start + interval |
| Candles.MergeIsCandleOfUnion | apps/timeseries/src/repository.rs:177-202 | The upsert rule applied to the candles of two disjoint sets of trades is the candle of their union |
| Candles.EveryCandleIsRight | apps/timeseries/src/repository.rs:80-117 | After any delivery each stored candle is the candle of the recorded trades with start <= time < start + interval, for every start on the grid, and none is missing or spare |
| Candles.EveryTradeIsRecordedOnce | apps/timeseries/src/repository.rs:80-117 | In every run each recorded trade was delivered, is admissible, and has its key and its fill id to itself |
| Candles.ArrivalOrderDoesNotMatter | apps/timeseries/src/repository.rs:158-215 | Any order and duplication of the same trades leaves the same tables |
| Candles.IntervalsNest | apps/timeseries/src/processor.rs:13-34 | An interval divides another exactly when it is not longer |
| Candles.BucketsNest | apps/timeseries/src/processor.rs:73-75 | A fine window lies whole in one coarse window, that of the trade |
| Candles.RollUp | apps/timeseries/src/repository.rs:177-202 | Merging the finer candles inside a coarse bucket, in any order, gives the coarse candle |
| Candles.EveryRunRollsUp | apps/timeseries/src/processor.rs:13-75 | That holds in every run, between any two of the five intervals |
| Hub.Hub.Register | apps/ws/src/hub.rs:35-52 | A new id, a session without markets and its user entry |
| Hub.Hub.RemoveSession | apps/ws/src/hub.rs:146-168 | The session leaves the sessions and both indexes, emptied entries are dropped |
| Hub.Hub.SubscribeMarkets | apps/ws/src/hub.rs:59-74 | A session gains the markets, and the index lists the id for them whether or not it is live |
| Hub.Hub.UnsubscribeMarkets | apps/ws/src/hub.rs:76-91 | Session and index lose the markets |
| Hub.Hub.SendToSessions | apps/ws/src/hub.rs:126-144 | Live targets whose mailbox accepts are reached once each, live targets whose mailbox refuses are removed |
| Hub.Hub.BroadcastAccount | apps/ws/src/hub.rs:93-103 | Reaches exactly the user's live sessions that accept, and removes the refusing ones |
| Hub.Hub.BroadcastMarket | apps/ws/src/hub.rs:105-115 | Reaches exactly the live listed sessions that accept, ids without a session notwithstanding, and removes the refusing ones |
| Hub.LiveSessionsHearTheirLastWord | apps/ws/src/hub.rs:34-115 | In every run, whatever ids the requests name, a live session is a market's target exactly when the latest request about it and the market was to subscribe |
| Hub.AgreementBreaksIff | apps/ws/src/hub.rs:35-91 | A live session is listed for exactly the markets it holds, until an id is registered that a request had named before it was handed out |
| Hub.NamedTooEarly | apps/ws/src/hub.rs:35-74 | Witness from the empty hub: a market asked for under the first id before it is handed out is heard by its session, which does not hold it |
| Hub.IndexAgrees | apps/ws/src/hub.rs:34-168 | So in every run in which requests name only ids handed out, index and sessions agree, late requests included |
| Hub.DeadStayDead | apps/ws/src/hub.rs:34-52 | A removed session's id is never live again, in any continuation |
| Hub.SessionsAreTheirUsers | apps/ws/src/hub.rs:35-52 | In every run ids count the registrations, and a live id is listed for a user exactly if the registration that handed it out named him |
| Hub.LiveIff | apps/ws/src/hub.rs:34-168 | A session is live after a step exactly if it was and was neither removed nor refused a broadcast meant for it, or is the one registered |
| EventDedupe.Cache.IsDuplicate | apps/ws/src/router.rs:152-176 | True exactly for a non-empty id among the last `capacity` accepted ones; set and queue keep standing for that window |
| EventDedupe.RepeatsAreFarApart | apps/ws/src/router.rs:152-176 | Between two acceptances of one id lie at least `capacity` others |
| EventDedupe.ExactBelowCapacity | apps/ws/src/router.rs:152-176 | While no more than `capacity` ids have been accepted, the answer is whether the id came before |

## Left out

- Isolation inside one transaction: transactions are atomic steps, so the reads without FOR UPDATE inside them (the reservation SELECT of release and settle among them) are not interleaved.
- 64-bit overflow of plain additions: quantity and margin sums of a position, candle volume and count, and fill sums are unbounded integers; balances, prices, averages and results have their range.
- The `*_funds`, `apply_*` and `settle_trade` variants without an outbox: the same statements less the outbox.
- Clocks: which rows are stale or due, and every timestamp column, are inputs of the steps.
- JSON, Kafka clients and key hashing: payloads are values, a hashed partition is an input, a publish call appends one record or none, and a topic keeps its records.
- `outboxId` of a stream record is provenance that the proofs use; consumers do not read it.
- The matching engine: its events are inputs.
- OrderStatus.Repository.ProjectTradeOrders: identifies a reservation with its order id, so a second order id for one reservation is not modelled; the synthetic contexts of liquidation trades are not either.
- Projector.Repository.ProjectTradeExecuted: the user and side columns of fills are copies of the contexts and are not kept; a context's margin is the amount of its reservation, which the wallet never changes, so the join is not modelled.
- OrderStatus.Repository.MarkOrderRejected: a rejection without a reservation id only saves the offset and is not an event here.
- OrderStatus.StatusesAreConfluent: assumes that a fill id, and a (market, sequence), name one fill, and that a context saved again has the same quantity.
- OrderBook.Repository.ProjectOrderbookDelta: one market's rows; the constraints on topic, offset and timestamp columns and the saved offset are left out.
- OrderBook.BookFollowsStream: assumes increasing sequences and distinct prices per side; `BookFollowsMaxima` is without the first, `FirstPositiveStands` without the second.
- Candles.Repository.RecordTradeAndCandles: without the unique (topic, partition, offset) and the saved offset.
- Candles.ArrivalOrderDoesNotMatter: assumes that (market, sequence) and the fill id each name one trade.
- Hub.Hub.Register: ids are unbounded, so the counter does not wrap; recipients are the set of sessions that refuse.
- DedupeKeys.RenderIsInjective: requires that reservation ids and kinds hold no colon, as drawn ids and the kinds of engine events do; reasons, references and idempotency keys are arbitrary.
- Users, markets and foreign keys, fill-link tables, position ids, close reasons, the engine event log, projector offsets.
- HTTP handlers, authentication, sessions and heartbeats, settings, metrics, routing matches, reply correlation: no hard property.
