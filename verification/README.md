# A verified model of the remittance service

A Dafny 4.11 model of the money-moving and message-moving core of the service, with its promises proved for
every input, every run or every interleaving. `dafny verify dfyconfig.toml` checks everything.

Amounts are integers of minor units, rates are exact reals, `Math.round` is `floor(x + 1/2)`. Objects that the
program updates in place are classes with the same fields, and each of their methods is proved against a
function; what concurrent callers can do to each other is a state machine over those same functions, one step
per statement, command or await.

## The five parts

**Idempotency** (`IdempotencyStore`, `IdempotencyProtocol`, `RedisProtocol`, `IdempotentRemittance`,
`DoublePayment`, `CrossedKeys`). One contract, `Apply`, four atomic operations. The in-memory and Postgres stores
are proved to implement it; the Redis store, which the service is wired to, implements it on what has not expired.
The decorator is a protocol: any number of calls, on any keys, interleaved at every await, each able to stop for
good at any step. Three failures are kept apart because they leave different things behind: a commit that is
reported as an error, a save that is lost, and a save that takes effect but is reported as an error. Over a store
that does not expire a key commits at most once more than the first two happen (together: *slips*), and one lost
save does commit twice. Over Redis, with a clock that may advance between any two steps, two more counts enter:
*lapses*, claims, lookups and releases that find the key's value expired, and *strays*, releases that remove
another call's marker when their own response is already stored. In every run commits are at most 1 + slips +
lapses + strays, and without lapses there are no strays. A step is a step of the store that does not expire exactly
when it sees no expiry. `ExpiredClaimCommitsTwice` reaches the bound without a slip: commit, crash, thirty seconds,
retry. The remittance use case runs behind it with calls, database transactions and time interleaved. The store is
shared: the wallet, account and KYC endpoints and the event consumer use the same Redis keys, and a key carries no
trace of its endpoint. So the machine holds calls of every endpoint, and the bound is on all commits of a key: one
with neither slip nor lapse has at most one remittance, and none if another endpoint committed with it.
`RetryPaysAgainIff` is a run for every delay: the retry of a call that crashed between commit and save pays again
exactly when it comes thirty seconds or more after the first call's claim. What a call returns is a remittance's
output exactly when a remittance call saved it (`ReturnsARemittanceIff`, `LookupReturnsARemittanceIff`), so always
for a key that only remittance calls use. Otherwise it need not be: in `WalletAnswersARemittance` a key has opened
a wallet, and a remittance sent with it is answered with that wallet, as a success, and nothing is remitted.

**Events** (`Outbox`, `AccountEvents`, `AccountCreatedConsumer`). Outbox row, relay, work queue, retry queue,
dead-letter queue, any number of consumers, their claims in Redis, and time. No committed sign-up is lost, whatever
is sent twice, fails or crashes, unless a delivery is turned away by the marker of a consumer that has stopped:
such a delivery is acknowledged and skipped, and `StepLosesIff` says that nothing else loses an event; where no
consumer stops inside a delivery nothing is lost at all (`NoEventIsLostWithoutStops`). A copy that comes back after
its consumer stopped inside a claim is attempted exactly when its own claim comes thirty seconds or more after that
one, and dropped before. This is the limitation that docs/resilience.md, lines 203-206, names for in-flight
duplicates; the expiry clears the abandoned claim, and it does not bring a dropped copy back.

**Settlement** (`Money`, `Ledger`, `Settlement`, `SettlementEffects`, `SettlementRuns`, `SettlementAnomalies`,
`UnitOfWork`). A rejected send writes nothing, an accepted one writes exactly its plan, every plan balances.
Balances agree with the ledger over every run of openings and of sends between customers. The code does not check
that the wallets of a send are different; when they are not, the last save wins and `SendKeepsAgreementIff` gives
the exact condition: a wallet that pays itself ends up with amount plus fee too much, and `PayingOneselfDrifts`
runs it. As concurrent transactions, lost updates break that agreement exactly when something read has changed by
the commit, which `OverlappingPaymentsDrift` runs, while the double-entry rule, non-negative balances and the match
of remittances with events survive everything.

**Wallet concurrency** (`WalletConcurrency`). Guarded updates, version check, row lock and isolation levels: each
step refines one atomic `balance += delta`, except under READ COMMITTED, where an update is lost.

**Seed pipeline** (`SeedRng`, `SeedFunding`, `SeedRemittances`, `SeedDataset`). The generators share and update
wallet objects. For every seed and every configuration each balance is its start plus what the rows record and
every group of rows nets to zero; a configuration whose weights, currencies and pool provide for every draw never
throws. Three promises hold under conditions that the program does not check. No customer's balance becomes
negative if the exchange-rate jitter is at most one; beyond one some draw makes a rate negative
(`RatesStayPositiveIff`), and a payment at such a rate gives its destination nothing (`NegativeRateTakes`) or takes
from it (`LargeJitterTakes`). Funding
stays within 60% of a treasury for everything that sampling can give exactly when the tiers that can be drawn are
one-sided, that is, none can ask for less than nothing or none for more (`FundingFitsAlwaysIff`). The shipped
jitter is 0.005, and all shipped tiers are positive. And docs/seed.md, line 60, says that completed rows replay the
use case, but a row that was scaled down to the treasury's cap keeps the fee of the amount before: it is charged
its own fee exactly when it was not scaled or both amounts round to the same fee, and never less than its own
(`CappedFee`).

## Model

| member | source | states |
|---|---|---|
| IdempotencyStore.Apply | src/application/repositories/idempotency-repository.ts:11-24 | an operation on one key leaves every other key as it was |
| IdempotencyStore.SavedResponsesSurvive | src/application/repositories/idempotency-repository.ts:11-24 | a saved response survives every claim, lookup and release, of any key |
| IdempotencyStore.InMemoryIdempotencyRepository.Claim | src/infra/persistence/in-memory/in-memory-idempotency-repository.ts:8-12 | is the contract's claim: succeeds exactly on a free key, and then marks it in flight |
| IdempotencyStore.InMemoryIdempotencyRepository.Save | src/infra/persistence/in-memory/in-memory-idempotency-repository.ts:14-16 | is the contract's save: overwrites whatever the key held |
| IdempotencyStore.InMemoryIdempotencyRepository.FindByKey | src/infra/persistence/in-memory/in-memory-idempotency-repository.ts:18-21 | returns the saved response, and nothing for a free key or one in flight |
| IdempotencyStore.InMemoryIdempotencyRepository.Release | src/infra/persistence/in-memory/in-memory-idempotency-repository.ts:23-28 | is the contract's release: frees a key only while it is in flight |
| IdempotencyStore.PostgresIdempotencyRepository.Claim | src/infra/persistence/postgresql/postgres-idempotency-repository.ts:35-41 | the conflict-ignoring insert is the contract's claim, its row count the answer |
| IdempotencyStore.PostgresIdempotencyRepository.Save | src/infra/persistence/postgresql/postgres-idempotency-repository.ts:47-62 | the upsert is the contract's save; JSON null is a stored response, not SQL NULL |
| IdempotencyStore.PostgresIdempotencyRepository.FindByKey | src/infra/persistence/postgresql/postgres-idempotency-repository.ts:19-30 | no row and a NULL response both read as nothing |
| IdempotencyStore.PostgresIdempotencyRepository.Release | src/infra/persistence/postgresql/postgres-idempotency-repository.ts:68-73 | deletes a row only while its response is NULL |
| RedisIdempotency.RedisIdempotencyRepository.Claim | src/infra/persistence/redis/redis-idempotency-repository.ts:51-57 | SET NX EX: succeeds exactly when no live value is there, and marks the key for thirty seconds |
| RedisIdempotency.RedisIdempotencyRepository.Save | src/infra/persistence/redis/redis-idempotency-repository.ts:63-67 | overwrites unconditionally and starts a day's life |
| RedisIdempotency.RedisIdempotencyRepository.FindByKey | src/infra/persistence/redis/redis-idempotency-repository.ts:73-77 | returns a live response, and nothing for an absent, expired or marked key |
| RedisIdempotency.RedisIdempotencyRepository.Release | src/infra/persistence/redis/redis-idempotency-repository.ts:79-84 | one atomic check and delete; never removes a live response |
| RedisIdempotency.CommandsAreContractSteps | src/infra/persistence/redis/redis-idempotency-repository.ts:51-84 | on what is visible at that moment every command is the contract's operation, in effect and in answer |
| RedisIdempotency.ExpiryIsInvisibleIff | src/infra/persistence/redis/redis-idempotency-repository.ts:16-84 | a command cannot be told from one on a store that never expires anything exactly when it comes in time, or is a save, or releases a marker |
| IdempotencyProtocol.AtMostOneCommitPerKey | src/application/shared/idempotency/idempotent-decorator.ts:11-63 | in every state of every run at most one call per key is between claim and save or release, the use case commits at most once more than slips happen, and without slips every returned value is the one commit's response |
| IdempotencyProtocol.LostSaveCommitsTwice | src/application/shared/idempotency/idempotent-decorator.ts:42-61 | the bound is tight: one lost save, and a retry commits the key a second time |
| IdempotencyProtocol.StoredResponseIsFinal | src/application/shared/idempotency/idempotent-decorator.ts:11-63 | once a response is stored no later step of any call changes or removes it |
| IdempotencyProtocol.StoredResponseIsReplayed | src/application/shared/idempotency/idempotent-decorator.ts:35-39 | a later lookup returns it when it is truthy, and reports the key as in flight when it is not |
| IdempotencyProtocol.AbandonedClaimFailsClosed | src/application/shared/idempotency/idempotent-decorator.ts:51-62 | on a store that does not expire: after a crash that leaves a claim behind the key stays claimed and never commits again |
| IdempotencyProtocol.InvPreserved | src/application/shared/idempotency/idempotent-decorator.ts:11-63 | every step of every call keeps the invariant: exclusion, holders in the store, commits counted exactly, no value invented |
| IdempotencyProtocol.AloneIsARun | src/application/shared/idempotency/idempotent-decorator.ts:11-63 | one call that nothing interrupts is a run of the protocol, from every reachable state, with the store and the outcome Alone gives |
| IdempotencyProtocol.IdempotentDecorator.Execute | src/application/shared/idempotency/idempotent-decorator.ts:11-63 | claim, replay or fail closed, run, save, release on error: the store and the outcome are Alone's |
| RedisProtocol.TimedStepRefinesIff | src/infra/persistence/redis/redis-idempotency-repository.ts:16-84 | a step over Redis is the same step over the store that does not expire exactly when it sees no expiry, and time passing is no step |
| RedisProtocol.UnseenRunRefines | src/infra/persistence/redis/redis-idempotency-repository.ts:16-84 | every run whose steps see no expiry ends in a state that the reference protocol reaches |
| RedisProtocol.AtMostOneCommitOverRedis | src/application/shared/idempotency/idempotent-decorator.ts:11-63 | in a run that sees no expiry: exclusion, the bound on commits, and without slips every returned value is the one commit's response |
| RedisProtocol.CommitsBoundedInEveryRun | src/application/shared/idempotency/idempotent-decorator.ts:11-63 | in every run, however late: a key's commits are at most 1 + slips + lapses + strays, strays need a lapse, every returned value was committed, and with neither slip nor lapse it is the one commit's response |
| RedisProtocol.TimedInvPreserved | src/infra/persistence/redis/redis-idempotency-repository.ts:16-84 | every step, time included, keeps: commits paid for, every marker owned by a call that may still act or has crashed, strays only after lapses, no value invented |
| RedisProtocol.AbandonedClaimIsRetakenIff | src/infra/persistence/redis/redis-idempotency-repository.ts:16-43 | the next claim after a crash inside a claim succeeds exactly from thirty seconds after that claim, and reads in flight before |
| RedisProtocol.AbandonedClaimHoldsUntilExpiry | src/infra/persistence/redis/redis-idempotency-repository.ts:16-43 | until then the marker stays and the key commits nothing, whatever other calls do |
| RedisProtocol.ExpiredClaimCommitsTwice | src/application/shared/idempotency/idempotent-decorator.ts:42-61 | the bound is tight without slips: a commit, a crash before the save, thirty seconds, and a retry commits the key again |
| RedisProtocol.LateReleaseFreesAnotherClaim | src/infra/persistence/redis/redis-idempotency-repository.ts:38-43 | after thirty seconds a second call claims, and the first one's release frees that claim for a third: two calls execute at once |
| IdempotentRemittance.AtMostOneRemittancePerKey | src/infra/factories/remittance-factory.ts:40-62 | over the shared Redis store, with calls of every endpoint, transactions and time interleaved: a key's calls commit at most 1 + slips + lapses + strays times together; every remittance is the commit of a remittance call; with neither slip nor lapse no two remittances are of one key, and none is of a key with which another endpoint committed |
| IdempotentRemittance.ReturnsARemittanceIff | src/infra/persistence/redis/redis-registry.ts:12-14 | whatever a call returned was saved by a committed call of the same key; it is the output of a remittance of that key exactly when that was a remittance call, so always if no other endpoint used the key |
| IdempotentRemittance.LookupReturnsARemittanceIff | src/application/shared/idempotency/idempotent-decorator.ts:35-39 | a lookup returns a remittance's output exactly when the key has a response that has not expired and a remittance call was the last to save one |
| IdempotentRemittance.InvPreserved | src/infra/factories/remittance-factory.ts:40-62 | every step keeps the invariants of protocol and database, the match of a key's recorded commits with its committed calls, and the source of every saved, stored and returned response |
| DoublePayment.RetryPaysAgainIff | src/infra/factories/remittance-factory.ts:40-62 | for every delay, a run of the whole service without slips: a call pays and crashes before its save, the retry comes after the delay; it pays again, with two remittances and twice amount and fee, exactly from thirty seconds on, and is told that the key is in flight before |
| CrossedKeys.WalletAnswersARemittance | src/infra/factories/wallet-factory.ts:9-18 | a run without slips or lapses: a key opens a wallet, and a remittance call with that key returns the wallet's output while nothing is remitted |
| AccountEvents.NoEventIsLost | src/infra/events/consumers/account-created-consumer.ts:79-216 | in every state of every run, over Redis and a clock, a committed event is unpublished, queued, delayed, dead-lettered, held by a delivery that acts on it, or processed, unless a copy of it was turned away by the live marker of a stopped consumer |
| AccountEvents.NoEventIsLostWithoutStops | src/infra/events/consumers/account-created-consumer.ts:79-216 | as long as no consumer has stopped inside a delivery, no committed event at all is lost |
| AccountEvents.StepLosesIff | src/infra/events/consumers/account-created-consumer.ts:94-123 | a step loses an event exactly when it turns away its last copy because of a stopped consumer's live marker and the event was never processed |
| AccountEvents.MarkersBelongToDeliveries | src/infra/events/consumers/account-created-consumer.ts:94-150 | in every reachable state a marker was written by a delivery that is being handled and will act on its event, or by one whose consumer stopped |
| AccountEvents.InvPreserved | src/infra/events/consumers/account-created-consumer.ts:79-191 | every step keeps: the claims are a run of the protocol over Redis, held copies and running calls match one to one, nothing committed is lost, headers count failed attempts |
| AccountEvents.CommittedStaysKnown | src/application/account/uses-cases/create-account-use-case.ts:52-105 | every step keeps: a committed sign-up has an unpublished row or was sent |
| AccountEvents.ProcessingIsBounded | src/infra/events/consumers/account-created-consumer.ts:129-150 | over all copies of an event the side effect succeeds at most 1 + slips + lapses + strays times, and at most 1 + slips times when nothing was found expired |
| AccountEvents.AttemptsAreBounded | src/infra/events/consumers/account-created-consumer.ts:152-191 | a copy is attempted at most maxRetries + 1 times plus once per redelivery; it is dead-lettered exactly with header maxRetries + 1; without redeliveries a queued copy is in the dead-letter queue exactly when it has been attempted maxRetries + 1 times |
| AccountEvents.RedeliveryIsAttemptedIff | src/infra/events/consumers/account-created-consumer.ts:111-123 | a copy redelivered after its consumer stopped inside a claim is attempted exactly when its own claim comes thirty seconds or more after that one, and dropped otherwise |
| AccountEvents.StoppingInsideAClaimLosesTheEventIff | src/infra/events/consumers/account-created-consumer.ts:111-123 | for every delay, a run with one such stop and a redelivery after that delay: the only copy ends acknowledged, and the event was processed exactly when the delay was at least thirty seconds |
| AccountEvents.ProgressDecreases | src/infra/events/consumers/account-created-consumer.ts:79-191 | every step but a new copy or a crash lowers a measure over all copies |
| AccountEvents.BusyIsZeroIffAtRest | src/infra/events/consumers/account-created-consumer.ts:152-191 | the measure is zero exactly when every copy is acknowledged or dead-lettered |
| AccountEvents.SomeStepUntilDrained | src/infra/events/consumers/account-created-consumer.ts:79-191 | while it is positive, and only then, there is a step to take |
| AccountEvents.QueuesDrain | src/infra/config/message-broker/rabbitmq-retry-topology.ts:45-62 | so a finite set of copies drains within as many steps as the measure says, in any order |
| AccountCreatedConsumer.HandlingIsARun | src/infra/events/consumers/account-created-consumer.ts:79-191 | handling one queued message without interruption is a run of the pipeline, on what is visible in Redis, and the copy ends acknowledged, delayed or dead-lettered as the outcome says |
| AccountCreatedConsumer.BackoffIsBoundedAndGrows | src/infra/resilience/backoff.ts:19-27 | jitter only lengthens a delay, never past the ceiling, and for the same draw a later attempt waits at least as long |
| AccountCreatedConsumer.Consumer.HandleMessage | src/infra/events/consumers/account-created-consumer.ts:79-127 | the claims it leaves and the commands it issues, for messages with and without an id and every outcome of processing and saving |
| AccountCreatedConsumer.Consumer.ProcessAndAck | src/infra/events/consumers/account-created-consumer.ts:129-150 | acknowledged after success and save; otherwise the claim is released and the failure handled |
| AccountCreatedConsumer.Consumer.HandleFailure | src/infra/events/consumers/account-created-consumer.ts:152-191 | republishes with the header raised by one, to the dead-letter queue exactly beyond maxRetries, then acknowledges |
| Outbox.InMemoryOutboxRepository.Add | src/infra/persistence/in-memory/in-memory-outbox-repository.ts:18-30 | appends one row with a fresh id |
| Outbox.InMemoryOutboxRepository.FindUnpublished | src/infra/persistence/in-memory/in-memory-outbox-repository.ts:32-39 | the oldest unpublished rows of one broker, up to the limit, in order |
| Outbox.InMemoryOutboxRepository.MarkPublished | src/infra/persistence/in-memory/in-memory-outbox-repository.ts:41-43 | marks that row and nothing else |
| Outbox.OutboxRelay.RelayOnce | src/infra/events/consumers/rabbitmq-outbox-relay.ts:28-64 | one poll: of the oldest fifty pending rows those whose send works are sent, in order, and those whose mark works too are marked; ids being distinct, exactly the unmarked rows of the batch and everything behind it are pending afterwards |
| Outbox.OutboxRelay.RelayEach | src/infra/events/consumers/kafka-outbox-relay.ts:35-57 | the loop over a batch: a failing row is left for later and does not stop the rest |
| Outbox.PollTouchesOwnRowsOnly | src/infra/events/consumers/kafka-outbox-relay.ts:29-58 | a poll sends only unpublished rows of its own broker and marks only rows it has sent |
| Outbox.PendingAfterPoll | src/infra/events/consumers/rabbitmq-outbox-relay.ts:28-64 | afterwards exactly the unmarked rows of the batch and everything behind the batch are pending, in order |
| Outbox.FailingBatchBlocksTheRest | src/infra/events/consumers/rabbitmq-outbox-relay.ts:28-64 | while a whole batch keeps failing no row behind it is ever sent |
| Outbox.BacklogDrains | src/infra/events/consumers/rabbitmq-outbox-relay.ts:28-64 | without new rows or failures n polls send the oldest 50n pending rows once each, in creation order; nothing is pending exactly when there were at most 50n |
| Outbox.EveryRowIsPendingOrSent | src/infra/persistence/postgresql/postgres-outbox-repository.ts:34-68 | under any mix of commits and polls, with rows committing in another order than they were created and any failures, a row is pending for its own relay or was sent, and a published row was sent |
| Money.FromMinorUnits | src/domain/shared/value-objects/money-value-object.ts:17-25 | accepts exactly the non-negative integers |
| Money.Fee | src/infra/pricing/flat-percentage-fee-calculator.ts:4-9 | the fee is within half a unit of 0.5% of the amount, and between nothing and the amount |
| Money.FeeOfSplit | src/infra/pricing/flat-percentage-fee-calculator.ts:4-9 | splitting a payment changes the total fee by at most one minor unit |
| Money.Wallet.Credit | src/domain/wallet/entities/wallet.ts:44-54 | fails exactly on another currency; otherwise only the balance changes, by the amount |
| Money.Wallet.Debit | src/domain/wallet/entities/wallet.ts:56-69 | succeeds exactly when the currency matches and the balance suffices, never leaves a negative balance, and changes nothing but the balance, by the amount |
| Conversion.Convert | src/domain/exchange/value-objects/exchange-rate-value-object.ts:37-56 | for a positive rate fails exactly on another currency; the result is in the quote currency, not negative, and within half a unit of the exact value |
| Conversion.ConvertMonotoneAndClose | src/domain/exchange/value-objects/exchange-rate-value-object.ts:37-56 | for any exponents conversion is monotone and within half a minor unit of the exact value |
| Conversion.RoundTrip | src/domain/exchange/value-objects/exchange-rate-value-object.ts:37-56 | there and back at r and 1/r is exact for r of at least 1 and off by at most 1/(2r) + 1/2 otherwise |
| Conversion.CrossRatesCompose | src/infra/exchange/fx-rates-table.ts:14-19 | for any positive table the rate through a third currency is the direct rate, and there and back is one |
| Ledger.BalancedIffNetsZero | src/domain/ledger/services/ledger-service.ts:51-67 | debits equal credits in every currency exactly when every accumulated net is zero |
| Ledger.BalanceIgnoresOrder | src/domain/ledger/services/ledger-service.ts:51-67 | the rule does not depend on the order of the legs |
| Ledger.BalanceOfConcatenation | src/domain/ledger/services/ledger-service.ts:51-67 | adding legs to a balanced list keeps it balanced exactly when the added ones balance |
| Ledger.LedgerService.AssertBalancedPerCurrency | src/domain/ledger/services/ledger-service.ts:51-67 | the map-accumulating loop accepts exactly the balanced lists, and names a currency and its true imbalance otherwise |
| Ledger.LedgerService.PostBalancedEntries | src/domain/ledger/services/ledger-service.ts:30-49 | posts every leg under the transaction id, or nothing, exactly by whether they balance |
| Ledger.PostingKeepsDoubleEntry | src/domain/ledger/services/ledger-service.ts:30-67 | a balanced posting keeps every currency at zero over the whole ledger and inside every transaction |
| LedgerRows.AssertBalancedPerCurrency | src/infra/seed/generators/ledger-math.ts:19-34 | the row-level loop accepts exactly the balanced lists |
| LedgerRows.CopyAgreesWithLedgerService | src/infra/seed/generators/ledger-math.ts:19-34 | the seed's copy of the rule accepts exactly what the ledger service accepts |
| Settlement.InMemoryWalletRepository.Save | src/infra/persistence/in-memory/in-memory-wallet-repository.ts:13-20 | overwrites the wallet with that id in its place, or appends it |
| Settlement.Find | src/infra/persistence/in-memory/in-memory-wallet-repository.ts:26-35 | a wallet of that account and currency, and none only if there is none |
| Settlement.SendRemittanceUseCase.Execute | src/application/remittance/uses-cases/send-remittance-use-case.ts:53-246 | a rejected send, for any reason, leaves wallets, ledger, remittances and outbox as they were, with no transaction around it; an accepted one writes exactly its plan |
| Settlement.SendRemittanceUseCase.Persist | src/application/remittance/uses-cases/send-remittance-use-case.ts:189-243 | ledger, wallets in order, remittance and outbox row: the state Write gives |
| Settlement.QuotesBalance | src/application/remittance/uses-cases/send-remittance-use-case.ts:113-189 | for every amount, fee and rate, in both leg layouts, the posting balances: the unbalanced-ledger and currency-mismatch errors are unreachable |
| SettlementEffects.QuotePlans | src/application/remittance/uses-cases/send-remittance-use-case.ts:53-187 | what an accepted send takes from and adds to the four wallets it read, and whose wallets they are |
| SettlementEffects.LegsHaveTheEffect | src/application/remittance/uses-cases/send-remittance-use-case.ts:113-187 | per wallet the legs' credits minus debits are minus amount and fee for the source, the converted amount for the destination, and the treasuries' counterpart |
| SettlementEffects.SavesAreLastWriteWins | src/application/remittance/uses-cases/send-remittance-use-case.ts:191-196 | after the saves each wallet has the balance of the last save of it, and no other wallet changed |
| SettlementEffects.DriftIsStaleness | src/application/remittance/uses-cases/send-remittance-use-case.ts:191-196 | with different wallets a write is off from the ledger by exactly how stale each balance it read is |
| SettlementEffects.DriftIsOverwriting | src/application/remittance/uses-cases/send-remittance-use-case.ts:191-196 | with current balances it is off by exactly what the last save of a shared wallet forgets, amount plus fee when a wallet pays itself |
| SettlementEffects.SendKeepsAgreementIff | src/application/remittance/uses-cases/send-remittance-use-case.ts:53-196 | a send keeps balances and ledger in agreement exactly when its wallets are different or the coinciding ones have nothing to forget |
| SettlementAnomalies.PayingOneselfDrifts | src/application/remittance/uses-cases/send-remittance-use-case.ts:53-196 | a run: two openings, the treasury and a payment to oneself, for any amount that is covered; the wallet ends with amount plus fee more than the ledger says |
| SettlementRuns.OpenWalletUseCase.Execute | src/application/wallet/uses-cases/open-wallet-use-case.ts:20-40 | opens the wallet with the initial balance, or changes nothing when the currency is unknown, the wallet exists or the amount is invalid |
| SettlementRuns.EveryRunIsSound | src/application/remittance/uses-cases/send-remittance-use-case.ts:53-246 | after any sequence of openings and sends: no negative balance, one wallet per account and currency, a zero-sum ledger, one event per remittance with its amounts |
| SettlementRuns.SavesConserve | src/application/remittance/uses-cases/send-remittance-use-case.ts:113-196 | what a send with different wallets writes leaves every currency's total unchanged |
| SettlementRuns.BalancesMatchLedger | src/application/remittance/uses-cases/send-remittance-use-case.ts:53-196 | over every run of openings and sends between customers each balance is its opening plus ledger credits minus debits, and each currency sums to its openings |
| SettlementRuns.BalancesStayExact | src/domain/wallet/entities/wallet.ts:44-69 | so a currency opened with at most 2^53 - 1 minor units never holds a larger balance |
| ConcurrentSettlement.SurvivesLostUpdates | src/infra/persistence/postgresql/postgres-unit-of-work.ts:10-23 | in every interleaving of transactions, with reads of the latest commit and later writes overwriting: zero-sum ledger globally and per transaction, no negative balance, and committed transactions, remittances and events one to one with the same amounts |
| ConcurrentSettlement.CommitKeepsAgreementIff | src/application/remittance/uses-cases/send-remittance-use-case.ts:59-196 | a commit between customers keeps balances and ledger in agreement exactly when nothing it writes changed since it was read |
| SettlementAnomalies.OverlappingPaymentsDrift | src/infra/persistence/postgresql/postgres-unit-of-work.ts:10-23 | a reachable interleaving of two payments from one wallet after which it lacks one debit that the ledger has |
| UnitOfWork.PostgresUnitOfWork.RunInTransaction | src/infra/persistence/postgresql/postgres-unit-of-work.ts:10-23 | whichever write or the commit fails, the database is as before; if none does, the whole send is there |
| UnitOfWork.CompleteIffAllOrNothing | src/application/remittance/uses-cases/send-remittance-use-case.ts:189-243 | without the rollback, a send stopped anywhere strictly between leaves a ledger transaction without remittance or a remittance without event, and only there |
| UnitOfWork.EveryRunIsComplete | src/application/remittance/uses-cases/send-remittance-use-case.ts:189-243 | after any run of whole sends every ledger transaction has its remittance and every remittance its event |
| WalletStatements.WalletRepository.SetBalance | src/infra/persistence/postgresql/concurrency-lab/wallet-lock-repository.ts:47-56 | writes the balance and leaves the version; a negative balance is refused by the table's check |
| WalletStatements.WalletRepository.DebitAtomic | src/infra/persistence/postgresql/concurrency-lab/wallet-lock-repository.ts:68-80 | takes the amount exactly when the current balance covers it |
| WalletStatements.WalletRepository.CreditAtomic | src/infra/persistence/postgresql/concurrency-lab/wallet-lock-repository.ts:82-92 | adds to the current balance |
| WalletStatements.WalletRepository.UpdateBalanceOptimistic | src/infra/persistence/postgresql/concurrency-lab/wallet-optimistic-repository.ts:32-45 | writes balance and next version exactly when the version is the expected one |
| WalletStatements.BalanceIsStartPlusApplied | src/infra/persistence/postgresql/concurrency-lab/wallet-lock-repository.ts:68-92 | after any debits and credits in any order a balance is not negative and is the start plus what was applied |
| WalletStatements.EqualDebits | src/infra/persistence/postgresql/concurrency-lab/wallet-lock-repository.ts:68-80 | N debits of d on balance B succeed exactly min(N, B/d) times |
| WalletStatements.UnversionedWriteIsOverwritten | src/infra/persistence/postgresql/concurrency-lab/wallet-lock-repository.ts:47-56 | a plain write between a versioned read and write is lost without a conflict |
| ReadModifyWrite.CommitIsAtomicAddIff | src/infra/persistence/postgresql/concurrency-lab/isolation.ts:5-42 | under any discipline the step that takes effect adds its delta atomically exactly when the balance its client read is still current; every other step changes nothing visible |
| ReadModifyWrite.SafeDisciplinesRefineAtomicAdd | src/infra/persistence/postgresql/concurrency-lab/isolation.ts:5-42 | with a version check, a row lock, or a snapshot that aborts on a concurrent write, every step refines one atomic addition |
| ReadModifyWrite.NoLostUpdate | src/infra/persistence/postgresql/concurrency-lab/wallet-lock-repository.ts:35-56 | over every run of any number of clients the balance is the start plus every committed delta, and a versioned row's version the start plus the successes |
| ReadModifyWrite.ConflictMeansAnotherSucceeded | src/infra/persistence/postgresql/concurrency-lab/wallet-optimistic-repository.ts:13-45 | a version conflict means that another client committed since the read |
| ReadModifyWrite.ReadCommittedLosesAnUpdate | src/infra/persistence/postgresql/concurrency-lab/isolation.ts:11-14 | a run at READ COMMITTED in which both transactions commit and the first one's delta is gone |
| SeedRng.StateAfterOneMore | src/infra/seed/rng/deterministic-rng.ts:15-28 | the state after n draws is seed + n times the increment modulo 2^32 |
| SeedRng.StatesDoNotRepeat | src/infra/seed/rng/deterministic-rng.ts:22-28 | it does not repeat within 2^32 draws, for any seed |
| SeedRng.FirstOutputOfSeed42 | src/infra/seed/rng/deterministic-rng.ts:22-28 | one known output word of the scrambling |
| SeedRng.Draw | src/infra/seed/rng/deterministic-rng.ts:22-28 | a draw is at least 0 and less than 1 |
| SeedRng.IntFrom | src/infra/seed/rng/deterministic-rng.ts:31-33 | an integer draw is its bound plus the floor of the scaled draw, and lies between the bounds, both included |
| SeedRng.FloatFrom | src/infra/seed/rng/deterministic-rng.ts:36-38 | a float draw lies between its bounds, the upper one excluded |
| SeedRng.DeterministicRng.WeightedPick | src/infra/seed/rng/deterministic-rng.ts:58-70 | returns the entry whose cumulative interval holds the roll, and throws exactly when the weights do not sum to more than zero |
| SeedRng.DrawableIff | src/infra/seed/rng/deterministic-rng.ts:58-70 | without negative weights exactly the entries of positive weight can be drawn, and the first one |
| SeedRng.DeterministicRng.FirstReaching | src/infra/seed/rng/deterministic-rng.ts:63-69 | the loop always ends at such an entry: its fallback is unreachable for any weights |
| SeedRng.DeterministicRng.Shuffle | src/infra/seed/rng/deterministic-rng.ts:73-80 | the in-place swaps on a copy give the function Shuffled |
| SeedRng.ShuffleIsPermutation | src/infra/seed/rng/deterministic-rng.ts:73-80 | which loses nothing and repeats nothing |
| SeedBook.PostingAddsLegs | src/infra/seed/generators/remittance-generator.ts:411-427 | posting legs as rows changes each wallet's net by the legs' net and keeps every group at zero when the legs balance |
| SeedFunding.SharesFitBudget | src/infra/seed/generators/funding-generator.ts:55-66 | for any number of wallets and any non-negative requests the scaled, floored shares of a currency add up to no more than 60% of its treasury |
| SeedFunding.SharesFitIff | src/infra/seed/generators/funding-generator.ts:55-66 | requests of either sign stay within the budget exactly when, unscaled, the positive ones do, or, scaled, rounding down leaves over at least what the negative ones took off the total |
| SeedFunding.FundingFitsAlwaysIff | src/infra/seed/generators/funding-generator.ts:46-110 | everything that sampling can give fits, on every treasury, exactly when no tier that can be drawn can ask for less than nothing or none can ask for more |
| SeedFunding.NegativeRequestsOverspend | src/infra/seed/generators/funding-generator.ts:55-66 | whatever the two signs ask for, one positive request and enough copies of a negative one overspend |
| SeedFunding.GroupByCurrency | src/infra/seed/generators/funding-generator.ts:112-124 | the currencies are in order of first appearance, and each one's group is its wallets, as often and in the order they are listed |
| SeedFunding.PostTransfer | src/infra/seed/generators/funding-generator.ts:63-100 | both balances move by the amount, and exactly the two rows of that transfer are added |
| SeedFunding.PostShares | src/infra/seed/generators/funding-generator.ts:63-100 | each wallet gets its own scaled and floored request, the treasury pays their sum, and no other wallet is touched |
| SeedFunding.FundCurrency | src/infra/seed/generators/funding-generator.ts:46-100 | one currency, any configuration: balances move as rows record and customers only gain; with one-sided tiers the treasury spends at most its budget; no other wallet is touched; it throws exactly when there is a wallet to fund and the tiers have no positive weight |
| SeedFunding.GenerateFunding | src/infra/seed/generators/funding-generator.ts:37-103 | all currencies: the same, each treasury within its own budget and none overdrawn if the tiers are one-sided; it throws exactly when a wallet's currency has no treasury or there is a wallet and the tiers have no positive weight |
| SeedRemittances.FeeIsAlwaysCovered | src/infra/seed/generators/remittance-generator.ts:149-159 | the defensive exit for an uncovered fee is unreachable |
| SeedRemittances.RescaledConversionFits | src/infra/seed/generators/remittance-generator.ts:206-213 | after the rescale the rounded conversion never exceeds the cap, for every non-negative rate and any exponents |
| SeedRemittances.Cap | src/infra/seed/generators/remittance-generator.ts:200-213 | for every rate and treasury an amount that fits is kept; otherwise the scaled one is at least the minimum and converts to within the cap; the fee is kept; at a rate that is not negative nothing is taken that the treasury does not have |
| SeedRemittances.FeeIsQuotient | src/infra/pricing/flat-percentage-fee-calculator.ts:4-9 | the fee rises by one exactly every two hundred units, from half way |
| SeedRemittances.CappedFee | src/infra/seed/generators/remittance-generator.ts:200-213 | a completed remittance is charged its own fee exactly when its conversion fits or the scaled amount rounds to the same fee; never less; always more once scaling takes two hundred units away |
| SeedRemittances.FeeIsNotRecomputed | src/infra/seed/generators/remittance-generator.ts:206-213 | a million from dollars to euros at the quoted 0.92, scaled to a treasury of 100 000: 97 826 is sent and 5 000 charged where half a percent would be 489 |
| SeedRemittances.RatesStayPositiveIff | src/infra/seed/generators/remittance-generator.ts:199-204 | every draw keeps the jittered rate from going negative exactly when the jitter is at most one |
| SeedRemittances.NegativeRateTakes | src/infra/seed/generators/remittance-generator.ts:199-213 | at a negative rate a payment goes ahead whatever the treasury has, and its converted amount is not positive |
| SeedRemittances.LargeJitterTakes | src/infra/seed/generators/remittance-generator.ts:199-213 | with a jitter of two a payment of 1 000 from dollars to euros can take 920 from its destination |
| SeedRemittances.LegsOfNets | src/infra/seed/generators/remittance-generator.ts:169-252 | both leg layouts balance, and what they do to each wallet, whichever coincide |
| SeedRemittances.Settle | src/infra/seed/generators/remittance-generator.ts:265-269 | the four balance updates do exactly what the legs record, and unless the conversion is negative no balance becomes negative |
| SeedRemittances.DecideCompleted | src/infra/seed/generators/remittance-generator.ts:149-213 | the drawn amount, the checks in their order, quote and cap are the decision Decide, and one to go ahead can be paid for |
| SeedRemittances.DecisionIsCovered | src/infra/seed/generators/remittance-generator.ts:149-213 | a decision to go ahead is covered by the source, is at most 35% of it and within the limit for unverified senders; with a small jitter it is covered by the destination treasury too; its fee is that of the amount asked for and at least its own |
| SeedRemittances.ThrowsIff | src/infra/seed/generators/remittance-generator.ts:149-200 | the program throws exactly when at least the minimum was asked for and one of the two currencies is unknown or has no treasury |
| SeedRemittances.Complete | src/infra/seed/generators/remittance-generator.ts:216-289 | carries a decision out: the row has its amounts, and every balance moves as the row's legs record |
| SeedRemittances.BuildRemittance | src/infra/seed/generators/remittance-generator.ts:126-138 | whatever the status: rows exactly for a completed one, and no throw when both currencies are known and have a treasury |
| SeedRemittances.BuildCompletedRemittance | src/infra/seed/generators/remittance-generator.ts:140-289 | a remittance with the decision's amounts exactly when the decision is to go ahead, its rows its legs, every balance moved as they record; skipped or thrown exactly when the decision is that, and then nothing changes |
| SeedRemittances.BuildSyntheticRemittance | src/infra/seed/generators/remittance-generator.ts:301-373 | a row without ledger rows, with an amount that justifies its status; no balance is touched; it throws exactly when a currency it needs is unknown |
| SeedRemittances.PickDestinationWallet | src/infra/seed/generators/remittance-generator.ts:375-387 | a wallet of the recipient in some weighted currency, or any if there is none in that currency; throws exactly when no currency has a positive weight |
| SeedRemittances.PickRecipient | src/infra/seed/generators/remittance-generator.ts:389-399 | a customer other than the sender, or none |
| SeedRemittances.ChooseTransfer | src/infra/seed/generators/remittance-generator.ts:89-111 | the wallets belong to sender and recipient, who differ, and a verified sender is not rejected for compliance |
| SeedRemittances.GenerateRemittances | src/infra/seed/generators/remittance-generator.ts:60-124 | the ledger rows are the legs of the completed remittances, in order, and nothing else; balances move as they record and, with a small jitter, none becomes negative; it does not throw when weights are positive and every wallet's currency is known and has a treasury |
| SeedContention.TopUpCustomer | src/infra/seed/generators/contention-generator.ts:46-82 | top-ups move balances as their rows record, none beyond the target, and no balance becomes negative |
| SeedContention.PickDifferentCustomer | src/infra/seed/generators/contention-generator.ts:113-123 | a member of the pool other than the excluded one, or none |
| SeedContention.GenerateIntents | src/infra/seed/generators/contention-generator.ts:84-108 | every request is between two different members of the pool, in currencies they hold, for an amount in the configured range |
| SeedContention.BuildContentionPool | src/infra/seed/generators/contention-generator.ts:34-82 | the pool is the first configured customers, and its top-ups are real postings, none beyond the target, and overdraw no treasury |
| SeedWallets.PickDistinctWeighted | src/infra/seed/generators/wallet-generator.ts:54-71 | as many values as asked for and available; different ones when the entries' values are |
| SeedWallets.OpenWallets | src/infra/seed/generators/wallet-generator.ts:28-47 | a customer gets as many wallets as configured, within the available currencies, empty and in different ones |
| SeedWallets.GenerateWallets | src/infra/seed/generators/wallet-generator.ts:15-51 | throws exactly when no currency has a positive weight; every wallet is empty, of a listed customer, and at most one per account and currency |
| SeedDataset.GroupWalletsByAccountId | src/infra/seed/generate-dataset.ts:120-133 | each account's group is its wallets, as often and in the order they are listed, for exactly the accounts that have one |
| SeedDataset.CloneTreasury | src/infra/seed/generate-dataset.ts:57-59 | fresh copies with the snapshot's ids and balances |
| SeedDataset.ProvisionsSuffice | src/infra/seed/generate-dataset.ts:52-118 | a configuration whose draws all have a positive weight, whose active currencies are known and in the snapshot and whose pool has someone in it provides for every later step |
| SeedDataset.RunGenerators | src/infra/seed/generate-dataset.ts:60-118 | funding, remittances and contention in turn, for any configuration: the rows are the three parts in order, balances move as they record, and a provided-for run does not throw; with a small jitter no customer's balance becomes negative, with one-sided tiers no treasury's |
| SeedDataset.GenerateDataset | src/infra/seed/generate-dataset.ts:52-118 | the whole pipeline, for any seed and configuration: it produces a dataset whenever the configuration is well provisioned; customer balances are their ledger nets, treasury balances their start plus their nets, every (transaction, currency) group at zero, the rows are funding, the completed remittances' legs in order and top-ups, one wallet per account and currency, and the caller's snapshot untouched; with a small jitter no customer is negative, with one-sided tiers no treasury overdrawn |

## Left out

- GenerateDataset: requires distinct ids and currencies of the snapshot, which are the table's own keys. That balances stay non-negative is stated for a jitter of at most one, and for treasuries for one-sided tiers; RatesStayPositiveIff and FundingFitsAlwaysIff say what those conditions are for. That a well-provisioned configuration is also necessary is stated for the currency weights and the pool only: a missing treasury throws only if a draw picks that currency.
- FundingFitsAlwaysIff: about every real roll and draw; a generator state has 2^32 values, and two draws in a row depend on each other.
- BalancesMatchLedger: for sends between customers that are not to the paying wallet itself; for the others SendKeepsAgreementIff gives the exact condition and DriftIsOverwriting the exact discrepancy.
- AtMostOneCommitOverRedis: for runs in which no step sees an expiry; CommitsBoundedInEveryRun is the bound for all runs, and ExpiredClaimCommitsTwice and LateReleaseFreesAnotherClaim are runs that do see one.
- CommitsBoundedInEveryRun: a lapse counts lookups and releases too, which by themselves commit nothing; the bound is reached, and is not the exact number of commits.
- NoEventIsLost: not for an event one of whose copies was turned away by a stopped consumer's marker; StepLosesIff is the exact step and StoppingInsideAClaimLosesTheEventIff the run. The machine holds the consumer's claims; a client that sent an outbox row's id, a random UUID it is never told, as its idempotency key would interfere. Enqueuing is one step that the broker confirms; the program does not wait for publisher confirms.
- AtMostOneRemittancePerKey: what other endpoints' use cases do besides opening wallets is left out; their calls claim, commit, fail, save and return like any other, with responses that are not a remittance's.
- StatesDoNotRepeat: about the generator's state, not about its outputs, which scramble the state.
- GenerateIntents: bounds the amounts only when the configured range is not inverted, as the program's draw does.
- IEEE rounding: numbers are exact, so BalancesStayExact gives the range in which the program's doubles are too.
- Id randomness: ids are fresh, taken as positions or from a counter. Draws for timestamps and names, and timestamps themselves, are not modelled, so a seed's draws in the model come earlier in the sequence than the program's; every statement is for every seed.
- Customers, KYC profiles and idempotency demo rows of the seed: customers are an input, the others touch no balance. What the pipeline has changed when it throws is not described.
- User and account rows of a sign-up (src/application/account/uses-cases/create-account-use-case.ts:52-105): a sign-up is one step that adds an outbox row, as its transaction makes it.
- The Postgres outbox query's sort: rows are kept in creation order and the query takes the first ones; rows that commit late are inserted in their place.
- Lock waits and deadlocks between transactions: a transaction's writes take effect together at its commit, and a deadlock victim is an abort.
- Retry headers that are not natural numbers, and messages without id in the pipeline machine; the consumer itself is modelled for both kinds of message.
- Validation of account ids, upper-casing beyond ASCII, wallet names, the optional list of accounts that generated remittances may exclude (the pipeline passes none), compliance rules and the live exchange-rate client: the compliance check and the rate provider are parameters.
- HTTP, authentication, metrics, logging, tracing, search index, circuit breaker and graceful shutdown: no state of the kind modelled here.
