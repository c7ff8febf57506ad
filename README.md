# Account service: balance use, cancel, failed records and query

This project models the transaction engine of an account service. The engine covers four things:

- A user spends ("uses") part of an account's balance.
- A user cancels an earlier use in full.
- The caller records a failed use or cancel for the audit trail.
- A caller looks up a transaction by its transaction id.

The service's own source is not available. Its behaviour is taken from its unit test,
`src/test/java/com/example/account/service/TransactionServiceTest.java`. That test fixes the
error codes, the order in which the checks fire, the balance arithmetic and which calls save a
transaction record.

The model has six modules:

- `Domain` holds the entities and values. `AccountUser(id, name)` stands for `AccountUser.java`.
  `Account` holds an id, the owner's id, an account number, a status (`InUse | Unregistered`) and a
  balance. `Transaction` is one log record: the account's id and number, type `Use | Cancel`,
  result `S | F`, amount, balance snapshot, transaction id and timestamp. The module also holds
  `TransactionDto`, the ten `ErrorCode`s and `Result`/`Option`.
- `Validation` holds `validateUseBalance` and `validateCancelBalance` as pure functions. It also
  holds the one-year age rule on an integer clock.
- `Stores` holds the three in-memory stores: users by id, accounts by number, and the
  append-only log. It also holds their consistency invariant and the lookup by transaction id.
- `TransactionSpec` says what each operation does, as a pure function from the stores before the
  call to the stores after it and the result. It proves that each operation keeps the invariant,
  and that a full cancel within a year undoes a use.
- `Service` holds the class `TransactionService`. Its fields `users`, `accounts` and `log` are
  updated in place. Each mutating method is proved equal to its step function in `TransactionSpec`.
- `Scenarios` replays each test case on concrete stores.

Where a test's mock answers any key, the scenario uses the key the record is filed under. An
example is `useBalance(1L, "1000000000", …)`, which gets user 12 and account `"1000000012"`.
The mock's `save` returns canned values (1000 and 9000 in `successUseBalance`). The in-memory
store's save returns the record it was given. So the DTO here is always the projection
(`FromEntity`) of the record that was saved, with the computed amount and snapshot.

Outside inputs are parameters:

- The current time is an integer `now` on every operation.
- The fresh transaction id is a parameter. Its precondition is that no record in the log has it.

## Model

| member | source | states |
|---|---|---|
| Validation.IsTooOld | src/test/java/com/example/account/service/TransactionServiceTest.java:401-431 | a transaction made at `now` is not too old to cancel; one made one year and one day ago is |
| Validation.ValidateUseBalance | src/test/java/com/example/account/service/TransactionServiceTest.java:125-203 | owner ≠ user ⇒ USER_ACCOUNT_UN_MATCH, whatever the status and balance; otherwise not IN_USE ⇒ ACCOUNT_ALREADY_UNREGISTERED; otherwise amount > balance ⇒ AMOUNT_EXCEED_BALANCE; None exactly when all three pass (each as an iff) |
| Validation.ValidateCancelBalance | src/test/java/com/example/account/service/TransactionServiceTest.java:330-431 | transaction's account id ≠ account's id ⇒ TRANSACTION_ACCOUNT_UN_MATCH, winning over an amount mismatch; otherwise amount ≠ original ⇒ CANCEL_MUST_FULLY; otherwise too old ⇒ TOO_OLD_ORDER_TO_CANCEL; None exactly when all pass |
| Stores.FindTransaction | src/test/java/com/example/account/service/TransactionServiceTest.java:315-328 | a found record is in the log and has the requested id; nothing is found exactly when no record has that id |
| Stores.FindAppend | src/test/java/com/example/account/service/TransactionServiceTest.java:243-294 | after saving a record with a fresh id, lookup of that id finds it and every other lookup is unchanged |
| Stores.FindUnique | src/test/java/com/example/account/service/TransactionServiceTest.java:503-536 | with unique ids, looking up a record's id returns that very record |
| TransactionSpec.UseCheck | src/test/java/com/example/account/service/TransactionServiceTest.java:92-123 | missing user ⇒ USER_NOT_FOUND; user found but account missing ⇒ ACCOUNT_NOT_FOUND; both found ⇒ exactly the result of validateUseBalance |
| TransactionSpec.UseStep | src/test/java/com/example/account/service/TransactionServiceTest.java:49-90 | fails exactly when a check fails, with that check's code and the stores unchanged (zero records, balance untouched); on success the new balance is old balance − amount, exactly one USE/S record is appended with the requested amount and the new balance as snapshot, and the DTO is that record's projection |
| TransactionSpec.CancelCheck | src/test/java/com/example/account/service/TransactionServiceTest.java:296-463 | unknown transaction id ⇒ TRANSACTION_NOT_FOUND whatever the account; account missing ⇒ ACCOUNT_NOT_FOUND; a failing validateCancelBalance is reported as is; otherwise a non-positive amount ⇒ INVALID_REQUEST; passes exactly when validation passes and amount > 0 |
| TransactionSpec.CancelStep | src/test/java/com/example/account/service/TransactionServiceTest.java:243-294 | fails exactly when a check fails, with the stores unchanged; on success the new balance is old balance + amount, exactly one CANCEL/S record is appended with the amount and the new balance as snapshot, and the DTO is that record's projection |
| TransactionSpec.SaveFailedStep | src/test/java/com/example/account/service/TransactionServiceTest.java:205-241 | ACCOUNT_NOT_FOUND exactly when the number is unknown; otherwise accounts and users unchanged and exactly one record of result F appended, with the given type and amount and the account's current balance as snapshot |
| TransactionSpec.AppendKeepsConsistent | src/test/java/com/example/account/service/TransactionServiceTest.java:82 | saving one record with a fresh id on a stored account keeps the stores consistent |
| TransactionSpec.UseStepKeepsConsistent | src/test/java/com/example/account/service/TransactionServiceTest.java:178-203 | a use keeps the stores consistent: no balance becomes negative, ids stay unique, records refer to stored accounts |
| TransactionSpec.CancelStepKeepsConsistent | src/test/java/com/example/account/service/TransactionServiceTest.java:433-463 | a cancel keeps the stores consistent; it never lowers any balance; a cancel of a non-positive amount (such as −200) leaves the stores exactly as they were |
| TransactionSpec.SaveFailedStepKeepsConsistent | src/test/java/com/example/account/service/TransactionServiceTest.java:465-501 | recording a failed transaction keeps the stores consistent |
| TransactionSpec.UseStepRecordIsFound | src/test/java/com/example/account/service/TransactionServiceTest.java:503-536 | after a successful use with a fresh id, looking that id up finds the saved record, and the returned DTO is its projection |
| TransactionSpec.CancelStepRecordIsFound | src/test/java/com/example/account/service/TransactionServiceTest.java:503-536 | after a successful cancel with a fresh id, looking that id up finds the saved record, and the returned DTO is its projection |
| TransactionSpec.SaveFailedStepRecordIsFound | src/test/java/com/example/account/service/TransactionServiceTest.java:503-536 | after a failed record is saved under a fresh id, looking that id up finds it, and the returned DTO is its projection |
| TransactionSpec.UseThenCancelRestoresAccounts | src/test/java/com/example/account/service/TransactionServiceTest.java:243-294 | a successful positive use, cancelled in full within a year by its transaction id, succeeds; every account is as before the use and the log has grown by two |
| Service.TransactionService.constructor | src/test/java/com/example/account/service/TransactionServiceTest.java:38-47 | the service starts on the given consistent stores |
| Service.TransactionService.SaveAndGetTransaction | src/test/java/com/example/account/service/TransactionServiceTest.java:79-84 | the one store `save` each operation makes (likewise at lines 237, 286, 497): users and accounts unchanged, exactly the record `NewRecord(account, type, result, amount, id, now)` appended to the log, and the result is that record's `FromEntity` |
| Service.TransactionService.UseBalance | src/test/java/com/example/account/service/TransactionServiceTest.java:49-203 | the new stores and the result are exactly those of UseStep on the old stores; the invariant is kept |
| Service.TransactionService.SaveFailedUseTransaction | src/test/java/com/example/account/service/TransactionServiceTest.java:205-241 | the new stores and the result are exactly those of SaveFailedStep with type USE; the invariant is kept |
| Service.TransactionService.CancelBalance | src/test/java/com/example/account/service/TransactionServiceTest.java:243-463 | the new stores and the result are exactly those of CancelStep on the old stores; the invariant is kept |
| Service.TransactionService.SaveFailedCancelTransaction | src/test/java/com/example/account/service/TransactionServiceTest.java:465-501 | the new stores and the result are exactly those of SaveFailedStep with type CANCEL; the invariant is kept |
| Service.TransactionService.QueryTransaction | src/test/java/com/example/account/service/TransactionServiceTest.java:503-536 | an unknown id gives TRANSACTION_NOT_FOUND; a stored record's id gives that record's DTO, fields unchanged; nothing changes |
| Scenarios.SuccessUseBalance | src/test/java/com/example/account/service/TransactionServiceTest.java:49-90 | balance 10000, use 200 ⇒ S/USE DTO on account 1000000012 with amount 200, snapshot 9800, one record |
| Scenarios.UseBalanceUserNotFound | src/test/java/com/example/account/service/TransactionServiceTest.java:92-103 | unknown user ⇒ USER_NOT_FOUND |
| Scenarios.UseBalanceAccountNotFound | src/test/java/com/example/account/service/TransactionServiceTest.java:105-123 | unknown account number ⇒ ACCOUNT_NOT_FOUND |
| Scenarios.UseBalanceUserUnMatch | src/test/java/com/example/account/service/TransactionServiceTest.java:125-151 | Harry's empty, unregistered account used by Pobi ⇒ USER_ACCOUNT_UN_MATCH, stores unchanged |
| Scenarios.UseBalanceAlreadyUnregistered | src/test/java/com/example/account/service/TransactionServiceTest.java:153-176 | own unregistered account ⇒ ACCOUNT_ALREADY_UNREGISTERED, stores unchanged |
| Scenarios.UseBalanceAmountExceedBalance | src/test/java/com/example/account/service/TransactionServiceTest.java:178-203 | balance 100, use 1000 ⇒ AMOUNT_EXCEED_BALANCE, nothing saved |
| Scenarios.SaveFailedUse | src/test/java/com/example/account/service/TransactionServiceTest.java:205-241 | one USE/F record, amount 200, snapshot 10000, accounts unchanged |
| Scenarios.SuccessCancelBalance | src/test/java/com/example/account/service/TransactionServiceTest.java:243-294 | balance 10000, cancel of a 200 use ⇒ S/CANCEL DTO with amount 200, snapshot 10200 |
| Scenarios.CancelBalanceAccountNotFound | src/test/java/com/example/account/service/TransactionServiceTest.java:296-313 | known transaction, unknown account ⇒ ACCOUNT_NOT_FOUND |
| Scenarios.CancelBalanceTransactionNotFound | src/test/java/com/example/account/service/TransactionServiceTest.java:315-328 | unknown transaction ⇒ TRANSACTION_NOT_FOUND |
| Scenarios.CancelBalanceTransactionAccountUnMatch | src/test/java/com/example/account/service/TransactionServiceTest.java:330-367 | transaction of account id 1, requested account id 2, amounts also differing ⇒ TRANSACTION_ACCOUNT_UN_MATCH |
| Scenarios.CancelBalanceCancelMustFully | src/test/java/com/example/account/service/TransactionServiceTest.java:369-399 | original 200, cancel 100 ⇒ CANCEL_MUST_FULLY |
| Scenarios.CancelBalanceTooOldOrder | src/test/java/com/example/account/service/TransactionServiceTest.java:401-431 | transaction one year and one day old ⇒ TOO_OLD_ORDER_TO_CANCEL |
| Scenarios.CancelBalanceNegativeAmount | src/test/java/com/example/account/service/TransactionServiceTest.java:433-463 | original −200, cancel −200 on the matching account ⇒ INVALID_REQUEST, stores unchanged |
| Scenarios.SaveFailedCancel | src/test/java/com/example/account/service/TransactionServiceTest.java:465-501 | one CANCEL/F record, amount 200, snapshot 20000, accounts unchanged |
| Scenarios.SuccessQueryTransaction | src/test/java/com/example/account/service/TransactionServiceTest.java:503-536 | the query through the class returns the stored USE/S record, amount 200, snapshot 8000, id "transactionId" |

## Modelling choices

- INVALID_REQUEST on cancel is checked after both lookups and after `validateCancelBalance`, not
  before any lookup. The test stubs both lookups (TransactionServiceTest.java:452-455), and under
  Mockito's strict stubs an unused stub fails the test. So both lookups run first. No assertion fixes whether the check runs before or after the
  three validation checks. The negative-amount test passes all three, so both orders fit it.
- The rejected cancel amounts are `amount <= 0`: a request amount must be positive. The tests only
  show −200.
- A transaction is too old when `transactedAt < now - OneYear`. `OneYear` is 365 days of 86400
  seconds. The tests only show that `now` is accepted and one year and one day ago is rejected, and
  that is all `IsTooOld` promises. The exact calendar boundary is a modelling choice.

## Left out

- Persistence (JPA repositories, `@Entity`) and Mockito. The stores are in-memory maps and a
  sequence inside the class, and `save` returns the record it is given.
- Account entities are updated in place in the source. Here an account is a value in the
  `accounts` map, and the map entry is replaced. A record stores its account's id and number
  rather than a reference. So aliasing between a record and the account entity is not modelled.
- `LocalDateTime` calendar arithmetic: the clock is an integer passed in as `now`.
- Transaction-id generation is not part of this model. The fresh id is a parameter with a
  "not already in the log" precondition.
- `Long` overflow: balances and amounts are unbounded integers. In Java, `long` arithmetic on
  `balance - amount` (use) and `balance + amount` (cancel) can wrap around. The model's unbounded
  `int` cannot, so it does not capture that wrap-around.
- Null fields: an account status left unset (TransactionServiceTest.java:140-144) and a
  transaction built empty (TransactionServiceTest.java:300-301). The status is always `InUse` or
  `Unregistered`. The unset-status test is replayed with `Unregistered`, which also fails the
  status check, so it still shows that the owner check fires first.
- Service.TransactionService.UseBalance: no amount-sign check. No test fixes one for use, and the
  request validation of the HTTP layer is not part of this model. A negative use amount passes
  the balance check.
- Service.TransactionService.CancelBalance: the type and result of the original transaction are not
  checked. No test shows such a check.
- Service.TransactionService.SaveFailedUseTransaction and SaveFailedCancelTransaction return the
  saved record's DTO (or ACCOUNT_NOT_FOUND); the source method returns nothing.
- Service.TransactionService.QueryTransaction: nothing about the not-found case is taken from the
  test named for it. That test calls `cancelBalance` (TransactionServiceTest.java:547). An unknown
  id gives TRANSACTION_NOT_FOUND, as for every other lookup by transaction id.
- Writing the failed records is the caller's job, from its error handler, as in the source. No
  operation writes a failed record by itself.
- The HTTP/controller layer, DTO mapping boilerplate, transaction boundaries and concurrency.
