/**
 * The service's test cases replayed on concrete in-memory stores. Where a test
 * stubs a lookup to answer whatever is asked, the scenario asks for the key
 * the stubbed record is filed under.
 */
module Scenarios {
  import opened Domain
  import opened Validation
  import opened Stores
  import opened TransactionSpec
  import opened Service

  const Pobi := AccountUser(12, "Pobi")
  const Harry := AccountUser(13, "Harry")
  const Number := "1000000012"

  function PobiStore(status: AccountStatus, balance: int, log: seq<Transaction>): Store
  {
    Store(map[12 := Pobi, 13 := Harry], map[Number := Account(1, 12, Number, status, balance)], log)
  }

  /** An earlier successful use of `amount` on Pobi's account, made at `at`. */
  function EarlierUse(amount: int, at: int): Transaction
  {
    Transaction(1, Number, Use, S, amount, 8000, "transactionId", at)
  }

  lemma SuccessUseBalance(now: int)
    ensures var r := UseStep(PobiStore(InUse, 10000, []), 12, Number, 200, "transactionId", now);
            && r.result == Ok(TransactionDto(Number, Use, S, "transactionId", 200, 9800, now))
            && r.store.accounts[Number].balance == 9800
            && |r.store.log| == 1
  {
  }

  lemma UseBalanceUserNotFound(now: int)
    ensures UseStep(PobiStore(InUse, 10000, []), 1, Number, 1000, "t", now).result == Err(UserNotFound)
  {
  }

  lemma UseBalanceAccountNotFound(now: int)
    ensures UseStep(PobiStore(InUse, 10000, []), 12, "1234567890", 1000, "t", now).result
         == Err(AccountNotFound)
  {
  }

  /** Harry's account, empty and not in use, asked for by Pobi: the owner check fires first. */
  lemma UseBalanceUserUnMatch(now: int)
    ensures var s := Store(map[12 := Pobi, 13 := Harry],
                           map[Number := Account(2, 13, Number, Unregistered, 0)], []);
            UseStep(s, 12, Number, 1000, "t", now) == Step(s, Err(UserAccountUnMatch))
  {
  }

  lemma UseBalanceAlreadyUnregistered(now: int)
    ensures var s := PobiStore(Unregistered, 1000, []);
            UseStep(s, 12, Number, 1000, "t", now) == Step(s, Err(AccountAlreadyUnregistered))
  {
  }

  /** The balance is too small: the error is reported and nothing is saved. */
  lemma UseBalanceAmountExceedBalance(now: int)
    ensures var s := PobiStore(InUse, 100, []);
            UseStep(s, 12, Number, 1000, "t", now) == Step(s, Err(AmountExceedBalance))
  {
  }

  lemma SaveFailedUse(now: int)
    ensures var r := SaveFailedStep(PobiStore(InUse, 10000, []), Use, Number, 200, "t", now);
            && r.store.accounts == PobiStore(InUse, 10000, []).accounts
            && r.store.log == [Transaction(1, Number, Use, F, 200, 10000, "t", now)]
  {
  }

  lemma SuccessCancelBalance(now: int)
    ensures var r := CancelStep(PobiStore(InUse, 10000, [EarlierUse(200, now)]),
                                "transactionId", Number, 200, "transactionIdForCancel", now);
            && r.result == Ok(TransactionDto(Number, Cancel, S, "transactionIdForCancel", 200, 10200, now))
            && r.store.accounts[Number].balance == 10200
            && |r.store.log| == 2
  {
  }

  lemma CancelBalanceTransactionNotFound(now: int)
    ensures CancelStep(PobiStore(InUse, 10000, []), "transactionId", "1234567890", 1000, "c", now).result
         == Err(TransactionNotFound)
  {
  }

  lemma CancelBalanceAccountNotFound(now: int)
    ensures CancelStep(PobiStore(InUse, 10000, [EarlierUse(200, now)]),
                       "transactionId", "1234567890", 1000, "c", now).result
         == Err(AccountNotFound)
  {
  }

  /**
   * The transaction was made on account id 1, while the number asked for now
   * resolves to account id 2; the amounts differ too. The account mismatch is
   * reported.
   */
  lemma CancelBalanceTransactionAccountUnMatch(now: int)
    ensures var s := Store(map[12 := Pobi],
                           map[Number := Account(2, 12, Number, InUse, 10000)],
                           [Transaction(1, Number, Use, S, 200, 8000, "transactionId", now)]);
            CancelStep(s, "transactionId", Number, 1000, "c", now) == Step(s, Err(TransactionAccountUnMatch))
  {
  }

  lemma CancelBalanceCancelMustFully(now: int)
    ensures var s := PobiStore(InUse, 10000, [EarlierUse(200, now)]);
            CancelStep(s, "transactionId", Number, 100, "c", now) == Step(s, Err(CancelMustFully))
  {
  }

  lemma CancelBalanceTooOldOrder(now: int)
    ensures var s := PobiStore(InUse, 10000, [EarlierUse(200, now - OneYear - OneDay)]);
            CancelStep(s, "transactionId", Number, 200, "c", now) == Step(s, Err(TooOldOrderToCancel))
  {
  }

  /** A negative amount that matches the stored negative amount passes validation and is still refused. */
  lemma CancelBalanceNegativeAmount(now: int)
    ensures var s := PobiStore(InUse, 10000, [EarlierUse(-200, now)]);
            CancelStep(s, "transactionId", Number, -200, "c", now) == Step(s, Err(InvalidRequest))
  {
  }

  lemma SaveFailedCancel(now: int)
    ensures var r := SaveFailedStep(PobiStore(InUse, 20000, []), Cancel, Number, 200, "t", now);
            && r.store.accounts == PobiStore(InUse, 20000, []).accounts
            && r.store.log == [Transaction(1, Number, Cancel, F, 200, 20000, "t", now)]
  {
  }

  /** A stored record is returned by a query with its fields unchanged. */
  method SuccessQueryTransaction(now: int) returns (r: Result<TransactionDto, ErrorCode>)
    ensures r == Ok(TransactionDto(Number, Use, S, "transactionId", 200, 8000, now))
  {
    var service := new TransactionService(PobiStore(InUse, 10000, []).users,
                                          PobiStore(InUse, 10000, []).accounts,
                                          [EarlierUse(200, now)]);
    r := service.QueryTransaction("transactionId");
    assert service.log[0] == EarlierUse(200, now);
  }
}
