/**
 * The transaction service over in-memory stores. Each operation looks records
 * up, validates, updates the account's balance in place and saves one record,
 * and is proved to do exactly what its step function in TransactionSpec says.
 */
module Service {
  import opened Domain
  import opened Validation
  import opened Stores
  import opened TransactionSpec

  class TransactionService {
    var users: map<int, AccountUser>
    var accounts: map<string, Account>
    var log: seq<Transaction>

    /** The stores as one value. */
    ghost function State(): Store
      reads this
    {
      Store(users, accounts, log)
    }

    ghost predicate Valid()
      reads this
    {
      Consistent(State())
    }

    constructor (users0: map<int, AccountUser>, accounts0: map<string, Account>, log0: seq<Transaction>)
      requires Consistent(Store(users0, accounts0, log0))
      ensures Valid()
      ensures users == users0 && accounts == accounts0 && log == log0
    {
      users, accounts, log := users0, accounts0, log0;
    }

    /** Saves the record of a transaction on `account` and returns the DTO of what was saved. */
    method SaveAndGetTransaction(transactionType: TransactionType, resultType: TransactionResultType,
                                 account: Account, amount: int, id: string, now: int)
      returns (r: Result<TransactionDto, ErrorCode>)
      modifies this
      ensures users == old(users) && accounts == old(accounts)
      ensures log == old(log) + [NewRecord(account, transactionType, resultType, amount, id, now)]
      ensures r == Ok(FromEntity(NewRecord(account, transactionType, resultType, amount, id, now)))
    {
      var saved := NewRecord(account, transactionType, resultType, amount, id, now);
      log := log + [saved];
      r := Ok(FromEntity(saved));
    }

    /** Uses `amount` of the balance of account `accountNumber` on behalf of user `userId`. */
    method UseBalance(userId: int, accountNumber: string, amount: int, transactionId: string, now: int)
      returns (r: Result<TransactionDto, ErrorCode>)
      requires Valid()
      requires FreshId(log, transactionId)
      modifies this
      ensures Valid()
      ensures Step(State(), r) == UseStep(old(State()), userId, accountNumber, amount, transactionId, now)
    {
      UseStepKeepsConsistent(State(), userId, accountNumber, amount, transactionId, now);
      if userId !in users {
        return Err(UserNotFound);
      }
      var user := users[userId];
      if accountNumber !in accounts {
        return Err(AccountNotFound);
      }
      var account := accounts[accountNumber];
      var invalid := ValidateUseBalance(user, account, amount);
      if invalid.Some? {
        return Err(invalid.value);
      }
      account := account.(balance := account.balance - amount);
      accounts := accounts[accountNumber := account];
      r := SaveAndGetTransaction(Use, S, account, amount, transactionId, now);
    }

    /** Records a failed use on account `accountNumber`; no balance changes. */
    method SaveFailedUseTransaction(accountNumber: string, amount: int, transactionId: string, now: int)
      returns (r: Result<TransactionDto, ErrorCode>)
      requires Valid()
      requires FreshId(log, transactionId)
      modifies this
      ensures Valid()
      ensures Step(State(), r) == SaveFailedStep(old(State()), Use, accountNumber, amount, transactionId, now)
    {
      SaveFailedStepKeepsConsistent(State(), Use, accountNumber, amount, transactionId, now);
      if accountNumber !in accounts {
        return Err(AccountNotFound);
      }
      var account := accounts[accountNumber];
      r := SaveAndGetTransaction(Use, F, account, amount, transactionId, now);
    }

    /** Cancels, in full, the earlier transaction `transactionId` on account `accountNumber`. */
    method CancelBalance(transactionId: string, accountNumber: string, amount: int,
                         cancelId: string, now: int)
      returns (r: Result<TransactionDto, ErrorCode>)
      requires Valid()
      requires FreshId(log, cancelId)
      modifies this
      ensures Valid()
      ensures Step(State(), r) == CancelStep(old(State()), transactionId, accountNumber, amount, cancelId, now)
    {
      CancelStepKeepsConsistent(State(), transactionId, accountNumber, amount, cancelId, now);
      var found := FindTransaction(log, transactionId);
      if found.None? {
        return Err(TransactionNotFound);
      }
      var transaction := found.value;
      if accountNumber !in accounts {
        return Err(AccountNotFound);
      }
      var account := accounts[accountNumber];
      var invalid := ValidateCancelBalance(transaction, account, amount, now);
      if invalid.Some? {
        return Err(invalid.value);
      }
      if amount <= 0 {
        return Err(InvalidRequest);
      }
      account := account.(balance := account.balance + amount);
      accounts := accounts[accountNumber := account];
      r := SaveAndGetTransaction(Cancel, S, account, amount, cancelId, now);
    }

    /** Records a failed cancel on account `accountNumber`; no balance changes. */
    method SaveFailedCancelTransaction(accountNumber: string, amount: int, transactionId: string, now: int)
      returns (r: Result<TransactionDto, ErrorCode>)
      requires Valid()
      requires FreshId(log, transactionId)
      modifies this
      ensures Valid()
      ensures Step(State(), r) == SaveFailedStep(old(State()), Cancel, accountNumber, amount, transactionId, now)
    {
      SaveFailedStepKeepsConsistent(State(), Cancel, accountNumber, amount, transactionId, now);
      if accountNumber !in accounts {
        return Err(AccountNotFound);
      }
      var account := accounts[accountNumber];
      r := SaveAndGetTransaction(Cancel, F, account, amount, transactionId, now);
    }

    /**
     * Looks a transaction up by its transaction id: the DTO of the stored
     * record, fields unchanged, or TransactionNotFound.
     */
    method QueryTransaction(transactionId: string) returns (r: Result<TransactionDto, ErrorCode>)
      requires Valid()
      ensures FreshId(log, transactionId) ==> r == Err(TransactionNotFound)
      ensures forall i :: 0 <= i < |log| && log[i].transactionId == transactionId
                ==> r == Ok(FromEntity(log[i]))
    {
      var found := FindTransaction(log, transactionId);
      if found.None? {
        return Err(TransactionNotFound);
      }
      r := Ok(FromEntity(found.value));
      forall i | 0 <= i < |log| && log[i].transactionId == transactionId
        ensures r == Ok(FromEntity(log[i]))
      {
        FindUnique(log, i);
      }
    }
  }
}
