/**
 * The side-effect-free checks the service runs on looked-up records before it
 * changes a balance. Each returns the first failing error code, or None.
 */
module Validation {
  import opened Domain

  /** The clock is an integer count of seconds. */
  const OneDay: nat := 86400
  /** One year, taken as 365 days; the calendar's leap years are not modelled. */
  const OneYear: nat := 365 * OneDay

  /**
   * A transaction is too old to cancel when it happened before the instant one
   * year before `now`. A transaction made at `now` can be cancelled and one made
   * one year and one day ago cannot.
   */
  predicate IsTooOld(transactedAt: int, now: int)
    ensures transactedAt >= now ==> !IsTooOld(transactedAt, now)
    ensures transactedAt <= now - OneYear - OneDay ==> IsTooOld(transactedAt, now)
  {
    transactedAt < now - OneYear
  }

  /**
   * Checks a use of `amount` from `account` by `user`: the owner is checked
   * first, then the status, then the balance.
   */
  function ValidateUseBalance(user: AccountUser, account: Account, amount: int): (r: Option<ErrorCode>)
    ensures r == Some(UserAccountUnMatch) <==> account.ownerId != user.id
    ensures r == Some(AccountAlreadyUnregistered)
        <==> account.ownerId == user.id && account.status != InUse
    ensures r == Some(AmountExceedBalance)
        <==> account.ownerId == user.id && account.status == InUse && amount > account.balance
    ensures r == None
        <==> account.ownerId == user.id && account.status == InUse && amount <= account.balance
  {
    if account.ownerId != user.id then Some(UserAccountUnMatch)
    else if account.status != InUse then Some(AccountAlreadyUnregistered)
    else if amount > account.balance then Some(AmountExceedBalance)
    else None
  }

  /**
   * Checks a cancel of `amount` against the earlier `transaction` on `account`:
   * the account match is checked first, then the full amount, then the age.
   */
  function ValidateCancelBalance(transaction: Transaction, account: Account, amount: int, now: int)
    : (r: Option<ErrorCode>)
    ensures r == Some(TransactionAccountUnMatch) <==> transaction.accountId != account.id
    ensures r == Some(CancelMustFully)
        <==> transaction.accountId == account.id && transaction.amount != amount
    ensures r == Some(TooOldOrderToCancel)
        <==> transaction.accountId == account.id && transaction.amount == amount
             && IsTooOld(transaction.transactedAt, now)
    ensures r == None
        <==> transaction.accountId == account.id && transaction.amount == amount
             && !IsTooOld(transaction.transactedAt, now)
  {
    if transaction.accountId != account.id then Some(TransactionAccountUnMatch)
    else if transaction.amount != amount then Some(CancelMustFully)
    else if IsTooOld(transaction.transactedAt, now) then Some(TooOldOrderToCancel)
    else None
  }
}
