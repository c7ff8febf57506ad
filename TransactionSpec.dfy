/**
 * What each operation of the transaction service does to the stores, as pure
 * functions from the stores before the call to the stores after it and the
 * result returned. The lookups and checks run in a fixed order and the first
 * failure wins; a failing use or cancel writes nothing.
 */
module TransactionSpec {
  import opened Domain
  import opened Validation
  import opened Stores

  /** The stores after an operation, with the operation's result. */
  datatype Step = Step(store: Store, result: Result<TransactionDto, ErrorCode>)

  /**
   * The record saved for a transaction on `account`: its balance snapshot is
   * the balance `account` holds, so the caller passes the account as it is
   * after the transaction's effect.
   */
  function NewRecord(account: Account, transactionType: TransactionType,
                     resultType: TransactionResultType, amount: int, id: string, now: int): Transaction
  {
    Transaction(account.id, account.accountNumber, transactionType, resultType,
                amount, account.balance, id, now)
  }

  /** Saving appends the record to the log and answers with the saved record's DTO. */
  function Save(s: Store, t: Transaction): Step
  {
    Step(s.(log := s.log + [t]), Ok(FromEntity(t)))
  }

  // ---------------------------------------------------------------- use

  /** The first failing check of a use: user lookup, account lookup, then validation. */
  function UseCheck(s: Store, userId: int, accountNumber: string, amount: int): (r: Option<ErrorCode>)
    ensures r == Some(UserNotFound) <==> userId !in s.users
    ensures r == Some(AccountNotFound) <==> userId in s.users && accountNumber !in s.accounts
    ensures userId in s.users && accountNumber in s.accounts
        ==> r == ValidateUseBalance(s.users[userId], s.accounts[accountNumber], amount)
  {
    if userId !in s.users then Some(UserNotFound)
    else if accountNumber !in s.accounts then Some(AccountNotFound)
    else ValidateUseBalance(s.users[userId], s.accounts[accountNumber], amount)
  }

  /**
   * A use either fails with the first failing check and changes nothing, or
   * lowers the account's balance by `amount` and appends exactly one USE/S
   * record whose snapshot is the lowered balance; the DTO is that record's.
   */
  function UseStep(s: Store, userId: int, accountNumber: string, amount: int, id: string, now: int)
    : (r: Step)
    ensures r.result.Err? <==> UseCheck(s, userId, accountNumber, amount).Some?
    ensures r.result.Err? ==> r.result.error == UseCheck(s, userId, accountNumber, amount).value
    ensures r.result.Err? ==> r.store == s
    ensures r.result.Ok? ==>
      var a := s.accounts[accountNumber];
      && r.store.users == s.users
      && r.store.accounts == s.accounts[accountNumber := a.(balance := a.balance - amount)]
      && |r.store.log| == |s.log| + 1
      && r.store.log[..|s.log|] == s.log
      && r.store.log[|s.log|]
         == Transaction(a.id, a.accountNumber, Use, S, amount, a.balance - amount, id, now)
      && r.result.value == FromEntity(r.store.log[|s.log|])
  {
    match UseCheck(s, userId, accountNumber, amount)
    case Some(e) => Step(s, Err(e))
    case None =>
      var a := s.accounts[accountNumber];
      var used := a.(balance := a.balance - amount);
      Save(s.(accounts := s.accounts[accountNumber := used]), NewRecord(used, Use, S, amount, id, now))
  }

  // ---------------------------------------------------------------- cancel

  /**
   * The first failing check of a cancel: transaction lookup, account lookup,
   * validation against the original transaction, then the amount itself.
   */
  function CancelCheck(s: Store, transactionId: string, accountNumber: string, amount: int, now: int)
    : (r: Option<ErrorCode>)
    ensures r == Some(TransactionNotFound) <==> FreshId(s.log, transactionId)
    ensures r == Some(AccountNotFound)
        <==> !FreshId(s.log, transactionId) && accountNumber !in s.accounts
    ensures var original := FindTransaction(s.log, transactionId);
        original.Some? && accountNumber in s.accounts ==>
          var invalid := ValidateCancelBalance(original.value, s.accounts[accountNumber], amount, now);
          && (invalid.Some? ==> r == invalid)
          && (r == Some(InvalidRequest) <==> invalid.None? && amount <= 0)
          && (r == None <==> invalid.None? && amount > 0)
  {
    match FindTransaction(s.log, transactionId)
    case None => Some(TransactionNotFound)
    case Some(original) =>
      if accountNumber !in s.accounts then Some(AccountNotFound)
      else
        var invalid := ValidateCancelBalance(original, s.accounts[accountNumber], amount, now);
        if invalid.Some? then invalid
        else if amount <= 0 then Some(InvalidRequest)
        else None
  }

  /**
   * A cancel either fails with the first failing check and changes nothing, or
   * raises the account's balance by `amount` and appends exactly one CANCEL/S
   * record whose snapshot is the raised balance; the DTO is that record's.
   */
  function CancelStep(s: Store, transactionId: string, accountNumber: string, amount: int,
                      id: string, now: int): (r: Step)
    ensures r.result.Err? <==> CancelCheck(s, transactionId, accountNumber, amount, now).Some?
    ensures r.result.Err? ==> r.result.error == CancelCheck(s, transactionId, accountNumber, amount, now).value
    ensures r.result.Err? ==> r.store == s
    ensures r.result.Ok? ==>
      var a := s.accounts[accountNumber];
      && r.store.users == s.users
      && r.store.accounts == s.accounts[accountNumber := a.(balance := a.balance + amount)]
      && |r.store.log| == |s.log| + 1
      && r.store.log[..|s.log|] == s.log
      && r.store.log[|s.log|]
         == Transaction(a.id, a.accountNumber, Cancel, S, amount, a.balance + amount, id, now)
      && r.result.value == FromEntity(r.store.log[|s.log|])
  {
    match CancelCheck(s, transactionId, accountNumber, amount, now)
    case Some(e) => Step(s, Err(e))
    case None =>
      var a := s.accounts[accountNumber];
      var cancelled := a.(balance := a.balance + amount);
      Save(s.(accounts := s.accounts[accountNumber := cancelled]),
           NewRecord(cancelled, Cancel, S, amount, id, now))
  }

  // ---------------------------------------------------------------- failed records

  /**
   * Recording a failed use or cancel: when the account exists, exactly one
   * record of result F with the given amount and the account's current balance
   * is appended and no balance changes.
   */
  function SaveFailedStep(s: Store, transactionType: TransactionType, accountNumber: string,
                          amount: int, id: string, now: int): (r: Step)
    ensures r.result.Err? <==> accountNumber !in s.accounts
    ensures r.result.Err? ==> r == Step(s, Err(AccountNotFound))
    ensures r.result.Ok? ==>
      var a := s.accounts[accountNumber];
      && r.store.users == s.users
      && r.store.accounts == s.accounts
      && |r.store.log| == |s.log| + 1
      && r.store.log[..|s.log|] == s.log
      && r.store.log[|s.log|]
         == Transaction(a.id, a.accountNumber, transactionType, F, amount, a.balance, id, now)
      && r.result.value == FromEntity(r.store.log[|s.log|])
  {
    if accountNumber !in s.accounts then Step(s, Err(AccountNotFound))
    else Save(s, NewRecord(s.accounts[accountNumber], transactionType, F, amount, id, now))
  }

  // ---------------------------------------------------------------- invariants

  /** Appending a record with a fresh id on a stored account keeps the stores consistent. */
  lemma AppendKeepsConsistent(s: Store, t: Transaction)
    requires Consistent(s)
    requires FreshId(s.log, t.transactionId)
    requires t.accountNumber in s.accounts && s.accounts[t.accountNumber].id == t.accountId
    ensures Consistent(s.(log := s.log + [t]))
  {
  }

  /** A use keeps the stores consistent; in particular no balance becomes negative. */
  lemma UseStepKeepsConsistent(s: Store, userId: int, accountNumber: string, amount: int,
                               id: string, now: int)
    requires Consistent(s)
    requires FreshId(s.log, id)
    ensures Consistent(UseStep(s, userId, accountNumber, amount, id, now).store)
  {
  }

  /**
   * A cancel keeps the stores consistent and never lowers a balance; a cancel
   * of a non-positive amount changes nothing at all.
   */
  lemma CancelStepKeepsConsistent(s: Store, transactionId: string, accountNumber: string,
                                  amount: int, id: string, now: int)
    requires Consistent(s)
    requires FreshId(s.log, id)
    ensures Consistent(CancelStep(s, transactionId, accountNumber, amount, id, now).store)
    ensures amount <= 0 ==> CancelStep(s, transactionId, accountNumber, amount, id, now).store == s
    ensures var after := CancelStep(s, transactionId, accountNumber, amount, id, now).store;
            forall n :: n in s.accounts ==> n in after.accounts && after.accounts[n].balance >= s.accounts[n].balance
  {
  }

  /** Recording a failed transaction keeps the stores consistent. */
  lemma SaveFailedStepKeepsConsistent(s: Store, transactionType: TransactionType,
                                      accountNumber: string, amount: int, id: string, now: int)
    requires Consistent(s)
    requires FreshId(s.log, id)
    ensures Consistent(SaveFailedStep(s, transactionType, accountNumber, amount, id, now).store)
  {
  }

  // ---------------------------------------------------------------- saved, then queried

  /** The record a successful use saves is what a lookup of its id finds, and the DTO is its projection. */
  lemma UseStepRecordIsFound(s: Store, userId: int, accountNumber: string, amount: int,
                             id: string, now: int)
    requires FreshId(s.log, id)
    ensures var r := UseStep(s, userId, accountNumber, amount, id, now);
            r.result.Ok? ==>
              && FindTransaction(r.store.log, id).Some?
              && Ok(FromEntity(FindTransaction(r.store.log, id).value)) == r.result
  {
    var r := UseStep(s, userId, accountNumber, amount, id, now);
    if r.result.Ok? {
      assert r.store.log == s.log + [r.store.log[|s.log|]];
      FindAppend(s.log, r.store.log[|s.log|], id);
    }
  }

  /** The record a successful cancel saves is what a lookup of its id finds, and the DTO is its projection. */
  lemma CancelStepRecordIsFound(s: Store, transactionId: string, accountNumber: string, amount: int,
                                id: string, now: int)
    requires FreshId(s.log, id)
    ensures var r := CancelStep(s, transactionId, accountNumber, amount, id, now);
            r.result.Ok? ==>
              && FindTransaction(r.store.log, id).Some?
              && Ok(FromEntity(FindTransaction(r.store.log, id).value)) == r.result
  {
    var r := CancelStep(s, transactionId, accountNumber, amount, id, now);
    if r.result.Ok? {
      assert r.store.log == s.log + [r.store.log[|s.log|]];
      FindAppend(s.log, r.store.log[|s.log|], id);
    }
  }

  /** A saved failed record is what a lookup of its id finds, and the DTO is its projection. */
  lemma SaveFailedStepRecordIsFound(s: Store, transactionType: TransactionType, accountNumber: string,
                                    amount: int, id: string, now: int)
    requires FreshId(s.log, id)
    ensures var r := SaveFailedStep(s, transactionType, accountNumber, amount, id, now);
            r.result.Ok? ==>
              && FindTransaction(r.store.log, id).Some?
              && Ok(FromEntity(FindTransaction(r.store.log, id).value)) == r.result
  {
    var r := SaveFailedStep(s, transactionType, accountNumber, amount, id, now);
    if r.result.Ok? {
      assert r.store.log == s.log + [r.store.log[|s.log|]];
      FindAppend(s.log, r.store.log[|s.log|], id);
    }
  }

  // ---------------------------------------------------------------- round trip

  /**
   * A successful use of a positive amount, cancelled in full within a year
   * under the transaction id it was given, succeeds and leaves every account
   * exactly as it was before the use, with two records added to the log.
   */
  lemma UseThenCancelRestoresAccounts(s: Store, userId: int, accountNumber: string, amount: int,
                                      useId: string, useAt: int, cancelId: string, cancelAt: int)
    requires Consistent(s)
    requires FreshId(s.log, useId) && FreshId(s.log, cancelId) && useId != cancelId
    requires UseCheck(s, userId, accountNumber, amount).None?
    requires amount > 0
    requires cancelAt <= useAt + OneYear
    ensures var used := UseStep(s, userId, accountNumber, amount, useId, useAt);
            var cancelled := CancelStep(used.store, useId, accountNumber, amount, cancelId, cancelAt);
            && cancelled.result.Ok?
            && cancelled.store.users == s.users
            && cancelled.store.accounts == s.accounts
            && |cancelled.store.log| == |s.log| + 2
  {
  }
}
