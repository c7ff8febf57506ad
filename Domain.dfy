/** The entities of the account service and the values its service layer returns. */
module Domain {

  datatype Option<+T> = None | Some(value: T)

  /** The service's typed outcome: a value, or the error code of an `AccountException`. */
  datatype Result<+T, +E> = Ok(value: T) | Err(error: E)

  /** The error taxonomy of the service; each code stands for one rejected request. */
  datatype ErrorCode =
    | UserNotFound
    | AccountNotFound
    | UserAccountUnMatch
    | AccountAlreadyUnregistered
    | AmountExceedBalance
    | TransactionNotFound
    | TransactionAccountUnMatch
    | CancelMustFully
    | TooOldOrderToCancel
    | InvalidRequest

  datatype AccountStatus = InUse | Unregistered

  datatype TransactionType = Use | Cancel

  /** `S` is a successful transaction, `F` a failed one kept for the audit trail. */
  datatype TransactionResultType = S | F

  datatype AccountUser = AccountUser(id: int, name: string)

  /** An account; `ownerId` is the id of the `AccountUser` it belongs to. */
  datatype Account = Account(
    id: int,
    ownerId: int,
    accountNumber: string,
    status: AccountStatus,
    balance: int)

  /**
   * One entry of the transaction log. The account it refers to is recorded by
   * the account's id and account number; `balanceSnapshot` is the balance of
   * that account once the transaction's effect (if any) was applied.
   */
  datatype Transaction = Transaction(
    accountId: int,
    accountNumber: string,
    transactionType: TransactionType,
    resultType: TransactionResultType,
    amount: int,
    balanceSnapshot: int,
    transactionId: string,
    transactedAt: int)

  /** What the service hands back to its caller about one transaction. */
  datatype TransactionDto = TransactionDto(
    accountNumber: string,
    transactionType: TransactionType,
    transactionResult: TransactionResultType,
    transactionId: string,
    amount: int,
    balanceSnapshot: int,
    transactedAt: int)

  /** The DTO is a field-by-field projection of a stored record. */
  function FromEntity(t: Transaction): TransactionDto
  {
    TransactionDto(t.accountNumber, t.transactionType, t.resultType, t.transactionId,
                   t.amount, t.balanceSnapshot, t.transactedAt)
  }
}
