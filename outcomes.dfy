/** Option and result types shared by the ledger, and the failures it reports. */
module Outcomes {

  /** A value that may be absent: the model of a Go pointer that may be nil. */
  datatype Option<+T> = None | Some(value: T)

  /** One constructor per error return of the ledger. */
  datatype Error =
    | NonPositiveDebit                        // "you can not debit a 0 or a negative amount"
    | NonPositiveCredit                       // "you can not credit a 0 or a negative amount"
    | MissingDebitEntry                       // no DR entry supplied to a transaction
    | MissingCreditEntry                      // no CR entry supplied to a transaction
    | NotDoubleEntry                          // debit and credit amounts differ
    | CommitFailed(cause: Error)              // the database transaction was rolled back
    | TransactionInsertFailed                 // the transaction row could not be written
    | EntryInsertFailed                       // an entry row could not be written
    | MissingAccountInformation               // CreateAccount was given no account
    | AccountInsertFailed                     // the account row could not be written
    | AccountNotFound(id: string)             // no stored account has this id
    | BalanceUnavailable(cause: Error)        // the account exists but its balance failed
    | InvalidUuid(id: string)                 // the id is not a well-formed UUID
    | AccountNotSupplied                      // AccountBalance was given no account
    | MissingDeposit                          // account creation without a deposit amount
    | MissingSourceAccount                    // a transfer without a source account
    | MissingDestinationAccount               // a transfer without a destination account
    | InsufficientFunds(amount: int, balance: int)

  /** The result of an operation that yields a value or fails. */
  datatype Result<+T> = Ok(value: T) | Err(error: Error)

  /** The result of a check that yields nothing or fails. */
  datatype Outcome = Pass | Fail(error: Error)
}
