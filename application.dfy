/** The shapes the ledger exchanges with its callers. */
module Application {
  import opened Outcomes
  import opened Domain

  /** A request to open a customer account funded with a first deposit. */
  datatype AccountCreationInput = AccountCreationInput(
    customerName: string,
    amount: Option<int>,
    currency: Option<CurrencyType>,
    header: HeaderType)

  /** An account as callers see it: its stored fields plus the balance computed when it was read. */
  datatype AccountInformationOutput = AccountInformationOutput(
    uuid: string,
    active: bool,
    name: string,
    description: string,
    number: string,
    currency: CurrencyType,
    balanceType: BalanceType,
    header: HeaderType,
    isSystemAccount: bool,
    balance: int)

  /** A transfer request; the accounts are snapshots read earlier, with their balances. */
  datatype TransferInput = TransferInput(
    sourceAccount: Option<AccountInformationOutput>,
    destinationAccount: Option<AccountInformationOutput>,
    amount: int)

  /** `o` shows the stored account `a` field for field. */
  predicate Describes(o: AccountInformationOutput, a: Account) {
    && o.uuid == a.base.uuid
    && o.active == a.base.active
    && o.name == a.name
    && o.description == a.description
    && o.number == a.number
    && o.currency == a.currency
    && o.balanceType == a.balanceType
    && o.header == a.header
    && o.isSystemAccount == a.isSystemAccount
  }

  /** The output for a stored account and its balance. */
  function Output(a: Account, balance: int): (o: AccountInformationOutput)
    ensures Describes(o, a) && o.balance == balance
  {
    AccountInformationOutput(
      a.base.uuid, a.base.active, a.name, a.description, a.number,
      a.currency, a.balanceType, a.header, a.isSystemAccount, balance)
  }
}
