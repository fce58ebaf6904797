/**
 * The money-transfer use cases: opening a customer account funded from the system cash account,
 * and moving money between two accounts as one debit leg and one credit leg.
 */
module Usecases {
  import opened Outcomes
  import opened Domain
  import opened Application
  import opened Postgresql
  import Uuid
  import Format
  import DefaultAccount

  // ---------------------------------------------------------------------------
  // Transfers

  /** The headers whose accounts can send money: deposit accounts and the cash account. */
  predicate Depositable(h: HeaderType) {
    h == DEPOSIT || h == CASH
  }

  /** An entry with every field at its zero value. */
  const BLANK_ENTRY := AccountEntry(BLANK_BASE, 0, 0, "", "")

  /** What a transfer hands to the recorder: a description, the debit leg and the credit leg. */
  datatype Plan = Plan(description: string, debit: AccountEntry, credit: AccountEntry)

  /** The text recorded with a transfer of `amount` between two account numbers. */
  function TransferDescription(amount: int, from: string, to: string): string {
    "Deposit of " + Format.IntString(amount) + " from account " + from + " to account " + to
  }

  /**
   * The checks and entry construction of a transfer. The funds check uses the balance carried by
   * the source snapshot; a system source skips it. Only a deposit or cash source gets legs.
   */
  function TransferPlan(input: TransferInput): (r: Result<Plan>)
    ensures input.sourceAccount.None? ==> r == Err(MissingSourceAccount)
    ensures input.sourceAccount.Some? && input.destinationAccount.None? ==> r == Err(MissingDestinationAccount)
    ensures r.Ok? <==>
      && input.sourceAccount.Some? && input.destinationAccount.Some?
      && (input.sourceAccount.value.isSystemAccount || input.amount <= input.sourceAccount.value.balance)
    ensures (input.sourceAccount.Some? && input.destinationAccount.Some? &&
             !input.sourceAccount.value.isSystemAccount && input.amount > input.sourceAccount.value.balance) ==>
      r == Err(InsufficientFunds(input.amount, input.sourceAccount.value.balance))
    ensures r.Ok? && Depositable(input.sourceAccount.value.header) ==>
      var source, destination := input.sourceAccount.value, input.destinationAccount.value;
      && r.value.debit.debitAmount == input.amount && r.value.debit.creditAmount == 0
      && r.value.debit.accountId == destination.uuid
      && r.value.credit.creditAmount == input.amount && r.value.credit.debitAmount == 0
      && r.value.credit.accountId == source.uuid
      && r.value.description == TransferDescription(input.amount, source.number, destination.number)
    ensures r.Ok? && !Depositable(input.sourceAccount.value.header) ==>
      r.value.debit == BLANK_ENTRY && r.value.credit == BLANK_ENTRY
  {
    if input.sourceAccount.None? then Err(MissingSourceAccount)
    else if input.destinationAccount.None? then Err(MissingDestinationAccount)
    else
      var source, destination := input.sourceAccount.value, input.destinationAccount.value;
      if !source.isSystemAccount && input.amount > source.balance then
        Err(InsufficientFunds(input.amount, source.balance))
      else if Depositable(source.header) then
        Ok(Plan(
          TransferDescription(input.amount, source.number, destination.number),
          BLANK_ENTRY.(debitAmount := input.amount, accountId := destination.uuid),
          BLANK_ENTRY.(creditAmount := input.amount, accountId := source.uuid)))
      else
        Ok(Plan("", BLANK_ENTRY, BLANK_ENTRY))
  }

  /** A whole transfer against journal `j`: the plan, then the recorder. */
  function TransferOutcome(j: Journal, input: TransferInput, ids: TxIds): (r: Result<Recorded>)
    ensures r.Ok? <==>
      && input.sourceAccount.Some? && input.destinationAccount.Some?
      && (input.sourceAccount.value.isSystemAccount || input.amount <= input.sourceAccount.value.balance)
      && Depositable(input.sourceAccount.value.header)
      && input.amount > 0
      && IdsFree(j, ids)
    ensures TransferPlan(input).Err? ==> r == Err(TransferPlan(input).error)
    ensures TransferPlan(input).Ok? && !Depositable(input.sourceAccount.value.header) ==>
      r == Err(NonPositiveDebit)
  {
    match TransferPlan(input)
    case Err(e) => Err(e)
    case Ok(p) => Record(j, p.description, Some(p.debit), Some(p.credit), ids)
  }

  /** +1 when debits raise the balance of an account of type `bt`, -1 when they lower it. */
  function DebitDirection(bt: BalanceType): int {
    if bt == Credit then 1 else -1
  }

  /** The balance of a stored account over entries `es`. */
  function BalanceIn(es: seq<AccountEntry>, a: Account): int {
    SignedBalance(a.balanceType, DebitTotal(es, a.base.uuid), CreditTotal(es, a.base.uuid))
  }

  /** A transfer debits the destination and credits the source by the amount, and touches no other account. */
  lemma TransferMovesTotals(j: Journal, input: TransferInput, ids: TxIds, id: string)
    requires TransferOutcome(j, input, ids).Ok?
    ensures var es := TransferOutcome(j, input, ids).value.journal.entries;
      && DebitTotal(es, id) == DebitTotal(j.entries, id)
           + (if id == input.destinationAccount.value.uuid then input.amount else 0)
      && CreditTotal(es, id) == CreditTotal(j.entries, id)
           + (if id == input.sourceAccount.value.uuid then input.amount else 0)
  {
    var p := TransferPlan(input).value;
    RecordMovesTotals(j, p.description, Some(p.debit), Some(p.credit), ids, id);
  }

  /**
   * Under the ledger's sign rule a transfer raises a Credit-type destination and lowers a
   * Credit-type source by the amount; for any other balance type the directions are reversed.
   */
  lemma TransferMovesBalances(j: Journal, input: TransferInput, ids: TxIds, a: Account)
    requires TransferOutcome(j, input, ids).Ok?
    ensures var es := TransferOutcome(j, input, ids).value.journal.entries;
      BalanceIn(es, a) == BalanceIn(j.entries, a) + DebitDirection(a.balanceType) *
        ((if a.base.uuid == input.destinationAccount.value.uuid then input.amount else 0)
         - (if a.base.uuid == input.sourceAccount.value.uuid then input.amount else 0))
  {
    TransferMovesTotals(j, input, ids, a.base.uuid);
  }

  /** A recorded transfer keeps every transaction double-entry and all debits equal to all credits. */
  lemma TransferKeepsBooksBalanced(j: Journal, input: TransferInput, ids: TxIds)
    requires Paired(j) && OneSided(j)
    requires TransferOutcome(j, input, ids).Ok?
    ensures var j' := TransferOutcome(j, input, ids).value.journal;
      Paired(j') && OneSided(j') && AllDebits(j'.entries) == AllCredits(j'.entries)
  {
    var p := TransferPlan(input).value;
    RecordKeepsBooksBalanced(j, p.description, Some(p.debit), Some(p.credit), ids);
  }

  /** Moves money from the source to the destination snapshot's account. */
  method Transfer(store: Store, input: TransferInput, ids: TxIds) returns (r: Result<Transaction>)
    requires store.Valid()
    modifies store
    ensures store.Valid() && store.accounts == old(store.accounts)
    ensures var out := TransferOutcome(old(store.Books()), input, ids);
      && (out.Err? ==> r == Err(out.error) && store.Books() == old(store.Books()))
      && (out.Ok? ==> r == Ok(out.value.transaction) && store.Books() == out.value.journal)
  {
    var plan := TransferPlan(input);
    if plan.Err? {
      return Err(plan.error);
    }
    r := store.CreateTransaction(plan.value.description, Some(plan.value.debit), Some(plan.value.credit), ids);
  }

  /** Moving 80 out of a deposit account holding 100 leaves it 20. */
  lemma TransferEightyOfHundred(j: Journal, source: Account, destination: AccountInformationOutput, ids: TxIds)
    requires source.balanceType == Credit && source.header == DEPOSIT && !source.isSystemAccount
    requires BalanceIn(j.entries, source) == 100
    requires destination.uuid != source.base.uuid
    requires IdsFree(j, ids)
    ensures var input := TransferInput(Some(Output(source, 100)), Some(destination), 80);
      && TransferOutcome(j, input, ids).Ok?
      && BalanceIn(TransferOutcome(j, input, ids).value.journal.entries, source) == 20
  {
    var input := TransferInput(Some(Output(source, 100)), Some(destination), 80);
    TransferMovesBalances(j, input, ids, source);
  }

  /** Moving 800 out of an account holding 100 fails with insufficient funds. */
  lemma TransferEightHundredOfHundred(j: Journal, source: Account, destination: AccountInformationOutput, ids: TxIds)
    requires !source.isSystemAccount
    ensures var input := TransferInput(Some(Output(source, 100)), Some(destination), 800);
      TransferOutcome(j, input, ids) == Err(InsufficientFunds(800, 100))
  {
  }

  /** A read of the seeded system cash account passes the funds check whatever its balance and the amount. */
  lemma SystemCashSkipsFundsCheck(balance: int, destination: AccountInformationOutput, amount: int)
    ensures var system := Output(DefaultAccount.SystemAccounts()[0], balance);
      TransferPlan(TransferInput(Some(system), Some(destination), amount)).Ok?
  {
  }

  // ---------------------------------------------------------------------------
  // Opening a customer account

  /** The balance type of a new account: Credit for Deposit, Debit for Loan, unset otherwise. */
  function HeaderBalanceType(h: HeaderType): (bt: BalanceType)
    ensures bt == Credit <==> h == DEPOSIT
    ensures bt == Debit <==> h == LOAN
  {
    if h == DEPOSIT then Credit else if h == LOAN then Debit else Unset
  }

  /** The account record built for a creation request, before the store stamps it. */
  function AccountInformation(input: AccountCreationInput): (a: Account)
    requires input.currency.Some?
    ensures a.name == input.customerName + " " + input.header + " account" && a.description == a.name
    ensures a.header == input.header && a.currency == input.currency.value
    ensures a.balanceType == HeaderBalanceType(input.header)
    ensures a.base == BLANK_BASE && a.number == "" && !a.isSystemAccount
  {
    var title := input.customerName + " " + input.header + " account";
    Account(BLANK_BASE, title, title, "", input.currency.value, HeaderBalanceType(input.header), input.header, false)
  }

  /** The rows a funding transfer writes: a debit of the deposit on the new account, then a credit of it on the system cash account. */
  function FundingLegs(amount: int, accountId: string, ids: TxIds): (legs: seq<AccountEntry>)
    ensures |legs| == 2 && legs[0].accountId == accountId && legs[1].accountId == DefaultAccount.SYSTEM_CASH_ACCOUNT
    ensures legs[0].debitAmount == amount && legs[0].creditAmount == 0
    ensures legs[1].creditAmount == amount && legs[1].debitAmount == 0
    ensures legs[0].transactionId == ids.transaction && legs[1].transactionId == ids.transaction
  {
    [Posted(BLANK_ENTRY.(debitAmount := amount, accountId := accountId), ids.debitEntry, ids.transaction),
     Posted(BLANK_ENTRY.(creditAmount := amount, accountId := DefaultAccount.SYSTEM_CASH_ACCOUNT), ids.creditEntry, ids.transaction)]
  }

  /** Funding moves the new account's debit total and the system cash account's credit total by the deposit. */
  lemma FundingMovesTotals(es: seq<AccountEntry>, amount: int, accountId: string, ids: TxIds, id: string)
    requires accountId != DefaultAccount.SYSTEM_CASH_ACCOUNT
    ensures var es' := es + FundingLegs(amount, accountId, ids);
      && DebitTotal(es', id) == DebitTotal(es, id) + (if id == accountId then amount else 0)
      && CreditTotal(es', id) == CreditTotal(es, id) + (if id == DefaultAccount.SYSTEM_CASH_ACCOUNT then amount else 0)
  {
    var legs := FundingLegs(amount, accountId, ids);
    assert es + legs == es + [legs[0], legs[1]];
    TotalsAfterPair(es, legs[0], legs[1], id);
  }

  /**
   * The funding half of opening an account: read the system cash account and move the deposit
   * from it to `account` as one transfer.
   */
  method FundFromSystemCash(store: Store, account: AccountInformationOutput, amount: int, ids: TxIds)
    returns (r: Result<Transaction>)
    requires store.Valid()
    modifies store
    ensures store.Valid() && store.accounts == old(store.accounts)
    ensures r.Err? ==> store.Books() == old(store.Books())
    ensures DefaultAccount.SYSTEM_CASH_ACCOUNT !in old(store.accounts) ==>
      r == Err(AccountNotFound(DefaultAccount.SYSTEM_CASH_ACCOUNT))
    ensures amount <= 0 ==> r.Err?
    ensures OneSided(old(store.Books())) ==>
      OneSided(store.Books()) && AllDebits(store.entries) == AllCredits(store.entries)
    ensures old(SystemCashReady(store.accounts)) && amount > 0 && old(IdsFree(store.Books(), ids)) ==>
      && r.Ok?
      && store.transactions == old(store.transactions) + [NewTransaction(
           TransferDescription(amount, old(store.accounts)[DefaultAccount.SYSTEM_CASH_ACCOUNT].number, account.number),
           ids.transaction)]
      && store.entries == old(store.entries) + FundingLegs(amount, account.uuid, ids)
      && (account.uuid != DefaultAccount.SYSTEM_CASH_ACCOUNT ==>
           && DebitTotal(store.entries, account.uuid) == old(DebitTotal(store.entries, account.uuid)) + amount
           && CreditTotal(store.entries, account.uuid) == old(CreditTotal(store.entries, account.uuid))
           && CreditTotal(store.entries, DefaultAccount.SYSTEM_CASH_ACCOUNT)
              == old(CreditTotal(store.entries, DefaultAccount.SYSTEM_CASH_ACCOUNT)) + amount)
  {
    ghost var before := store.Books();
    if OneSided(before) {
      PairedJournalBalances(before);
    }
    var system := store.Account(DefaultAccount.SYSTEM_CASH_ACCOUNT);
    if system.Err? {
      assert SystemCashReady(store.accounts) ==> false by { DefaultAccount.SystemCashIdIsUuid(); }
      return Err(system.error);
    }
    var transferInput := TransferInput(Some(system.value), Some(account), amount);
    r := Transfer(store, transferInput, ids);
    if r.Ok? {
      if OneSided(before) {
        TransferKeepsBooksBalanced(before, transferInput, ids);
      }
      var out := TransferOutcome(before, transferInput, ids);
      assert out.value.journal.entries == before.entries + FundingLegs(amount, account.uuid, ids);
      if account.uuid != DefaultAccount.SYSTEM_CASH_ACCOUNT {
        FundingMovesTotals(before.entries, amount, account.uuid, ids, account.uuid);
        FundingMovesTotals(before.entries, amount, account.uuid, ids, DefaultAccount.SYSTEM_CASH_ACCOUNT);
      }
    }
  }

  /** A stored account whose only entries are one debit of `amount` reads back with that amount as its balance. */
  lemma FundedAccountReads(store: Store, id: string, amount: int)
    requires id in store.accounts && store.accounts[id].base.uuid == id && Uuid.ValidUuid(id)
    requires DebitTotal(store.entries, id) == amount && CreditTotal(store.entries, id) == 0
    ensures store.Account(id)
      == Ok(Output(store.accounts[id], if store.accounts[id].balanceType == Credit then amount else -amount))
  {
  }

  /** The values the environment supplies to one account creation: ids and the clock. */
  datatype Fresh = Fresh(accountId: string, now: int, funding: TxIds)

  /** The store can fund a new account under the supplied ids. */
  ghost predicate ReadyToFund(store: Store, supplied: Fresh)
    reads store
  {
    && SystemCashReady(store.accounts)
    && supplied.accountId !in store.accounts
    && Uuid.ValidUuid(supplied.accountId)
    && NoEntriesFor(store.entries, supplied.accountId)
    && IdsFree(store.Books(), supplied.funding)
  }

  /**
   * Opens a customer account and funds it from the system cash account. The account is inserted
   * before the funding transfer runs, so a failed funding leaves it in the store with no entries.
   */
  method CreateCustomerAccount(store: Store, input: AccountCreationInput, supplied: Fresh)
    returns (r: Result<AccountInformationOutput>)
    requires store.Valid()
    requires input.amount.Some? ==> input.currency.Some?
    modifies store
    ensures store.Valid()
    ensures input.amount.None? ==>
      r == Err(MissingDeposit) && store.accounts == old(store.accounts) && store.Books() == old(store.Books())
    ensures r.Err? ==> store.Books() == old(store.Books())
    ensures input.amount.Some? && supplied.accountId !in old(store.accounts) ==>
      store.accounts == old(store.accounts)[supplied.accountId := Created(AccountInformation(input), supplied.accountId, supplied.now)]
    ensures input.amount.None? || supplied.accountId in old(store.accounts) ==> store.accounts == old(store.accounts)
    ensures input.amount.Some? && input.amount.value <= 0 ==> r.Err?
    ensures (DefaultAccount.SYSTEM_CASH_ACCOUNT !in old(store.accounts) &&
             supplied.accountId != DefaultAccount.SYSTEM_CASH_ACCOUNT) ==> r.Err?
    ensures OneSided(old(store.Books())) ==>
      OneSided(store.Books()) && AllDebits(store.entries) == AllCredits(store.entries)
    ensures r.Ok? ==>
      && supplied.accountId in store.accounts
      && Describes(r.value, store.accounts[supplied.accountId])
      && r.value.name == input.customerName + " " + input.header + " account"
      && r.value.description == r.value.name
    ensures input.amount.Some? && input.amount.value > 0 && old(ReadyToFund(store, supplied)) ==>
      && r.Ok?
      && r.value.uuid == supplied.accountId
      && r.value.number == AccountNumber(supplied.now)
      && r.value.balance == (if input.header == DEPOSIT then input.amount.value else -input.amount.value)
      && store.transactions == old(store.transactions) + [NewTransaction(
           TransferDescription(input.amount.value, old(store.accounts)[DefaultAccount.SYSTEM_CASH_ACCOUNT].number,
             AccountNumber(supplied.now)),
           supplied.funding.transaction)]
      && store.entries == old(store.entries) + FundingLegs(input.amount.value, supplied.accountId, supplied.funding)
      && CreditTotal(store.entries, DefaultAccount.SYSTEM_CASH_ACCOUNT)
         == old(CreditTotal(store.entries, DefaultAccount.SYSTEM_CASH_ACCOUNT)) + input.amount.value
  {
    if OneSided(store.Books()) {
      PairedJournalBalances(store.Books());
    }
    if input.amount.None? {
      return Err(MissingDeposit);
    }
    var amount := input.amount.value;
    ghost var before := store.Books();
    ghost var ready := ReadyToFund(store, supplied);
    var account := store.CreateAccount(Some(AccountInformation(input)), supplied.accountId, supplied.now);
    if account.Err? {
      return Err(account.error);
    }
    assert account.value.uuid == supplied.accountId;
    var transfer := FundFromSystemCash(store, account.value, amount, supplied.funding);
    if transfer.Err? {
      return Err(transfer.error);
    }
    if ready {
      TotalsWithoutEntries(before.entries, supplied.accountId);
      FundedAccountReads(store, supplied.accountId, amount);
    }
    r := store.Account(account.value.uuid);
    assert r.Ok?;
  }
}
