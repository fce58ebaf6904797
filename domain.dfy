/**
 * The ledger's records and the rules attached to them: the currency, balance-type and header
 * enumerations, the Account, Transaction and AccountEntry records, the two amount validators and
 * the creation hooks that stamp a record with its id (and an account with its number).
 */
module Domain {
  import opened Outcomes
  import Format

  type CurrencyType = string

  const KENYAN: CurrencyType := "KSH"
  const UGANDAN: CurrencyType := "UGX"

  /** How an account's end balance is computed; Unset is the empty value left when none is chosen. */
  datatype BalanceType = Unset | Debit | Credit

  /** The title of a group of accounts. The source names Deposit and Loan and uses Cash. */
  type HeaderType = string

  const DEPOSIT: HeaderType := "DEPOSIT"
  const LOAN: HeaderType := "LOAN"
  const CASH: HeaderType := "CASH"

  /** The fields every stored record embeds (timestamps and soft deletion are not modelled). */
  datatype AbstractBase = AbstractBase(uuid: string, active: bool)

  /** The zero value of the embedded base: no id yet, not active. */
  const BLANK_BASE := AbstractBase("", false)

  datatype Account = Account(
    base: AbstractBase,
    name: string,
    description: string,
    number: string,
    currency: CurrencyType,
    balanceType: BalanceType,
    header: HeaderType,
    isSystemAccount: bool)

  datatype Transaction = Transaction(base: AbstractBase, description: string)

  /** One leg of a transaction, against one account. Amounts are exact whole numbers. */
  datatype AccountEntry = AccountEntry(
    base: AbstractBase,
    debitAmount: int,
    creditAmount: int,
    accountId: string,
    transactionId: string)

  /** An entry's debit amount must be positive. */
  function ValidateDebitAmount(e: AccountEntry): (r: Outcome)
    ensures r.Pass? <==> e.debitAmount > 0
    ensures r.Fail? ==> r.error == NonPositiveDebit
  {
    if e.debitAmount <= 0 then Fail(NonPositiveDebit) else Pass
  }

  /** An entry's credit amount must be positive. */
  function ValidateCreditAmount(e: AccountEntry): (r: Outcome)
    ensures r.Pass? <==> e.creditAmount > 0
    ensures r.Fail? ==> r.error == NonPositiveCredit
  {
    if e.creditAmount <= 0 then Fail(NonPositiveCredit) else Pass
  }

  /** Each validator looks at its own amount only. */
  lemma ValidatorsReadOwnFieldOnly(e: AccountEntry, other: int)
    ensures ValidateDebitAmount(e.(creditAmount := other)) == ValidateDebitAmount(e)
    ensures ValidateCreditAmount(e.(debitAmount := other)) == ValidateCreditAmount(e)
  {
  }

  /** The creation hook of the embedded base: the record gets the freshly generated id. */
  function BaseBeforeCreate(b: AbstractBase, freshId: string): (r: AbstractBase)
    ensures r.uuid == freshId && r.active == b.active
  {
    b.(uuid := freshId)
  }

  /** The database's column default: every inserted record is active. */
  function ActiveByDefault(b: AbstractBase): (r: AbstractBase)
    ensures r.active && r.uuid == b.uuid
  {
    b.(active := true)
  }

  /** The number generated for an account created at Unix time `now`. */
  function AccountNumber(now: int): (n: string)
    ensures |n| > 3 && n[..3] == "AC-"
  {
    "AC-" + Format.IntString(now)
  }

  /** A number generated after 1970 is `AC-` followed by the digits of the clock reading. */
  lemma AccountNumberForm(now: nat)
    ensures var n := AccountNumber(now);
      && |n| > 3 && n[..3] == "AC-"
      && Format.AllDigits(n[3..]) && (|n| > 4 ==> n[3] != '0')
      && Format.ParseNat(n[3..]) == now
  {
    var n := AccountNumber(now);
    assert n[3..] == Format.NatString(now);
    Format.ParseNatString(now);
  }

  /** Numbers only differ when the clock readings do: two accounts made in one second share one. */
  lemma AccountNumbersFollowClock(t1: int, t2: int)
    ensures AccountNumber(t1) == AccountNumber(t2) <==> t1 == t2
  {
    if AccountNumber(t1) == AccountNumber(t2) {
      assert Format.IntString(t1) == AccountNumber(t1)[3..];
      assert Format.IntString(t2) == AccountNumber(t2)[3..];
      Format.IntStringInjective(t1, t2);
    }
  }

  /** The account's creation hook: a fresh id and a clock-derived number replace whatever was set. */
  function AccountBeforeCreate(a: Account, freshId: string, now: int): (r: Account)
    ensures r.base.uuid == freshId && r.number == AccountNumber(now)
    ensures r.(base := a.base, number := a.number) == a
    ensures r.base.active == a.base.active
  {
    a.(base := a.base.(uuid := freshId), number := AccountNumber(now))
  }

  /** A transaction's creation hook, inherited from the embedded base. */
  function TransactionBeforeCreate(t: Transaction, freshId: string): (r: Transaction)
    ensures r.base.uuid == freshId && r.(base := t.base) == t
  {
    t.(base := BaseBeforeCreate(t.base, freshId))
  }

  /** An entry's creation hook, inherited from the embedded base. */
  function EntryBeforeCreate(e: AccountEntry, freshId: string): (r: AccountEntry)
    ensures r.base.uuid == freshId && r.(base := e.base) == e
  {
    e.(base := BaseBeforeCreate(e.base, freshId))
  }
}
