# simpleMoneyTransfer — a verified model of the ledger core

simpleMoneyTransfer keeps customer accounts and moves money between them by double entry:
every transfer is one accounting transaction with exactly two account entries, a debit on
the destination and a credit on the source, of the same positive amount. An account's
balance is not stored; it is the difference of the totals of its entries. A customer account
is opened by inserting the account and funding it from the fixed system cash account.

This project models that core in Dafny:

- `Domain` (`domain.dfy`): the records (`AbstractBase`, `Account`, `Transaction`,
  `AccountEntry`), the currency, balance-type and header enumerations, the two amount
  validators and the `BeforeCreate` hooks that stamp a generated id and the account number
  `AC-<unix seconds>`.
- `DefaultAccount` (`default_account.dfy`): the fixed system cash account id and the list of
  system accounts to seed.
- `Application` (`application.dfy`): the input and output records of the use cases and the
  projection of a stored account plus its balance into the output record.
- `Postgresql` (`postgresql.dfy`): the repository. A `Store` class holds the three tables
  (accounts keyed by id, transactions, entries) as fields that its methods update:
  `CreateTransaction` checks its two entries and then writes the transaction and both entries
  atomically, and is proved against the pure function `Record` over a `Journal`; `AccountDebitTotal`,
  `AccountCreditTotal`, `AccountBalance` and `Account` are functions reading the store;
  `CreateAccount` and `CreateSystemAccount` insert accounts.
- `Usecases` (`money_transfer.dfy`): `Transfer`, proved against the pure `TransferOutcome`,
  and `CreateCustomerAccount`.
- `Format` and `Uuid`: the decimal rendering of the clock in account numbers and the
  canonical textual UUID form accepted before a totals query.

Generated ids (`uuid.New`) and the clock (`time.Now().Unix()`) are parameters of the
operations that use them. The database is the `Store`; a storage failure is modelled as the
one failure the code reacts to specifically, an insert whose primary key is already taken.

Where the code departs from what its names and comments suggest, the model follows the code,
with one exception: seeding the system accounts. There the main model keeps the intended fixed id
(`Postgresql.Store.CreateSystemAccount`), and the code as written is modelled beside it
(`Postgresql.Store.CreateSystemAccountAsWritten`); see "## Findings".

- The balance sign is the reverse of the usual accounting convention: the code computes
  debits − credits for an account whose balance type is Credit and credits − debits for every
  other account (`postgresql.go:257-262`); the model does the same (`Postgresql.SignedBalance`).
- Opening an account inserts the account first and only then funds it; a non-positive or
  unfundable deposit therefore fails after the account has been stored, and the account stays.
- The Cash header is used by the code but not declared beside Deposit and Loan; the model
  declares it as `"CASH"`.
- A source account whose header is neither Deposit nor Cash yields two blank entries, which
  `CreateTransaction` rejects with the debit validator's error.
- `CreateTransaction` checks only the debit leg's debit amount and the credit leg's credit amount
  (`postgresql.go:138-148`). A leg carrying an amount on its other side is recorded as given and
  can leave total debits and total credits unequal (`Postgresql.RecordAcceptsTwoSidedLegs`). Books stay
  balanced for legs that each carry one side only, which is what every transfer builds
  (`Usecases.TransferKeepsBooksBalanced`).

## Model

| member | source | states |
|---|---|---|
| Domain.ValidateDebitAmount | pkg/moneyTransfer/domain/account.go:98-104 | passes exactly when the debit amount is positive, otherwise fails with the debit error |
| Domain.ValidateCreditAmount | pkg/moneyTransfer/domain/account.go:107-113 | passes exactly when the credit amount is positive, otherwise fails with the credit error |
| Domain.ValidatorsReadOwnFieldOnly | pkg/moneyTransfer/domain/account.go:98-113 | the debit validator ignores the credit amount and the credit validator ignores the debit amount |
| Domain.BaseBeforeCreate | pkg/moneyTransfer/domain/account.go:22-25 | the created record's id is the generated id whatever it was before; nothing else changes |
| Domain.ActiveByDefault | pkg/moneyTransfer/domain/account.go:15 | a stored record is active; only the active flag changes |
| Domain.AccountNumber | pkg/moneyTransfer/domain/account.go:75 | an account number is `AC-` followed by the decimal rendering of the clock |
| Domain.AccountNumberForm | pkg/moneyTransfer/domain/account.go:75 | for a non-negative clock the number is `AC-` then digits without a leading zero, and the digits read back as the clock |
| Domain.AccountNumbersFollowClock | pkg/moneyTransfer/domain/account.go:75 | two accounts created in the same second get the same number, in different seconds different numbers |
| Domain.AccountBeforeCreate | pkg/moneyTransfer/domain/account.go:73-77 | the created account has the generated id and the clock's number; every other field is the caller's |
| Domain.TransactionBeforeCreate | pkg/moneyTransfer/domain/account.go:22-25 | a created transaction keeps its description and gets the generated id |
| Domain.EntryBeforeCreate | pkg/moneyTransfer/domain/account.go:22-25 | a created entry keeps amounts, account and transaction and gets the generated id |
| Format.NatString | pkg/moneyTransfer/domain/account.go:75 | a natural number renders as a non-empty digit string without a leading zero |
| Format.IntString | pkg/moneyTransfer/domain/account.go:75 | an integer renders as digits, preceded by a minus sign exactly when it is negative |
| Format.ParseNatString | pkg/moneyTransfer/domain/account.go:75 | reading back the rendered digits gives the number |
| Format.IntStringInjective | pkg/moneyTransfer/domain/account.go:75 | distinct clock values are rendered differently |
| DefaultAccount.SystemAccounts | pkg/moneyTransfer/domain/data/default_account.go:8-23 | one account: the system cash account id, a system account, Cash header, Debit balance type, KSH, number AC-0123456789 |
| DefaultAccount.SystemCashIdIsUuid | pkg/moneyTransfer/domain/data/default_account.go:5 | the fixed system cash id is a canonical UUID, so a totals query on it does not fail |
| Application.Output | pkg/moneyTransfer/infrastructure/database/postgresql/postgresql.go:192-206 | the output copies every field of the stored account and carries the given balance |
| Postgresql.TotalsWithoutEntries | pkg/moneyTransfer/infrastructure/database/postgresql/postgresql.go:219 | an account with no entries has debit and credit totals of 0 (the COALESCE default) |
| Postgresql.TotalsOfConcat | pkg/moneyTransfer/infrastructure/database/postgresql/postgresql.go:212-239 | the totals over two runs of entries are the sums of the totals over each |
| Postgresql.TotalsAfterPair | pkg/moneyTransfer/infrastructure/database/postgresql/postgresql.go:157-164 | appending a debit and a credit entry adds their amounts to the totals of their accounts only |
| Postgresql.SignedBalance | pkg/moneyTransfer/infrastructure/database/postgresql/postgresql.go:257-262 | Credit balance type gives debits minus credits, every other type credits minus debits |
| Postgresql.CheckEntries | pkg/moneyTransfer/infrastructure/database/postgresql/postgresql.go:130-148 | fails in source order: missing debit entry, missing credit entry, non-positive debit, non-positive credit, unequal amounts; passes otherwise (amounts compared by value, see "## Left out") |
| Postgresql.PairedJournalBalances | pkg/moneyTransfer/infrastructure/database/postgresql/postgresql.go:146-164 | books written only as equal debit/credit pairs have equal total debits and total credits |
| Postgresql.NewTransaction | pkg/moneyTransfer/infrastructure/database/postgresql/postgresql.go:152-153 | the stored transaction has the description, the generated id and is active |
| Postgresql.Posted | pkg/moneyTransfer/infrastructure/database/postgresql/postgresql.go:159-161 | a stored entry keeps amounts and account, points at the new transaction, gets its own id and is active |
| Postgresql.Record | pkg/moneyTransfer/infrastructure/database/postgresql/postgresql.go:125-171 | succeeds exactly when the checks pass and no id is taken; check errors pass through; a taken id is a commit failure and writes nothing; success appends the transaction and the two stamped entries |
| Postgresql.RecordKeepsPairs | pkg/moneyTransfer/infrastructure/database/postgresql/postgresql.go:150-165 | recording keeps every transaction paired with exactly one debit and one credit entry of equal amount |
| Postgresql.RecordKeepsBooksBalanced | pkg/moneyTransfer/infrastructure/database/postgresql/postgresql.go:146-168 | recording a debit leg with no credit amount and a credit leg with no debit amount into balanced, one-sided books keeps them paired, one-sided and with equal total debits and credits |
| Postgresql.RecordAcceptsTwoSidedLegs | pkg/moneyTransfer/infrastructure/database/postgresql/postgresql.go:138-148 | a debit leg of 5/3 with a credit leg of 0/5 passes the checks and is recorded, leaving total debits 5 and total credits 8 (in the source, when both 5s are one shared decimal value, as a transfer's legs are) |
| Postgresql.RecordMovesTotals | pkg/moneyTransfer/infrastructure/database/postgresql/postgresql.go:157-164 | a recorded transfer raises the destination's debit total and the source's credit total by the amount, other accounts unchanged |
| Postgresql.SeedStep | pkg/moneyTransfer/infrastructure/database/postgresql/postgresql.go:99-102 | inserting one seed account leaves its id present; an id already present is skipped as a duplicate |
| Postgresql.SeedInto | pkg/moneyTransfer/infrastructure/database/postgresql/postgresql.go:97-109 | after seeding every seed id is present, existing accounts are untouched and accounts stay filed under their own ids |
| Postgresql.SeedIntoPresent | pkg/moneyTransfer/infrastructure/database/postgresql/postgresql.go:101-102 | seeding a store that already holds every seed id changes nothing |
| Postgresql.SeedingIsIdempotent | pkg/moneyTransfer/infrastructure/database/postgresql/postgresql.go:97-109 | seeding twice is the same as seeding once |
| Postgresql.SeedingReadiesSystemCash | pkg/moneyTransfer/infrastructure/database/postgresql/postgresql.go:97-109 | after seeding, the system cash account is stored under its fixed id as a Cash system account |
| Postgresql.SeedAsWrittenInto | pkg/moneyTransfer/infrastructure/database/postgresql/postgresql.go:97-109 | seeding through the account hook only adds accounts under generated ids |
| Postgresql.AsWrittenSeedingMissesSystemId | pkg/moneyTransfer/domain/account.go:73-76 | as written, seeding a store without the system cash account leaves it without one |
| Postgresql.AsWrittenSeedingIsNotIdempotent | pkg/moneyTransfer/infrastructure/database/postgresql/postgresql.go:97-109 | as written, seeding twice stores two copies of the system cash account |
| Postgresql.Created | pkg/moneyTransfer/infrastructure/database/postgresql/postgresql.go:117 | an inserted account has the generated id, is active, has the clock's number and otherwise the caller's fields |
| Postgresql.Store.AccountDebitTotal | pkg/moneyTransfer/infrastructure/database/postgresql/postgresql.go:212-224 | fails exactly when the account id is not a UUID, otherwise the sum of that account's debit amounts (0 with no entries) |
| Postgresql.Store.AccountCreditTotal | pkg/moneyTransfer/infrastructure/database/postgresql/postgresql.go:227-239 | fails exactly when the account id is not a UUID, otherwise the sum of that account's credit amounts (0 with no entries) |
| Postgresql.Store.AccountBalance | pkg/moneyTransfer/infrastructure/database/postgresql/postgresql.go:242-265 | no account is an error; an invalid id is the totals' error; otherwise the signed difference of the totals |
| Postgresql.Store.Account | pkg/moneyTransfer/infrastructure/database/postgresql/postgresql.go:174-209 | an unknown id is not found; an id that is not a UUID is reported as a balance failure; otherwise the stored account's fields with its balance |
| Postgresql.Store.CreateAccount | pkg/moneyTransfer/infrastructure/database/postgresql/postgresql.go:112-122 | no account is an error; a taken id fails and stores nothing; otherwise the created account is stored and read back |
| Postgresql.Store.CreateTransaction | pkg/moneyTransfer/infrastructure/database/postgresql/postgresql.go:125-171 | the new books are exactly what `Record` gives, and a failure leaves the books as they were (rollback) |
| Postgresql.Store.CreateSystemAccount | pkg/moneyTransfer/infrastructure/database/postgresql/postgresql.go:97-109 | the accounts become the corrected seeding of the system accounts; entries and transactions unchanged |
| Postgresql.Store.CreateSystemAccountAsWritten | pkg/moneyTransfer/infrastructure/database/postgresql/postgresql.go:97-109 | the accounts become the as-written seeding through the account hook; the store stays valid and the books are unchanged |
| Usecases.TransferPlan | pkg/moneyTransfer/usecases/money_transfer.go:101-143 | missing source, then missing destination; a non-system source with less than the amount is insufficient funds; a Deposit or Cash source gives the debit leg on the destination and the credit leg on the source, otherwise blank legs |
| Usecases.TransferOutcome | pkg/moneyTransfer/usecases/money_transfer.go:101-146 | a transfer succeeds exactly when both accounts are given, the funds check passes, the source is Deposit or Cash, the amount is positive and the ids are free |
| Usecases.Transfer | pkg/moneyTransfer/usecases/money_transfer.go:101-146 | the new books are what `TransferOutcome` gives; a failed transfer leaves the books unchanged |
| Usecases.TransferMovesTotals | pkg/moneyTransfer/usecases/money_transfer.go:134-145 | a transfer raises the destination's debit total and the source's credit total by the amount and no other total |
| Usecases.TransferMovesBalances | pkg/moneyTransfer/usecases/money_transfer.go:134-142 | under the sign rule a transfer lowers a Credit-type source and raises a Credit-type destination by the amount, the reverse for other balance types, and leaves every other account's balance as it was |
| Usecases.TransferKeepsBooksBalanced | pkg/moneyTransfer/usecases/money_transfer.go:124-145 | after a transfer the books still have equal total debits and credits |
| Usecases.TransferEightyOfHundred | pkg/moneyTransfer/usecases/money_transfer_test.go:144-203 | moving 80 out of a deposit account holding 100 succeeds and leaves 20 |
| Usecases.TransferEightHundredOfHundred | pkg/moneyTransfer/usecases/money_transfer_test.go:183-225 | moving 800 out of a customer account holding 100 fails with insufficient funds |
| Usecases.SystemCashSkipsFundsCheck | pkg/moneyTransfer/usecases/money_transfer.go:116 | the system cash account passes the funds check whatever its balance |
| Usecases.HeaderBalanceType | pkg/moneyTransfer/usecases/money_transfer.go:64-70 | Credit exactly for the Deposit header, Debit exactly for the Loan header, unset otherwise |
| Usecases.AccountInformation | pkg/moneyTransfer/usecases/money_transfer.go:57-70 | name and description are "<customer> <header> account", header and currency copied, balance type from the header |
| Usecases.FundingMovesTotals | pkg/moneyTransfer/usecases/money_transfer.go:82-90 | the funding legs raise the new account's debit total and the system cash account's credit total by the deposit, and no other total |
| Usecases.FundFromSystemCash | pkg/moneyTransfer/usecases/money_transfer.go:77-90 | a missing system cash account is not found; a non-positive amount fails; a failure leaves the books unchanged; with the system account seeded and free ids it writes one transaction described from the two account numbers, a debit of the deposit on the new account and a credit of it on the system cash account; balanced one-sided books stay balanced |
| Usecases.FundedAccountReads | pkg/moneyTransfer/usecases/money_transfer.go:92 | a stored account whose only entry is a debit of the deposit reads back with the deposit as its balance, signed by its balance type |
| Usecases.CreateCustomerAccount | pkg/moneyTransfer/usecases/money_transfer.go:51-93 | no deposit fails before any write; a non-positive deposit or a missing system cash account fails after the account is inserted, with the books unchanged; balanced one-sided books stay balanced; a success returns the stored account's fields, named "<customer> <header> account"; with the system account seeded and free ids it succeeds with the clock's number, a balance of the deposit (Deposit) or its negation (other headers), one more transaction and exactly the two funding legs appended, raising the system cash account's credit total by the deposit |

## Left out

- Connection setup and migrations (`postgresql.go:1-94`) and the duplicate-key detection by error text (`postgresql.go:21`, `:101`): database plumbing; a duplicate key is modelled as an id already present in the map.
- Storage failures other than a taken primary key (lost connection, scan errors): the store is in memory and cannot fail otherwise.
- Foreign keys of entries on accounts and transactions: `AccountEntry` declares its `Account` and `Transaction` associations (`account.go:92`, `:94`) and the migration creates the tables with them, so an entry naming an unknown account fails its insert and the unit rolls back. The model does not enforce these keys; no caller in the core reaches them, since every transfer's legs name accounts that were read from the store.
- Timestamps (`CreatedAt`, `UpdatedAt`, `DeletedAt`, `EffectiveDate`, `BalanceAsOf`): no check or computation depends on them. `Account` copies `CreatedAt` and `UpdatedAt` into its output and stamps `BalanceAsOf` with the clock (`postgresql.go:191`, `:195-196`, `:205`); the model's `AccountInformationOutput` leaves these fields out.
- The `::float` cast in the totals queries: amounts are exact integers, so the rounding of large or fractional decimals is not modelled; fractional amounts are not representable.
- Postgresql.Store.AccountDebitTotal: the id check is the canonical 8-4-4-4-12 form only; the braced, `urn:uuid:` and 32-digit forms that `uuid.Parse` also accepts are rejected.
- Postgresql.Store.AccountCreditTotal: same canonical-form-only id check as the debit total.
- Column defaults other than `Active` (Currency `KSH`, Header `DEPOSIT`, `IsSystemAccount` false): `CreateCustomerAccount` copies the request's header and currency (`money_transfer.go:60-61`), and an empty value there makes the database store the column default, where the model stores the empty string.
- Postgresql.Store.Account: looks accounts up by exact id; the ORM's dropping of an empty id from the filter (which returns the first account) is not modelled.
- `Usecases.Account` (`money_transfer.go:96-98`) only forwards to the repository; it is the same operation as `Postgresql.Store.Account`.
- `NewMoneyTransferUsecases` and `CheckPreconditions`: wiring of interfaces, with nothing to compute.
- Usecases.AccountInformation: requires the currency to be supplied; the source dereferences it without a check and would crash on nil.
- Postgresql.CheckEntries: the source's double-entry test (`postgresql.go:146`) compares the two `decimal.Decimal` structs by representation (the big-integer pointer and the exponent), not by value. Two separately built equal amounts are rejected there as not double entry; the model compares values and accepts them. On the core's only path the two agree, because `Transfer` copies one amount into both legs (`money_transfer.go:135`, `:140`).
- The transfer amount and a snapshot's balance are plain integers in `TransferInput`, so inputs with a nil amount or balance cannot be expressed. In the source, a nil amount with a missing source or destination returns the missing-account error (`money_transfer.go:105-111`). A system source never reads its balance (`:116`). A nil amount from a system source is dereferenced only for a Deposit or Cash header (`:135`, `:140`); otherwise it reaches the recorder as blank legs. A nil amount or balance from a non-system source crashes at the funds check (`:116`).
- Usecases.CreateCustomerAccount: requires a currency only when a deposit is given, since the source returns the missing-deposit error (`money_transfer.go:53-54`) before it dereferences the currency (`:61`); with a deposit and a nil currency the source crashes.
- The `BeforeCreate` hooks and the `TransactionID` stamp mutate the caller's struct in place; they are modelled as functions on values. The reads of those mutations that the core makes are modelled: `CreateAccount` reads back the id the hook set (`postgresql.go:121`, as `created.base.uuid` in `Postgresql.Store.CreateAccount`), and `CreateTransaction` stamps the entries with the new transaction's id and returns that transaction (`:160`, `:170`, as `t.base.uuid` in `Postgresql.Record`). Not modelled are the structs the core creates and never reads again (`accountInfo` at `money_transfer.go:72`, the two legs at `:145`), and the `TransactionID` that stays set on the caller's entries after a rollback (`postgresql.go:160`).
- `BalanceType` is a closed datatype (`Unset`, `Debit`, `Credit`); arbitrary strings in that column are not representable.
- 64-bit range of the Unix clock: the clock is an unbounded integer.
- The HTTP layer, authentication, configuration and concurrent requests: outside the core; no operation is modelled as running concurrently with another.
- `postgresql_test.go`: it exercises an older signature of the repository and states nothing the model uses.
- Postgresql.Store.CreateSystemAccountAsWritten: returns no error because under the as-written hook every insert gets a fresh id, so the duplicate-key branch cannot be reached.

## Findings

| source | as written | input that shows it | evidently intended | confidence | as-written member | corrected member |
|---|---|---|---|---|---|---|
| pkg/moneyTransfer/domain/account.go:73-76 | the account creation hook overwrites every account's id with a new random UUID, so `CreateSystemAccount` stores the system cash account under a random id instead of `ddff1ec2-edb2-4d8e-90f0-115766cace6b` | seeding an empty store: the fixed id is absent afterwards, so `CreateCustomerAccount` cannot find the system cash account and every account opening fails; seeding again adds a second cash account | seed accounts keep their fixed id, and a second seeding skips them as duplicates | medium; not executed | Postgresql.AsWrittenSeedingMissesSystemId | Postgresql.Store.CreateSystemAccount |
