/**
 * The ledger's store: the account, transaction and entry tables held in memory, the balance
 * queries over the entries, and the recorder that writes a transaction with its two entries as
 * one atomic unit.
 */
module Postgresql {
  import opened Outcomes
  import opened Domain
  import opened Application
  import opened Uuid
  import DefaultAccount

  // ---------------------------------------------------------------------------
  // Sums over entries

  /** The sum of the debit amounts posted to account `id`. */
  function DebitTotal(es: seq<AccountEntry>, id: string): int
  {
    if es == [] then 0
    else DebitTotal(es[..|es| - 1], id) + (if es[|es| - 1].accountId == id then es[|es| - 1].debitAmount else 0)
  }

  /** The sum of the credit amounts posted to account `id`. */
  function CreditTotal(es: seq<AccountEntry>, id: string): int
  {
    if es == [] then 0
    else CreditTotal(es[..|es| - 1], id) + (if es[|es| - 1].accountId == id then es[|es| - 1].creditAmount else 0)
  }

  /** The sum of all debit amounts in the store. */
  function AllDebits(es: seq<AccountEntry>): int
  {
    if es == [] then 0 else AllDebits(es[..|es| - 1]) + es[|es| - 1].debitAmount
  }

  /** The sum of all credit amounts in the store. */
  function AllCredits(es: seq<AccountEntry>): int
  {
    if es == [] then 0 else AllCredits(es[..|es| - 1]) + es[|es| - 1].creditAmount
  }

  predicate NoEntriesFor(es: seq<AccountEntry>, id: string) {
    forall k :: 0 <= k < |es| ==> es[k].accountId != id
  }

  /** An account with no entries has zero debits and zero credits. */
  lemma {:induction false} TotalsWithoutEntries(es: seq<AccountEntry>, id: string)
    requires NoEntriesFor(es, id)
    ensures DebitTotal(es, id) == 0 && CreditTotal(es, id) == 0
  {
    if es != [] {
      TotalsWithoutEntries(es[..|es| - 1], id);
    }
  }

  /** The totals of a concatenation are the sums of the totals. */
  lemma {:induction false} TotalsOfConcat(a: seq<AccountEntry>, b: seq<AccountEntry>, id: string)
    ensures DebitTotal(a + b, id) == DebitTotal(a, id) + DebitTotal(b, id)
    ensures CreditTotal(a + b, id) == CreditTotal(a, id) + CreditTotal(b, id)
    decreases |b|
  {
    if b != [] {
      assert (a + b)[..|a + b| - 1] == a + b[..|b| - 1];
      assert (a + b)[|a + b| - 1] == b[|b| - 1];
      TotalsOfConcat(a, b[..|b| - 1], id);
    } else {
      assert a + b == a;
    }
  }

  /** Appending one debit leg and one credit leg changes an account's totals by its own legs only. */
  lemma TotalsAfterPair(es: seq<AccountEntry>, d: AccountEntry, c: AccountEntry, id: string)
    ensures DebitTotal(es + [d, c], id) == DebitTotal(es, id)
      + (if d.accountId == id then d.debitAmount else 0) + (if c.accountId == id then c.debitAmount else 0)
    ensures CreditTotal(es + [d, c], id) == CreditTotal(es, id)
      + (if d.accountId == id then d.creditAmount else 0) + (if c.accountId == id then c.creditAmount else 0)
  {
    assert (es + [d, c])[..|es| + 1] == es + [d];
    assert (es + [d])[..|es|] == es;
  }

  /** The balance of an account of type `bt`: a Credit account reads debits minus credits, any other credits minus debits. */
  function SignedBalance(bt: BalanceType, debits: int, credits: int): (b: int)
    ensures bt == Credit ==> b + credits == debits
    ensures bt != Credit ==> b + debits == credits
  {
    if bt == Credit then debits - credits else credits - debits
  }

  // ---------------------------------------------------------------------------
  // The journal: transactions and their entries

  /** The ids the database generates for a transaction and its two entries. */
  datatype TxIds = TxIds(transaction: string, debitEntry: string, creditEntry: string)

  datatype Journal = Journal(transactions: seq<Transaction>, entries: seq<AccountEntry>)

  /** A successful recording: the new transaction and the journal that holds it. */
  datatype Recorded = Recorded(transaction: Transaction, journal: Journal)

  /** `dr` and `cr` are the debit and credit legs of `t`, for one equal positive amount. */
  predicate DoubleEntry(t: Transaction, dr: AccountEntry, cr: AccountEntry) {
    && dr.transactionId == t.base.uuid
    && cr.transactionId == t.base.uuid
    && dr.debitAmount > 0
    && cr.creditAmount == dr.debitAmount
  }

  /** Every transaction owns two consecutive entries, its debit leg then its credit leg. */
  ghost predicate Paired(j: Journal) {
    && |j.entries| == 2 * |j.transactions|
    && forall i :: 0 <= i < |j.transactions| ==>
         DoubleEntry(j.transactions[i], j.entries[2 * i], j.entries[2 * i + 1])
  }

  /** Each debit leg carries no credit amount and each credit leg no debit amount. */
  ghost predicate OneSided(j: Journal)
    requires |j.entries| == 2 * |j.transactions|
  {
    forall i :: 0 <= i < |j.transactions| ==>
      j.entries[2 * i].creditAmount == 0 && j.entries[2 * i + 1].debitAmount == 0
  }

  /** Double entry: in a paired, one-sided journal all debits equal all credits. */
  lemma {:induction false} PairedJournalBalances(j: Journal)
    requires Paired(j) && OneSided(j)
    ensures AllDebits(j.entries) == AllCredits(j.entries)
    decreases |j.transactions|
  {
    var n := |j.transactions|;
    if n > 0 {
      var es := j.entries;
      var prefix := Journal(j.transactions[..n - 1], es[..2 * n - 2]);
      forall i | 0 <= i < n - 1
        ensures DoubleEntry(prefix.transactions[i], prefix.entries[2 * i], prefix.entries[2 * i + 1])
        ensures prefix.entries[2 * i].creditAmount == 0 && prefix.entries[2 * i + 1].debitAmount == 0
      {
        assert j.transactions[i] == prefix.transactions[i];
      }
      PairedJournalBalances(prefix);
      assert DoubleEntry(j.transactions[n - 1], es[2 * n - 2], es[2 * n - 1]);
      assert es[..2 * n - 1][..2 * n - 2] == es[..2 * n - 2];
      assert es[..|es| - 1] == es[..2 * n - 1];
    }
  }

  /** The recorder's checks, in order: both legs present, debit positive, credit positive, equal. */
  function CheckEntries(dr: Option<AccountEntry>, cr: Option<AccountEntry>): (r: Outcome)
    ensures dr.None? ==> r == Fail(MissingDebitEntry)
    ensures dr.Some? && cr.None? ==> r == Fail(MissingCreditEntry)
    ensures dr.Some? && cr.Some? && dr.value.debitAmount <= 0 ==> r == Fail(NonPositiveDebit)
    ensures dr.Some? && cr.Some? && dr.value.debitAmount > 0 && cr.value.creditAmount <= 0 ==>
      r == Fail(NonPositiveCredit)
    ensures (dr.Some? && cr.Some? && dr.value.debitAmount > 0 && cr.value.creditAmount > 0 &&
             dr.value.debitAmount != cr.value.creditAmount) ==> r == Fail(NotDoubleEntry)
    ensures r.Pass? <==>
      dr.Some? && cr.Some? && dr.value.debitAmount > 0 && cr.value.creditAmount == dr.value.debitAmount
  {
    if dr.None? then Fail(MissingDebitEntry)
    else if cr.None? then Fail(MissingCreditEntry)
    else if ValidateDebitAmount(dr.value).Fail? then ValidateDebitAmount(dr.value)
    else if ValidateCreditAmount(cr.value).Fail? then ValidateCreditAmount(cr.value)
    else if dr.value.debitAmount != cr.value.creditAmount then Fail(NotDoubleEntry)
    else Pass
  }

  predicate TransactionIdFree(ts: seq<Transaction>, id: string) {
    forall k :: 0 <= k < |ts| ==> ts[k].base.uuid != id
  }

  predicate EntryIdFree(es: seq<AccountEntry>, id: string) {
    forall k :: 0 <= k < |es| ==> es[k].base.uuid != id
  }

  /** An id is free in a table with one more row when it is free in the table and differs from that row's. */
  lemma EntryIdFreeAppend(es: seq<AccountEntry>, e: AccountEntry, id: string)
    ensures EntryIdFree(es + [e], id) <==> EntryIdFree(es, id) && e.base.uuid != id
  {
    if EntryIdFree(es, id) && e.base.uuid != id {
      forall k | 0 <= k < |es + [e]| ensures (es + [e])[k].base.uuid != id {
        if k < |es| { assert (es + [e])[k] == es[k]; }
      }
    }
    if EntryIdFree(es + [e], id) {
      assert (es + [e])[|es|] == e;
      forall k | 0 <= k < |es| ensures es[k].base.uuid != id {
        assert (es + [e])[k] == es[k];
      }
    }
  }

  /** No generated id collides with a stored row, nor the two entry ids with each other. */
  predicate IdsFree(j: Journal, ids: TxIds) {
    && TransactionIdFree(j.transactions, ids.transaction)
    && EntryIdFree(j.entries, ids.debitEntry)
    && EntryIdFree(j.entries, ids.creditEntry)
    && ids.debitEntry != ids.creditEntry
  }

  /** The transaction row written for `description` under the generated id. */
  function NewTransaction(description: string, id: string): (t: Transaction)
    ensures t.base == AbstractBase(id, true) && t.description == description
  {
    var t := TransactionBeforeCreate(Transaction(BLANK_BASE, description), id);
    t.(base := ActiveByDefault(t.base))
  }

  /** The row written for entry `e` under the generated id, stamped with its transaction's id. */
  function Posted(e: AccountEntry, id: string, transactionId: string): (p: AccountEntry)
    ensures p.base == AbstractBase(id, true) && p.transactionId == transactionId
    ensures p.(base := e.base, transactionId := e.transactionId) == e
  {
    var p := EntryBeforeCreate(e.(transactionId := transactionId), id);
    p.(base := ActiveByDefault(p.base))
  }

  /**
   * Recording a transaction: the ordered checks, then the transaction row and the two entry rows
   * in one database transaction. A write whose id is already taken fails the whole unit.
   */
  function Record(j: Journal, description: string, dr: Option<AccountEntry>, cr: Option<AccountEntry>, ids: TxIds)
    : (r: Result<Recorded>)
    ensures r.Ok? <==> CheckEntries(dr, cr).Pass? && IdsFree(j, ids)
    ensures CheckEntries(dr, cr).Fail? ==> r == Err(CheckEntries(dr, cr).error)
    ensures CheckEntries(dr, cr).Pass? && !IdsFree(j, ids) ==> r.error.CommitFailed?
    ensures r.Ok? ==>
      && r.value.transaction == NewTransaction(description, ids.transaction)
      && r.value.journal.transactions == j.transactions + [r.value.transaction]
      && r.value.journal.entries == j.entries + [
           Posted(dr.value, ids.debitEntry, ids.transaction),
           Posted(cr.value, ids.creditEntry, ids.transaction)]
  {
    var check := CheckEntries(dr, cr);
    if check.Fail? then Err(check.error)
    else if !TransactionIdFree(j.transactions, ids.transaction) then Err(CommitFailed(TransactionInsertFailed))
    else
      var t := NewTransaction(description, ids.transaction);
      var d := Posted(dr.value, ids.debitEntry, t.base.uuid);
      var c := Posted(cr.value, ids.creditEntry, t.base.uuid);
      EntryIdFreeAppend(j.entries, d, c.base.uuid);
      if !EntryIdFree(j.entries, d.base.uuid) then Err(CommitFailed(EntryInsertFailed))
      else if !EntryIdFree(j.entries + [d], c.base.uuid) then Err(CommitFailed(EntryInsertFailed))
      else Ok(Recorded(t, Journal(j.transactions + [t], j.entries + [d, c])))
  }

  /** A recorded transaction keeps every transaction paired with its two balancing legs. */
  lemma RecordKeepsPairs(j: Journal, description: string, dr: Option<AccountEntry>, cr: Option<AccountEntry>, ids: TxIds)
    requires Paired(j)
    requires Record(j, description, dr, cr, ids).Ok?
    ensures Paired(Record(j, description, dr, cr, ids).value.journal)
  {
    var j' := Record(j, description, dr, cr, ids).value.journal;
    var n := |j.transactions|;
    forall i | 0 <= i < |j'.transactions|
      ensures DoubleEntry(j'.transactions[i], j'.entries[2 * i], j'.entries[2 * i + 1])
    {
      if i < n {
        assert j'.transactions[i] == j.transactions[i];
        assert j'.entries[2 * i] == j.entries[2 * i];
        assert j'.entries[2 * i + 1] == j.entries[2 * i + 1];
      }
    }
  }

  /** Recording one-sided legs keeps the journal one-sided, and so keeps all debits equal to all credits. */
  lemma RecordKeepsBooksBalanced(j: Journal, description: string, dr: Option<AccountEntry>, cr: Option<AccountEntry>, ids: TxIds)
    requires Paired(j) && OneSided(j)
    requires Record(j, description, dr, cr, ids).Ok?
    requires dr.value.creditAmount == 0 && cr.value.debitAmount == 0
    ensures var j' := Record(j, description, dr, cr, ids).value.journal;
      Paired(j') && OneSided(j') && AllDebits(j'.entries) == AllCredits(j'.entries)
  {
    RecordKeepsPairs(j, description, dr, cr, ids);
    var j' := Record(j, description, dr, cr, ids).value.journal;
    var n := |j.transactions|;
    forall i | 0 <= i < |j'.transactions|
      ensures j'.entries[2 * i].creditAmount == 0 && j'.entries[2 * i + 1].debitAmount == 0
    {
      if i < n {
        assert j'.entries[2 * i] == j.entries[2 * i];
        assert j'.entries[2 * i + 1] == j.entries[2 * i + 1];
      }
    }
    PairedJournalBalances(j');
  }

  /**
   * The recorder checks only the debit leg's debit amount and the credit leg's credit amount, so
   * legs that carry an amount on their other side are recorded too and unbalance the books.
   */
  lemma RecordAcceptsTwoSidedLegs(ids: TxIds)
    requires ids.debitEntry != ids.creditEntry
    ensures var dr := AccountEntry(BLANK_BASE, 5, 3, "", "");
      var cr := AccountEntry(BLANK_BASE, 0, 5, "", "");
      var out := Record(Journal([], []), "", Some(dr), Some(cr), ids);
      && out.Ok?
      && Paired(out.value.journal)
      && AllDebits(out.value.journal.entries) == 5 && AllCredits(out.value.journal.entries) == 8
  {
    var dr := AccountEntry(BLANK_BASE, 5, 3, "", "");
    var cr := AccountEntry(BLANK_BASE, 0, 5, "", "");
    RecordKeepsPairs(Journal([], []), "", Some(dr), Some(cr), ids);
    var es := Record(Journal([], []), "", Some(dr), Some(cr), ids).value.journal.entries;
    assert |es| == 2 && es[0].debitAmount == 5 && es[0].creditAmount == 3;
    assert es[1].debitAmount == 0 && es[1].creditAmount == 5;
    assert es[..1] == [es[0]] && [es[0]][..0] == [];
    assert AllDebits(es[..1]) == 5 && AllCredits(es[..1]) == 3;
  }

  /** A recorded transaction moves each account's totals by that account's legs and nothing else. */
  lemma RecordMovesTotals(j: Journal, description: string, dr: Option<AccountEntry>, cr: Option<AccountEntry>, ids: TxIds, id: string)
    requires Record(j, description, dr, cr, ids).Ok?
    ensures var es := Record(j, description, dr, cr, ids).value.journal.entries;
      && DebitTotal(es, id) == DebitTotal(j.entries, id)
           + (if dr.value.accountId == id then dr.value.debitAmount else 0)
           + (if cr.value.accountId == id then cr.value.debitAmount else 0)
      && CreditTotal(es, id) == CreditTotal(j.entries, id)
           + (if dr.value.accountId == id then dr.value.creditAmount else 0)
           + (if cr.value.accountId == id then cr.value.creditAmount else 0)
  {
    var d := Posted(dr.value, ids.debitEntry, ids.transaction);
    var c := Posted(cr.value, ids.creditEntry, ids.transaction);
    TotalsAfterPair(j.entries, d, c, id);
  }

  // ---------------------------------------------------------------------------
  // Seeding the system accounts

  /** Every stored account is filed under its own id. */
  ghost predicate KeyedById(m: map<string, Account>) {
    forall id :: id in m ==> m[id].base.uuid == id
  }

  /** Inserting one seed account: an id already present is skipped as a duplicate key. */
  function SeedStep(m: map<string, Account>, a: Account): (r: map<string, Account>)
    ensures a.base.uuid in r && m.Keys <= r.Keys
    ensures a.base.uuid in m ==> r == m
    ensures forall id :: id in m ==> r[id] == m[id]
  {
    if a.base.uuid in m then m else m[a.base.uuid := a.(base := ActiveByDefault(a.base))]
  }

  /** Inserting the seed accounts in order, keeping each one's own id. */
  function SeedInto(m: map<string, Account>, seeds: seq<Account>): (r: map<string, Account>)
    ensures m.Keys <= r.Keys
    ensures forall id :: id in m ==> r[id] == m[id]
    ensures forall k :: 0 <= k < |seeds| ==> seeds[k].base.uuid in r
    ensures KeyedById(m) ==> KeyedById(r)
  {
    if seeds == [] then m
    else
      var r := SeedStep(SeedInto(m, seeds[..|seeds| - 1]), seeds[|seeds| - 1]);
      assert forall k :: 0 <= k < |seeds| - 1 ==> seeds[k] == seeds[..|seeds| - 1][k];
      r
  }

  /** Seeding a store that already holds every seed id changes nothing. */
  lemma {:induction false} SeedIntoPresent(m: map<string, Account>, seeds: seq<Account>)
    requires forall k :: 0 <= k < |seeds| ==> seeds[k].base.uuid in m
    ensures SeedInto(m, seeds) == m
  {
    if seeds != [] {
      var front := seeds[..|seeds| - 1];
      assert forall k :: 0 <= k < |front| ==> front[k] == seeds[k];
      SeedIntoPresent(m, front);
    }
  }

  /** Seeding is idempotent: a second run finds every seed account present and skips it. */
  lemma SeedingIsIdempotent(m: map<string, Account>, seeds: seq<Account>)
    ensures SeedInto(SeedInto(m, seeds), seeds) == SeedInto(m, seeds)
  {
    SeedIntoPresent(SeedInto(m, seeds), seeds);
  }

  /** Inserting seed accounts through the account creation hook, which replaces each id and number. */
  function SeedAsWrittenInto(m: map<string, Account>, seeds: seq<Account>, freshIds: seq<string>, now: int)
    : (r: map<string, Account>)
    requires |freshIds| == |seeds|
    ensures m.Keys <= r.Keys
    ensures forall id :: id in r ==> id in m || id in freshIds
    ensures KeyedById(m) ==> KeyedById(r)
  {
    if seeds == [] then m
    else
      var n := |seeds| - 1;
      var prev := SeedAsWrittenInto(m, seeds[..n], freshIds[..n], now);
      assert forall id :: id in freshIds[..n] ==> id in freshIds;
      var a := AccountBeforeCreate(seeds[n], freshIds[n], now);
      var stored := a.(base := ActiveByDefault(a.base));
      assert stored.base.uuid == freshIds[n];
      if a.base.uuid in prev then prev else prev[a.base.uuid := stored]
  }

  /** As written, seeding a store without the system cash account still leaves it without one. */
  lemma AsWrittenSeedingMissesSystemId(m: map<string, Account>, freshId: string, now: int)
    requires DefaultAccount.SYSTEM_CASH_ACCOUNT !in m
    requires freshId != DefaultAccount.SYSTEM_CASH_ACCOUNT
    ensures DefaultAccount.SYSTEM_CASH_ACCOUNT !in SeedAsWrittenInto(m, DefaultAccount.SystemAccounts(), [freshId], now)
  {
  }

  /** As written, seeding twice adds a second system cash account instead of skipping the first. */
  lemma AsWrittenSeedingIsNotIdempotent(id1: string, id2: string, now: int)
    requires id1 != id2
    ensures var once := SeedAsWrittenInto(map[], DefaultAccount.SystemAccounts(), [id1], now);
      |SeedAsWrittenInto(once, DefaultAccount.SystemAccounts(), [id2], now).Keys| == 2
  {
    var once := SeedAsWrittenInto(map[], DefaultAccount.SystemAccounts(), [id1], now);
    assert once.Keys == {id1};
    var twice := SeedAsWrittenInto(once, DefaultAccount.SystemAccounts(), [id2], now);
    assert twice.Keys == {id1, id2};
  }

  /** The stored system cash account is there, marked as a system account, under the Cash header. */
  ghost predicate SystemCashReady(m: map<string, Account>) {
    var id := DefaultAccount.SYSTEM_CASH_ACCOUNT;
    id in m && m[id].base.uuid == id && m[id].isSystemAccount && m[id].header == CASH
  }

  /** The corrected seeding makes the system cash account available to fund customer accounts. */
  lemma SeedingReadiesSystemCash(m: map<string, Account>)
    requires KeyedById(m)
    requires DefaultAccount.SYSTEM_CASH_ACCOUNT !in m
    ensures SystemCashReady(SeedInto(m, DefaultAccount.SystemAccounts()))
  {
    var seeds := DefaultAccount.SystemAccounts();
    assert seeds[..0] == [];
  }

  // ---------------------------------------------------------------------------
  // The store

  /** The account stored when `a` is created with a generated id at Unix time `now`. */
  function Created(a: Account, freshId: string, now: int): (s: Account)
    ensures s.base == AbstractBase(freshId, true) && s.number == AccountNumber(now)
    ensures s.(base := a.base, number := a.number) == a
  {
    var c := AccountBeforeCreate(a, freshId, now);
    c.(base := ActiveByDefault(c.base))
  }

  /** The in-memory replacement of the PostgreSQL tables and the repository over them. */
  class Store {
    var accounts: map<string, Account>
    var transactions: seq<Transaction>
    var entries: seq<AccountEntry>

    ghost predicate Valid()
      reads this
    {
      KeyedById(accounts) && Paired(Journal(transactions, entries))
    }

    function Books(): Journal
      reads this
    {
      Journal(transactions, entries)
    }

    constructor ()
      ensures Valid()
      ensures accounts == map[] && transactions == [] && entries == []
    {
      accounts, transactions, entries := map[], [], [];
    }

    /** The sum of the account's debits; fails for an id that is not a UUID. */
    function AccountDebitTotal(account: Account): (r: Result<int>)
      reads this
      ensures r.Err? <==> !ValidUuid(account.base.uuid)
      ensures r.Err? ==> r.error == InvalidUuid(account.base.uuid)
      ensures r.Ok? ==> r.value == DebitTotal(entries, account.base.uuid)
      ensures r.Ok? && NoEntriesFor(entries, account.base.uuid) ==> r.value == 0
    {
      if !ValidUuid(account.base.uuid) then Err(InvalidUuid(account.base.uuid))
      else
        var total := DebitTotal(entries, account.base.uuid);
        assert NoEntriesFor(entries, account.base.uuid) ==> total == 0 by {
          if NoEntriesFor(entries, account.base.uuid) { TotalsWithoutEntries(entries, account.base.uuid); }
        }
        Ok(total)
    }

    /** The sum of the account's credits; fails for an id that is not a UUID. */
    function AccountCreditTotal(account: Account): (r: Result<int>)
      reads this
      ensures r.Err? <==> !ValidUuid(account.base.uuid)
      ensures r.Err? ==> r.error == InvalidUuid(account.base.uuid)
      ensures r.Ok? ==> r.value == CreditTotal(entries, account.base.uuid)
      ensures r.Ok? && NoEntriesFor(entries, account.base.uuid) ==> r.value == 0
    {
      if !ValidUuid(account.base.uuid) then Err(InvalidUuid(account.base.uuid))
      else
        var total := CreditTotal(entries, account.base.uuid);
        assert NoEntriesFor(entries, account.base.uuid) ==> total == 0 by {
          if NoEntriesFor(entries, account.base.uuid) { TotalsWithoutEntries(entries, account.base.uuid); }
        }
        Ok(total)
    }

    /** The account's balance under its balance type's sign rule. */
    function AccountBalance(account: Option<Account>): (r: Result<int>)
      reads this
      ensures account.None? ==> r == Err(AccountNotSupplied)
      ensures account.Some? ==> (r.Ok? <==> ValidUuid(account.value.base.uuid))
      ensures account.Some? && r.Err? ==> r.error == InvalidUuid(account.value.base.uuid)
      ensures r.Ok? ==> r.value == SignedBalance(account.value.balanceType,
        DebitTotal(entries, account.value.base.uuid), CreditTotal(entries, account.value.base.uuid))
    {
      if account.None? then Err(AccountNotSupplied)
      else
        var debits := AccountDebitTotal(account.value);
        if debits.Err? then Err(debits.error)
        else
          // the credit total checks the same id, so it cannot fail once the debit total did not
          var credits := AccountCreditTotal(account.value);
          Ok(SignedBalance(account.value.balanceType, debits.value, credits.value))
    }

    /** The stored account with the given id and its current balance. */
    function Account(id: string): (r: Result<AccountInformationOutput>)
      reads this
      ensures id !in accounts ==> r == Err(AccountNotFound(id))
      ensures id in accounts ==> (r.Ok? <==> ValidUuid(accounts[id].base.uuid))
      ensures id in accounts && r.Err? ==> r.error == BalanceUnavailable(InvalidUuid(accounts[id].base.uuid))
      ensures r.Ok? ==> id in accounts && Describes(r.value, accounts[id])
      ensures r.Ok? ==> r.value.balance == SignedBalance(accounts[id].balanceType,
        DebitTotal(entries, accounts[id].base.uuid), CreditTotal(entries, accounts[id].base.uuid))
    {
      if id !in accounts then Err(AccountNotFound(id))
      else match AccountBalance(Some(accounts[id]))
        case Err(e) => Err(BalanceUnavailable(e))
        case Ok(balance) => Ok(Output(accounts[id], balance))
    }

    /** Inserts an account under a generated id and number, then reads it back. */
    method CreateAccount(account: Option<Domain.Account>, freshId: string, now: int)
      returns (r: Result<AccountInformationOutput>)
      requires Valid()
      modifies this
      ensures Valid() && Books() == old(Books())
      ensures account.None? ==> r == Err(MissingAccountInformation) && accounts == old(accounts)
      ensures account.Some? && freshId in old(accounts) ==>
        r == Err(AccountInsertFailed) && accounts == old(accounts)
      ensures account.Some? && freshId !in old(accounts) ==>
        && accounts == old(accounts)[freshId := Created(account.value, freshId, now)]
        && r == Account(freshId)
    {
      if account.None? {
        return Err(MissingAccountInformation);
      }
      var created := Created(account.value, freshId, now);
      if created.base.uuid in accounts {
        return Err(AccountInsertFailed);
      }
      accounts := accounts[created.base.uuid := created];
      r := Account(created.base.uuid);
    }

    /**
     * Writes a transaction and its two entries as one unit, after the ordered checks. The rows are
     * staged and committed together; a failed write leaves the stored rows as they were.
     */
    method CreateTransaction(description: string, dr: Option<AccountEntry>, cr: Option<AccountEntry>, ids: TxIds)
      returns (r: Result<Transaction>)
      requires Valid()
      modifies this
      ensures Valid() && accounts == old(accounts)
      ensures var out := Record(old(Books()), description, dr, cr, ids);
        && (out.Err? ==> r == Err(out.error) && Books() == old(Books()))
        && (out.Ok? ==> r == Ok(out.value.transaction) && Books() == out.value.journal)
    {
      var check := CheckEntries(dr, cr);
      if check.Fail? {
        return Err(check.error);
      }
      if !TransactionIdFree(transactions, ids.transaction) {
        return Err(CommitFailed(TransactionInsertFailed));
      }
      var transaction := NewTransaction(description, ids.transaction);
      var pending := [dr.value, cr.value];
      var entryIds := [ids.debitEntry, ids.creditEntry];
      var staged := entries;
      var i := 0;
      while i < |pending|
        invariant 0 <= i <= 2
        invariant |staged| == |entries| + i && staged[..|entries|] == entries
        invariant forall k :: |entries| <= k < |staged| ==>
          staged[k] == Posted(pending[k - |entries|], entryIds[k - |entries|], transaction.base.uuid)
        invariant i >= 1 ==> EntryIdFree(entries, ids.debitEntry)
        invariant i == 2 ==> EntryIdFree(staged[..|entries| + 1], ids.creditEntry)
      {
        var entry := Posted(pending[i], entryIds[i], transaction.base.uuid);
        if !EntryIdFree(staged, entry.base.uuid) {
          if i == 0 {
            assert staged == entries;
          } else {
            assert staged == entries + [staged[|entries|]];
            EntryIdFreeAppend(entries, staged[|entries|], ids.creditEntry);
          }
          assert !IdsFree(Books(), ids);
          return Err(CommitFailed(EntryInsertFailed));
        }
        staged := staged + [entry];
        i := i + 1;
      }
      ghost var d := Posted(dr.value, ids.debitEntry, ids.transaction);
      ghost var c := Posted(cr.value, ids.creditEntry, ids.transaction);
      assert staged[|entries|] == d && staged[|entries| + 1] == c;
      assert staged == entries + [d, c];
      assert EntryIdFree(entries + [staged[|entries|]], ids.creditEntry) by {
        assert entries + [staged[|entries|]] == staged[..|entries| + 1];
      }
      EntryIdFreeAppend(entries, staged[|entries|], ids.creditEntry);
      assert IdsFree(Books(), ids);
      RecordKeepsPairs(Books(), description, dr, cr, ids);
      transactions, entries := transactions + [transaction], staged;
      r := Ok(transaction);
    }

    /** Inserts the system accounts under their fixed ids, skipping any already present. */
    method CreateSystemAccount()
      requires Valid()
      modifies this
      ensures Valid() && Books() == old(Books())
      ensures accounts == SeedInto(old(accounts), DefaultAccount.SystemAccounts())
    {
      var seeds := DefaultAccount.SystemAccounts();
      var i := 0;
      while i < |seeds|
        invariant 0 <= i <= |seeds|
        invariant Valid() && Books() == old(Books())
        invariant accounts == SeedInto(old(accounts), seeds[..i])
      {
        assert seeds[..i + 1][..i] == seeds[..i];
        var seed := seeds[i];
        if seed.base.uuid !in accounts {
          accounts := accounts[seed.base.uuid := seed.(base := ActiveByDefault(seed.base))];
        }
        i := i + 1;
      }
      assert seeds[..i] == seeds;
    }

    /** Seeding as the source writes it: each insert goes through the account creation hook. */
    method CreateSystemAccountAsWritten(freshIds: seq<string>, now: int)
      requires Valid()
      requires |freshIds| == |DefaultAccount.SystemAccounts()|
      modifies this
      ensures Valid() && Books() == old(Books())
      ensures accounts == SeedAsWrittenInto(old(accounts), DefaultAccount.SystemAccounts(), freshIds, now)
    {
      var seeds := DefaultAccount.SystemAccounts();
      var i := 0;
      while i < |seeds|
        invariant 0 <= i <= |seeds|
        invariant Valid() && Books() == old(Books())
        invariant accounts == SeedAsWrittenInto(old(accounts), seeds[..i], freshIds[..i], now)
      {
        assert seeds[..i + 1][..i] == seeds[..i];
        assert freshIds[..i + 1][..i] == freshIds[..i];
        var account := AccountBeforeCreate(seeds[i], freshIds[i], now);
        if account.base.uuid !in accounts {
          accounts := accounts[account.base.uuid := account.(base := ActiveByDefault(account.base))];
        }
        i := i + 1;
      }
      assert seeds[..i] == seeds && freshIds[..i] == freshIds;
    }
  }
}
