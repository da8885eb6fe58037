/**
 * The ledger: the `accounts` and `transactions` tables as a mutable store and
 * the `*_db` operations of lib.rs that change them, each one an SQLite
 * transaction (an error leaves the store as it was).
 *
 * The store keeps four invariants (`Store.Valid`): every transaction belongs
 * to an existing account; every account balance equals the sum of its
 * transactions' amounts; every link between the two legs of a transfer is
 * symmetric; and account names are trimmed, non-empty and unique ignoring
 * ASCII case.
 */
module Ledger {
  import opened Wrappers
  import opened Text
  import opened Records
  import opened Rows
  import opened Links
  import opened Investments

  /** The category `create_investment_transaction_db` gives its rows. */
  const InvestmentCategory: string := "Investment"

  /** SQLite's choice of a new rowid: one more than the largest in use, 1 in an empty table. */
  predicate IsNextRowId(keys: set<int>, id: int)
  {
    && (forall k | k in keys :: k < id)
    && (if keys == {} then id == 1 else id - 1 in keys)
  }

  /** Every non-empty set of row ids has a largest element. */
  lemma {:induction false} LargestKeyExists(keys: set<int>)
    requires keys != {}
    ensures exists m :: m in keys && forall k | k in keys :: k <= m
    decreases keys
  {
    var x := Pick(keys);
    var rest := keys - {x};
    var top := x;
    if rest != {} {
      LargestKeyExists(rest);
      var m :| m in rest && forall k | k in rest :: k <= m;
      top := if x <= m then m else x;
    }
    forall k | k in keys ensures k <= top {
      assert k == x || k in rest;
    }
    assert top in keys;
  }

  /** The rowid SQLite gives the next row inserted into a table holding `keys`. */
  method NextRowId(keys: set<int>) returns (id: int)
    ensures IsNextRowId(keys, id)
  {
    if keys == {} {
      id := 1;
    } else {
      LargestKeyExists(keys);
      var m :| m in keys && forall k | k in keys :: k <= m;
      id := m + 1;
    }
  }

  /** Two rows inserted one after the other get consecutive ids. */
  lemma ConsecutiveRowIds(keys: set<int>, a: int, b: int)
    requires IsNextRowId(keys, a) && IsNextRowId(keys + {a}, b)
    ensures b == a + 1 && a !in keys
  {
  }

  /** Some element of a non-empty set: the row a `LIMIT 1` query without `ORDER BY` returns. */
  method Choose(s: set<int>) returns (x: int)
    requires s != {}
    ensures x in s
  {
    if forall y :: y !in s {
      assert false;
    }
    x :| x in s;
  }

  /** `UPDATE accounts SET balance = balance + x WHERE id = a` on an existing account. */
  function Credit(accounts: map<int, AccountRow>, a: int, x: real): (r: map<int, AccountRow>)
    requires a in accounts
  {
    accounts[a := accounts[a].(balance := accounts[a].balance + x)]
  }

  /** The name column of the accounts table. */
  ghost function Names(accounts: map<int, AccountRow>): map<int, string>
  {
    map a | a in accounts :: accounts[a].name
  }

  /** Names are trimmed, non-empty, and no two are equal ignoring ASCII case. */
  ghost predicate ValidNames(names: map<int, string>)
  {
    && (forall a | a in names :: names[a] != [] && IsTrimmed(names[a]))
    && (forall a, b | a in names && b in names && a != b :: !SameIgnoringCase(names[a], names[b]))
  }

  /** The account names satisfy `ValidNames`. */
  ghost predicate NamesValid(accounts: map<int, AccountRow>)
  {
    ValidNames(Names(accounts))
  }

  /** A balance change leaves the names as they were. */
  lemma CreditKeepsNames(accounts: map<int, AccountRow>, a: int, x: real)
    requires a in accounts
    ensures Names(Credit(accounts, a, x)) == Names(accounts)
  {
    assert Names(Credit(accounts, a, x)).Keys == Names(accounts).Keys;
  }

  /** Some account other than `self` has a name equal to `n` ignoring ASCII case. */
  ghost predicate NameTaken(accounts: map<int, AccountRow>, n: string, self: Option<int>)
  {
    exists b | b in accounts :: Some(b) != self && SameIgnoringCase(accounts[b].name, n)
  }

  /** Giving account `id` a name no other account has (ignoring case) keeps names valid. */
  lemma NamedKeepsNamesValid(accounts: map<int, AccountRow>, id: int, row: AccountRow)
    requires NamesValid(accounts)
    requires row.name != [] && IsTrimmed(row.name) && !NameTaken(accounts, row.name, Some(id))
    ensures NamesValid(accounts[id := row])
  {
    var n, n' := Names(accounts), Names(accounts[id := row]);
    forall a, b | a in n' && b in n' && a != b ensures !SameIgnoringCase(n'[a], n'[b]) {
      if a == id {
        assert n'[b] == n[b] && !SameIgnoringCase(accounts[b].name, row.name);
      } else if b == id {
        assert n'[a] == n[a] && !SameIgnoringCase(accounts[a].name, row.name);
      } else {
        assert n'[a] == n[a] && n'[b] == n[b];
      }
    }
    forall a | a in n' ensures n'[a] != [] && IsTrimmed(n'[a]) {
      if a != id {
        assert n'[a] == n[a];
      }
    }
  }

  /** Removing an account keeps the other names valid. */
  lemma RemovingKeepsNamesValid(accounts: map<int, AccountRow>, id: int)
    requires NamesValid(accounts)
    ensures NamesValid(accounts - {id})
  {
    var n, n' := Names(accounts), Names(accounts - {id});
    assert forall a | a in n' :: a in n && n'[a] == n[a];
  }

  /** The accounts `SELECT id FROM accounts WHERE LOWER(name) = LOWER(n)` returns. */
  function NameClashes(accounts: map<int, AccountRow>, n: string): set<int>
  {
    set a | a in accounts && SameIgnoringCase(accounts[a].name, n)
  }

  /** With unique names at most one account clashes with any given name. */
  lemma ClashesAtMostOne(accounts: map<int, AccountRow>, n: string, a: int, b: int)
    requires NamesValid(accounts)
    requires a in NameClashes(accounts, n) && b in NameClashes(accounts, n)
    ensures a == b
  {
    if a != b {
      assert Lower(accounts[a].name) == Lower(n) == Lower(accounts[b].name);
      assert SameIgnoringCase(Names(accounts)[a], Names(accounts)[b]);
    }
  }

  /** The accounts `SELECT id FROM accounts WHERE name = payee AND id != self` returns. */
  function TransferTargets(accounts: map<int, AccountRow>, payee: string, self: int): set<int>
  {
    set t | t in accounts && t != self && accounts[t].name == payee
  }

  /** With unique names a payee names at most one other account. */
  lemma TransferTargetsAtMostOne(accounts: map<int, AccountRow>, payee: string, self: int, a: int, b: int)
    requires NamesValid(accounts)
    requires a in TransferTargets(accounts, payee, self) && b in TransferTargets(accounts, payee, self)
    ensures a == b
  {
    if a != b {
      assert SameIgnoringCase(Names(accounts)[a], Names(accounts)[b]);
    }
  }

  /** A transaction as handed back to the UI, from its id and stored row. */
  function AsTransaction(id: int, t: TxRow): (r: Transaction)
  {
    Transaction(id, t.account, t.date, t.payee, t.notes, t.category, t.amount,
                t.ticker, t.shares, t.pricePerShare, t.fee, t.currency)
  }

  /** The row `create_account_db` inserts for a non-zero opening balance. */
  function OpeningRow(account: int, balance: real, currency: Option<string>, today: string): TxRow
  {
    TxRow(account, today, "Opening Balance", Some("Initial Balance"), Some("Income"), balance,
          None, None, None, None, currency, None)
  }

  /**
   * The leg `create_transaction_db` inserts on the target account of a transfer recorded as `source`
   * on the account named `sourceName`.
   */
  function MirrorRow(source: TxRow, target: int, sourceName: string): TxRow
  {
    TxRow(target, source.date, sourceName, source.notes, Some(TransferCategory), -source.amount,
          None, None, None, None, None, None)
  }

  /** What a row update moves between balances: it leaves the old account and lands on the new one. */
  function Moved(before: TxRow, after: TxRow, a: int): real
  {
    Contribution(after, a) - Contribution(before, a)
  }

  /** `after` differs from `before` in balances at most. */
  ghost predicate OnlyBalancesChanged(before: map<int, AccountRow>, after: map<int, AccountRow>)
  {
    && before.Keys == after.Keys
    && forall a | a in before :: after[a] == before[a].(balance := after[a].balance)
  }

  /** Account tables with the same ids and the same row under each are equal. */
  lemma SameRowsSameAccounts(before: map<int, AccountRow>, after: map<int, AccountRow>)
    requires before.Keys == after.Keys
    requires forall a | a in before :: after[a] == before[a]
    ensures after == before
  {
    forall a | a in after ensures a in before && after[a] == before[a] {
      assert a in after.Keys;
    }
  }

  class Store {
    var accounts: map<int, AccountRow>
    var txs: map<int, TxRow>

    /** The store's invariant: `Booked` and every transfer link symmetric. */
    ghost predicate Valid()
      reads this
    {
      Booked() && Symmetric(txs)
    }

    /** Rows belong to existing accounts, balances equal row totals, and names are valid. */
    ghost predicate Booked()
      reads this
    {
      && (forall k | k in txs :: txs[k].account in accounts)
      && (forall a | a in accounts :: accounts[a].balance == AccountSum(txs, a))
      && NamesValid(accounts)
    }

    /** A fresh database: both tables empty. */
    constructor()
      ensures Valid() && accounts == map[] && txs == map[]
    {
      accounts := map[];
      txs := map[];
    }

    // ---- single SQL statements ----

    /** `UPDATE accounts SET balance = balance + x WHERE id = a` (no matching row: no change). */
    method AddToBalance(a: int, x: real)
      modifies this
      ensures txs == old(txs)
      ensures accounts == if a in old(accounts) then Credit(old(accounts), a, x) else old(accounts)
      ensures Names(accounts) == Names(old(accounts))
    {
      if a in accounts {
        CreditKeepsNames(accounts, a, x);
        accounts := Credit(accounts, a, x);
      }
    }

    /** `INSERT INTO transactions ...`, returning `last_insert_rowid()`. */
    method InsertRow(row: TxRow) returns (id: int)
      modifies this
      ensures accounts == old(accounts)
      ensures IsNextRowId(old(txs).Keys, id) && txs == old(txs)[id := row]
      ensures forall a :: AccountSum(txs, a) == old(AccountSum(txs, a)) + Contribution(row, a)
    {
      id := NextRowId(txs.Keys);
      txs := txs[id := row];
      forall a ensures AccountSum(txs, a) == old(AccountSum(txs, a)) + Contribution(row, a) {
        SumInsert(old(txs), id, row, a);
      }
    }

    /** `DELETE FROM transactions WHERE id = k`. */
    method RemoveRow(k: int)
      requires k in txs
      modifies this
      ensures accounts == old(accounts) && txs == old(txs) - {k}
      ensures forall a :: AccountSum(txs, a) == old(AccountSum(txs, a)) - Contribution(old(txs)[k], a)
    {
      txs := txs - {k};
      forall a ensures AccountSum(txs, a) == old(AccountSum(txs, a)) - Contribution(old(txs)[k], a) {
        SumDelete(old(txs), k, a);
      }
    }

    /** `UPDATE transactions SET ... WHERE id = k`. */
    method RewriteRow(k: int, row: TxRow)
      requires k in txs
      modifies this
      ensures accounts == old(accounts) && txs == old(txs)[k := row]
      ensures forall a :: AccountSum(txs, a) == old(AccountSum(txs, a)) - Contribution(old(txs)[k], a) + Contribution(row, a)
    {
      txs := txs[k := row];
      forall a ensures AccountSum(txs, a) == old(AccountSum(txs, a)) - Contribution(old(txs)[k], a) + Contribution(row, a) {
        SumReplace(old(txs), k, row, a);
      }
    }

    /** The duplicate-name check shared by create, rename and update of an account. */
    method CheckName(name: string, self: Option<int>) returns (r: Result<string, LedgerError>)
      requires NamesValid(accounts)
      ensures r == Err(EmptyName) <==> Trim(name) == []
      ensures r == Err(DuplicateName) <==> Trim(name) != [] && NameTaken(accounts, Trim(name), self)
      ensures r.Err? ==> r.error == EmptyName || r.error == DuplicateName
      ensures r.Ok? ==> r.value == Trim(name) && r.value != [] && IsTrimmed(r.value)
    {
      var trimmed := Trim(name);
      TrimIsTrimmedInfix(name);
      if trimmed == [] {
        return Err(EmptyName);
      }
      var clashes := NameClashes(accounts, trimmed);
      if clashes != {} {
        var existing := Choose(clashes);
        if Some(existing) != self {
          assert existing in accounts && SameIgnoringCase(accounts[existing].name, trimmed);
          return Err(DuplicateName);
        }
        forall b | b in clashes ensures b == existing {
          ClashesAtMostOne(accounts, trimmed, b, existing);
        }
      }
      forall b | b in accounts && Some(b) != self ensures !SameIgnoringCase(accounts[b].name, trimmed) {
        assert b !in clashes;
      }
      r := Ok(trimmed);
    }

    // ---- accounts ----

    /** `create_account_db`: a new account, with an opening-balance transaction when `balance` is not zero. */
    method CreateAccount(name: string, balance: real, currency: Option<string>, today: string)
      returns (r: Result<Account, LedgerError>, ghost opening: Option<int>)
      requires Valid()
      modifies this
      ensures Valid()
      ensures r == Err(EmptyName) <==> Trim(name) == []
      ensures r == Err(DuplicateName) <==> Trim(name) != [] && old(NameTaken(accounts, Trim(name), None))
      ensures r.Err? ==> (r.error == EmptyName || r.error == DuplicateName) && accounts == old(accounts) && txs == old(txs)
      ensures r.Ok? ==>
        && IsNextRowId(old(accounts).Keys, r.value.id)
        && r.value == Account(r.value.id, Trim(name), balance, currency, 1.0)
        && accounts == old(accounts)[r.value.id := AccountRow(Trim(name), balance, currency)]
      ensures r.Ok? && balance == 0.0 ==> opening == None && txs == old(txs)
      ensures r.Ok? && balance != 0.0 ==>
        && opening.Some? && IsNextRowId(old(txs).Keys, opening.value)
        && txs == old(txs)[opening.value := OpeningRow(r.value.id, balance, currency, today)]
    {
      var checked := CheckName(name, None);
      if checked.Err? {
        return Err(checked.error), None;
      }
      var id;
      id, opening := AddAccount(checked.value, balance, currency, today);
      r := Ok(Account(id, checked.value, balance, currency, 1.0));
    }

    /** The two `INSERT`s of `create_account_db`, once the name has passed its checks. */
    method AddAccount(name: string, balance: real, currency: Option<string>, today: string)
      returns (id: int, ghost opening: Option<int>)
      requires Valid()
      requires name != [] && IsTrimmed(name) && !NameTaken(accounts, name, None)
      modifies this
      ensures Valid()
      ensures IsNextRowId(old(accounts).Keys, id)
      ensures accounts == old(accounts)[id := AccountRow(name, balance, currency)]
      ensures balance == 0.0 ==> opening == None && txs == old(txs)
      ensures balance != 0.0 ==>
        && opening.Some? && IsNextRowId(old(txs).Keys, opening.value)
        && txs == old(txs)[opening.value := OpeningRow(id, balance, currency, today)]
    {
      opening := None;
      id := NextRowId(accounts.Keys);
      SumOfNoRows(txs, id);
      NamedKeepsNamesValid(accounts, id, AccountRow(name, balance, currency));
      accounts := accounts[id := AccountRow(name, balance, currency)];
      if balance != 0.0 {
        ghost var before := txs;
        var t := InsertRow(OpeningRow(id, balance, currency, today));
        InsertingUnlinkedKeepsSymmetric(before, t, OpeningRow(id, balance, currency, today));
        opening := Some(t);
      }
    }

    /** `rename_account_db`. */
    method RenameAccount(id: int, newName: string) returns (r: Result<Account, LedgerError>)
      requires Valid()
      modifies this
      ensures Valid() && txs == old(txs)
      ensures r == Err(EmptyName) <==> Trim(newName) == []
      ensures r == Err(DuplicateName) <==> Trim(newName) != [] && old(NameTaken(accounts, Trim(newName), Some(id)))
      ensures r == Err(NotFound) <==>
        Trim(newName) != [] && !old(NameTaken(accounts, Trim(newName), Some(id))) && id !in old(accounts)
      ensures r.Err? ==> r.error != UnknownAccount && accounts == old(accounts)
      ensures r.Ok? ==>
        && id in old(accounts)
        && accounts == old(accounts)[id := old(accounts)[id].(name := Trim(newName))]
        && r.value == Account(id, Trim(newName), accounts[id].balance, accounts[id].currency, 1.0)
    {
      var checked := CheckName(newName, Some(id));
      if checked.Err? {
        return Err(checked.error);
      }
      if id !in accounts {
        return Err(NotFound);
      }
      SetAccount(id, accounts[id].(name := checked.value));
      r := Ok(Account(id, checked.value, accounts[id].balance, accounts[id].currency, 1.0));
    }

    /** `UPDATE accounts SET ... WHERE id = id` with a name that has passed the checks and the balance kept. */
    method SetAccount(id: int, row: AccountRow)
      requires Valid() && id in accounts && row.balance == accounts[id].balance
      requires row.name != [] && IsTrimmed(row.name) && !NameTaken(accounts, row.name, Some(id))
      modifies this
      ensures Valid() && txs == old(txs) && accounts == old(accounts)[id := row]
    {
      NamedKeepsNamesValid(accounts, id, row);
      accounts := accounts[id := row];
    }

    /** `update_account_db`: rename and set the currency. */
    method UpdateAccount(id: int, name: string, currency: Option<string>) returns (r: Result<Account, LedgerError>)
      requires Valid()
      modifies this
      ensures Valid() && txs == old(txs)
      ensures r == Err(EmptyName) <==> Trim(name) == []
      ensures r == Err(DuplicateName) <==> Trim(name) != [] && old(NameTaken(accounts, Trim(name), Some(id)))
      ensures r == Err(NotFound) <==>
        Trim(name) != [] && !old(NameTaken(accounts, Trim(name), Some(id))) && id !in old(accounts)
      ensures r.Err? ==> r.error != UnknownAccount && accounts == old(accounts)
      ensures r.Ok? ==>
        && id in old(accounts)
        && accounts == old(accounts)[id := old(accounts)[id].(name := Trim(name), currency := currency)]
        && r.value == Account(id, Trim(name), accounts[id].balance, currency, 1.0)
    {
      var checked := CheckName(name, Some(id));
      if checked.Err? {
        return Err(checked.error);
      }
      if id !in accounts {
        return Err(NotFound);
      }
      SetAccount(id, accounts[id].(name := checked.value, currency := currency));
      r := Ok(Account(id, checked.value, accounts[id].balance, currency, 1.0));
    }

    /**
     * `delete_account_db`: the account and all its transactions go. Links from other
     * accounts' rows into the deleted rows are cleared first, which the code as written
     * omits (see `Links.DeleteAccountLeavesDanglingLink`).
     */
    method DeleteAccount(id: int)
      requires Valid()
      modifies this
      ensures Valid()
      ensures accounts == old(accounts) - {id}
      ensures txs == RowsOutside(UnlinkCounterparts(old(txs), id), id)
      ensures txs.Keys == set k | k in old(txs) && old(txs)[k].account != id
      ensures forall a | a in accounts :: accounts[a].balance == old(accounts)[a].balance
    {
      DeleteAccountRowsKeepSymmetric(txs, id);
      var unlinked := UnlinkCounterparts(txs, id);
      var kept := RowsOutside(unlinked, id);
      forall a | a in accounts && a != id ensures AccountSum(kept, a) == AccountSum(txs, a) {
        SumOverRestrict(txs, kept, txs.Keys, a);
        assert txs.Keys * kept.Keys == kept.Keys;
      }
      RemovingKeepsNamesValid(accounts, id);
      txs := kept;
      accounts := accounts - {id};
    }

    // ---- transactions ----

    /** The two `UPDATE transactions SET linked_tx_id` statements that pair rows `a` and `b`. */
    method LinkRows(a: int, b: int)
      requires a in txs && b in txs
      modifies this
      ensures accounts == old(accounts) && txs == LinkPair(old(txs), a, b)
      ensures forall x :: AccountSum(txs, x) == old(AccountSum(txs, x))
    {
      ghost var t0 := txs;
      RewriteRow(a, txs[a].(linked := Some(b)));
      RewriteRow(b, txs[b].(linked := Some(a)));
      assert forall x :: AccountSum(txs, x) == AccountSum(t0, x);
    }

    /**
     * The balance statements of both update operations: the row's old amount leaves its old
     * account and the new amount lands on the new one (on one account, only a non-zero difference is written).
     */
    method ReconcileBalances(oldAccount: int, oldAmount: real, newAccount: int, newAmount: real)
      requires oldAccount in accounts && newAccount in accounts
      modifies this
      ensures txs == old(txs) && accounts.Keys == old(accounts).Keys
      ensures Names(accounts) == Names(old(accounts))
      ensures forall a | a in accounts ::
        accounts[a] == old(accounts)[a].(balance := old(accounts)[a].balance
          - (if a == oldAccount then oldAmount else 0.0) + (if a == newAccount then newAmount else 0.0))
    {
      if oldAccount == newAccount {
        var diff := newAmount - oldAmount;
        if diff != 0.0 {
          AddToBalance(newAccount, diff);
        }
      } else {
        AddToBalance(oldAccount, -oldAmount);
        AddToBalance(newAccount, newAmount);
      }
    }

    /** `create_transaction_db`: records a transaction; a payee naming another account makes it a transfer. */
    method CreateTransaction(accountId: int, date: string, payee: string, notes: Option<string>,
                             category: Option<string>, amount: real, ticker: Option<string>,
                             shares: Option<real>, pricePerShare: Option<real>, fee: Option<real>,
                             currency: Option<string>)
      returns (r: Result<Transaction, LedgerError>, ghost target: Option<int>)
      requires Valid()
      modifies this
      ensures Valid()
      ensures r.Err? <==> accountId !in old(accounts)
      ensures r.Err? ==> r.error == UnknownAccount && target == None && accounts == old(accounts) && txs == old(txs)
      ensures r.Ok? ==>
        var row := TxRow(accountId, date, payee, notes, if target.Some? then Some(TransferCategory) else category,
                         amount, ticker, shares, pricePerShare, fee, currency, None);
        Recorded(old(accounts), old(txs), accounts, txs, r.value, row, payee, target)
    {
      if accountId !in accounts {
        return Err(UnknownAccount), None;
      }
      var t;
      t, target := RecordTransaction(accountId, date, payee, notes, category, amount, ticker, shares,
                                     pricePerShare, fee, currency);
      r := Ok(t);
    }

    /**
     * What recording `row`, returned as `t`, does: a payee naming another account (`target`) makes it a
     * transfer with a linked mirror leg on that account; otherwise the row is inserted on its own.
     */
    ghost predicate Recorded(accounts0: map<int, AccountRow>, txs0: map<int, TxRow>,
                             accounts1: map<int, AccountRow>, txs1: map<int, TxRow>,
                             t: Transaction, row: TxRow, payee: string, target: Option<int>)
      requires row.account in accounts0
    {
      && (target.Some? <==> TransferTargets(accounts0, payee, row.account) != {})
      && (target.Some? ==> target.value in TransferTargets(accounts0, payee, row.account))
      && IsNextRowId(txs0.Keys, t.id)
      && t == AsTransaction(t.id, row)
      && (target.None? ==>
            && txs1 == txs0[t.id := row]
            && accounts1 == Credit(accounts0, row.account, row.amount))
      && (target.Some? ==>
            && txs1 == LinkPair(txs0[t.id := row][t.id + 1 := MirrorRow(row, target.value, accounts0[row.account].name)],
                                t.id, t.id + 1)
            && accounts1 == Credit(Credit(accounts0, row.account, row.amount), target.value, -row.amount))
    }

    /** The body of `create_transaction_db` once the account is known to exist. */
    method RecordTransaction(accountId: int, date: string, payee: string, notes: Option<string>,
                             category: Option<string>, amount: real, ticker: Option<string>,
                             shares: Option<real>, pricePerShare: Option<real>, fee: Option<real>,
                             currency: Option<string>)
      returns (t: Transaction, ghost target: Option<int>)
      requires Valid() && accountId in accounts
      modifies this
      ensures Valid()
      ensures
        var row := TxRow(accountId, date, payee, notes, if target.Some? then Some(TransferCategory) else category,
                         amount, ticker, shares, pricePerShare, fee, currency, None);
        Recorded(old(accounts), old(txs), accounts, txs, t, row, payee, target)
    {
      var targets := TransferTargets(accounts, payee, accountId);
      var found: Option<int> := None;
      if targets != {} {
        var c := Choose(targets);
        found := Some(c);
      }
      target := found;
      var finalCategory := if found.Some? then Some(TransferCategory) else category;
      var row := TxRow(accountId, date, payee, notes, finalCategory, amount, ticker, shares, pricePerShare, fee, currency, None);
      var id;
      if found.Some? {
        id := PostTransfer(row, found.value, accounts[accountId].name);
      } else {
        id := PostRow(row);
      }
      t := AsTransaction(id, row);
    }

    /** Inserting a new unlinked row and adding its amount to its account's balance keeps the store valid. */
    method PostRow(row: TxRow) returns (id: int)
      requires Valid() && row.account in accounts && row.linked.None?
      modifies this
      ensures Valid()
      ensures IsNextRowId(old(txs).Keys, id) && txs == old(txs)[id := row]
      ensures accounts == Credit(old(accounts), row.account, row.amount)
    {
      ghost var t0 := txs;
      id := InsertRow(row);
      InsertingUnlinkedKeepsSymmetric(t0, id, row);
      AddToBalance(row.account, row.amount);
    }

    /** Both legs of a transfer: `row` on its account and its mirror on `target`, linked to each other. */
    method PostTransfer(row: TxRow, target: int, sourceName: string) returns (id: int)
      requires Valid() && row.account in accounts && target in accounts && row.linked.None?
      modifies this
      ensures Valid()
      ensures IsNextRowId(old(txs).Keys, id)
      ensures txs == LinkPair(old(txs)[id := row][id + 1 := MirrorRow(row, target, sourceName)],
                              id, id + 1)
      ensures accounts == Credit(Credit(old(accounts), row.account, row.amount), target, -row.amount)
    {
      id := PostRow(row);
      ghost var a1, t1 := accounts, txs;
      var mirror := MirrorRow(row, target, sourceName);
      assert mirror.account == target && mirror.amount == -row.amount;
      var mirrorId := PostMirror(id, mirror);
      assert t1.Keys == old(txs).Keys + {id};
      ConsecutiveRowIds(old(txs).Keys, id, mirrorId);
    }

    /** The second leg of a transfer: inserted, linked with the first leg `id` both ways, and booked. */
    method PostMirror(id: int, mirror: TxRow) returns (mirrorId: int)
      requires Valid() && id in txs && txs[id].linked.None?
      requires mirror.account in accounts && mirror.linked.None?
      modifies this
      ensures Valid()
      ensures IsNextRowId(old(txs).Keys, mirrorId)
      ensures txs == LinkPair(old(txs)[mirrorId := mirror], id, mirrorId)
      ensures accounts == Credit(old(accounts), mirror.account, mirror.amount)
    {
      ghost var t0 := txs;
      mirrorId := InsertRow(mirror);
      InsertingUnlinkedKeepsSymmetric(t0, mirrorId, mirror);
      LinkingUnlinkedKeepsSymmetric(txs, id, mirrorId);
      LinkRows(id, mirrorId);
      AddToBalance(mirror.account, mirror.amount);
    }

    /** `create_investment_transaction_db`: a buy or sale of shares, paid from or into the account. */
    method CreateInvestmentTransaction(accountId: int, date: string, ticker: string, shares: real,
                                       pricePerShare: real, fee: real, isBuy: bool, sharesText: string,
                                       currency: Option<string>)
      returns (r: Result<Transaction, LedgerError>)
      requires Valid()
      modifies this
      ensures Valid()
      ensures r.Err? <==> accountId !in old(accounts)
      ensures r.Err? ==> r.error == UnknownAccount && accounts == old(accounts) && txs == old(txs)
      ensures r.Ok? ==>
        var row := TxRow(accountId, date, TradePayee(isBuy), Some(TradeNotes(isBuy, sharesText, ticker)),
                         Some(InvestmentCategory), TradeAmount(isBuy, shares, pricePerShare, fee), Some(ticker),
                         Some(SignedShares(isBuy, shares)), Some(pricePerShare), Some(fee), currency, None);
        && IsNextRowId(old(txs).Keys, r.value.id)
        && r.value == AsTransaction(r.value.id, row)
        && txs == old(txs)[r.value.id := row]
        && accounts == Credit(old(accounts), accountId, TradeAmount(isBuy, shares, pricePerShare, fee))
    {
      if accountId !in accounts {
        return Err(UnknownAccount);
      }
      var amount := TradeAmount(isBuy, shares, pricePerShare, fee);
      var row := TxRow(accountId, date, TradePayee(isBuy), Some(TradeNotes(isBuy, sharesText, ticker)),
                       Some(InvestmentCategory), amount, Some(ticker), Some(SignedShares(isBuy, shares)),
                       Some(pricePerShare), Some(fee), currency, None);
      var id := PostRow(row);
      r := Ok(AsTransaction(id, row));
    }

    /** Rewrites row `id` (its link unchanged) and moves its amount between balances, as both update operations do. */
    method Repost(id: int, row: TxRow)
      requires Valid() && id in txs && row.account in accounts && row.linked == txs[id].linked
      modifies this
      ensures Valid()
      ensures txs == old(txs)[id := row]
      ensures OnlyBalancesChanged(old(accounts), accounts)
      ensures forall a | a in accounts :: accounts[a].balance == old(accounts)[a].balance + Moved(old(txs)[id], row, a)
    {
      var before := txs[id];
      RewritingKeepsSymmetric(txs, id, row);
      RewriteRow(id, row);
      ReconcileBalances(before.account, before.amount, row.account, row.amount);
    }

    /** `update_transaction_db`: rewrites a transaction and keeps the other leg of a transfer in step. */
    method UpdateTransaction(id: int, accountId: int, date: string, payee: string, notes: Option<string>,
                             category: Option<string>, amount: real, currency: Option<string>)
      returns (r: Result<Transaction, LedgerError>, ghost counterpart: Option<int>)
      requires Valid()
      modifies this
      ensures Valid()
      ensures r == Err(NotFound) <==> id !in old(txs)
      ensures r == Err(UnknownAccount) <==> id in old(txs) && accountId !in old(accounts)
      ensures r.Err? ==> (r.error == NotFound || r.error == UnknownAccount)
      ensures r.Err? ==> counterpart == None && accounts == old(accounts) && txs == old(txs)
      ensures r.Ok? ==> r.value == Transaction(id, accountId, date, payee, notes, category, amount, None, None, None, None, currency)
      ensures r.Ok? ==>
        Revised(old(accounts), old(txs), accounts, txs, id,
                old(txs)[id].(account := accountId, date := date, payee := payee, notes := notes,
                              category := category, amount := amount, currency := currency),
                counterpart)
    {
      counterpart := None;
      if id !in txs {
        return Err(NotFound), None;
      }
      if accountId !in accounts {
        return Err(UnknownAccount), None;
      }
      var self := txs[id].(account := accountId, date := date, payee := payee, notes := notes,
                           category := category, amount := amount, currency := currency);
      counterpart := ReviseTransaction(id, self);
      r := Ok(Transaction(id, accountId, date, payee, notes, category, amount, None, None, None, None, currency));
    }

    /**
     * What rewriting row `id` as `self` does in `update_transaction_db`: the row keeps or gains a
     * `counterpart` (its linked row, else an unlinked "Transfer" row with the same notes, then linked
     * both ways); the counterpart takes the new date, notes, currency and the opposite amount, with
     * the row's account name as payee; each balance moves by what the two rewrites move; nothing else changes.
     */
    ghost predicate Revised(accounts0: map<int, AccountRow>, txs0: map<int, TxRow>,
                            accounts1: map<int, AccountRow>, txs1: map<int, TxRow>,
                            id: int, self: TxRow, counterpart: Option<int>)
      requires id in txs0 && self.account in accounts0
    {
      && (txs0[id].linked.Some? ==> counterpart == txs0[id].linked)
      && (txs0[id].linked.None? ==>
            && (counterpart.Some? <==> self.notes.Some? && NotesMatches(txs0, self.notes.value, id) != {})
            && (counterpart.Some? ==> counterpart.value in NotesMatches(txs0, self.notes.value, id)))
      && (counterpart.Some? ==> counterpart.value in txs0 && counterpart.value != id)
      && OnlyBalancesChanged(accounts0, accounts1)
      && var row := self.(linked := counterpart);
         && (counterpart.None? ==>
               && txs1 == txs0[id := row]
               && forall a | a in accounts0 :: accounts1[a].balance == accounts0[a].balance + Moved(txs0[id], row, a))
         && (counterpart.Some? ==>
               var c := counterpart.value;
               var other := txs0[c].(date := self.date, payee := accounts0[self.account].name, notes := self.notes,
                                     category := Some(TransferCategory), amount := -self.amount,
                                     currency := self.currency, linked := Some(id));
               && txs1 == txs0[id := row][c := other]
               && forall a | a in accounts0 ::
                    accounts1[a].balance == accounts0[a].balance + Moved(txs0[id], row, a) + Moved(txs0[c], other, a))
    }

    /** The body of `update_transaction_db` once the row and the new account are known to exist. */
    method ReviseTransaction(id: int, self: TxRow) returns (ghost counterpart: Option<int>)
      requires Valid() && id in txs && self.account in accounts && self.linked == txs[id].linked
      modifies this
      ensures Valid()
      ensures Revised(old(accounts), old(txs), accounts, txs, id, self, counterpart)
    {
      Repost(id, self);
      ghost var mid, midAccounts := txs, accounts;
      NotesMatchesIgnoresSelf(old(txs), if self.notes.Some? then self.notes.value else "", id, self);
      var sourceName := accounts[self.account].name;
      assert sourceName == old(accounts)[self.account].name;
      counterpart := SyncCounterpart(id, sourceName, self.date, self.notes, self.amount, self.currency);
      ghost var row := self.(linked := counterpart);
      assert mid[id].(linked := counterpart) == row;
      if counterpart.Some? {
        var c := counterpart.value;
        assert c != id && mid == old(txs)[id := self];
        assert mid[c] == old(txs)[c];
        ghost var other := old(txs)[c].(date := self.date, payee := sourceName, notes := self.notes,
                                        category := Some(TransferCategory), amount := -self.amount,
                                        currency := self.currency, linked := Some(id));
        assert txs == mid[id := row][c := other];
        assert mid[id := row] == old(txs)[id := row];
        forall a | a in old(accounts)
          ensures accounts[a].balance == old(accounts)[a].balance + Moved(old(txs)[id], row, a) + Moved(old(txs)[c], other, a)
        {
          assert accounts[a].balance == midAccounts[a].balance + Moved(old(txs)[c], other, a);
          assert Moved(old(txs)[id], self, a) == Moved(old(txs)[id], row, a);
        }
      }
    }

    /**
     * The second half of `update_transaction_db`: finds the other leg of a transfer (by link, else by
     * notes among unlinked rows, linking the two) and gives it the new date, notes, currency and the
     * opposite amount, with the source account's name as payee.
     */
    method SyncCounterpart(id: int, sourceName: string, date: string, notes: Option<string>, amount: real,
                           currency: Option<string>)
      returns (ghost counterpart: Option<int>)
      requires Valid() && id in txs
      modifies this
      ensures Valid()
      ensures old(txs)[id].linked.Some? ==> counterpart == old(txs)[id].linked
      ensures old(txs)[id].linked.None? ==>
        && (counterpart.Some? <==> notes.Some? && NotesMatches(old(txs), notes.value, id) != {})
        && (counterpart.Some? ==> counterpart.value in NotesMatches(old(txs), notes.value, id))
      ensures counterpart.Some? ==> counterpart.value in old(txs) && counterpart.value != id
      ensures OnlyBalancesChanged(old(accounts), accounts)
      ensures counterpart.None? ==> txs == old(txs) && accounts == old(accounts)
      ensures counterpart.Some? ==>
        var c := counterpart.value;
        var other := old(txs)[c].(date := date, payee := sourceName, notes := notes, category := Some(TransferCategory),
                                  amount := -amount, currency := currency, linked := Some(id));
        && txs == old(txs)[id := old(txs)[id].(linked := counterpart)][c := other]
        && forall a | a in accounts :: accounts[a].balance == old(accounts)[a].balance + Moved(old(txs)[c], other, a)
    {
      var ctr := txs[id].linked;
      if ctr.None? && notes.Some? {
        var found := NotesMatches(txs, notes.value, id);
        if found != {} {
          var f := Choose(found);
          NotesMatchKeepsSymmetric(txs, id, notes.value, f);
          LinkRows(id, f);
          ctr := Some(f);
        }
      }
      counterpart := ctr;
      if ctr.Some? {
        var c := ctr.value;
        if c in txs {
          var other := txs[c].(date := date, payee := sourceName, notes := notes, category := Some(TransferCategory),
                               amount := -amount, currency := currency);
          Repost(c, other);
        }
      }
    }

    /** `update_investment_transaction_db`: rewrites a trade; a trade has no counterpart to keep in step. */
    method UpdateInvestmentTransaction(id: int, accountId: int, date: string, ticker: string, shares: real,
                                       pricePerShare: real, fee: real, isBuy: bool, notes: Option<string>,
                                       sharesText: string, currency: Option<string>)
      returns (r: Result<Transaction, LedgerError>)
      requires Valid()
      modifies this
      ensures Valid()
      ensures r == Err(NotFound) <==> id !in old(txs)
      ensures r == Err(UnknownAccount) <==> id in old(txs) && accountId !in old(accounts)
      ensures r.Err? ==> (r.error == NotFound || r.error == UnknownAccount)
      ensures r.Err? ==> accounts == old(accounts) && txs == old(txs)
      ensures r.Ok? ==>
        var row := old(txs)[id].(account := accountId, date := date, payee := TradePayee(isBuy),
                                 notes := Some(if notes.Some? then notes.value else TradeNotes(isBuy, sharesText, ticker)),
                                 category := Some(InvestmentCategory), amount := TradeAmount(isBuy, shares, pricePerShare, fee),
                                 ticker := Some(ticker), shares := Some(SignedShares(isBuy, shares)),
                                 pricePerShare := Some(pricePerShare), fee := Some(fee), currency := currency);
        && r.value == AsTransaction(id, row)
        && txs == old(txs)[id := row]
        && OnlyBalancesChanged(old(accounts), accounts)
        && forall a | a in accounts :: accounts[a].balance == old(accounts)[a].balance + Moved(old(txs)[id], row, a)
    {
      if id !in txs {
        return Err(NotFound);
      }
      if accountId !in accounts {
        return Err(UnknownAccount);
      }
      var finalNotes := if notes.Some? then notes.value else TradeNotes(isBuy, sharesText, ticker);
      var row := txs[id].(account := accountId, date := date, payee := TradePayee(isBuy), notes := Some(finalNotes),
                          category := Some(InvestmentCategory), amount := TradeAmount(isBuy, shares, pricePerShare, fee),
                          ticker := Some(ticker), shares := Some(SignedShares(isBuy, shares)),
                          pricePerShare := Some(pricePerShare), fee := Some(fee), currency := currency);
      Repost(id, row);
      r := Ok(AsTransaction(id, row));
    }

    /** `DELETE FROM transactions WHERE id = k` with the matching `UPDATE accounts SET balance = balance - amount`. */
    method Unpost(k: int)
      requires Booked() && k in txs
      modifies this
      ensures Booked()
      ensures txs == old(txs) - {k}
      ensures OnlyBalancesChanged(old(accounts), accounts)
      ensures forall a | a in accounts :: accounts[a].balance == old(accounts)[a].balance - Contribution(old(txs)[k], a)
    {
      var row := txs[k];
      RemoveRow(k);
      AddToBalance(row.account, -row.amount);
    }

    /**
     * `delete_transaction_db`: deletes a transaction and the other leg of its transfer (by link, else
     * an unlinked row found by notes).
     */
    method DeleteTransaction(id: int) returns (r: Result<(), LedgerError>, ghost partner: Option<int>)
      requires Valid()
      modifies this
      ensures Valid()
      ensures r.Err? <==> id !in old(txs)
      ensures r.Err? ==> r.error == NotFound && partner == None && accounts == old(accounts) && txs == old(txs)
      ensures r.Ok? && old(txs)[id].linked.Some? ==> partner == old(txs)[id].linked
      ensures r.Ok? && old(txs)[id].linked.None? ==>
        && (partner.Some? <==> old(txs)[id].notes.Some? && NotesMatches(old(txs), old(txs)[id].notes.value, id) != {})
        && (partner.Some? ==> partner.value in NotesMatches(old(txs), old(txs)[id].notes.value, id))
      ensures partner.Some? ==> partner.value in old(txs) && partner.value != id
      ensures r.Ok? ==> txs == if partner.Some? then old(txs) - {id, partner.value} else old(txs) - {id}
      ensures r.Ok? ==> OnlyBalancesChanged(old(accounts), accounts)
      ensures r.Ok? ==> forall a | a in accounts ::
        accounts[a].balance == old(accounts)[a].balance - Contribution(old(txs)[id], a)
                               - (if partner.Some? then Contribution(old(txs)[partner.value], a) else 0.0)
    {
      partner := None;
      if id !in txs {
        return Err(NotFound), None;
      }
      var row := txs[id];
      if row.linked.Some? {
        RemovingPairKeepsSymmetric(txs, id);
      } else {
        RemovingUnlinkedKeepsSymmetric(txs, id);
      }
      Unpost(id);
      if row.linked.Some? {
        var c := row.linked.value;
        RemoveBoth(old(txs), id, c);
        if c in txs {
          Unpost(c);
          partner := Some(c);
        }
      } else if row.notes.Some? {
        NotesMatchesIgnoresSelf(old(txs), row.notes.value, id, row);
        var found := NotesMatches(txs, row.notes.value, id);
        if found != {} {
          var f := Choose(found);
          RemovingUnlinkedKeepsSymmetric(txs, f);
          Unpost(f);
          partner := Some(f);
        }
      }
      r := Ok(());
    }
  }
}
