/**
 * The stored rows of the `accounts` and `transactions` tables, and the
 * per-account total of transaction amounts that every balance must equal.
 */
module Rows {
  import opened Wrappers

  /** A row of `accounts` (its id is the key of the map that holds it). */
  datatype AccountRow = AccountRow(name: string, balance: real, currency: Option<string>)

  /** A row of `transactions` (its id is the key of the map that holds it). */
  datatype TxRow = TxRow(
    account: int,
    date: string,
    payee: string,
    notes: Option<string>,
    category: Option<string>,
    amount: real,
    ticker: Option<string>,
    shares: Option<real>,
    pricePerShare: Option<real>,
    fee: Option<real>,
    currency: Option<string>,
    linked: Option<int>)

  /** What row `t` adds to the total of account `a`. */
  function Contribution(t: TxRow, a: int): real
  {
    if t.account == a then t.amount else 0.0
  }

  /** Some element of a non-empty set of row ids. */
  ghost function Pick(keys: set<int>): (k: int)
    requires keys != {}
    ensures k in keys
  {
    if forall x :: x !in keys then
      assert false; 0
    else
      var x :| x in keys; x
  }

  /** The total of the amounts of the rows under `keys` that belong to account `a`. */
  ghost function SumOver(txs: map<int, TxRow>, keys: set<int>, a: int): real
    requires keys <= txs.Keys
    decreases keys
  {
    if keys == {} then 0.0
    else
      var k := Pick(keys);
      Contribution(txs[k], a) + SumOver(txs, keys - {k}, a)
  }

  /** The sum of the amounts of all of account `a`'s transactions. */
  ghost function AccountSum(txs: map<int, TxRow>, a: int): real
  {
    SumOver(txs, txs.Keys, a)
  }

  /** Any row can be taken out of the sum first, whichever one the definition happens to pick. */
  lemma {:induction false} SumOverRemove(txs: map<int, TxRow>, keys: set<int>, a: int, k: int)
    requires keys <= txs.Keys && k in keys
    ensures SumOver(txs, keys, a) == Contribution(txs[k], a) + SumOver(txs, keys - {k}, a)
    decreases keys
  {
    var j := Pick(keys);
    if j != k {
      SumOverRemove(txs, keys - {j}, a, k);
      SumOverRemove(txs, keys - {k}, a, j);
      assert keys - {j} - {k} == keys - {k} - {j};
    }
  }

  /**
   * Dropping rows that add nothing to account `a`, and rewriting rows without
   * changing what they add to `a`, leaves the total of `a` as it was.
   */
  lemma {:induction false} SumOverRestrict(m: map<int, TxRow>, m': map<int, TxRow>, keys: set<int>, a: int)
    requires keys <= m.Keys
    requires forall k | k in keys && k in m' :: Contribution(m'[k], a) == Contribution(m[k], a)
    requires forall k | k in keys && k !in m' :: Contribution(m[k], a) == 0.0
    ensures SumOver(m, keys, a) == SumOver(m', keys * m'.Keys, a)
    decreases keys
  {
    if keys != {} {
      var k := Pick(keys);
      SumOverRemove(m, keys, a, k);
      SumOverRestrict(m, m', keys - {k}, a);
      if k in m' {
        SumOverRemove(m', keys * m'.Keys, a, k);
        assert keys * m'.Keys - {k} == (keys - {k}) * m'.Keys;
      } else {
        assert keys * m'.Keys == (keys - {k}) * m'.Keys;
      }
    }
  }

  /** Inserting a new row adds its amount to its own account's total only. */
  lemma SumInsert(txs: map<int, TxRow>, k: int, t: TxRow, a: int)
    requires k !in txs
    ensures AccountSum(txs[k := t], a) == AccountSum(txs, a) + Contribution(t, a)
  {
    var m := txs[k := t];
    SumOverRemove(m, m.Keys, a, k);
    SumOverRestrict(m, txs, m.Keys - {k}, a);
    assert (m.Keys - {k}) * txs.Keys == txs.Keys;
    SumOverRestrict(txs, m, txs.Keys, a);
    assert txs.Keys * m.Keys == txs.Keys == m.Keys - {k};
  }

  /** Deleting a row takes its amount off its own account's total only. */
  lemma SumDelete(txs: map<int, TxRow>, k: int, a: int)
    requires k in txs
    ensures AccountSum(txs - {k}, a) == AccountSum(txs, a) - Contribution(txs[k], a)
  {
    var m := txs - {k};
    SumOverRemove(txs, txs.Keys, a, k);
    SumOverRestrict(txs, m, txs.Keys - {k}, a);
    assert (txs.Keys - {k}) * m.Keys == m.Keys;
  }

  /** Rewriting a row moves the totals by the difference of what the old and new row contribute. */
  lemma SumReplace(txs: map<int, TxRow>, k: int, t: TxRow, a: int)
    requires k in txs
    ensures AccountSum(txs[k := t], a) == AccountSum(txs, a) - Contribution(txs[k], a) + Contribution(t, a)
  {
    SumDelete(txs, k, a);
    SumInsert(txs - {k}, k, t, a);
    assert (txs - {k})[k := t] == txs[k := t];
  }

  /** An account that no row belongs to has total zero. */
  lemma SumOfNoRows(txs: map<int, TxRow>, a: int)
    requires forall k | k in txs :: txs[k].account != a
    ensures AccountSum(txs, a) == 0.0
  {
    SumOverRestrict(txs, map[], txs.Keys, a);
  }

  /** Deleting two rows one after the other is deleting both; deleting one already gone changes nothing. */
  lemma RemoveBoth(txs: map<int, TxRow>, a: int, b: int)
    ensures txs - {a} - {b} == txs - {a, b}
    ensures b !in txs - {a} ==> txs - {a} == txs - {a, b}
  {
  }
}
