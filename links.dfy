/**
 * Transfer-pair links between transaction rows: the symmetry invariant, the
 * notes-based fallback that looks for a counterpart when a row has no link,
 * and the bulk row deletion of `delete_account_db`.
 *
 * Each step is given twice where the code as written breaks the symmetry
 * invariant: the as-written form with a concrete state that shows the break,
 * and the corrected form, with the lemma that it keeps the invariant, which
 * is the one the `Ledger.Store` class uses.
 */
module Links {
  import opened Wrappers
  import opened Rows

  /** The category value reserved for the two legs of a transfer. */
  const TransferCategory: string := "Transfer"

  /** Every link points at another existing row, which links back. */
  predicate Symmetric(txs: map<int, TxRow>)
  {
    forall k | k in txs && txs[k].linked.Some? ::
      var c := txs[k].linked.value;
      c != k && c in txs && txs[c].linked == Some(k)
  }

  /** `a` and `b` linked to each other: the two `UPDATE transactions SET linked_tx_id` statements. */
  function LinkPair(txs: map<int, TxRow>, a: int, b: int): (r: map<int, TxRow>)
    requires a in txs && b in txs
  {
    txs[a := txs[a].(linked := Some(b))][b := txs[b].(linked := Some(a))]
  }

  /** Deleting both rows of a freshly inserted and linked pair gives back the rows there were before. */
  lemma DeletingNewPairRestores(txs: map<int, TxRow>, a: int, b: int, ra: TxRow, rb: TxRow)
    requires a !in txs && b !in txs
    ensures LinkPair(txs[a := ra][b := rb], a, b) - {a, b} == txs
  {
    var r := LinkPair(txs[a := ra][b := rb], a, b) - {a, b};
    assert r.Keys == txs.Keys;
  }

  /**
   * The fallback lookup AS WRITTEN: rows other than `self` whose notes equal `n`
   * and whose category is "Transfer" (`LIMIT 1` picks any of them).
   */
  function NotesMatchesAsWritten(txs: map<int, TxRow>, n: string, self: int): set<int>
  {
    set k | k in txs && k != self && txs[k].notes == Some(n) && txs[k].category == Some(TransferCategory)
  }

  /** The fallback lookup CORRECTED: the same rows, restricted to those not already linked. */
  function NotesMatches(txs: map<int, TxRow>, n: string, self: int): set<int>
  {
    set k | k in NotesMatchesAsWritten(txs, n, self) && txs[k].linked.None?
  }

  /** `DELETE FROM transactions WHERE account_id = acc`: the rows of the other accounts. */
  function RowsOutside(txs: map<int, TxRow>, acc: int): (r: map<int, TxRow>)
  {
    map k | k in txs && txs[k].account != acc :: txs[k]
  }

  /** Rows whose counterpart belongs to account `acc` lose their link (the step `delete_account_db` lacks). */
  function UnlinkCounterparts(txs: map<int, TxRow>, acc: int): (r: map<int, TxRow>)
  {
    map k | k in txs ::
      if txs[k].linked.Some? && txs[k].linked.value in txs && txs[txs[k].linked.value].account == acc
      then txs[k].(linked := None)
      else txs[k]
  }

  // ---- The corrected steps keep the links symmetric ----

  /** Linking two distinct rows that have no link yet keeps every link symmetric. */
  lemma LinkingUnlinkedKeepsSymmetric(txs: map<int, TxRow>, a: int, b: int)
    requires Symmetric(txs) && a in txs && b in txs && a != b
    requires txs[a].linked.None? && txs[b].linked.None?
    ensures Symmetric(LinkPair(txs, a, b))
  {
    var r := LinkPair(txs, a, b);
    forall k | k in r && r[k].linked.Some?
      ensures r[k].linked.value != k && r[k].linked.value in r && r[r[k].linked.value].linked == Some(k)
    {
      if k != a && k != b {
        var c := txs[k].linked.value;
        assert c != a && c != b;
      }
    }
  }

  /** Inserting a row without a link under a fresh id keeps every link symmetric. */
  lemma InsertingUnlinkedKeepsSymmetric(txs: map<int, TxRow>, k: int, row: TxRow)
    requires Symmetric(txs) && k !in txs && row.linked.None?
    ensures Symmetric(txs[k := row])
  {
    var r := txs[k := row];
    forall j | j in r && r[j].linked.Some?
      ensures r[j].linked.value != j && r[j].linked.value in r && r[r[j].linked.value].linked == Some(j)
    {
      assert j in txs && txs[j].linked.value in txs;
    }
  }

  /** Rewriting a row without touching its link keeps every link symmetric. */
  lemma RewritingKeepsSymmetric(txs: map<int, TxRow>, k: int, row: TxRow)
    requires Symmetric(txs) && k in txs && row.linked == txs[k].linked
    ensures Symmetric(txs[k := row])
  {
    var r := txs[k := row];
    forall j | j in r && r[j].linked.Some?
      ensures r[j].linked.value != j && r[j].linked.value in r && r[r[j].linked.value].linked == Some(j)
    {
      assert r[j].linked == txs[j].linked;
    }
  }

  /** The fallback lookup never returns the row it is run for, so that row's contents do not matter. */
  lemma NotesMatchesIgnoresSelf(txs: map<int, TxRow>, n: string, self: int, row: TxRow)
    ensures NotesMatches(txs[self := row], n, self) == NotesMatches(txs, n, self)
    ensures NotesMatches(txs - {self}, n, self) == NotesMatches(txs, n, self)
  {
    assert NotesMatchesAsWritten(txs[self := row], n, self) == NotesMatchesAsWritten(txs, n, self);
    assert NotesMatchesAsWritten(txs - {self}, n, self) == NotesMatchesAsWritten(txs, n, self);
  }

  /** A corrected fallback match in a symmetric ledger is unlinked, so it may be linked to an unlinked row. */
  lemma NotesMatchKeepsSymmetric(txs: map<int, TxRow>, self: int, n: string, f: int)
    requires Symmetric(txs) && self in txs && txs[self].linked.None?
    requires f in NotesMatches(txs, n, self)
    ensures f != self && f in txs && Symmetric(LinkPair(txs, self, f))
  {
    LinkingUnlinkedKeepsSymmetric(txs, self, f);
  }

  /** Deleting a row without a link keeps every link symmetric: nothing pointed at it. */
  lemma RemovingUnlinkedKeepsSymmetric(txs: map<int, TxRow>, k: int)
    requires Symmetric(txs) && k in txs && txs[k].linked.None?
    ensures Symmetric(txs - {k})
  {
    var r := txs - {k};
    forall j | j in r && r[j].linked.Some?
      ensures r[j].linked.value != j && r[j].linked.value in r && r[r[j].linked.value].linked == Some(j)
    {
      assert txs[j].linked.value != k;
    }
  }

  /** Deleting both legs of a linked pair keeps every other link symmetric. */
  lemma RemovingPairKeepsSymmetric(txs: map<int, TxRow>, k: int)
    requires Symmetric(txs) && k in txs && txs[k].linked.Some?
    ensures Symmetric(txs - {k, txs[k].linked.value})
  {
    var c := txs[k].linked.value;
    var r := txs - {k, c};
    forall j | j in r && r[j].linked.Some?
      ensures r[j].linked.value != j && r[j].linked.value in r && r[r[j].linked.value].linked == Some(j)
    {
      var d := txs[j].linked.value;
      assert d != k && d != c;
    }
  }

  /** Deleting an account's rows after unlinking their counterparts leaves every remaining link symmetric. */
  lemma DeleteAccountRowsKeepSymmetric(txs: map<int, TxRow>, acc: int)
    requires Symmetric(txs)
    ensures Symmetric(RowsOutside(UnlinkCounterparts(txs, acc), acc))
  {
    var u := UnlinkCounterparts(txs, acc);
    var r := RowsOutside(u, acc);
    forall k | k in r && r[k].linked.Some?
      ensures r[k].linked.value != k && r[k].linked.value in r && r[r[k].linked.value].linked == Some(k)
    {
      var c := r[k].linked.value;
      assert txs[k].linked == Some(c) && c in txs && txs[c].account != acc;
      assert txs[c].linked == Some(k);
      assert u[c] == txs[c];
    }
  }

  // ---- The as-written steps break it: one concrete ledger shows each break ----

  /** A row of the example ledger below. */
  function ExampleRow(account: int, notes: string, category: string, amount: real, linked: Option<int>): TxRow
  {
    TxRow(account, "2024-01-01", "x", Some(notes), Some(category), amount, None, None, None, None, None, linked)
  }

  /**
   * A transfer of 50 from account 10 to account 20 (rows 1 and 2, linked, notes "rent")
   * and an unrelated expense on account 10 (row 3, unlinked) with the same notes.
   */
  function RentLedger(): map<int, TxRow>
  {
    map[1 := ExampleRow(10, "rent", TransferCategory, -50.0, Some(2)),
        2 := ExampleRow(20, "rent", TransferCategory, 50.0, Some(1)),
        3 := ExampleRow(10, "rent", "Housing", -700.0, None)]
  }

  /**
   * `update_transaction_db` on row 3 with notes "rent": its fallback may pick row 1, which
   * already has a counterpart, and linking 3 with 1 leaves row 2 pointing at a row that
   * no longer points back. The corrected lookup finds nothing.
   */
  lemma UpdateFallbackCanStealLinkedRow()
    ensures Symmetric(RentLedger())
    ensures 1 in NotesMatchesAsWritten(RentLedger(), "rent", 3)
    ensures !Symmetric(LinkPair(RentLedger(), 3, 1))
    ensures NotesMatches(RentLedger(), "rent", 3) == {}
  {
    var s := RentLedger();
    assert s[1].linked == Some(2) && s[2].linked == Some(1) && s[3].linked == None;
    assert 1 in NotesMatchesAsWritten(s, "rent", 3);
    var r := LinkPair(s, 3, 1);
    assert r[2].linked == Some(1) && r[1].linked == Some(3);
    assert forall k | k in NotesMatchesAsWritten(s, "rent", 3) :: k == 1 || k == 2;
  }

  /**
   * `delete_transaction_db` on row 3: it has no link but has notes, so the fallback may
   * delete row 1, one leg of the unrelated transfer, and row 2 is left linked to nothing.
   */
  lemma DeleteFallbackCanOrphanPair()
    ensures Symmetric(RentLedger())
    ensures 1 in NotesMatchesAsWritten(RentLedger() - {3}, "rent", 3)
    ensures !Symmetric(RentLedger() - {3} - {1})
    ensures NotesMatches(RentLedger() - {3}, "rent", 3) == {}
  {
    var s := RentLedger();
    assert s[1].linked == Some(2) && s[2].linked == Some(1) && s[3].linked == None;
    var r := s - {3} - {1};
    assert 2 in r && r[2].linked == Some(1) && 1 !in r;
    assert forall k | k in NotesMatchesAsWritten(s - {3}, "rent", 3) :: k == 1 || k == 2;
  }

  /** `delete_account_db` on account 10 removes row 1 and leaves row 2 linked to it. */
  lemma DeleteAccountLeavesDanglingLink()
    ensures Symmetric(RentLedger())
    ensures !Symmetric(RowsOutside(RentLedger(), 10))
  {
    var s := RentLedger();
    assert s[1].linked == Some(2) && s[2].linked == Some(1) && s[3].linked == None;
    var r := RowsOutside(s, 10);
    assert 2 in r && r[2].linked == Some(1) && 1 !in r;
  }
}
