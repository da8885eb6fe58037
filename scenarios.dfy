/**
 * Sequences of ledger operations and what they add up to: a transfer between
 * two accounts, and a transfer taken back by deleting either of its legs.
 */
module Scenarios {
  import opened Wrappers
  import opened Text
  import opened Records
  import opened Rows
  import opened Links
  import opened Ledger

  /** The two example names are already trimmed, and they differ even ignoring case. */
  lemma AccountNamesOfExample()
    ensures Trim("Acc1") == "Acc1" && Trim("Acc2") == "Acc2"
    ensures !SameIgnoringCase("Acc1", "Acc2")
  {
    TrimmedIsFixpoint("Acc1");
    TrimmedIsFixpoint("Acc2");
    assert Lower("Acc1")[3] == '1' && Lower("Acc2")[3] == '2';
  }

  /** A fresh ledger with accounts "Acc1", opened with 100, and "Acc2", opened with 0. */
  method OpenTwoAccounts() returns (s: Store, a1: int, a2: int)
    ensures fresh(s) && s.Valid()
    ensures a1 != a2 && s.accounts.Keys == {a1, a2}
    ensures s.accounts[a1] == AccountRow("Acc1", 100.0, None) && s.accounts[a2] == AccountRow("Acc2", 0.0, None)
  {
    AccountNamesOfExample();
    s := new Store();
    assert !NameTaken(s.accounts, "Acc1", None);
    var r1, _ := s.CreateAccount("Acc1", 100.0, None, "2024-05-01");
    a1 := r1.value.id;
    assert s.accounts.Keys == {a1} && s.accounts[a1].name == "Acc1";
    assert !NameTaken(s.accounts, "Acc2", None);
    var r2, _ := s.CreateAccount("Acc2", 0.0, None, "2024-05-01");
    a2 := r2.value.id;
  }

  /** A transaction of -50 on "Acc1" with payee "Acc2" is a transfer, and leaves 50 on each account. */
  method TransferBetweenNewAccounts() returns (first: real, second: real)
    ensures first == 50.0 && second == 50.0
  {
    var s, a1, a2 := OpenTwoAccounts();
    assert TransferTargets(s.accounts, "Acc2", a1) == {a2};
    var t, target := s.CreateTransaction(a1, "2023-01-01", "Acc2", None, None, -50.0, None, None, None, None, None);
    first, second := s.accounts[a1].balance, s.accounts[a2].balance;
  }

  /**
   * Recording a transaction on one account whose payee is another account's name: two linked
   * legs under fresh consecutive ids, each balance moved by its own leg.
   */
  method RecordTransfer(s: Store, from: int, to: int, date: string, notes: Option<string>, amount: real)
    returns (id: int, row: TxRow, ghost mirror: TxRow)
    requires s.Valid() && from in s.accounts && to in s.accounts && from != to
    modifies s
    ensures s.Valid()
    ensures id !in old(s.txs) && id + 1 !in old(s.txs)
    ensures s.txs == LinkPair(old(s.txs)[id := row][id + 1 := mirror], id, id + 1)
    ensures row.account == from && row.amount == amount && mirror.amount == -amount
    ensures s.accounts.Keys == old(s.accounts).Keys
    ensures forall a | a in old(s.accounts) ::
      s.accounts[a] == old(s.accounts)[a].(balance := old(s.accounts)[a].balance + Contribution(row, a) + Contribution(mirror, a))
  {
    var payee := s.accounts[to].name;
    var sourceName := s.accounts[from].name;
    assert to in TransferTargets(s.accounts, payee, from);
    var created, target := s.CreateTransaction(from, date, payee, notes, None, amount, None, None, None, None, None);
    id := created.value.id;
    ghost var t := target.value;
    row := TxRow(from, date, payee, notes, Some(TransferCategory), amount, None, None, None, None, None, None);
    mirror := MirrorRow(row, t, sourceName);
    assert s.accounts == Credit(Credit(old(s.accounts), from, amount), t, -amount);
  }

  /**
   * Recording a transfer between two accounts and then deleting either of its legs leaves
   * the ledger exactly as it was: both legs go, and both balances return.
   */
  method TransferThenDelete(s: Store, from: int, to: int, date: string, notes: Option<string>, amount: real,
                            deleteSecondLeg: bool)
    requires s.Valid() && from in s.accounts && to in s.accounts && from != to
    modifies s
    ensures s.Valid()
    ensures s.accounts == old(s.accounts) && s.txs == old(s.txs)
  {
    var id, row, mirror := RecordTransfer(s, from, to, date, notes, amount);
    ghost var mid, midAccounts := s.txs, s.accounts;
    assert mid[id].linked == Some(id + 1) && mid[id + 1].linked == Some(id);
    var deleted, partner := s.DeleteTransaction(if deleteSecondLeg then id + 1 else id);
    assert s.txs == mid - {id, id + 1};
    DeletingNewPairRestores(old(s.txs), id, id + 1, row, mirror);
    forall a | a in old(s.accounts) ensures s.accounts[a] == old(s.accounts)[a] {
      assert s.accounts[a] == midAccounts[a].(balance := s.accounts[a].balance);
      assert s.accounts[a].balance == midAccounts[a].balance - Contribution(row, a) - Contribution(mirror, a);
    }
    SameRowsSameAccounts(old(s.accounts), s.accounts);
  }
}
