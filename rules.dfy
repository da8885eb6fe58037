/**
 * The categorisation rules table and its ordering: `update_rules_order_db` gives
 * the rules a new order by rewriting their priorities, and `get_rules_db` lists
 * rules by priority, highest first, ties broken by ascending id.
 */
module Rules {

  /** A row of `rules` (its id is the key of the map that holds it). */
  datatype RuleRow = RuleRow(
    priority: int,
    matchField: string,
    matchPattern: string,
    actionField: string,
    actionValue: string)

  /** Rule `a` comes before rule `b` in the listing: higher priority, or equal priority and smaller id. */
  predicate ListedBefore(rules: map<int, RuleRow>, a: int, b: int)
    requires a in rules && b in rules
  {
    rules[a].priority > rules[b].priority || (rules[a].priority == rules[b].priority && a < b)
  }

  /** `ids` are rules listed in the order `ORDER BY priority DESC, id ASC` gives them. */
  predicate InListingOrder(rules: map<int, RuleRow>, ids: seq<int>)
  {
    && (forall i | 0 <= i < |ids| :: ids[i] in rules)
    && (forall i, j | 0 <= i < j < |ids| :: ListedBefore(rules, ids[i], ids[j]))
  }

  /** `ids` is what `get_rules_db` returns: every rule exactly once, in listing order. */
  predicate IsListing(rules: map<int, RuleRow>, ids: seq<int>)
  {
    InListingOrder(rules, ids) && (forall id | id in rules :: id in ids)
  }

  /** Two sequences in listing order with the same elements are the same sequence: the listing is unique. */
  lemma {:induction false} ListingIsUnique(rules: map<int, RuleRow>, a: seq<int>, b: seq<int>)
    requires InListingOrder(rules, a) && InListingOrder(rules, b)
    requires forall i | 0 <= i < |a| :: a[i] in b
    requires forall j | 0 <= j < |b| :: b[j] in a
    ensures a == b
    decreases |a|
  {
    SameEmptiness(a, b);
    if a != [] {
      HeadsAgree(rules, a, b);
      forall i | 0 <= i < |a[1..]| ensures a[1..][i] in b[1..] {
        TailMembers(rules, a, a[i + 1]);
        TailMembers(rules, b, a[i + 1]);
      }
      forall j | 0 <= j < |b[1..]| ensures b[1..][j] in a[1..] {
        TailMembers(rules, a, b[j + 1]);
        TailMembers(rules, b, b[j + 1]);
      }
      ListingIsUnique(rules, a[1..], b[1..]);
    }
  }

  /** Sequences holding each other's elements are both empty or both not. */
  lemma SameEmptiness(a: seq<int>, b: seq<int>)
    requires forall i | 0 <= i < |a| :: a[i] in b
    requires forall j | 0 <= j < |b| :: b[j] in a
    ensures a == [] <==> b == []
  {
    if a != [] {
      assert a[0] in b;
    }
    if b != [] {
      assert b[0] in a;
    }
  }

  /** In listing order, the first rule comes before every other. */
  lemma HeadComesFirst(rules: map<int, RuleRow>, s: seq<int>, k: int)
    requires InListingOrder(rules, s) && 0 <= k < |s|
    ensures k == 0 || ListedBefore(rules, s[0], s[k])
  {
  }

  /** Two non-empty sequences in listing order with the same elements start with the same rule. */
  lemma HeadsAgree(rules: map<int, RuleRow>, a: seq<int>, b: seq<int>)
    requires InListingOrder(rules, a) && InListingOrder(rules, b) && a != [] && b != []
    requires a[0] in b && b[0] in a
    ensures a[0] == b[0]
  {
    var j :| 0 <= j < |b| && b[j] == a[0];
    var i :| 0 <= i < |a| && a[i] == b[0];
    HeadComesFirst(rules, a, i);
    HeadComesFirst(rules, b, j);
  }

  /** In a sequence in listing order, the tail holds exactly the elements other than the head. */
  lemma TailMembers(rules: map<int, RuleRow>, s: seq<int>, x: int)
    requires InListingOrder(rules, s) && s != []
    ensures x in s[1..] <==> x in s && x != s[0]
  {
    if x in s[1..] {
      var k :| 0 <= k < |s[1..]| && s[1..][k] == x;
      assert ListedBefore(rules, s[0], s[k + 1]);
    }
    if x in s && x != s[0] {
      var k :| 0 <= k < |s| && s[k] == x;
      assert s[1..][k - 1] == x;
    }
  }

  /** No id occurs twice. */
  predicate Distinct(ids: seq<int>)
  {
    forall i, j | 0 <= i < j < |ids| :: ids[i] != ids[j]
  }

  /**
   * The rules after the first `|ids|` steps of `update_rules_order_db` with `total` ids in all:
   * the id at position `i` gets priority `total - i`; ids that name no rule change nothing, and
   * an id given twice ends with the priority of its later position.
   */
  function Reprioritised(rules: map<int, RuleRow>, ids: seq<int>, total: int): map<int, RuleRow>
  {
    if ids == [] then rules
    else
      var m := Reprioritised(rules, ids[..|ids| - 1], total);
      var id := ids[|ids| - 1];
      if id in m then m[id := m[id].(priority := total - (|ids| - 1))] else m
  }

  /**
   * Reordering keeps the same rules with the same fields; a rule whose id occurs (once) at
   * position `i` gets priority `total - i`, and every other rule keeps its priority.
   */
  lemma {:induction false} ReprioritisedFacts(rules: map<int, RuleRow>, ids: seq<int>, total: int)
    requires Distinct(ids)
    ensures var m := Reprioritised(rules, ids, total);
            && m.Keys == rules.Keys
            && (forall id | id in m :: m[id] == rules[id].(priority := m[id].priority))
            && (forall i | 0 <= i < |ids| && ids[i] in rules :: m[ids[i]].priority == total - i)
            && (forall id | id in rules && id !in ids :: m[id].priority == rules[id].priority)
    decreases |ids|
  {
    if ids != [] {
      var init := ids[..|ids| - 1];
      ReprioritisedFacts(rules, init, total);
      var m := Reprioritised(rules, ids, total);
      forall i | 0 <= i < |ids| && ids[i] in rules ensures m[ids[i]].priority == total - i {
        if i < |init| {
          assert init[i] == ids[i] != ids[|ids| - 1];
        }
      }
      forall id | id in rules && id !in ids ensures m[id].priority == rules[id].priority {
        assert id !in init;
      }
    }
  }

  /**
   * After `update_rules_order_db` with every rule's id exactly once, listing the rules returns
   * them in exactly the given order.
   */
  lemma ReorderThenList(rules: map<int, RuleRow>, ids: seq<int>, listing: seq<int>)
    requires Distinct(ids)
    requires (forall i | 0 <= i < |ids| :: ids[i] in rules) && (forall id | id in rules :: id in ids)
    requires IsListing(Reprioritised(rules, ids, |ids|), listing)
    ensures listing == ids
  {
    var m := Reprioritised(rules, ids, |ids|);
    ReprioritisedFacts(rules, ids, |ids|);
    assert InListingOrder(m, ids) by {
      forall i, j | 0 <= i < j < |ids| ensures ListedBefore(m, ids[i], ids[j]) {
        assert m[ids[i]].priority == |ids| - i && m[ids[j]].priority == |ids| - j;
      }
    }
    ListingIsUnique(m, listing, ids);
  }

  /** The `rules` table. */
  class RuleStore {
    var rules: map<int, RuleRow>

    constructor(rules: map<int, RuleRow>)
      ensures this.rules == rules
    {
      this.rules := rules;
    }

    /** `update_rules_order_db`: the id at position `i` of `ids` gets priority `|ids| - i`. */
    method UpdateRulesOrder(ids: seq<int>)
      modifies this
      ensures rules == Reprioritised(old(rules), ids, |ids|)
    {
      var total := |ids|;
      var idx := 0;
      while idx < |ids|
        invariant 0 <= idx <= |ids|
        invariant rules == Reprioritised(old(rules), ids[..idx], total)
      {
        assert ids[..idx + 1][..idx] == ids[..idx] && ids[..idx + 1][idx] == ids[idx];
        var id := ids[idx];
        if id in rules {
          rules := rules[id := rules[id].(priority := total - idx)];
        }
        idx := idx + 1;
      }
      assert ids[..idx] == ids;
    }
  }

  /** Three rules put in the order 2, 3, 1 are listed as 2, 3, 1 with priorities 3, 2, 1. */
  method ReorderThreeRules(listing: seq<int>) returns (priorities: seq<int>)
    requires IsListing(Reprioritised(map[1 := RuleRow(0, "f", "p", "a", "v"), 2 := RuleRow(0, "f", "p", "a", "v"),
                                         3 := RuleRow(0, "f", "p", "a", "v")], [2, 3, 1], 3), listing)
    ensures listing == [2, 3, 1] && priorities == [3, 2, 1]
  {
    var row := RuleRow(0, "f", "p", "a", "v");
    var store := new RuleStore(map[1 := row, 2 := row, 3 := row]);
    store.UpdateRulesOrder([2, 3, 1]);
    ReorderThenList(map[1 := row, 2 := row, 3 := row], [2, 3, 1], listing);
    ReprioritisedFacts(map[1 := row, 2 := row, 3 := row], [2, 3, 1], 3);
    assert [2, 3, 1][1] == 3 && [2, 3, 1][2] == 1;
    priorities := [store.rules[2].priority, store.rules[3].priority, store.rules[1].priority];
  }
}
