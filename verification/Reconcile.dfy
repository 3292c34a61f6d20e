/** What every firewall backend has to achieve, and the commands it does it with.
    internal/firewall/firewall.go:84-126, 207-217 */
module Reconcile {
  import opened Sorting
  import opened Forwards
  import opened Rules

  datatype RuleState = Open | Existing | Failed

  /** active: the firewall is filtering; rules: the outcome per wanted key. */
  datatype Report = Report(active: bool, rules: map<Key, RuleState>)

  /** One place in which rules live (a chain, a tool's table, a zone): the keys the
      operator's rules allow, and the keys our own rules allow with their tags. */
  datatype Place = Place(operator: set<Key>, ours: set<(Key, RuleId)>)

  predicate Covers(p: Place, w: Rule) {
    w.Key() in p.operator || (w.Key(), w.id) in p.ours
  }

  predicate IsWanted(want: seq<Rule>, key: Key) {
    exists w :: w in want && w.Key() == key
  }

  /** The one specification behind the four backends: every wanted rule is in force and
      nothing of ours is left for a port that is not wanted. */
  ghost predicate Converged(p: Place, want: seq<Rule>) {
    && (forall w :: w in want ==> Covers(p, w))
    && (forall key, id :: (key, id) in p.ours ==> IsWanted(want, key))
  }

  /** The report speaks about exactly the wanted keys. */
  ghost predicate ReportsOn(rules: map<Key, RuleState>, want: seq<Rule>) {
    && (forall w :: w in want ==> w.Key() in rules)
    && (forall key :: key in rules ==> IsWanted(want, key))
  }

  ghost predicate NoneFailed(rules: map<Key, RuleState>) {
    forall key :: key in rules ==> rules[key] != Failed
  }

  /** What is not reported as failed is in force; what is reported as existing is due to
      the operator. */
  ghost predicate Truthful(rules: map<Key, RuleState>, want: seq<Rule>, p: Place)
    requires ReportsOn(rules, want)
  {
    forall w :: w in want ==>
      && (rules[w.Key()] != Failed ==> Covers(p, w))
      && (rules[w.Key()] == Existing ==> w.Key() in p.operator)
  }

  // ----- the order of work -------------------------------------------------------------

  function RuleKey(r: Rule): int {
    2 * r.port + (match r.transport case TCP => 0 case UDP => 1)
  }

  function SortedRules(want: seq<Rule>): seq<Rule> { SortBy(want, RuleKey) }

  /** Sorting keeps the rules, and their keys stay distinct. */
  lemma SortedRulesAreTheSame(want: seq<Rule>)
    requires DistinctRules(want)
    ensures DistinctRules(SortedRules(want))
    ensures forall w :: w in SortedRules(want) <==> w in want
  {
    SortRearranges(want, RuleKey);
    assert DistinctKeys(want, RuleKey) by {
      forall i, j | 0 <= i < j < |want| ensures RuleKey(want[i]) != RuleKey(want[j]) {
        assert want[i].Key() != want[j].Key();
      }
    }
    DistinctKeysOfPermutation(want, SortedRules(want), RuleKey);
    forall i, j | 0 <= i < j < |SortedRules(want)| ensures SortedRules(want)[i].Key() != SortedRules(want)[j].Key() {
      assert RuleKey(SortedRules(want)[i]) != RuleKey(SortedRules(want)[j]);
    }
    forall w ensures w in SortedRules(want) <==> w in want {
      assert w in SortedRules(want) <==> w in multiset(SortedRules(want));
    }
  }

  /** A rule to work on comes before another: a lower port first, and tcp before udp. */
  predicate Precedes(a: Rule, b: Rule) {
    a.port < b.port || (a.port == b.port && a.transport == TCP && b.transport == UDP)
  }

  lemma SortedRulesAreInOrder(want: seq<Rule>)
    requires DistinctRules(want)
    ensures forall i, j :: 0 <= i < j < |SortedRules(want)| ==> Precedes(SortedRules(want)[i], SortedRules(want)[j])
  {
    SortedRulesAreTheSame(want);
    SortOrders(want, RuleKey);
    var sorted := SortedRules(want);
    forall i, j | 0 <= i < j < |sorted| ensures Precedes(sorted[i], sorted[j]) {
      assert RuleKey(sorted[i]) <= RuleKey(sorted[j]) && sorted[i].Key() != sorted[j].Key();
    }
  }

  /** One more rule of a list without repeated keys: its key is new to the prefix. */
  lemma WantedGrows(sorted: seq<Rule>, i: nat)
    requires DistinctRules(sorted) && i < |sorted|
    ensures forall o :: o in sorted[..i + 1] <==> o in sorted[..i] || o == sorted[i]
    ensures forall o :: o in sorted[..i] ==> o.Key() != sorted[i].Key()
    ensures !IsWanted(sorted[..i], sorted[i].Key())
    ensures forall key :: IsWanted(sorted[..i + 1], key) <==> IsWanted(sorted[..i], key) || key == sorted[i].Key()
  {
    var a, b, w := sorted[..i], sorted[..i + 1], sorted[i];
    assert b == a + [w];
    forall o | o in a ensures o.Key() != w.Key() {
      var k :| 0 <= k < i && a[k] == o;
      assert sorted[k] == o;
    }
    assert w in b;
    forall key ensures IsWanted(b, key) <==> IsWanted(a, key) || key == w.Key() {
      if o :| o in b && o.Key() == key {
        assert o in a || o == w;
      }
    }
  }

  /** The report after one more rule; what it said about the earlier ones stays. */
  lemma ReportGrows(sorted: seq<Rule>, i: nat, rules: map<Key, RuleState>, state: RuleState)
    requires DistinctRules(sorted) && i < |sorted| && ReportsOn(rules, sorted[..i])
    ensures ReportsOn(rules[sorted[i].Key() := state], sorted[..i + 1])
    ensures forall o :: o in sorted[..i + 1] <==> o in sorted[..i] || o == sorted[i]
    ensures forall o :: o in sorted[..i] ==> o.Key() in rules && o.Key() != sorted[i].Key()
  {
    WantedGrows(sorted, i);
  }

  lemma SameWanted(a: seq<Rule>, b: seq<Rule>)
    requires forall w :: w in a <==> w in b
    ensures forall key :: IsWanted(a, key) <==> IsWanted(b, key)
  {
  }

  /** Among distinct rules a key identifies its rule. */
  lemma KeyIdentifiesRule(want: seq<Rule>, a: Rule, b: Rule)
    requires DistinctRules(want) && a in want && b in want && a.Key() == b.Key()
    ensures a == b
  {
    var i :| 0 <= i < |want| && want[i] == a;
    var j :| 0 <= j < |want| && want[j] == b;
  }

  /** wanted[w.Key()] = w for every rule. */
  method IndexWanted(want: seq<Rule>) returns (m: map<Key, RuleId>)
    requires DistinctRules(want)
    ensures forall w :: w in want ==> w.Key() in m && m[w.Key()] == w.id
    ensures forall key :: key in m ==> exists w :: w in want && w.Key() == key && w.id == m[key]
  {
    m := map[];
    var i := 0;
    while i < |want|
      invariant i <= |want|
      invariant forall k :: 0 <= k < i ==> want[k].Key() in m && m[want[k].Key()] == want[k].id
      invariant forall key :: key in m ==> exists k :: 0 <= k < i && want[k].Key() == key && want[k].id == m[key]
    {
      m := m[want[i].Key() := want[i].id];
      i := i + 1;
    }
    forall key | key in m ensures exists w :: w in want && w.Key() == key && w.id == m[key] {
      var k :| 0 <= k < i && want[k].Key() == key && want[k].id == m[key];
      assert want[k] in want;
    }
  }

  // ----- commands ------------------------------------------------------------------------

  /** What a firewall is told: to allow a port under a tag, to take such a rule away, or to
      delete a rule by its handle. `place` tells chains apart where there are several. */
  datatype Command = Allow(place: nat, key: Key, id: RuleId) | Revoke(place: nat, key: Key, id: RuleId) | Delete(place: nat, handle: nat)

  /** A command that was issued, and whether it worked. */
  datatype Call = Call(cmd: Command, ok: bool)

  ghost predicate Worked(calls: seq<Call>, cmd: Command) { Call(cmd, true) in calls }

  ghost predicate Told(calls: seq<Call>, cmd: Command) { Call(cmd, true) in calls || Call(cmd, false) in calls }

  /** No command is issued twice. */
  ghost predicate NoRepeats(calls: seq<Call>) {
    forall i, j :: 0 <= i < j < |calls| ==> calls[i].cmd != calls[j].cmd
  }

  ghost predicate AllWorked(calls: seq<Call>) {
    forall c :: c in calls ==> c.ok
  }

  /** Commands one after the other. */
  lemma JoinCalls(a: seq<Call>, b: seq<Call>)
    ensures forall c :: c in a + b <==> c in a || c in b
    ensures forall cmd :: Told(a + b, cmd) <==> Told(a, cmd) || Told(b, cmd)
    ensures forall cmd :: Worked(a + b, cmd) <==> Worked(a, cmd) || Worked(b, cmd)
    ensures AllWorked(a + b) <==> AllWorked(a) && AllWorked(b)
    ensures NoRepeats(a) && NoRepeats(b) && (forall x, y :: x in a && y in b ==> x.cmd != y.cmd) ==> NoRepeats(a + b)
  {
  }

  /** How far a shell is. */
  datatype Mark = Mark(ran: nat, changes: nat, log: seq<Call>)

  /** Between the two marks exactly these commands were to change something. */
  ghost predicate Between(fails: nat -> bool, a: Mark, b: Mark, calls: seq<Call>) {
    && a.ran <= b.ran && b.changes == a.changes + |calls| && b.log == a.log + calls
    && ((forall i :: a.ran <= i < b.ran ==> !fails(i)) ==> AllWorked(calls))
  }

  lemma JoinBetween(fails: nat -> bool, a: Mark, b: Mark, c: Mark, first: seq<Call>, second: seq<Call>)
    requires Between(fails, a, b, first) && Between(fails, b, c, second)
    ensures Between(fails, a, c, first + second)
  {
    JoinCalls(first, second);
    assert (a.log + first) + second == a.log + (first + second);
  }

  /** Runs external commands. Which of them fail is fixed by an arbitrary schedule. */
  class Shell {
    const fails: nat -> bool
    /** Commands run so far, and how many of them were meant to change something. */
    var ran: nat
    var changes: nat
    /** The commands of the second kind. */
    ghost var log: seq<Call>

    constructor (fails: nat -> bool)
      ensures this.fails == fails && ran == 0 && changes == 0 && log == []
    {
      this.fails, ran, changes, log := fails, 0, 0, [];
    }

    ghost function Now(): Mark
      reads this
    {
      Mark(ran, changes, log)
    }

    /** Every command since the given point succeeded. */
    ghost predicate AllOk(since: nat)
      reads this
    {
      forall i :: since <= i < ran ==> !fails(i)
    }

    /** Every command since the given point failed. */
    ghost predicate NoneOk(since: nat)
      reads this
    {
      forall i :: since <= i < ran ==> fails(i)
    }

    method Query() returns (ok: bool)
      modifies this
      ensures ran == old(ran) + 1 && changes == old(changes) && log == old(log) && ok == !fails(old(ran))
    {
      ok := !fails(ran);
      ran := ran + 1;
    }

    method Change(ghost cmd: Command) returns (ok: bool)
      modifies this
      ensures ran == old(ran) + 1 && changes == old(changes) + 1 && log == old(log) + [Call(cmd, ok)] && ok == !fails(old(ran))
    {
      ok := !fails(ran);
      ran, changes, log := ran + 1, changes + 1, log + [Call(cmd, ok)];
    }
  }
}
