/** The ufw backend: internal/firewall/ufw.go:33-101. ufw keeps one rule per port and
    protocol, so a rule of ours and a rule of the operator compete for the same slot. */
module UfwBackend {
  import opened Basics
  import opened Rules
  import opened Reconcile

  /** Whose rule allows a port and protocol from anywhere: the operator's, or ours with a tag. */
  datatype Slot = Operators | Ours(id: RuleId)

  type Slots = map<Key, Slot>

  function At(slots: Slots, key: Key): Option<Slot> {
    if key in slots then Some(slots[key]) else None
  }

  function TaggedIn(slots: Slots): map<Key, RuleId> {
    map k | k in slots && slots[k].Ours? :: slots[k].id
  }

  function OperatorsIn(slots: Slots): set<Key> {
    set k | k in slots && slots[k] == Operators
  }

  /** wide: the keys that rules for a port without a protocol allow; all of them are the
      operator's. */
  ghost function PlaceOf(slots: Slots, wide: set<Key>): Place {
    Place(OperatorsIn(slots) + wide, set k | k in slots && slots[k].Ours? :: (k, slots[k].id))
  }

  // ----- what one sync does, command by command --------------------------------------------

  /** For a wanted rule, given what is listed: a rule of the operator is left alone, the right
      tag as well, a wrong one is taken away first; the report is what the command said, and
      the slot holds our rule exactly when that worked. */
  ghost predicate Served(w: Rule, ours: map<Key, RuleId>, others: set<Key>, was: Slots, now: Slots, state: RuleState, calls: seq<Call>) {
    var key := w.Key();
    var allow := Allow(0, key, w.id);
    && (forall id :: Told(calls, Allow(0, key, id)) <==> id == w.id && key !in others && !(key in ours && ours[key] == w.id))
    && (forall id :: Told(calls, Revoke(0, key, id)) <==> key !in others && key in ours && ours[key] == id && id != w.id)
    && state == (if key in others then Existing else if !Told(calls, allow) || Worked(calls, allow) then Open else Failed)
    && At(now, key) == (if Worked(calls, allow) then Some(Ours(w.id))
                        else if key in ours && Worked(calls, Revoke(0, key, ours[key])) then None
                        else At(was, key))
  }

  /** On a key that is not wanted nothing is allowed, and exactly a listed tag is taken away. */
  ghost predicate Dismissed(key: Key, ours: map<Key, RuleId>, was: Slots, now: Slots, calls: seq<Call>) {
    && (forall id :: !Told(calls, Allow(0, key, id)))
    && (forall id :: Told(calls, Revoke(0, key, id)) <==> key in ours && ours[key] == id)
    && At(now, key) == if key in ours && Worked(calls, Revoke(0, key, ours[key])) then None else At(was, key)
  }

  /** A whole sync, whatever fails: each command is issued once, whether or not another one
      failed, and the slots and the report follow from which of them worked. */
  ghost predicate Synced(want: seq<Rule>, ours: map<Key, RuleId>, others: set<Key>, was: Slots, now: Slots,
                         rules: map<Key, RuleState>, calls: seq<Call>) {
    && NoRepeats(calls) && ReportsOn(rules, want)
    && (forall c :: c in calls ==> !c.cmd.Delete? && c.cmd.place == 0)
    && (forall w :: w in want ==> Served(w, ours, others, was, now, rules[w.Key()], calls))
    && (forall key :: !IsWanted(want, key) ==> Dismissed(key, ours, was, now, calls))
  }

  // ----- the two loops -------------------------------------------------------------------------

  /** The first loop: nothing has happened on other keys. */
  ghost predicate Added(want: seq<Rule>, ours: map<Key, RuleId>, others: set<Key>, was: Slots, now: Slots,
                        rules: map<Key, RuleState>, calls: seq<Call>) {
    && NoRepeats(calls) && ReportsOn(rules, want)
    && (forall w :: w in want ==> Served(w, ours, others, was, now, rules[w.Key()], calls))
    && (forall key :: !IsWanted(want, key) ==> At(now, key) == At(was, key))
    && (forall c :: c in calls ==> !c.cmd.Delete? && c.cmd.place == 0 && IsWanted(want, c.cmd.key))
  }

  /** One turn of it. */
  ghost predicate Turn(w: Rule, ours: map<Key, RuleId>, others: set<Key>, was: Slots, now: Slots, state: RuleState, calls: seq<Call>) {
    && NoRepeats(calls) && Served(w, ours, others, was, now, state, calls)
    && (forall key :: key != w.Key() ==> At(now, key) == At(was, key))
    && (forall c :: c in calls ==> !c.cmd.Delete? && c.cmd.place == 0 && c.cmd.key == w.Key())
  }

  /** Commands on other keys do not matter to a rule. */
  lemma StillServed(w: Rule, ours: map<Key, RuleId>, others: set<Key>, was: Slots, before: Slots, now: Slots, state: RuleState,
                    calls: seq<Call>, more: seq<Call>)
    requires Served(w, ours, others, was, before, state, calls)
    requires At(now, w.Key()) == At(before, w.Key())
    requires forall c :: c in more ==> !c.cmd.Delete? && c.cmd.key != w.Key()
    ensures Served(w, ours, others, was, now, state, calls + more)
  {
    JoinCalls(calls, more);
  }

  lemma NowServed(w: Rule, ours: map<Key, RuleId>, others: set<Key>, was: Slots, before: Slots, now: Slots, state: RuleState,
                  calls: seq<Call>, made: seq<Call>)
    requires Served(w, ours, others, before, now, state, made)
    requires At(before, w.Key()) == At(was, w.Key())
    requires forall c :: c in calls ==> !c.cmd.Delete? && c.cmd.key != w.Key()
    ensures Served(w, ours, others, was, now, state, calls + made)
  {
    JoinCalls(calls, made);
  }

  lemma AddedStep(sorted: seq<Rule>, i: nat, ours: map<Key, RuleId>, others: set<Key>, was: Slots, before: Slots, now: Slots,
                  rules: map<Key, RuleState>, state: RuleState, calls: seq<Call>, made: seq<Call>)
    requires DistinctRules(sorted) && i < |sorted| && Added(sorted[..i], ours, others, was, before, rules, calls)
    requires Turn(sorted[i], ours, others, before, now, state, made)
    ensures Added(sorted[..i + 1], ours, others, was, now, rules[sorted[i].Key() := state], calls + made)
  {
    var rules' := rules[sorted[i].Key() := state];
    WantedGrows(sorted, i);
    ReportGrows(sorted, i, rules, state);
    JoinCalls(calls, made);
    forall w | w in sorted[..i + 1] ensures Served(w, ours, others, was, now, rules'[w.Key()], calls + made) {
      if w in sorted[..i] {
        StillServed(w, ours, others, was, before, now, rules[w.Key()], calls, made);
      } else {
        NowServed(w, ours, others, was, before, now, state, calls, made);
      }
    }
  }

  lemma SameMembers(sorted: seq<Rule>, want: seq<Rule>, ours: map<Key, RuleId>, others: set<Key>, was: Slots, now: Slots,
                    rules: map<Key, RuleState>, calls: seq<Call>)
    requires (forall w :: w in sorted <==> w in want) && Added(sorted, ours, others, was, now, rules, calls)
    ensures Added(want, ours, others, was, now, rules, calls)
  {
    SameWanted(sorted, want);
  }

  /** The second loop has dealt with the keys that are not in todo. */
  ghost predicate Cleared(want: seq<Rule>, ours: map<Key, RuleId>, todo: set<Key>, mid: Slots, now: Slots, calls: seq<Call>) {
    && NoRepeats(calls)
    && (forall c :: c in calls ==> c.cmd.Revoke? && c.cmd.place == 0 && StaleTag(want, ours, c.cmd.key, c.cmd.id) && c.cmd.key !in todo)
    && (forall key :: key in ours && key !in todo && !IsWanted(want, key) ==> Told(calls, Revoke(0, key, ours[key])))
    && (forall key :: At(now, key) ==
          if key in ours && Worked(calls, Revoke(0, key, ours[key])) && At(mid, key) == Some(Ours(ours[key])) then None else At(mid, key))
  }

  ghost predicate StaleTag(want: seq<Rule>, ours: map<Key, RuleId>, key: Key, id: RuleId) {
    key in ours && ours[key] == id && !IsWanted(want, key)
  }

  lemma ClearedStep(want: seq<Rule>, ours: map<Key, RuleId>, todo: set<Key>, mid: Slots, before: Slots, now: Slots,
                    calls: seq<Call>, key: Key, ok: bool)
    requires Cleared(want, ours, todo, mid, before, calls) && key in todo && key in ours && !IsWanted(want, key)
    requires now == if ok && key in before && before[key] == Ours(ours[key]) then before - {key} else before
    ensures Cleared(want, ours, todo - {key}, mid, now, calls + [Call(Revoke(0, key, ours[key]), ok)])
  {
    var made := [Call(Revoke(0, key, ours[key]), ok)];
    JoinCalls(calls, made);
    assert made[0] in made;
    forall k ensures At(now, k) ==
          if k in ours && Worked(calls + made, Revoke(0, k, ours[k])) && At(mid, k) == Some(Ours(ours[k])) then None else At(mid, k)
    {
      assert Worked(made, Revoke(0, k, if k in ours then ours[k] else ours[key])) ==> k == key;
    }
  }

  /** Both loops one after the other. */
  lemma LoopsSync(want: seq<Rule>, ours: map<Key, RuleId>, others: set<Key>, was: Slots, mid: Slots, now: Slots,
                  rules: map<Key, RuleState>, first: seq<Call>, second: seq<Call>)
    requires forall key :: key in ours ==> At(was, key) == Some(Ours(ours[key]))
    requires Added(want, ours, others, was, mid, rules, first) && Cleared(want, ours, {}, mid, now, second)
    ensures Synced(want, ours, others, was, now, rules, first + second)
  {
    JoinCalls(first, second);
    forall w | w in want ensures Served(w, ours, others, was, now, rules[w.Key()], first + second) {
      assert IsWanted(want, w.Key());
      StillServed(w, ours, others, was, mid, now, rules[w.Key()], first, second);
    }
    forall key | !IsWanted(want, key) ensures Dismissed(key, ours, was, now, first + second) {
    }
  }

  // ----- what follows ------------------------------------------------------------------------------

  /** Whatever fails, the report is true: what is not failed is in force, existing is the
      operator's, and open is ours. */
  lemma SyncedIsTrue(want: seq<Rule>, ours: map<Key, RuleId>, others: set<Key>, was: Slots, now: Slots, wide: set<Key>,
                     rules: map<Key, RuleState>, calls: seq<Call>)
    requires Synced(want, ours, others, was, now, rules, calls)
    requires forall key :: key in ours ==> At(was, key) == Some(Ours(ours[key]))
    requires others <= OperatorsIn(was) + wide
    ensures Truthful(rules, want, PlaceOf(now, wide))
    ensures forall w :: w in want && rules[w.Key()] == Open ==> At(now, w.Key()) == Some(Ours(w.id))
  {
    var p := PlaceOf(now, wide);
    assert forall key, id :: (key, id) in p.ours <==> At(now, key) == Some(Ours(id));
    forall w | w in want
      ensures rules[w.Key()] != Failed ==> Covers(p, w)
      ensures rules[w.Key()] == Existing ==> w.Key() in p.operator
      ensures rules[w.Key()] == Open ==> At(now, w.Key()) == Some(Ours(w.id))
    {
      assert Served(w, ours, others, was, now, rules[w.Key()], calls);
      if w.Key() in OperatorsIn(was) && w.Key() in others { assert At(now, w.Key()) == Some(Operators); }
    }
  }

  /** The operator's rules: none appears; one goes only where a wanted key was not listed as
      the operator's and the rule could be written. */
  lemma SyncedSpares(want: seq<Rule>, ours: map<Key, RuleId>, others: set<Key>, was: Slots, now: Slots,
                     rules: map<Key, RuleState>, calls: seq<Call>, key: Key)
    requires Synced(want, ours, others, was, now, rules, calls)
    requires forall k :: k in ours ==> At(was, k) == Some(Ours(ours[k]))
    ensures key in OperatorsIn(now) ==> key in OperatorsIn(was)
    ensures key in OperatorsIn(was) && key !in OperatorsIn(now) ==> IsWanted(want, key) && key !in others
    ensures key in OperatorsIn(was) && IsWanted(want, key) && key !in others && AllWorked(calls) ==> key !in OperatorsIn(now)
  {
    if IsWanted(want, key) {
      var w :| w in want && w.Key() == key;
      assert Served(w, ours, others, was, now, rules[key], calls);
    } else {
      assert Dismissed(key, ours, was, now, calls);
    }
  }

  /** When every command works nothing fails, every wanted key that is not the operator's
      carries its tag, and of the unwanted keys exactly the listed tags are gone. */
  lemma SyncedAchieves(want: seq<Rule>, ours: map<Key, RuleId>, others: set<Key>, was: Slots, now: Slots,
                       rules: map<Key, RuleState>, calls: seq<Call>)
    requires Synced(want, ours, others, was, now, rules, calls) && AllWorked(calls)
    requires forall key :: key in ours ==> At(was, key) == Some(Ours(ours[key]))
    ensures NoneFailed(rules)
    ensures forall w :: w in want ==> w.Key() in others || At(now, w.Key()) == Some(Ours(w.id))
    ensures forall key :: !IsWanted(want, key) ==> At(now, key) == if key in ours then None else At(was, key)
  {
    forall w | w in want ensures rules[w.Key()] != Failed && (w.Key() in others || At(now, w.Key()) == Some(Ours(w.id))) {
      assert Served(w, ours, others, was, now, rules[w.Key()], calls);
    }
    forall key | !IsWanted(want, key) ensures At(now, key) == if key in ours then None else At(was, key) {
      assert Dismissed(key, ours, was, now, calls);
    }
  }

  /** Every command has a reason in the listing. */
  lemma CallHasReason(want: seq<Rule>, ours: map<Key, RuleId>, others: set<Key>, was: Slots, now: Slots,
                      rules: map<Key, RuleState>, calls: seq<Call>, c: Call)
    requires Synced(want, ours, others, was, now, rules, calls) && c in calls
    ensures
      || (exists w :: w in want && w.Key() == c.cmd.key && w.Key() !in others && !(w.Key() in ours && ours[w.Key()] == w.id))
      || (c.cmd.key in ours && !IsWanted(want, c.cmd.key))
  {
    assert Told(calls, c.cmd);
    if IsWanted(want, c.cmd.key) {
      var w :| w in want && w.Key() == c.cmd.key;
      assert Served(w, ours, others, was, now, rules[w.Key()], calls);
    } else {
      assert Dismissed(c.cmd.key, ours, was, now, calls);
    }
  }

  /** With nothing missing and nothing stale no command is issued and nothing changes. */
  lemma SyncedRests(want: seq<Rule>, ours: map<Key, RuleId>, others: set<Key>, was: Slots, now: Slots,
                    rules: map<Key, RuleState>, calls: seq<Call>)
    requires Synced(want, ours, others, was, now, rules, calls)
    requires forall w :: w in want ==> w.Key() in others || (w.Key() in ours && ours[w.Key()] == w.id)
    requires forall key :: key in ours ==> IsWanted(want, key)
    ensures calls == [] && now == was
  {
    if calls != [] {
      CallHasReason(want, ours, others, was, now, rules, calls, calls[0]);
      assert false;
    }
    forall key ensures At(now, key) == At(was, key) {
      if IsWanted(want, key) {
        var w :| w in want && w.Key() == key;
        assert Served(w, ours, others, was, now, rules[key], calls);
      } else {
        assert Dismissed(key, ours, was, now, calls);
      }
    }
    SameSlots(was, now);
  }

  /** Every wanted key is allowed by the operator or carries the right tag, and no other key
      carries a tag. */
  ghost predicate SettledIn(want: seq<Rule>, wide: set<Key>, slots: Slots) {
    && (forall w :: w in want ==>
          w.Key() in wide || At(slots, w.Key()) == Some(Operators) || At(slots, w.Key()) == Some(Ours(w.id)))
    && (forall key :: key in slots && slots[key].Ours? ==> IsWanted(want, key))
  }

  /** Without failures an active firewall settles, and an inactive one does exactly when no
      old tag is unwanted. */
  lemma SyncSettles(want: seq<Rule>, active: bool, wide: set<Key>, was: Slots, now: Slots, rules: map<Key, RuleState>, calls: seq<Call>)
    requires Synced(want, if active then TaggedIn(was) else map[], if active then OperatorsIn(was) + wide else {}, was, now, rules, calls)
    requires AllWorked(calls)
    ensures NoneFailed(rules)
    ensures SettledIn(want, wide, now) <==> active || forall key :: key in TaggedIn(was) ==> IsWanted(want, key)
  {
    var ours, others := if active then TaggedIn(was) else map[], if active then OperatorsIn(was) + wide else {};
    SyncedAchieves(want, ours, others, was, now, rules, calls);
    SyncSpares(want, active, wide, was, now, rules, calls);
    forall w | w in want
      ensures w.Key() in wide || At(now, w.Key()) == Some(Operators) || At(now, w.Key()) == Some(Ours(w.id))
    {
      if active && w.Key() in OperatorsIn(was) { assert w.Key() in OperatorsIn(now); }
    }
    forall key | !IsWanted(want, key)
      ensures key in now && now[key].Ours? <==> key in TaggedIn(was) && key !in ours
    {
      assert At(now, key) == if key in ours then None else At(was, key);
    }
  }

  lemma SameSlots(a: Slots, b: Slots)
    requires forall key :: At(a, key) == At(b, key)
    ensures a == b
  {
    assert forall key :: key in a <==> At(a, key).Some?;
    assert forall key :: key in b <==> At(b, key).Some?;
    assert forall key :: key in a ==> At(a, key) == Some(a[key]) && At(b, key) == Some(b[key]);
  }

  class Ufw {
    const shell: Shell
    const active: bool
    const wide: set<Key>
    var slots: Slots

    constructor (shell: Shell, active: bool, wide: set<Key>, slots: Slots)
      ensures this.shell == shell && this.active == active && this.wide == wide && this.slots == slots
    {
      this.shell, this.active, this.wide, this.slots := shell, active, wide, slots;
    }

    ghost function Here(): Place
      reads this
    {
      PlaceOf(slots, wide)
    }

    /** What a listing shows: an inactive ufw lists no rules. */
    ghost function ListedTags(): map<Key, RuleId>
      reads this
    {
      if active then TaggedIn(slots) else map[]
    }

    ghost function ListedOthers(): set<Key>
      reads this
    {
      if active then OperatorsIn(slots) + wide else {}
    }

    /** "ufw status" */
    method Status() returns (ok: bool, isActive: bool, ours: map<Key, RuleId>, others: set<Key>)
      modifies shell
      ensures shell.ran == old(shell.ran) + 1 && shell.changes == old(shell.changes) && shell.log == old(shell.log)
      ensures ok == !shell.fails(old(shell.ran))
      ensures isActive == active && ours == ListedTags() && others == ListedOthers()
    {
      ok := shell.Query();
      isActive := active;
      ours, others := if active then TaggedIn(slots) else map[], if active then OperatorsIn(slots) + wide else {};
    }

    /** "ufw allow KEY comment TAG": the rule in the slot, whoever wrote it, gets the comment. */
    method Permit(key: Key, id: RuleId) returns (ok: bool)
      modifies this`slots, shell
      ensures shell.ran == old(shell.ran) + 1 && shell.changes == old(shell.changes) + 1 && ok == !shell.fails(old(shell.ran))
      ensures shell.log == old(shell.log) + [Call(Allow(0, key, id), ok)]
      ensures slots == if ok then old(slots)[key := Ours(id)] else old(slots)
    {
      ok := shell.Change(Allow(0, key, id));
      if ok { slots := slots[key := Ours(id)]; }
    }

    /** "ufw delete allow KEY comment TAG": deletes the rule with exactly this comment. */
    method Forget(key: Key, id: RuleId) returns (ok: bool)
      modifies this`slots, shell
      ensures shell.ran == old(shell.ran) + 1 && shell.changes == old(shell.changes) + 1 && ok == !shell.fails(old(shell.ran))
      ensures shell.log == old(shell.log) + [Call(Revoke(0, key, id), ok)]
      ensures slots == if ok && key in old(slots) && old(slots)[key] == Ours(id) then old(slots) - {key} else old(slots)
    {
      ok := shell.Change(Revoke(0, key, id));
      if ok && key in slots && slots[key] == Ours(id) { slots := slots - {key}; }
    }

    /** Since the mark exactly these commands have been issued. */
    ghost predicate Ran(since: Mark, calls: seq<Call>)
      reads this, shell
    {
      Between(shell.fails, since, shell.Now(), calls)
    }

    /** The case split for one wanted rule. */
    method Ensure(w: Rule, ours: map<Key, RuleId>, others: set<Key>) returns (state: RuleState, ghost calls: seq<Call>)
      requires w.Key() in ours ==> At(slots, w.Key()) == Some(Ours(ours[w.Key()]))
      modifies this`slots, shell
      ensures Ran(old(shell.Now()), calls) && Turn(w, ours, others, old(slots), slots, state, calls)
    {
      var key := w.Key();
      calls := [];
      if key in others { return Existing, calls; }
      if key in ours && ours[key] == w.id { return Open, calls; }
      if key in ours {
        var gone := Forget(key, ours[key]);
        calls := [Call(Revoke(0, key, ours[key]), gone)];
      }
      var ok := Permit(key, w.id);
      calls := calls + [Call(Allow(0, key, w.id), ok)];
      state := if ok then Open else Failed;
    }

    /** First loop of Sync. */
    method AddMissing(want: seq<Rule>, ours: map<Key, RuleId>, others: set<Key>) returns (rules: map<Key, RuleState>, ghost calls: seq<Call>)
      requires DistinctRules(want) && forall key :: key in ours ==> At(slots, key) == Some(Ours(ours[key]))
      modifies this`slots, shell
      ensures Ran(old(shell.Now()), calls) && Added(want, ours, others, old(slots), slots, rules, calls)
    {
      var sorted := SortedRules(want);
      SortedRulesAreTheSame(want);
      rules, calls := AddInOrder(sorted, ours, others);
      SameMembers(sorted, want, ours, others, old(slots), slots, rules, calls);
    }

    method AddInOrder(sorted: seq<Rule>, ours: map<Key, RuleId>, others: set<Key>) returns (rules: map<Key, RuleState>, ghost calls: seq<Call>)
      requires DistinctRules(sorted) && forall key :: key in ours ==> At(slots, key) == Some(Ours(ours[key]))
      modifies this`slots, shell
      ensures Ran(old(shell.Now()), calls) && Added(sorted, ours, others, old(slots), slots, rules, calls)
    {
      rules, calls := map[], [];
      var i := 0;
      while i < |sorted|
        invariant i <= |sorted| && Ran(old(shell.Now()), calls)
        invariant Added(sorted[..i], ours, others, old(slots), slots, rules, calls)
      {
        rules, calls := AddOne(sorted, i, ours, others, rules, old(slots), calls, old(shell.Now()));
        i := i + 1;
      }
      assert sorted[..i] == sorted;
    }

    /** One turn of the loop. */
    method AddOne(sorted: seq<Rule>, i: nat, ours: map<Key, RuleId>, others: set<Key>, before: map<Key, RuleState>,
                  ghost was: Slots, ghost calls0: seq<Call>, ghost since: Mark)
      returns (rules: map<Key, RuleState>, ghost calls: seq<Call>)
      requires DistinctRules(sorted) && i < |sorted| && Added(sorted[..i], ours, others, was, slots, before, calls0)
      requires Ran(since, calls0) && forall key :: key in ours ==> At(was, key) == Some(Ours(ours[key]))
      modifies this`slots, shell
      ensures Ran(since, calls) && Added(sorted[..i + 1], ours, others, was, slots, rules, calls)
    {
      WantedGrows(sorted, i);
      var state;
      ghost var made;
      state, made := Ensure(sorted[i], ours, others);
      AddedStep(sorted, i, ours, others, was, old(slots), slots, before, state, calls0, made);
      JoinBetween(shell.fails, since, old(shell.Now()), shell.Now(), calls0, made);
      rules, calls := before[sorted[i].Key() := state], calls0 + made;
    }

    /** Second loop of Sync, over the listed tags in any order. */
    method RemoveStale(want: seq<Rule>, ours: map<Key, RuleId>) returns (ghost calls: seq<Call>)
      modifies this`slots, shell
      ensures Ran(old(shell.Now()), calls) && Cleared(want, ours, {}, old(slots), slots, calls)
    {
      var todo := ours.Keys;
      calls := [];
      while todo != {}
        invariant todo <= ours.Keys && Ran(old(shell.Now()), calls)
        invariant Cleared(want, ours, todo, old(slots), slots, calls)
        decreases todo
      {
        var key :| key in todo;
        ghost var before, middle := slots, shell.Now();
        if !IsWanted(want, key) {
          var ok := Forget(key, ours[key]);
          ClearedStep(want, ours, todo, old(slots), before, slots, calls, key, ok);
          JoinBetween(shell.fails, old(shell.Now()), middle, shell.Now(), calls, [Call(Revoke(0, key, ours[key]), ok)]);
          calls := calls + [Call(Revoke(0, key, ours[key]), ok)];
        }
        todo := todo - {key};
      }
    }

    ghost predicate Settled(want: seq<Rule>)
      reads this
    {
      SettledIn(want, wide, slots)
    }

    lemma SettledIsConverged(want: seq<Rule>)
      ensures Settled(want) <==> Converged(Here(), want)
    {
      var p := Here();
      assert forall key, id :: (key, id) in p.ours <==> At(slots, key) == Some(Ours(id));
      if Converged(p, want) {
        forall key | key in slots && slots[key].Ours? ensures IsWanted(want, key) {
          assert (key, slots[key].id) in p.ours;
        }
        forall w | w in want
          ensures w.Key() in wide || At(slots, w.Key()) == Some(Operators) || At(slots, w.Key()) == Some(Ours(w.id))
        {
          assert Covers(p, w);
        }
      }
    }

    /** The second result lists the commands that were issued. */
    method Sync(want: seq<Rule>) returns (r: Option<Report>, ghost calls: seq<Call>)
      requires DistinctRules(want)
      modifies this`slots, shell
      ensures shell.ran >= old(shell.ran) && shell.changes == old(shell.changes) + |calls| && shell.log == old(shell.log) + calls
      ensures r.None? <==> shell.fails(old(shell.ran))
      ensures r.None? ==> slots == old(slots) && calls == []
      ensures shell.AllOk(old(shell.ran)) ==> r.Some? && AllWorked(calls)
      // whatever fails, exactly the commands that the listing calls for are issued, each once,
      // and the slots and the report follow from which of them worked
      ensures r.Some? ==> r.value.active == active
      ensures r.Some? ==> Synced(want, old(ListedTags()), old(ListedOthers()), old(slots), slots, r.value.rules, calls)
      // so the report is true, and no rule becomes the operator's; an active firewall keeps
      // every rule of the operator
      ensures r.Some? ==> Truthful(r.value.rules, want, Here())
      ensures OperatorsIn(slots) <= OperatorsIn(old(slots))
      ensures active ==> OperatorsIn(slots) == OperatorsIn(old(slots))
      // an inactive one keeps those whose key is not wanted, and, when no command fails,
      // no others
      ensures forall key :: key in OperatorsIn(old(slots)) && !IsWanted(want, key) ==> key in OperatorsIn(slots)
      ensures !active && shell.AllOk(old(shell.ran)) ==>
                (OperatorsIn(slots) == OperatorsIn(old(slots)) <==> forall key :: key in OperatorsIn(old(slots)) ==> !IsWanted(want, key))
      // with every command succeeding an active firewall converges; an inactive one does
      // exactly when no old tag is unwanted
      ensures shell.AllOk(old(shell.ran)) ==> NoneFailed(r.value.rules)
      ensures shell.AllOk(old(shell.ran)) && active ==> Settled(want)
      ensures shell.AllOk(old(shell.ran)) && !active ==>
                (Settled(want) <==> forall key :: key in TaggedIn(old(slots)) ==> IsWanted(want, key))
      // and an active one that has converged gets no command that changes it
      ensures active && old(Settled(want)) ==> slots == old(slots) && calls == []
    {
      calls := [];
      var ok, isActive, ours, others := Status();
      if !ok { return None, calls; }
      var rules;
      rules, calls := SyncSlots(want, ours, others);
      r := Some(Report(isActive, rules));
      SyncedIsTrue(want, ours, others, old(slots), slots, wide, rules, calls);
      SyncSpares(want, active, wide, old(slots), slots, rules, calls);
      if AllWorked(calls) { SyncSettles(want, active, wide, old(slots), slots, rules, calls); }
      if active && old(Settled(want)) { SyncedRests(want, ours, others, old(slots), slots, rules, calls); }
    }

    /** Both loops, once the rules are listed. */
    method SyncSlots(want: seq<Rule>, ours: map<Key, RuleId>, others: set<Key>) returns (rules: map<Key, RuleState>, ghost calls: seq<Call>)
      requires DistinctRules(want) && forall key :: key in ours ==> At(slots, key) == Some(Ours(ours[key]))
      modifies this`slots, shell
      ensures Ran(old(shell.Now()), calls) && Synced(want, ours, others, old(slots), slots, rules, calls)
    {
      ghost var second;
      rules, calls := AddMissing(want, ours, others);
      ghost var mid, middle := slots, shell.Now();
      second := RemoveStale(want, ours);
      LoopsSync(want, ours, others, old(slots), mid, slots, rules, calls, second);
      JoinBetween(shell.fails, old(shell.Now()), middle, shell.Now(), calls, second);
      calls := calls + second;
    }
  }

  /** The operator's rules afterwards. */
  ghost predicate Spared(want: seq<Rule>, active: bool, was: Slots, now: Slots, allWorked: bool) {
    && OperatorsIn(now) <= OperatorsIn(was)
    && (active ==> OperatorsIn(now) == OperatorsIn(was))
    && (forall key :: key in OperatorsIn(was) && !IsWanted(want, key) ==> key in OperatorsIn(now))
    && (!active && allWorked ==>
          (OperatorsIn(now) == OperatorsIn(was) <==> forall key :: key in OperatorsIn(was) ==> !IsWanted(want, key)))
  }

  lemma SyncSpares(want: seq<Rule>, active: bool, wide: set<Key>, was: Slots, now: Slots, rules: map<Key, RuleState>, calls: seq<Call>)
    requires Synced(want, if active then TaggedIn(was) else map[], if active then OperatorsIn(was) + wide else {}, was, now, rules, calls)
    ensures Spared(want, active, was, now, AllWorked(calls))
  {
    var ours, others := if active then TaggedIn(was) else map[], if active then OperatorsIn(was) + wide else {};
    forall key
      ensures key in OperatorsIn(now) ==> key in OperatorsIn(was)
      ensures key in OperatorsIn(was) && key !in OperatorsIn(now) ==> IsWanted(want, key) && key !in others
      ensures key in OperatorsIn(was) && IsWanted(want, key) && key !in others && AllWorked(calls) ==> key !in OperatorsIn(now)
    {
      SyncedSpares(want, ours, others, was, now, rules, calls, key);
    }
  }

  /** Two syncs in a row: the firewall converges, and the second sync issues no command
      that changes anything. */
  method SyncTwice(u: Ufw, want: seq<Rule>) returns (extra: int)
    requires DistinctRules(want) && u.active
    modifies u`slots, u.shell
    ensures u.shell.AllOk(old(u.shell.ran)) ==> Converged(u.Here(), want) && extra == 0
  {
    var first, calls := u.Sync(want);
    extra := u.shell.changes;
    var second, more := u.Sync(want);
    extra := u.shell.changes - extra;
    u.SettledIsConverged(want);
  }
}
