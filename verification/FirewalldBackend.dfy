/** The firewalld backend: internal/firewall/firewalld.go:64-124. A port is added to or
    removed from the runtime and the permanent configuration as one step. */
module FirewalldBackend {
  import opened Basics
  import opened Rules
  import opened Reconcile

  /** As the agent sees it: open ports that are in the ledger are ours, the rest are the
      operator's. */
  ghost function PlaceOf(open: set<Key>, ledger: map<Key, RuleId>): Place {
    Place(set key | key in open && key !in ledger, set key | key in ledger && key in open :: (key, ledger[key]))
  }

  function At(ledger: map<Key, RuleId>, key: Key): Option<RuleId> {
    if key in ledger then Some(ledger[key]) else None
  }

  ghost predicate AllListed(want: seq<Rule>, open: set<Key>, ledger: map<Key, RuleId>) {
    forall w :: w in want ==> Listed(w, open, ledger)
  }

  ghost predicate SettledBy(want: seq<Rule>, open: set<Key>, ledger: map<Key, RuleId>) {
    AllListed(want, open, ledger) && forall key :: key in ledger ==> IsWanted(want, key)
  }

  /** Open already, and under the right tag if it is ours. */
  predicate Listed(w: Rule, open: set<Key>, ledger: map<Key, RuleId>) {
    w.Key() in open && (w.Key() in ledger ==> ledger[w.Key()] == w.id)
  }

  // ----- what both loops do, command by command ----------------------------------------------

  /** For a wanted rule, given the open ports and the ledger: an open port is left alone and,
      when the ledger has it, entered for the rule; a closed one is opened, and entered
      exactly when that worked. Nothing is closed. */
  ghost predicate Served(w: Rule, open0: set<Key>, ledger0: map<Key, RuleId>, open: set<Key>, mem: map<Key, RuleId>,
                         state: RuleState, calls: seq<Call>) {
    var key := w.Key();
    var worked := Worked(calls, Allow(0, key, w.id));
    && (forall id :: Told(calls, Allow(0, key, id)) <==> id == w.id && key !in open0)
    && (forall id :: !Told(calls, Revoke(0, key, id)))
    && state == (if key !in open0 then if worked then Open else Failed else if key in ledger0 then Open else Existing)
    && (key in open <==> key in open0 || worked)
    && At(mem, key) == if worked || (key in open0 && key in ledger0) then Some(w.id) else At(ledger0, key)
  }

  /** An unwanted port is closed exactly when the ledger has it and the command works, and is
      forgotten then. */
  ghost predicate Dismissed(key: Key, open0: set<Key>, ledger0: map<Key, RuleId>, open: set<Key>, mem: map<Key, RuleId>, calls: seq<Call>) {
    var closed := key in ledger0 && Worked(calls, Revoke(0, key, ledger0[key]));
    && (forall id :: !Told(calls, Allow(0, key, id)))
    && (forall id :: Told(calls, Revoke(0, key, id)) <==> key in ledger0 && ledger0[key] == id)
    && (key in open <==> key in open0 && !closed)
    && At(mem, key) == if closed then None else At(ledger0, key)
  }

  /** Both loops, whatever fails: each command is issued once, whether or not another one
      failed, and ports, ledger and report follow from which of them worked. */
  ghost predicate Synced(want: seq<Rule>, open0: set<Key>, ledger0: map<Key, RuleId>, open: set<Key>, mem: map<Key, RuleId>,
                         rules: map<Key, RuleState>, calls: seq<Call>) {
    && NoRepeats(calls) && ReportsOn(rules, want)
    && (forall c :: c in calls ==> !c.cmd.Delete? && c.cmd.place == 0)
    && (forall w :: w in want ==> Served(w, open0, ledger0, open, mem, rules[w.Key()], calls))
    && (forall key :: !IsWanted(want, key) ==> Dismissed(key, open0, ledger0, open, mem, calls))
  }

  // ----- the two loops ---------------------------------------------------------------------------

  ghost predicate Same(key: Key, openA: set<Key>, memA: map<Key, RuleId>, openB: set<Key>, memB: map<Key, RuleId>) {
    (key in openA <==> key in openB) && At(memA, key) == At(memB, key)
  }

  /** The first loop: nothing has happened on other keys. */
  ghost predicate Added(want: seq<Rule>, open0: set<Key>, ledger0: map<Key, RuleId>, open: set<Key>, mem: map<Key, RuleId>,
                        rules: map<Key, RuleState>, calls: seq<Call>) {
    && NoRepeats(calls) && ReportsOn(rules, want)
    && (forall w :: w in want ==> Served(w, open0, ledger0, open, mem, rules[w.Key()], calls))
    && (forall key :: !IsWanted(want, key) ==> Same(key, open0, ledger0, open, mem))
    && (forall c :: c in calls ==> !c.cmd.Delete? && c.cmd.place == 0 && IsWanted(want, c.cmd.key))
  }

  /** One turn of it. */
  ghost predicate Turn(w: Rule, listed: set<Key>, openA: set<Key>, memA: map<Key, RuleId>, openB: set<Key>, memB: map<Key, RuleId>,
                       state: RuleState, calls: seq<Call>) {
    && NoRepeats(calls)
    && ((w.Key() in openA <==> w.Key() in listed) ==> Served(w, listed, memA, openB, memB, state, calls))
    && (forall key :: key != w.Key() ==> Same(key, openA, memA, openB, memB))
    && (forall c :: c in calls ==> !c.cmd.Delete? && c.cmd.place == 0 && c.cmd.key == w.Key())
  }

  /** Commands on other keys do not matter to a rule. */
  lemma StillServed(w: Rule, open0: set<Key>, ledger0: map<Key, RuleId>, openA: set<Key>, memA: map<Key, RuleId>,
                    openB: set<Key>, memB: map<Key, RuleId>, state: RuleState, calls: seq<Call>, more: seq<Call>)
    requires Served(w, open0, ledger0, openA, memA, state, calls) && Same(w.Key(), openA, memA, openB, memB)
    requires forall c :: c in more ==> !c.cmd.Delete? && c.cmd.key != w.Key()
    ensures Served(w, open0, ledger0, openB, memB, state, calls + more)
  {
    JoinCalls(calls, more);
  }

  lemma NowServed(w: Rule, open0: set<Key>, ledger0: map<Key, RuleId>, openA: set<Key>, memA: map<Key, RuleId>,
                  openB: set<Key>, memB: map<Key, RuleId>, state: RuleState, calls: seq<Call>, made: seq<Call>)
    requires Served(w, open0, memA, openB, memB, state, made) && Same(w.Key(), open0, ledger0, openA, memA)
    requires forall c :: c in calls ==> !c.cmd.Delete? && c.cmd.key != w.Key()
    ensures Served(w, open0, ledger0, openB, memB, state, calls + made)
  {
    JoinCalls(calls, made);
    assert w.Key() in memA <==> At(memA, w.Key()).Some?;
    assert w.Key() in ledger0 <==> At(ledger0, w.Key()).Some?;
  }

  lemma AddedStep(sorted: seq<Rule>, i: nat, open0: set<Key>, ledger0: map<Key, RuleId>, openA: set<Key>, memA: map<Key, RuleId>,
                  openB: set<Key>, memB: map<Key, RuleId>, rules: map<Key, RuleState>, state: RuleState, calls: seq<Call>, made: seq<Call>)
    requires DistinctRules(sorted) && i < |sorted| && Added(sorted[..i], open0, ledger0, openA, memA, rules, calls)
    requires Turn(sorted[i], open0, openA, memA, openB, memB, state, made)
    ensures Added(sorted[..i + 1], open0, ledger0, openB, memB, rules[sorted[i].Key() := state], calls + made)
  {
    var rules' := rules[sorted[i].Key() := state];
    WantedGrows(sorted, i);
    ReportGrows(sorted, i, rules, state);
    JoinCalls(calls, made);
    assert Same(sorted[i].Key(), open0, ledger0, openA, memA);
    forall w | w in sorted[..i + 1] ensures Served(w, open0, ledger0, openB, memB, rules'[w.Key()], calls + made) {
      if w in sorted[..i] {
        StillServed(w, open0, ledger0, openA, memA, openB, memB, rules[w.Key()], calls, made);
      } else {
        NowServed(w, open0, ledger0, openA, memA, openB, memB, state, calls, made);
      }
    }
    forall key | !IsWanted(sorted[..i + 1], key) ensures Same(key, open0, ledger0, openB, memB) {
      assert Same(key, open0, ledger0, openA, memA) && Same(key, openA, memA, openB, memB);
    }
  }

  lemma SameMembers(sorted: seq<Rule>, want: seq<Rule>, open0: set<Key>, ledger0: map<Key, RuleId>, open: set<Key>, mem: map<Key, RuleId>,
                    rules: map<Key, RuleState>, calls: seq<Call>)
    requires (forall w :: w in sorted <==> w in want) && Added(sorted, open0, ledger0, open, mem, rules, calls)
    ensures Added(want, open0, ledger0, open, mem, rules, calls)
  {
    SameWanted(sorted, want);
  }

  /** The second loop has dealt with the keys of the ledger that are not in todo. */
  ghost predicate Cleared(want: seq<Rule>, todo: set<Key>, openA: set<Key>, memA: map<Key, RuleId>, open: set<Key>, mem: map<Key, RuleId>,
                          calls: seq<Call>) {
    && NoRepeats(calls)
    && (forall c :: c in calls ==> c.cmd.Revoke? && c.cmd.place == 0 && Stale(want, memA, c.cmd.key, c.cmd.id) && c.cmd.key !in todo)
    && (forall key :: key in memA && key !in todo && !IsWanted(want, key) ==> Told(calls, Revoke(0, key, memA[key])))
    && (forall key :: ClearedOn(key, openA, memA, open, mem, calls))
  }

  ghost predicate ClearedOn(key: Key, openA: set<Key>, memA: map<Key, RuleId>, open: set<Key>, mem: map<Key, RuleId>, calls: seq<Call>) {
    var closed := key in memA && Worked(calls, Revoke(0, key, memA[key]));
    (key in open <==> key in openA && !closed) && At(mem, key) == if closed then None else At(memA, key)
  }

  ghost predicate Stale(want: seq<Rule>, mem: map<Key, RuleId>, key: Key, id: RuleId) {
    key in mem && mem[key] == id && !IsWanted(want, key)
  }

  lemma ClearedStep(want: seq<Rule>, todo: set<Key>, openA: set<Key>, memA: map<Key, RuleId>, open: set<Key>, mem: map<Key, RuleId>,
                    calls: seq<Call>, key: Key, ok: bool)
    requires Cleared(want, todo, openA, memA, open, mem, calls) && key in todo && key in memA && !IsWanted(want, key)
    ensures key in mem && mem[key] == memA[key]
    ensures Cleared(want, todo - {key}, openA, memA, if ok then open - {key} else open, if ok then mem - {key} else mem,
                    calls + [Call(Revoke(0, key, memA[key]), ok)])
  {
    var made := [Call(Revoke(0, key, memA[key]), ok)];
    var open', mem' := if ok then open - {key} else open, if ok then mem - {key} else mem;
    JoinCalls(calls, made);
    assert made[0] in made;
    assert ClearedOn(key, openA, memA, open, mem, calls);
    assert At(mem, key) == Some(memA[key]);
    forall k ensures ClearedOn(k, openA, memA, open', mem', calls + made) {
      assert ClearedOn(k, openA, memA, open, mem, calls);
      assert k in memA ==> (Worked(made, Revoke(0, k, memA[k])) <==> k == key && ok);
    }
  }

  /** Both loops one after the other. */
  lemma LoopsSync(want: seq<Rule>, open0: set<Key>, ledger0: map<Key, RuleId>, openA: set<Key>, memA: map<Key, RuleId>,
                  open: set<Key>, mem: map<Key, RuleId>, rules: map<Key, RuleState>, first: seq<Call>, second: seq<Call>)
    requires Added(want, open0, ledger0, openA, memA, rules, first) && Cleared(want, {}, openA, memA, open, mem, second)
    ensures Synced(want, open0, ledger0, open, mem, rules, first + second)
  {
    JoinCalls(first, second);
    forall w | w in want ensures Served(w, open0, ledger0, open, mem, rules[w.Key()], first + second) {
      assert IsWanted(want, w.Key()) && ClearedOn(w.Key(), openA, memA, open, mem, second);
      StillServed(w, open0, ledger0, openA, memA, open, mem, rules[w.Key()], first, second);
    }
    forall key | !IsWanted(want, key) ensures Dismissed(key, open0, ledger0, open, mem, first + second) {
      assert Same(key, open0, ledger0, openA, memA) && ClearedOn(key, openA, memA, open, mem, second);
      assert key in memA <==> At(memA, key).Some?;
      assert key in ledger0 <==> At(ledger0, key).Some?;
    }
  }

  // ----- what follows by the ledger ------------------------------------------------------------------

  lemma OnKey(want: seq<Rule>, open0: set<Key>, ledger0: map<Key, RuleId>, open: set<Key>, mem: map<Key, RuleId>,
              rules: map<Key, RuleState>, calls: seq<Call>, key: Key)
    requires Synced(want, open0, ledger0, open, mem, rules, calls)
    ensures key in open && key !in mem <==> key in open0 && key !in ledger0
    ensures key in open0 && key !in open ==> key in ledger0 && !IsWanted(want, key)
    ensures key in open && key !in open0 ==> key in mem && IsWanted(want, key)
    ensures key in ledger0 && key !in mem ==> key !in open
    ensures key in mem && key !in ledger0 ==> key in open && key !in open0
  {
    assert key in mem <==> At(mem, key).Some?;
    assert key in ledger0 <==> At(ledger0, key).Some?;
    if IsWanted(want, key) {
      var w :| w in want && w.Key() == key;
      assert Served(w, open0, ledger0, open, mem, rules[key], calls);
    } else {
      assert Dismissed(key, open0, ledger0, open, mem, calls);
    }
  }

  /** Whatever fails, the ports outside the ledger are the same, and with the new ledger the
      report is true. */
  lemma SyncOutcome(want: seq<Rule>, open0: set<Key>, ledger0: map<Key, RuleId>, open: set<Key>, mem: map<Key, RuleId>,
                    rules: map<Key, RuleState>, calls: seq<Call>)
    requires Synced(want, open0, ledger0, open, mem, rules, calls)
    ensures PlaceOf(open, mem).operator == PlaceOf(open0, ledger0).operator <= PlaceOf(open, ledger0).operator
    ensures Truthful(rules, want, PlaceOf(open, mem)) && ReportsOpen(want, rules, open)
  {
    forall key
      ensures key in open && key !in mem <==> key in open0 && key !in ledger0
      ensures key in open0 && key !in ledger0 ==> key in open
    {
      OnKey(want, open0, ledger0, open, mem, rules, calls, key);
    }
    forall w | w in want
      ensures rules[w.Key()] != Failed ==> w.Key() in open && Covers(PlaceOf(open, mem), w)
      ensures rules[w.Key()] == Existing ==> w.Key() in PlaceOf(open, mem).operator
    {
      assert Served(w, open0, ledger0, open, mem, rules[w.Key()], calls);
      if rules[w.Key()] == Open {
        assert At(mem, w.Key()) == Some(w.id);
        assert (w.Key(), w.id) in PlaceOf(open, mem).ours;
      }
    }
  }

  /** When every command works nothing fails and ports and new ledger are settled. */
  lemma SyncedAchieves(want: seq<Rule>, open0: set<Key>, ledger0: map<Key, RuleId>, open: set<Key>, mem: map<Key, RuleId>,
                       rules: map<Key, RuleState>, calls: seq<Call>)
    requires Synced(want, open0, ledger0, open, mem, rules, calls) && AllWorked(calls)
    ensures NoneFailed(rules) && SettledBy(want, open, mem)
  {
    forall w | w in want ensures rules[w.Key()] != Failed && Listed(w, open, mem) {
      assert Served(w, open0, ledger0, open, mem, rules[w.Key()], calls);
      assert w.Key() in mem <==> At(mem, w.Key()).Some?;
    }
    forall key | key in mem ensures IsWanted(want, key) {
      assert At(mem, key).Some?;
      assert !IsWanted(want, key) ==> Dismissed(key, open0, ledger0, open, mem, calls);
    }
  }

  /** Every command has a reason in the open ports or in the ledger. */
  lemma CallHasReason(want: seq<Rule>, open0: set<Key>, ledger0: map<Key, RuleId>, open: set<Key>, mem: map<Key, RuleId>,
                      rules: map<Key, RuleState>, calls: seq<Call>, c: Call)
    requires Synced(want, open0, ledger0, open, mem, rules, calls) && c in calls
    ensures (exists w :: w in want && w.Key() == c.cmd.key && w.Key() !in open0) || (c.cmd.key in ledger0 && !IsWanted(want, c.cmd.key))
  {
    assert Told(calls, c.cmd);
    if IsWanted(want, c.cmd.key) {
      var w :| w in want && w.Key() == c.cmd.key;
      assert Served(w, open0, ledger0, open, mem, rules[w.Key()], calls);
    } else {
      assert Dismissed(c.cmd.key, open0, ledger0, open, mem, calls);
    }
  }

  /** A settled zone gets no command and stays as it is. */
  lemma SyncedRests(want: seq<Rule>, open0: set<Key>, ledger0: map<Key, RuleId>, open: set<Key>, mem: map<Key, RuleId>,
                    rules: map<Key, RuleState>, calls: seq<Call>)
    requires Synced(want, open0, ledger0, open, mem, rules, calls) && SettledBy(want, open0, ledger0)
    ensures calls == [] && open == open0 && mem == ledger0
  {
    if calls != [] {
      CallHasReason(want, open0, ledger0, open, mem, rules, calls, calls[0]);
      assert false;
    }
    forall key ensures Same(key, open0, ledger0, open, mem) {
      if IsWanted(want, key) {
        var w :| w in want && w.Key() == key;
        assert Served(w, open0, ledger0, open, mem, rules[key], calls) && Listed(w, open0, ledger0);
      } else {
        assert Dismissed(key, open0, ledger0, open, mem, calls);
      }
    }
    forall key ensures At(mem, key) == At(ledger0, key) {
      assert Same(key, open0, ledger0, open, mem);
    }
    SameLedger(mem, ledger0);
    assert forall key :: key in open <==> Same(key, open0, ledger0, open, mem) && key in open0;
  }

  lemma SameLedger(a: map<Key, RuleId>, b: map<Key, RuleId>)
    requires forall key :: At(a, key) == At(b, key)
    ensures a == b
  {
    assert forall key :: key in a <==> At(a, key).Some?;
    assert forall key :: key in b <==> At(b, key).Some?;
    assert forall key :: key in a ==> At(a, key) == Some(a[key]) && At(b, key) == Some(b[key]);
  }

  // ----- what follows in reality ----------------------------------------------------------------------

  /** What is not reported as failed is open. */
  ghost predicate ReportsOpen(want: seq<Rule>, rules: map<Key, RuleState>, open: set<Key>)
    requires ReportsOn(rules, want)
  {
    forall w :: w in want && rules[w.Key()] != Failed ==> w.Key() in open
  }

  /** The ledger claims no port that the operator has opened. */
  ghost predicate HonestLedger(open: set<Key>, ledger: map<Key, RuleId>, mine: set<Key>) {
    forall key :: key in ledger && key in open ==> key in mine
  }

  /** What a sync does in reality, whatever fails: one of our ports gets lost exactly when it
      was newly opened and the ledger was not written; none becomes the operator's, and one
      of the operator's is closed only if the ledger claims it and it is not wanted. An
      honest ledger stays honest, so then no port of the operator is touched. */
  ghost predicate Reality(want: seq<Rule>, open0: set<Key>, ledger0: map<Key, RuleId>, mine0: set<Key>,
                          open: set<Key>, ledger: map<Key, RuleId>, mine: set<Key>, saved: bool) {
    && mine - ledger.Keys == (mine0 - ledger0.Keys) + (if saved then {} else open - open0 - ledger0.Keys)
    && open - mine <= open0 - mine0
    && (forall key :: key in open0 - mine0 && key !in open ==> key in ledger0 && !IsWanted(want, key))
    && (HonestLedger(open0, ledger0, mine0) ==> HonestLedger(open, ledger, mine) && open - mine == open0 - mine0)
  }

  /** The ports after both loops, mem being the ledger to be written. */
  ghost predicate Opened(want: seq<Rule>, open0: set<Key>, ledger0: map<Key, RuleId>, mine0: set<Key>,
                         open: set<Key>, mem: map<Key, RuleId>, mine: set<Key>) {
    && mine <= open
    && mine - mem.Keys == mine0 - ledger0.Keys
    && mine - ledger0.Keys == (mine0 - ledger0.Keys) + (open - open0 - ledger0.Keys)
    && open - mine <= open0 - mine0
    && (forall key :: key in open0 && key !in open ==> key in ledger0 && !IsWanted(want, key))
    && (forall key :: key in ledger0 && key !in mem ==> key !in open)
    && (HonestLedger(open0, ledger0, mine0) ==>
          && open - mine == open0 - mine0
          && HonestLedger(open, mem, mine) && HonestLedger(open, ledger0, mine))
  }

  lemma Saves(want: seq<Rule>, open0: set<Key>, ledger0: map<Key, RuleId>, mine0: set<Key>,
              open: set<Key>, mem: map<Key, RuleId>, mine: set<Key>, saved: bool)
    requires Opened(want, open0, ledger0, mine0, open, mem, mine)
    ensures Reality(want, open0, ledger0, mine0, open, if saved then mem else ledger0, mine, saved)
  {
  }

  /** What a sync without failing commands does in reality. */
  ghost predicate CleanSync(want: seq<Rule>, open0: set<Key>, ledger0: map<Key, RuleId>, mine0: set<Key>,
                            open: set<Key>, mine: set<Key>) {
    && (forall w :: w in want ==> w.Key() in open)
    && (forall key :: key in ledger0 && !IsWanted(want, key) ==> key !in open)
    && ((forall key :: key in mine ==> IsWanted(want, key)) <==> forall key :: key in mine0 - ledger0.Keys ==> IsWanted(want, key))
    && (open0 - mine0 <= open <==> forall key :: key in open0 - mine0 && key in ledger0 ==> IsWanted(want, key))
  }

  lemma IsClean(want: seq<Rule>, open0: set<Key>, ledger0: map<Key, RuleId>, mine0: set<Key>,
                open: set<Key>, mem: map<Key, RuleId>, mine: set<Key>)
    requires Opened(want, open0, ledger0, mine0, open, mem, mine) && SettledBy(want, open, mem)
    ensures CleanSync(want, open0, ledger0, mine0, open, mine)
  {
    forall key | key in mine0 - ledger0.Keys ensures key in mine {
      assert key in mine - mem.Keys;
    }
    forall key | key in mine && key !in mem ensures key in mine0 - ledger0.Keys {
      assert key in mine - mem.Keys;
    }
  }

  /** The ports that are really ours after a sync: those that were and are still open, and
      those that were opened. */
  ghost function MineAfter(mine0: set<Key>, open0: set<Key>, open: set<Key>): set<Key> {
    set key | key in open && (key in mine0 || key !in open0)
  }

  /** Which ports are really ours after both loops. */
  lemma ReallyOpened(want: seq<Rule>, open0: set<Key>, ledger0: map<Key, RuleId>, mine0: set<Key>, open: set<Key>, mem: map<Key, RuleId>,
                     rules: map<Key, RuleState>, calls: seq<Call>)
    requires Synced(want, open0, ledger0, open, mem, rules, calls) && mine0 <= open0
    ensures Opened(want, open0, ledger0, mine0, open, mem, MineAfter(mine0, open0, open))
  {
    forall key
      ensures key in open && key !in mem <==> key in open0 && key !in ledger0
      ensures key in open0 && key !in open ==> key in ledger0 && !IsWanted(want, key)
      ensures key in open && key !in open0 ==> key in mem
      ensures key in ledger0 && key !in mem ==> key !in open
      ensures key in mem && key !in ledger0 ==> key in open && key !in open0
    {
      OnKey(want, open0, ledger0, open, mem, rules, calls, key);
    }
  }

  class Firewalld {
    const shell: Shell
    /** Reading and writing the ledger file. */
    const disk: Shell
    /** Ports open in the default zone, whoever opened them. */
    var open: set<Key>
    /** The ledger file: the ports the agent opened, and for whom. */
    var ledger: map<Key, RuleId>
    /** The ports the agent really opened and has not closed since. */
    ghost var mine: set<Key>

    constructor (shell: Shell, disk: Shell, open: set<Key>, ledger: map<Key, RuleId>, ghost mine: set<Key>)
      requires shell != disk && mine <= open
      ensures this.shell == shell && this.disk == disk && Valid()
      ensures this.open == open && this.ledger == ledger && this.mine == mine
    {
      this.shell, this.disk, this.open, this.ledger, this.mine := shell, disk, open, ledger, mine;
    }

    ghost predicate Valid()
      reads this
    {
      shell != disk && mine <= open
    }

    /** The ports that the operator really opened. */
    ghost function Operators(): set<Key>
      reads this
    {
      open - mine
    }

    /** Ports of ours that the ledger does not know. */
    ghost function Lost(): set<Key>
      reads this
    {
      mine - ledger.Keys
    }

    /** What is wanted is open, and what we opened is wanted. */
    ghost predicate ReallyConverged(want: seq<Rule>)
      reads this
    {
      (forall w :: w in want ==> w.Key() in open) && (forall key :: key in mine ==> IsWanted(want, key))
    }

    ghost function Here(): Place
      reads this
    {
      PlaceOf(open, ledger)
    }

    /** Since the mark exactly these commands have been issued. */
    ghost predicate Ran(since: Mark, calls: seq<Call>)
      reads this, shell
    {
      Between(shell.fails, since, shell.Now(), calls)
    }

    /** "firewall-cmd --add-port" */
    method AddPort(key: Key, ghost id: RuleId) returns (ok: bool)
      modifies this`open, this`mine, shell
      ensures shell.ran == old(shell.ran) + 1 && shell.changes == old(shell.changes) + 1 && ok == !shell.fails(old(shell.ran))
      ensures shell.log == old(shell.log) + [Call(Allow(0, key, id), ok)]
      ensures open == if ok then old(open) + {key} else old(open)
      ensures mine == if ok && key !in old(open) then old(mine) + {key} else old(mine)
    {
      ok := shell.Change(Allow(0, key, id));
      if ok {
        mine := if key in open then mine else mine + {key};
        open := open + {key};
      }
    }

    /** "firewall-cmd --remove-port" */
    method RemovePort(key: Key, ghost id: RuleId) returns (ok: bool)
      modifies this`open, this`mine, shell
      ensures shell.ran == old(shell.ran) + 1 && shell.changes == old(shell.changes) + 1 && ok == !shell.fails(old(shell.ran))
      ensures shell.log == old(shell.log) + [Call(Revoke(0, key, id), ok)]
      ensures open == if ok then old(open) - {key} else old(open)
      ensures mine == if ok then old(mine) - {key} else old(mine)
    {
      ok := shell.Change(Revoke(0, key, id));
      if ok { mine, open := mine - {key}, open - {key}; }
    }

    /** The operator opens a port that was closed. */
    method OperatorOpens(key: Key)
      requires Valid() && key !in open
      modifies this`open
      ensures Valid() && open == old(open) + {key} && Operators() == old(Operators()) + {key}
    {
      open := open + {key};
    }

    /** The case split of the first loop for one wanted rule. */
    method Ensure(w: Rule, listed: set<Key>, mem0: map<Key, RuleId>, ghost open0: set<Key>, ghost mine0: set<Key>)
      returns (state: RuleState, mem: map<Key, RuleId>, ghost calls: seq<Call>)
      requires mine == MineAfter(mine0, open0, open) && listed == open0
      modifies this`open, this`mine, shell
      ensures Ran(old(shell.Now()), calls) && Turn(w, listed, old(open), mem0, open, mem, state, calls)
      ensures mine == MineAfter(mine0, open0, open)
    {
      var key := w.Key();
      calls := [];
      if key in listed && key !in mem0 { return Existing, mem0, calls; }
      if key in listed { return Open, mem0[key := w.id], calls; }
      var ok := AddPort(key, w.id);
      calls := [Call(Allow(0, key, w.id), ok)];
      state, mem := if ok then Open else Failed, if ok then mem0[key := w.id] else mem0;
    }

    /** First loop of Sync. */
    method AddMissing(want: seq<Rule>, listed: set<Key>, loaded: map<Key, RuleId>)
      returns (rules: map<Key, RuleState>, mem: map<Key, RuleId>, ghost calls: seq<Call>)
      requires DistinctRules(want) && listed == open && Valid()
      modifies this`open, this`mine, shell
      ensures Ran(old(shell.Now()), calls) && Added(want, listed, loaded, open, mem, rules, calls)
      ensures mine == MineAfter(old(mine), listed, open)
    {
      var sorted := SortedRules(want);
      SortedRulesAreTheSame(want);
      rules, mem, calls := AddInOrder(sorted, listed, loaded);
      SameMembers(sorted, want, listed, loaded, open, mem, rules, calls);
    }

    method AddInOrder(sorted: seq<Rule>, listed: set<Key>, loaded: map<Key, RuleId>)
      returns (rules: map<Key, RuleState>, mem: map<Key, RuleId>, ghost calls: seq<Call>)
      requires DistinctRules(sorted) && listed == open && Valid()
      modifies this`open, this`mine, shell
      ensures Ran(old(shell.Now()), calls) && Added(sorted, listed, loaded, open, mem, rules, calls)
      ensures mine == MineAfter(old(mine), listed, open)
    {
      rules, mem, calls := map[], loaded, [];
      var i := 0;
      while i < |sorted|
        invariant i <= |sorted| && Ran(old(shell.Now()), calls)
        invariant Added(sorted[..i], listed, loaded, open, mem, rules, calls)
        invariant mine == MineAfter(old(mine), listed, open)
      {
        rules, mem, calls := AddOne(sorted, i, listed, rules, mem, loaded, old(mine), calls, old(shell.Now()));
        i := i + 1;
      }
      assert sorted[..i] == sorted;
    }

    /** One turn of the loop. */
    method AddOne(sorted: seq<Rule>, i: nat, listed: set<Key>, before: map<Key, RuleState>, mem0: map<Key, RuleId>,
                  ghost loaded: map<Key, RuleId>, ghost mine0: set<Key>, ghost calls0: seq<Call>, ghost since: Mark)
      returns (rules: map<Key, RuleState>, mem: map<Key, RuleId>, ghost calls: seq<Call>)
      requires DistinctRules(sorted) && i < |sorted| && Ran(since, calls0)
      requires Added(sorted[..i], listed, loaded, open, mem0, before, calls0) && mine == MineAfter(mine0, listed, open)
      modifies this`open, this`mine, shell
      ensures Ran(since, calls) && Added(sorted[..i + 1], listed, loaded, open, mem, rules, calls)
      ensures mine == MineAfter(mine0, listed, open)
    {
      var state;
      ghost var made;
      state, mem, made := Ensure(sorted[i], listed, mem0, listed, mine0);
      WantedGrows(sorted, i);
      assert Same(sorted[i].Key(), listed, loaded, old(open), mem0);
      AddedStep(sorted, i, listed, loaded, old(open), mem0, open, mem, before, state, calls0, made);
      JoinBetween(shell.fails, since, old(shell.Now()), shell.Now(), calls0, made);
      rules, calls := before[sorted[i].Key() := state], calls0 + made;
    }

    /** Second loop: give up the ledger's unwanted ports. */
    method RemoveStale(want: seq<Rule>, mem0: map<Key, RuleId>, ghost open0: set<Key>, ghost mine0: set<Key>)
      returns (mem: map<Key, RuleId>, ghost calls: seq<Call>)
      requires mine == MineAfter(mine0, open0, open)
      modifies this`open, this`mine, shell
      ensures Ran(old(shell.Now()), calls) && Cleared(want, {}, old(open), mem0, open, mem, calls)
      ensures mine == MineAfter(mine0, open0, open)
    {
      mem, calls := mem0, [];
      var todo := mem0.Keys;
      while todo != {}
        invariant todo <= mem0.Keys && Ran(old(shell.Now()), calls)
        invariant Cleared(want, todo, old(open), mem0, open, mem, calls)
        invariant mine == MineAfter(mine0, open0, open)
        decreases todo
      {
        var key :| key in todo;
        ghost var before, middle := open, shell.Now();
        if !IsWanted(want, key) {
          ghost var id := mem0[key];
          var ok := RemovePort(key, id);
          ClearedStep(want, todo, old(open), mem0, before, mem, calls, key, ok);
          JoinBetween(shell.fails, old(shell.Now()), middle, shell.Now(), calls, [Call(Revoke(0, key, id), ok)]);
          calls := calls + [Call(Revoke(0, key, id), ok)];
          if ok { mem := mem - {key}; }
        }
        todo := todo - {key};
      }
    }

    /** Every wanted port is open, tagged if it is ours, and the ledger lists no other. */
    ghost predicate Settled(want: seq<Rule>)
      reads this
    {
      SettledBy(want, open, ledger)
    }

    lemma SettledConverges(want: seq<Rule>)
      requires Settled(want)
      ensures Converged(Here(), want)
    {
      var p := Here();
      forall w | w in want ensures Covers(p, w) {
        if w.Key() in ledger {
          assert (w.Key(), ledger[w.Key()]) in p.ours;
        }
      }
    }

    /** The second result says whether the ledger was written, the third lists the commands
        that were to change something. */
    method Sync(want: seq<Rule>) returns (r: Option<Report>, saved: bool, ghost calls: seq<Call>)
      requires DistinctRules(want) && Valid()
      modifies this`open, this`ledger, this`mine, shell, disk
      ensures Valid() && shell.ran >= old(shell.ran) && disk.ran >= old(disk.ran)
      ensures shell.changes == old(shell.changes) + |calls| && shell.log == old(shell.log) + calls
      ensures shell.AllOk(old(shell.ran)) ==> AllWorked(calls)
      // there is no report exactly when firewalld does not run, or the ports or the ledger
      // cannot be read
      ensures r.None? <==> shell.fails(old(shell.ran)) || shell.fails(old(shell.ran) + 1) || disk.fails(old(disk.ran))
      ensures r.None? ==> open == old(open) && ledger == old(ledger) && mine == old(mine) && calls == []
      ensures r.Some? ==> r.value.active && disk.ran == old(disk.ran) + 2 && (saved <==> !disk.fails(old(disk.ran) + 1))
      ensures !saved ==> ledger == old(ledger)
      // whatever fails, exactly the commands that ports and ledger call for are issued, each
      // once, and ports, report and the ledger, if it is written, follow from which of them
      // worked
      ensures r.Some? ==> exists mem :: Synced(want, old(open), old(ledger), open, mem, r.value.rules, calls) && (saved ==> ledger == mem)
      // as the ledger has it: the operator's ports stay open, whatever fails; with the ledger
      // written they are exactly the same ones, and the report is true
      ensures old(Here().operator) <= Here().operator
      ensures r.Some? && saved ==> Here().operator == old(Here().operator)
      ensures r.Some? ==> ReportsOn(r.value.rules, want) && ReportsOpen(want, r.value.rules, open)
      ensures r.Some? && saved ==> Truthful(r.value.rules, want, Here())
      // in reality, whatever fails: see Reality
      ensures r.Some? ==> Reality(want, old(open), old(ledger), old(mine), open, ledger, mine, saved)
      // with every command succeeding, the ledger written or not: everything wanted is open
      // and everything unwanted of the ledger closed; what we opened is all wanted exactly
      // when what had been lost before is; and the operator's ports stay open exactly when
      // those that the ledger claims are wanted
      ensures r.Some? && shell.AllOk(old(shell.ran)) ==>
                NoneFailed(r.value.rules) && forall key :: key in old(ledger) && !IsWanted(want, key) ==> key !in open
      ensures r.Some? && shell.AllOk(old(shell.ran)) ==>
                (ReallyConverged(want) <==> forall key :: key in old(Lost()) ==> IsWanted(want, key))
      ensures r.Some? && shell.AllOk(old(shell.ran)) ==>
                (old(Operators()) <= open <==> forall key :: key in old(Operators()) && key in old(ledger) ==> IsWanted(want, key))
      ensures shell.AllOk(old(shell.ran)) && disk.AllOk(old(disk.ran)) ==> r.Some? && saved && Settled(want)
      ensures old(Settled(want)) ==> open == old(open) && ledger == old(ledger) && mine == old(mine) && calls == []
    {
      calls := [];
      var listed := Inspect();
      if !listed { return None, false, calls; }
      var rules;
      rules, saved, calls := SyncPorts(want);
      r := Some(Report(true, rules));
    }

    /** Is firewalld running, and can the open ports and the ledger be read? */
    method Inspect() returns (ok: bool)
      requires shell != disk
      modifies shell, disk
      ensures shell.ran >= old(shell.ran) && shell.changes == old(shell.changes) && shell.log == old(shell.log)
      ensures disk.ran >= old(disk.ran)
      ensures ok <==> !shell.fails(old(shell.ran)) && !shell.fails(old(shell.ran) + 1) && !disk.fails(old(disk.ran))
      ensures ok || shell.AllOk(old(shell.ran)) ==> shell.ran == old(shell.ran) + 2 && disk.ran == old(disk.ran) + 1
    {
      ok := shell.Query();
      if !ok { return; }
      ok := shell.Query();
      if !ok { return; }
      ok := disk.Query();
    }

    /** Sync once the open ports are listed and the ledger is loaded. */
    method SyncPorts(want: seq<Rule>) returns (rules: map<Key, RuleState>, saved: bool, ghost calls: seq<Call>)
      requires DistinctRules(want) && Valid()
      modifies this`open, this`ledger, this`mine, shell, disk
      ensures Valid() && Ran(old(shell.Now()), calls)
      ensures disk.ran == old(disk.ran) + 1 && (saved <==> !disk.fails(old(disk.ran)))
      ensures !saved ==> ledger == old(ledger)
      ensures exists mem :: Synced(want, old(open), old(ledger), open, mem, rules, calls) && (saved ==> ledger == mem)
      ensures old(Here().operator) <= Here().operator
      ensures saved ==> Here().operator == old(Here().operator)
      ensures ReportsOn(rules, want) && ReportsOpen(want, rules, open) && (saved ==> Truthful(rules, want, Here()))
      ensures Reality(want, old(open), old(ledger), old(mine), open, ledger, mine, saved)
      ensures AllWorked(calls) ==> NoneFailed(rules) && (saved ==> Settled(want))
      ensures AllWorked(calls) ==> forall key :: key in old(ledger) && !IsWanted(want, key) ==> key !in open
      ensures AllWorked(calls) ==> (ReallyConverged(want) <==> forall key :: key in old(Lost()) ==> IsWanted(want, key))
      ensures AllWorked(calls) ==>
                (old(Operators()) <= open <==> forall key :: key in old(Operators()) && key in old(ledger) ==> IsWanted(want, key))
      ensures old(Settled(want)) ==> open == old(open) && ledger == old(ledger) && mine == old(mine) && calls == []
    {
      ghost var open0, ledger0, mine0 := open, ledger, mine;
      var mem;
      rules, mem, calls := Loops(want);
      saved := disk.Query();
      if saved { ledger := mem; }
      SyncOutcome(want, open0, ledger0, open, mem, rules, calls);
      ReallyOpened(want, open0, ledger0, mine0, open, mem, rules, calls);
      Saves(want, open0, ledger0, mine0, open, mem, mine, saved);
      if AllWorked(calls) {
        SyncedAchieves(want, open0, ledger0, open, mem, rules, calls);
        IsClean(want, open0, ledger0, mine0, open, mem, mine);
      }
      if old(Settled(want)) { SyncedRests(want, open0, ledger0, open, mem, rules, calls); }
    }

    /** Both loops; the ledger is not written yet. */
    method Loops(want: seq<Rule>) returns (rules: map<Key, RuleState>, mem: map<Key, RuleId>, ghost calls: seq<Call>)
      requires DistinctRules(want) && Valid()
      modifies this`open, this`mine, shell
      ensures Ran(old(shell.Now()), calls) && Synced(want, old(open), ledger, open, mem, rules, calls)
      ensures mine == MineAfter(old(mine), old(open), open)
    {
      ghost var second;
      rules, mem, calls := AddMissing(want, open, ledger);
      ghost var openA, memA, middle := open, mem, shell.Now();
      mem, second := RemoveStale(want, mem, old(open), old(mine));
      LoopsSync(want, old(open), ledger, openA, memA, open, mem, rules, calls, second);
      JoinBetween(shell.fails, old(shell.Now()), middle, shell.Now(), calls, second);
      calls := calls + second;
    }
  }

  /** Two syncs in a row: by the ledger the zone converges and the second sync changes
      nothing; in reality it converges exactly when no unwanted port of ours is lost. */
  method SyncTwice(f: Firewalld, want: seq<Rule>) returns (extra: int)
    requires DistinctRules(want) && f.Valid()
    modifies f`open, f`ledger, f`mine, f.shell, f.disk
    ensures f.shell.AllOk(old(f.shell.ran)) && f.disk.AllOk(old(f.disk.ran)) ==>
              && Converged(f.Here(), want) && extra == 0
              && (f.ReallyConverged(want) <==> forall key :: key in old(f.Lost()) ==> IsWanted(want, key))
  {
    var first, savedFirst, calls := f.Sync(want);
    extra := f.shell.changes;
    var second, savedSecond, more := f.Sync(want);
    extra := f.shell.changes - extra;
    if f.Settled(want) {
      f.SettledConverges(want);
    }
  }

  /** A port is opened, the ledger cannot be written, and then nothing is wanted any more and
      everything succeeds: by the ledger all is well, but the port stays open. */
  method FailedSaveRun(w: Rule) returns (f: Firewalld)
    ensures fresh(f) && f.Settled([]) && w.Key() in f.open && w.Key() in f.mine && !f.ReallyConverged([])
  {
    var shell := new Shell((i: nat) => false);
    var disk := new Shell((i: nat) => i == 1);
    f := new Firewalld(shell, disk, {}, map[], {});
    var report, saved, calls := f.Sync([w]);
    assert w in [w] && w.Key() in f.Lost();
    report, saved, calls := f.Sync([]);
  }

  /** An unwanted port is closed, the ledger cannot be written and goes on claiming it, and
      the operator opens the port: the next sync, in which everything succeeds, closes it. */
  method ForgottenClosingRun(key: Key, id: RuleId) returns (f: Firewalld, ghost operators: set<Key>)
    ensures fresh(f) && key in operators && key !in f.open
  {
    var shell := new Shell((i: nat) => false);
    var disk := new Shell((i: nat) => i == 1);
    f := new Firewalld(shell, disk, {key}, map[key := id], {key});
    assert HonestLedger(f.open, f.ledger, f.mine);
    var report, saved, calls := f.Sync([]);
    assert key in f.ledger && key !in f.open;
    f.OperatorOpens(key);
    operators := f.Operators();
    report, saved, calls := f.Sync([]);
  }
}
