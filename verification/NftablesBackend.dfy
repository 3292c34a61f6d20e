/** The nftables backend: internal/firewall/nftables.go:52-60, 151-240. Rules are listed
    with what the backend derives from them: a matched port, whether they accept, and
    whether they do nothing but match one port before accepting. */
module NftablesBackend {
  import opened Basics
  import opened Rules
  import opened Reconcile

  /** Family, table and name of a chain. */
  type Ref = nat

  datatype NftRule = NftRule(key: Option<Key>, tag: Option<RuleId>, accept: bool, plain: bool)

  /** A rule is addressed by its chain and its handle. */
  type Location = (Ref, nat)

  type Ruleset = map<Location, NftRule>

  predicate OperatorAllows(r: NftRule) {
    r.tag.None? && r.plain && r.key.Some?
  }

  predicate WeAllow(r: NftRule) {
    r.tag.Some? && r.accept && r.key.Some?
  }

  ghost function PlaceOf(rules: Ruleset, ref: Ref): Place {
    Place(set loc | loc in rules && loc.0 == ref && OperatorAllows(rules[loc]) :: rules[loc].key.value,
          set loc | loc in rules && loc.0 == ref && WeAllow(rules[loc]) :: (rules[loc].key.value, rules[loc].tag.value))
  }

  predicate IsOurs(want: seq<Rule>, key: Key, id: RuleId) {
    exists w :: w in want && w.Key() == key && w.id == id
  }

  /** A tagged rule that stays: it accepts a wanted port under the right tag. */
  predicate Keeps(want: seq<Rule>, r: NftRule) {
    WeAllow(r) && IsOurs(want, r.key.value, r.tag.value)
  }

  ghost predicate NothingStale(rules: Ruleset, want: seq<Rule>) {
    forall loc :: loc in rules && rules[loc].tag.Some? ==> Keeps(want, rules[loc])
  }

  ghost predicate CoveredIn(rules: Ruleset, chains: seq<Ref>, w: Rule) {
    forall c :: c in chains ==> Covers(PlaceOf(rules, c), w)
  }

  /** Every wanted rule is in force in every input chain, and every tagged rule is wanted. */
  ghost predicate Settled(rules: Ruleset, chains: seq<Ref>, want: seq<Rule>) {
    (forall w :: w in want ==> CoveredIn(rules, chains, w)) && NothingStale(rules, want)
  }

  /** The operator's rules are the same, at the same places. */
  ghost predicate SameOperator(was: Ruleset, now: Ruleset) {
    && (forall loc :: loc in was && was[loc].tag.None? ==> loc in now && now[loc] == was[loc])
    && (forall loc :: loc in now && now[loc].tag.None? ==> loc in was && was[loc] == now[loc])
  }

  lemma SettledConverges(rules: Ruleset, chains: seq<Ref>, want: seq<Rule>, c: Ref)
    requires Settled(rules, chains, want) && c in chains
    ensures Converged(PlaceOf(rules, c), want)
  {
    var p := PlaceOf(rules, c);
    forall key, id | (key, id) in p.ours ensures IsWanted(want, key) {
      var loc :| loc in rules && loc.0 == c && WeAllow(rules[loc]) && (rules[loc].key.value, rules[loc].tag.value) == (key, id);
      assert Keeps(want, rules[loc]);
    }
    forall w | w in want ensures Covers(p, w) {
      assert CoveredIn(rules, chains, w);
    }
  }

  lemma SameOperatorSamePlace(was: Ruleset, now: Ruleset, ref: Ref)
    requires SameOperator(was, now)
    ensures PlaceOf(was, ref).operator == PlaceOf(now, ref).operator
  {
    var a, b := PlaceOf(was, ref).operator, PlaceOf(now, ref).operator;
    forall key | key in a ensures key in b {
      var loc :| loc in was && loc.0 == ref && OperatorAllows(was[loc]) && was[loc].key.value == key;
      assert loc in now && now[loc] == was[loc];
    }
    forall key | key in b ensures key in a {
      var loc :| loc in now && loc.0 == ref && OperatorAllows(now[loc]) && now[loc].key.value == key;
      assert loc in was && was[loc] == now[loc];
    }
  }

  // ----- what is listed before anything changes ------------------------------------------------

  /** existing: chain and key of every operator rule that allows a port. */
  function ExistingIn(rules: Ruleset): set<(Ref, Key)> {
    set loc | loc in rules && OperatorAllows(rules[loc]) :: (loc.0, rules[loc].key.value)
  }

  /** present: chain and key of every tagged rule that stays. */
  function PresentIn(rules: Ruleset, want: seq<Rule>): set<(Ref, Key)> {
    set loc | loc in rules && Keeps(want, rules[loc]) :: (loc.0, rules[loc].key.value)
  }

  lemma ListedIsCovered(rules: Ruleset, want: seq<Rule>, c: Ref, w: Rule)
    requires DistinctRules(want) && w in want
    ensures (c, w.Key()) in ExistingIn(rules) <==> w.Key() in PlaceOf(rules, c).operator
    ensures (c, w.Key()) in PresentIn(rules, want) <==> (w.Key(), w.id) in PlaceOf(rules, c).ours
  {
    if (c, w.Key()) in PresentIn(rules, want) {
      var loc :| loc in rules && Keeps(want, rules[loc]) && (loc.0, rules[loc].key.value) == (c, w.Key());
      var o :| o in want && o.Key() == rules[loc].key.value && o.id == rules[loc].tag.value;
      KeyIdentifiesRule(want, o, w);
    }
    if (w.Key(), w.id) in PlaceOf(rules, c).ours {
      var loc :| loc in rules && loc.0 == c && WeAllow(rules[loc]) && (rules[loc].key.value, rules[loc].tag.value) == (w.Key(), w.id);
      assert IsOurs(want, w.Key(), w.id);
      assert Keeps(want, rules[loc]);
    }
    if (c, w.Key()) in ExistingIn(rules) {
      var loc :| loc in rules && OperatorAllows(rules[loc]) && (loc.0, rules[loc].key.value) == (c, w.Key());
    }
  }

  // ----- what one sync does, command by command --------------------------------------------

  function OurRule(key: Key, id: RuleId): NftRule { NftRule(Some(key), Some(id), true, true) }

  /** The ruleset has gained exactly one rule of ours, under a new handle, for each insertion
      that worked. */
  ghost predicate Gained(handle: nat, was: Ruleset, now: Ruleset, calls: seq<Call>) {
    && (forall loc :: loc in was ==> loc in now && now[loc] == was[loc])
    && (forall loc :: loc in now && loc !in was ==> loc.1 >= handle && InsertedAs(calls, loc.0, now[loc]))
    && (forall ref, key, id :: Worked(calls, Allow(ref, key, id)) ==> NewIn(was, now, ref, OurRule(key, id)))
  }

  ghost predicate InsertedAs(calls: seq<Call>, ref: Ref, r: NftRule) {
    r.key.Some? && r.tag.Some? && r == OurRule(r.key.value, r.tag.value) && Worked(calls, Allow(ref, r.key.value, r.tag.value))
  }

  ghost predicate NewIn(was: Ruleset, now: Ruleset, ref: Ref, r: NftRule) {
    exists loc :: loc in now && loc !in was && loc.0 == ref && now[loc] == r
  }

  /** A wanted rule goes into every input chain in which it is neither present nor allowed by
      the operator, whether or not another insertion failed; it is open when all of them
      worked, and existing when none was needed and the operator allows it everywhere. */
  ghost predicate Served(w: Rule, chains: seq<Ref>, present: set<(Ref, Key)>, existing: set<(Ref, Key)>, state: RuleState, calls: seq<Call>) {
    var key := w.Key();
    && (forall ref, id :: Told(calls, Allow(ref, key, id)) <==> id == w.id && ref in chains && (ref, key) !in present && (ref, key) !in existing)
    && (state == Failed <==> exists ref :: Told(calls, Allow(ref, key, w.id)) && !Worked(calls, Allow(ref, key, w.id)))
    && (state == Existing <==> forall ref :: ref in chains ==> (ref, key) in existing && (ref, key) !in present)
  }

  /** A tagged rule is stale unless it accepts a wanted port under the right tag. */
  ghost predicate Stale(want: seq<Rule>, rules: Ruleset, loc: Location) {
    loc in rules && rules[loc].tag.Some? && !Keeps(want, rules[loc])
  }

  /** A whole sync, whatever fails: exactly the stale rules are to be deleted, and exactly
      those go whose deletion works; exactly the missing rules are to be inserted, and exactly
      those come whose insertion works. No command is issued twice. */
  ghost predicate Synced(want: seq<Rule>, chains: seq<Ref>, was: Ruleset, now: Ruleset, rules: map<Key, RuleState>, calls: seq<Call>) {
    && NoRepeats(calls) && ReportsOn(rules, want)
    && (forall c :: c in calls && !c.cmd.Delete? ==> c.cmd.Allow? && IsWanted(want, c.cmd.key))
    && (forall loc: Location :: Told(calls, Delete(loc.0, loc.1)) <==> Stale(want, was, loc))
    && (forall loc :: loc in was ==> (loc in now <==> !Worked(calls, Delete(loc.0, loc.1))) && (loc in now ==> now[loc] == was[loc]))
    && (forall w :: w in want ==> Served(w, chains, PresentIn(was, want), ExistingIn(was), rules[w.Key()], calls))
    && (forall loc :: loc in now && loc !in was ==> InsertedAs(calls, loc.0, now[loc]))
    && (forall ref, key, id :: Worked(calls, Allow(ref, key, id)) ==> NewIn(was, now, ref, OurRule(key, id)))
  }

  // ----- the loops -----------------------------------------------------------------------------

  lemma GainedTwice(h: nat, h': nat, a: Ruleset, b: Ruleset, c: Ruleset, first: seq<Call>, second: seq<Call>)
    requires Gained(h, a, b, first) && Gained(h', b, c, second) && h <= h'
    ensures Gained(h, a, c, first + second)
  {
    JoinCalls(first, second);
    forall ref, key, id | Worked(first + second, Allow(ref, key, id)) ensures NewIn(a, c, ref, OurRule(key, id)) {
      if Worked(first, Allow(ref, key, id)) {
        var loc :| loc in b && loc !in a && loc.0 == ref && b[loc] == OurRule(key, id);
        assert loc in c;
      } else {
        var loc :| loc in c && loc !in b && loc.0 == ref && c[loc] == OurRule(key, id);
        assert loc !in a;
      }
    }
    forall loc | loc in c && loc !in a ensures loc.1 >= h && InsertedAs(first + second, loc.0, c[loc]) {
      if loc in b {
        assert InsertedAs(first, loc.0, b[loc]);
      } else {
        assert InsertedAs(second, loc.0, c[loc]);
      }
    }
  }

  /** The loop over the chains for one wanted rule, after the chains of `done`. */
  ghost predicate Tried(w: Rule, done: set<Ref>, present: set<(Ref, Key)>, existing: set<(Ref, Key)>, failed: bool, allExisting: bool, calls: seq<Call>) {
    var key := w.Key();
    && NoRepeats(calls)
    && (forall c :: c in calls ==> c.cmd.Allow? && c.cmd.key == key && c.cmd.id == w.id && c.cmd.place in done)
    && (forall ref :: Told(calls, Allow(ref, key, w.id)) <==> ref in done && (ref, key) !in present && (ref, key) !in existing)
    && (failed <==> exists c :: c in calls && !c.ok)
    && (allExisting <==> forall ref :: ref in done ==> (ref, key) in existing && (ref, key) !in present)
  }

  lemma TriedStep(w: Rule, done: set<Ref>, ref: Ref, present: set<(Ref, Key)>, existing: set<(Ref, Key)>, failed: bool, allExisting: bool,
                  calls: seq<Call>, ok: bool)
    requires Tried(w, done, present, existing, failed, allExisting, calls) && ref !in done
    ensures
      var key := w.Key();
      var listed := (ref, key) in present || (ref, key) in existing;
      Tried(w, done + {ref}, present, existing, failed || (!listed && !ok), allExisting && (ref, key) in existing && (ref, key) !in present,
            if listed then calls else calls + [Call(Allow(ref, key, w.id), ok)])
  {
    var made := [Call(Allow(ref, w.Key(), w.id), ok)];
    JoinCalls(calls, made);
    assert made[0] in made;
    assert made[0] in calls + made;
    assert allExisting && (ref, w.Key()) in existing && (ref, w.Key()) !in present <==>
           forall r :: r in done + {ref} ==> (r, w.Key()) in existing && (r, w.Key()) !in present;
  }

  lemma TriedIsServed(w: Rule, chains: seq<Ref>, done: set<Ref>, present: set<(Ref, Key)>, existing: set<(Ref, Key)>, failed: bool,
                      allExisting: bool, calls: seq<Call>)
    requires Tried(w, done, present, existing, failed, allExisting, calls) && forall ref :: ref in done <==> ref in chains
    ensures Served(w, chains, present, existing, if failed then Failed else if allExisting then Existing else Open, calls)
  {
    if failed {
      var c :| c in calls && !c.ok;
      OnceTold(calls, c);
      assert Told(calls, Allow(c.cmd.place, w.Key(), w.id));
      assert !((c.cmd.place, w.Key()) in existing);
    }
    forall c | c in calls ensures c.cmd == Allow(c.cmd.place, w.Key(), w.id) {
    }
  }

  /** A command that failed has not worked as well. */
  lemma OnceTold(calls: seq<Call>, c: Call)
    requires NoRepeats(calls) && c in calls && !c.ok
    ensures !Worked(calls, c.cmd)
  {
  }

  /** The loop over the wanted rules. */
  ghost predicate Added(want: seq<Rule>, chains: seq<Ref>, present: set<(Ref, Key)>, existing: set<(Ref, Key)>, rules: map<Key, RuleState>,
                        calls: seq<Call>) {
    && NoRepeats(calls) && ReportsOn(rules, want)
    && (forall w :: w in want ==> Served(w, chains, present, existing, rules[w.Key()], calls))
    && (forall c :: c in calls ==> c.cmd.Allow? && IsWanted(want, c.cmd.key))
  }

  /** Nothing in these commands is an insertion on the key. */
  ghost predicate NotOn(calls: seq<Call>, key: Key) {
    forall c :: c in calls ==> c.cmd.Delete? || (c.cmd.Allow? && c.cmd.key != key)
  }

  /** Commands on other keys do not matter to a rule. */
  lemma StillServed(w: Rule, chains: seq<Ref>, present: set<(Ref, Key)>, existing: set<(Ref, Key)>, state: RuleState,
                    calls: seq<Call>, more: seq<Call>)
    requires Served(w, chains, present, existing, state, calls) && NotOn(more, w.Key())
    ensures Served(w, chains, present, existing, state, calls + more)
  {
    JoinCalls(calls, more);
    SameOn(calls, more, calls + more, w.Key());
  }

  lemma NowServed(w: Rule, chains: seq<Ref>, present: set<(Ref, Key)>, existing: set<(Ref, Key)>, state: RuleState,
                  calls: seq<Call>, made: seq<Call>)
    requires Served(w, chains, present, existing, state, made) && NotOn(calls, w.Key())
    ensures Served(w, chains, present, existing, state, calls + made)
  {
    JoinCalls(calls, made);
    SameOn(made, calls, calls + made, w.Key());
  }

  lemma SameOn(calls: seq<Call>, others: seq<Call>, all: seq<Call>, key: Key)
    requires NotOn(others, key) && forall c :: c in all <==> c in calls || c in others
    ensures forall ref, id :: Told(all, Allow(ref, key, id)) <==> Told(calls, Allow(ref, key, id))
    ensures forall ref, id :: Worked(all, Allow(ref, key, id)) <==> Worked(calls, Allow(ref, key, id))
  {
  }

  lemma AddedStep(sorted: seq<Rule>, i: nat, chains: seq<Ref>, present: set<(Ref, Key)>, existing: set<(Ref, Key)>,
                  rules: map<Key, RuleState>, state: RuleState, calls: seq<Call>, made: seq<Call>)
    requires DistinctRules(sorted) && i < |sorted| && Added(sorted[..i], chains, present, existing, rules, calls)
    requires NoRepeats(made) && Served(sorted[i], chains, present, existing, state, made)
    requires forall c :: c in made ==> c.cmd.Allow? && c.cmd.key == sorted[i].Key()
    ensures Added(sorted[..i + 1], chains, present, existing, rules[sorted[i].Key() := state], calls + made)
  {
    var rules' := rules[sorted[i].Key() := state];
    WantedGrows(sorted, i);
    ReportGrows(sorted, i, rules, state);
    JoinCalls(calls, made);
    forall w | w in sorted[..i + 1] ensures Served(w, chains, present, existing, rules'[w.Key()], calls + made) {
      if w in sorted[..i] {
        StillServed(w, chains, present, existing, rules[w.Key()], calls, made);
      } else {
        NowServed(w, chains, present, existing, state, calls, made);
      }
    }
  }

  lemma SameMembers(sorted: seq<Rule>, want: seq<Rule>, chains: seq<Ref>, present: set<(Ref, Key)>, existing: set<(Ref, Key)>,
                    rules: map<Key, RuleState>, calls: seq<Call>)
    requires (forall w :: w in sorted <==> w in want) && Added(sorted, chains, present, existing, rules, calls)
    ensures Added(want, chains, present, existing, rules, calls)
  {
    SameWanted(sorted, want);
  }

  /** The removal has dealt with the tagged rules that are not in todo. */
  ghost predicate Cleared(want: seq<Rule>, todo: set<Location>, was: Ruleset, now: Ruleset, calls: seq<Call>) {
    && NoRepeats(calls) && (forall c :: c in calls ==> c.cmd.Delete?)
    && (forall loc: Location :: Told(calls, Delete(loc.0, loc.1)) <==> Stale(want, was, loc) && loc !in todo)
    && (forall loc :: loc in now <==> loc in was && !Worked(calls, Delete(loc.0, loc.1)))
    && (forall loc :: loc in now ==> now[loc] == was[loc])
  }

  lemma ClearedStep(want: seq<Rule>, todo: set<Location>, was: Ruleset, now: Ruleset, calls: seq<Call>, loc: Location, ok: bool)
    requires Cleared(want, todo, was, now, calls) && loc in todo && Stale(want, was, loc)
    ensures Cleared(want, todo - {loc}, was, if ok then now - {loc} else now, calls + [Call(Delete(loc.0, loc.1), ok)])
  {
    var made := [Call(Delete(loc.0, loc.1), ok)];
    JoinCalls(calls, made);
    assert made[0] in made;
    forall l: Location
      ensures Told(made, Delete(l.0, l.1)) <==> l == loc
      ensures Worked(made, Delete(l.0, l.1)) <==> l == loc && ok
    {
    }
    forall x | x in calls ensures x.cmd != made[0].cmd {
      assert Told(calls, x.cmd);
      assert x.cmd == Delete(x.cmd.place, x.cmd.handle);
      assert !Told(calls, Delete(loc.0, loc.1));
    }
  }

  /** Insertions do not matter to deletions, nor the other way round. */
  lemma Apart(first: seq<Call>, second: seq<Call>)
    requires (forall c :: c in first ==> c.cmd.Delete?) && forall c :: c in second ==> c.cmd.Allow?
    ensures forall place, handle :: Told(first + second, Delete(place, handle)) <==> Told(first, Delete(place, handle))
    ensures forall place, handle :: Worked(first + second, Delete(place, handle)) <==> Worked(first, Delete(place, handle))
    ensures forall ref, key, id :: Worked(first + second, Allow(ref, key, id)) <==> Worked(second, Allow(ref, key, id))
    ensures NoRepeats(first) && NoRepeats(second) ==> NoRepeats(first + second)
    ensures forall c :: c in first + second <==> c in first || c in second
  {
    JoinCalls(first, second);
  }

  lemma InsertedLater(handle: nat, was: Ruleset, mid: Ruleset, now: Ruleset, first: seq<Call>, second: seq<Call>)
    requires (forall c :: c in first ==> c.cmd.Delete?) && forall c :: c in second ==> c.cmd.Allow?
    requires (forall loc :: loc in was ==> loc.1 < handle) && (forall loc :: loc in mid ==> loc in was)
    requires Gained(handle, mid, now, second)
    ensures forall loc :: loc in was && loc !in mid ==> loc !in now
    ensures forall loc :: loc in now && loc !in was ==> InsertedAs(first + second, loc.0, now[loc])
    ensures forall ref, key, id :: Worked(first + second, Allow(ref, key, id)) ==> NewIn(was, now, ref, OurRule(key, id))
  {
    Apart(first, second);
    forall loc | loc in now && loc !in was ensures InsertedAs(first + second, loc.0, now[loc]) {
      assert InsertedAs(second, loc.0, now[loc]);
    }
    forall ref, key, id | Worked(first + second, Allow(ref, key, id)) ensures NewIn(was, now, ref, OurRule(key, id)) {
      var loc :| loc in now && loc !in mid && loc.0 == ref && now[loc] == OurRule(key, id);
      assert loc !in was;
    }
  }

  /** Both parts one after the other. */
  lemma LoopsSync(want: seq<Rule>, chains: seq<Ref>, handle: nat, was: Ruleset, mid: Ruleset, now: Ruleset, rules: map<Key, RuleState>,
                  first: seq<Call>, second: seq<Call>)
    requires forall loc :: loc in was ==> loc.1 < handle
    requires Cleared(want, {}, was, mid, first)
    requires Added(want, chains, PresentIn(was, want), ExistingIn(was), rules, second) && Gained(handle, mid, now, second)
    ensures Synced(want, chains, was, now, rules, first + second)
  {
    Apart(first, second);
    InsertedLater(handle, was, mid, now, first, second);
    forall w | w in want ensures Served(w, chains, PresentIn(was, want), ExistingIn(was), rules[w.Key()], first + second) {
      NowServed(w, chains, PresentIn(was, want), ExistingIn(was), rules[w.Key()], first, second);
    }
  }

  // ----- what follows ------------------------------------------------------------------------------

  /** The operator's rules stay where they are and none appears. */
  lemma SyncedSpares(want: seq<Rule>, chains: seq<Ref>, was: Ruleset, now: Ruleset, rules: map<Key, RuleState>, calls: seq<Call>)
    requires Synced(want, chains, was, now, rules, calls)
    ensures SameOperator(was, now)
  {
    forall loc | loc in was && was[loc].tag.None? ensures loc in now && now[loc] == was[loc] {
      assert !Stale(want, was, loc) && !Told(calls, Delete(loc.0, loc.1));
    }
  }

  /** A wanted rule is in force in a chain unless it was to be inserted there and that failed. */
  lemma ServedIsCovered(want: seq<Rule>, chains: seq<Ref>, was: Ruleset, now: Ruleset, rules: map<Key, RuleState>, calls: seq<Call>,
                        w: Rule, c: Ref)
    requires DistinctRules(want) && Synced(want, chains, was, now, rules, calls) && w in want && c in chains
    requires Told(calls, Allow(c, w.Key(), w.id)) ==> Worked(calls, Allow(c, w.Key(), w.id))
    ensures Covers(PlaceOf(now, c), w)
  {
    var key := w.Key();
    assert Served(w, chains, PresentIn(was, want), ExistingIn(was), rules[key], calls);
    if (c, key) in PresentIn(was, want) {
      var loc :| loc in was && Keeps(want, was[loc]) && (loc.0, was[loc].key.value) == (c, key);
      var o :| o in want && o.Key() == key && o.id == was[loc].tag.value;
      KeyIdentifiesRule(want, o, w);
      assert !Stale(want, was, loc) && !Told(calls, Delete(loc.0, loc.1));
      assert loc in now && WeAllow(now[loc]);
    } else if (c, key) in ExistingIn(was) {
      SyncedSpares(want, chains, was, now, rules, calls);
      SameOperatorSamePlace(was, now, c);
      ListedIsCovered(was, want, c, w);
    } else {
      assert NewIn(was, now, c, OurRule(key, w.id));
      var loc :| loc in now && loc !in was && loc.0 == c && now[loc] == OurRule(key, w.id);
      assert WeAllow(now[loc]);
    }
  }

  /** Whatever fails, the report is true of every input chain. */
  lemma SyncedIsTrue(want: seq<Rule>, chains: seq<Ref>, was: Ruleset, now: Ruleset, rules: map<Key, RuleState>, calls: seq<Call>, c: Ref)
    requires DistinctRules(want) && Synced(want, chains, was, now, rules, calls) && c in chains
    ensures Truthful(rules, want, PlaceOf(now, c))
  {
    SyncedSpares(want, chains, was, now, rules, calls);
    SameOperatorSamePlace(was, now, c);
    forall w | w in want
      ensures rules[w.Key()] != Failed ==> Covers(PlaceOf(now, c), w)
      ensures rules[w.Key()] == Existing ==> w.Key() in PlaceOf(now, c).operator
    {
      assert Served(w, chains, PresentIn(was, want), ExistingIn(was), rules[w.Key()], calls);
      if rules[w.Key()] != Failed {
        ServedIsCovered(want, chains, was, now, rules, calls, w, c);
      }
      if rules[w.Key()] == Existing {
        ListedIsCovered(was, want, c, w);
      }
    }
  }

  /** When every command works nothing fails and every input chain is settled. */
  lemma SyncedAchieves(want: seq<Rule>, chains: seq<Ref>, was: Ruleset, now: Ruleset, rules: map<Key, RuleState>, calls: seq<Call>)
    requires DistinctRules(want) && Synced(want, chains, was, now, rules, calls) && AllWorked(calls)
    ensures NoneFailed(rules) && Settled(now, chains, want)
  {
    forall w | w in want ensures rules[w.Key()] != Failed && CoveredIn(now, chains, w) {
      assert Served(w, chains, PresentIn(was, want), ExistingIn(was), rules[w.Key()], calls);
      forall c | c in chains ensures Covers(PlaceOf(now, c), w) {
        ServedIsCovered(want, chains, was, now, rules, calls, w, c);
      }
    }
    forall loc | loc in now && now[loc].tag.Some? ensures Keeps(want, now[loc]) {
      if loc in was {
        assert Told(calls, Delete(loc.0, loc.1)) <==> Stale(want, was, loc);
      } else {
        InsertedIsKept(want, chains, was, now, rules, calls, loc);
      }
    }
  }

  lemma InsertedIsKept(want: seq<Rule>, chains: seq<Ref>, was: Ruleset, now: Ruleset, rules: map<Key, RuleState>, calls: seq<Call>, loc: Location)
    requires Synced(want, chains, was, now, rules, calls) && loc in now && loc !in was
    ensures Keeps(want, now[loc])
  {
    assert InsertedAs(calls, loc.0, now[loc]);
    var key, id := now[loc].key.value, now[loc].tag.value;
    assert Call(Allow(loc.0, key, id), true) in calls;
    var w :| w in want && w.Key() == key;
    assert Served(w, chains, PresentIn(was, want), ExistingIn(was), rules[key], calls);
    assert Told(calls, Allow(loc.0, key, id));
    assert IsOurs(want, key, w.id);
  }

  /** A settled ruleset gets no command and stays as it is. */
  lemma SyncedRests(want: seq<Rule>, chains: seq<Ref>, was: Ruleset, now: Ruleset, rules: map<Key, RuleState>, calls: seq<Call>)
    requires DistinctRules(want) && Synced(want, chains, was, now, rules, calls) && Settled(was, chains, want)
    ensures calls == [] && now == was
  {
    if calls != [] {
      CallHasReason(want, chains, was, now, rules, calls, calls[0]);
      assert false;
    }
    assert forall loc :: loc in now ==> loc in was;
    assert now == was;
  }

  /** Every command has a reason in the listing. */
  lemma CallHasReason(want: seq<Rule>, chains: seq<Ref>, was: Ruleset, now: Ruleset, rules: map<Key, RuleState>, calls: seq<Call>, c: Call)
    requires DistinctRules(want) && Synced(want, chains, was, now, rules, calls) && c in calls
    ensures !NothingStale(was, want) || exists w :: w in want && !CoveredIn(was, chains, w)
  {
    assert Told(calls, c.cmd);
    if c.cmd.Delete? {
      var loc := (c.cmd.place, c.cmd.handle);
      assert Told(calls, Delete(loc.0, loc.1)) && Stale(want, was, loc);
    } else {
      var w :| w in want && w.Key() == c.cmd.key;
      assert Served(w, chains, PresentIn(was, want), ExistingIn(was), rules[w.Key()], calls);
      ListedIsCovered(was, want, c.cmd.place, w);
      assert c.cmd.place in chains && !Covers(PlaceOf(was, c.cmd.place), w);
      assert !CoveredIn(was, chains, w);
    }
  }

  class Nftables {
    const shell: Shell
    /** Base chains of the ruleset that hook input. */
    const chains: seq<Ref>
    var rules: Ruleset
    /** Handles are given out in increasing order. */
    var nextHandle: nat

    constructor (shell: Shell, chains: seq<Ref>, rules: Ruleset, nextHandle: nat)
      requires forall loc :: loc in rules ==> loc.1 < nextHandle
      requires forall i, j :: 0 <= i < j < |chains| ==> chains[i] != chains[j]
      ensures this.shell == shell && this.chains == chains && this.rules == rules && Valid()
    {
      this.shell, this.chains, this.rules, this.nextHandle := shell, chains, rules, nextHandle;
    }

    /** Handles are older than the next one; a chain is listed once. */
    ghost predicate Valid()
      reads this
    {
      && (forall loc :: loc in rules ==> loc.1 < nextHandle)
      && (forall i, j :: 0 <= i < j < |chains| ==> chains[i] != chains[j])
    }

    /** Since the mark exactly these commands have been issued. */
    ghost predicate Ran(since: Mark, calls: seq<Call>)
      reads this, shell
    {
      Between(shell.fails, since, shell.Now(), calls)
    }

    /** "nft delete rule CHAIN handle H" */
    method DeleteRule(loc: Location) returns (ok: bool)
      requires Valid()
      modifies this`rules, shell
      ensures Valid()
      ensures shell.ran == old(shell.ran) + 1 && shell.changes == old(shell.changes) + 1 && ok == !shell.fails(old(shell.ran))
      ensures shell.log == old(shell.log) + [Call(Delete(loc.0, loc.1), ok)]
      ensures rules == if ok then old(rules) - {loc} else old(rules)
    {
      ok := shell.Change(Delete(loc.0, loc.1));
      if ok { rules := rules - {loc}; }
    }

    /** "nft insert rule CHAIN PROTO dport PORT accept comment TAG" */
    method InsertRule(ref: Ref, w: Rule) returns (ok: bool)
      requires Valid()
      modifies this`rules, this`nextHandle, shell
      ensures Valid() && nextHandle >= old(nextHandle)
      ensures shell.ran == old(shell.ran) + 1 && shell.changes == old(shell.changes) + 1 && ok == !shell.fails(old(shell.ran))
      ensures shell.log == old(shell.log) + [Call(Allow(ref, w.Key(), w.id), ok)]
      ensures Gained(old(nextHandle), old(rules), rules, [Call(Allow(ref, w.Key(), w.id), ok)])
    {
      ok := shell.Change(Allow(ref, w.Key(), w.id));
      ghost var calls := [Call(Allow(ref, w.Key(), w.id), ok)];
      if ok {
        ghost var loc := (ref, nextHandle);
        rules := rules[(ref, nextHandle) := OurRule(w.Key(), w.id)];
        assert calls[0] in calls;
        assert loc in rules && loc !in old(rules);
        nextHandle := nextHandle + 1;
      }
    }

    /** Removes stale or mismatched tagged rules, in any order. */
    method RemoveStale(want: seq<Rule>) returns (ghost calls: seq<Call>)
      requires Valid()
      modifies this`rules, shell
      ensures Valid() && Ran(old(shell.Now()), calls) && Cleared(want, {}, old(rules), rules, calls)
    {
      var todo := set loc | loc in rules && rules[loc].tag.Some?;
      calls := [];
      while todo != {}
        invariant Valid() && Ran(old(shell.Now()), calls)
        invariant forall loc :: loc in todo ==> loc in rules && loc in old(rules) && rules[loc].tag.Some?
        invariant Cleared(want, todo, old(rules), rules, calls)
        decreases todo
      {
        var loc :| loc in todo;
        if Keeps(want, rules[loc]) {
          assert !Stale(want, old(rules), loc);
        } else {
          ghost var before, middle := rules, shell.Now();
          var ok := DeleteRule(loc);
          ClearedStep(want, todo, old(rules), before, calls, loc, ok);
          JoinBetween(shell.fails, old(shell.Now()), middle, shell.Now(), calls, [Call(Delete(loc.0, loc.1), ok)]);
          calls := calls + [Call(Delete(loc.0, loc.1), ok)];
        }
        todo := todo - {loc};
      }
    }

    /** The loop over the input chains for one wanted rule. */
    method EnsureChains(w: Rule, present: set<(Ref, Key)>, existing: set<(Ref, Key)>) returns (state: RuleState, ghost calls: seq<Call>)
      requires Valid()
      modifies this`rules, this`nextHandle, shell
      ensures Valid() && nextHandle >= old(nextHandle) && Ran(old(shell.Now()), calls)
      ensures Gained(old(nextHandle), old(rules), rules, calls)
      ensures NoRepeats(calls) && Served(w, chains, present, existing, state, calls)
      ensures forall c :: c in calls ==> c.cmd.Allow? && c.cmd.key == w.Key()
    {
      var key := w.Key();
      var failed, allExisting := false, true;
      ghost var done: set<Ref> := {};
      calls := [];
      var k := 0;
      while k < |chains|
        invariant k <= |chains| && Valid() && nextHandle >= old(nextHandle) && Ran(old(shell.Now()), calls)
        invariant forall ref :: ref in done <==> ref in chains[..k]
        invariant Gained(old(nextHandle), old(rules), rules, calls)
        invariant Tried(w, done, present, existing, failed, allExisting, calls)
      {
        var ref := chains[k];
        ghost var handle, before, middle := nextHandle, rules, shell.Now();
        if (ref, key) in present {
          TriedStep(w, done, ref, present, existing, failed, allExisting, calls, true);
          allExisting := false;
        } else if (ref, key) in existing {
          TriedStep(w, done, ref, present, existing, failed, allExisting, calls, true);
        } else {
          var ok := InsertRule(ref, w);
          TriedStep(w, done, ref, present, existing, failed, allExisting, calls, ok);
          GainedTwice(old(nextHandle), handle, old(rules), before, rules, calls, [Call(Allow(ref, key, w.id), ok)]);
          JoinBetween(shell.fails, old(shell.Now()), middle, shell.Now(), calls, [Call(Allow(ref, key, w.id), ok)]);
          calls := calls + [Call(Allow(ref, key, w.id), ok)];
          allExisting := false;
          if !ok { failed := true; }
        }
        done := done + {ref};
        k := k + 1;
      }
      assert chains[..k] == chains;
      TriedIsServed(w, chains, done, present, existing, failed, allExisting, calls);
      state := if failed then Failed else if allExisting then Existing else Open;
    }

    /** The loop over the wanted rules. */
    method AddMissing(want: seq<Rule>, present: set<(Ref, Key)>, existing: set<(Ref, Key)>)
      returns (out: map<Key, RuleState>, ghost calls: seq<Call>)
      requires Valid() && DistinctRules(want)
      modifies this`rules, this`nextHandle, shell
      ensures Valid() && nextHandle >= old(nextHandle) && Ran(old(shell.Now()), calls)
      ensures Gained(old(nextHandle), old(rules), rules, calls) && Added(want, chains, present, existing, out, calls)
    {
      var sorted := SortedRules(want);
      SortedRulesAreTheSame(want);
      out, calls := AddInOrder(sorted, present, existing);
      SameMembers(sorted, want, chains, present, existing, out, calls);
    }

    method AddInOrder(sorted: seq<Rule>, present: set<(Ref, Key)>, existing: set<(Ref, Key)>)
      returns (out: map<Key, RuleState>, ghost calls: seq<Call>)
      requires Valid() && DistinctRules(sorted)
      modifies this`rules, this`nextHandle, shell
      ensures Valid() && nextHandle >= old(nextHandle) && Ran(old(shell.Now()), calls)
      ensures Gained(old(nextHandle), old(rules), rules, calls) && Added(sorted, chains, present, existing, out, calls)
    {
      out, calls := map[], [];
      var i := 0;
      while i < |sorted|
        invariant i <= |sorted| && Valid() && nextHandle >= old(nextHandle) && Ran(old(shell.Now()), calls)
        invariant Gained(old(nextHandle), old(rules), rules, calls) && Added(sorted[..i], chains, present, existing, out, calls)
      {
        ghost var handle, before, middle := nextHandle, rules, shell.Now();
        var state;
        ghost var made;
        state, made := EnsureChains(sorted[i], present, existing);
        AddedStep(sorted, i, chains, present, existing, out, state, calls, made);
        GainedTwice(old(nextHandle), handle, old(rules), before, rules, calls, made);
        JoinBetween(shell.fails, old(shell.Now()), middle, shell.Now(), calls, made);
        out, calls := out[sorted[i].Key() := state], calls + made;
        i := i + 1;
      }
      assert sorted[..i] == sorted;
    }

    /** Sync without an input chain: nothing is being filtered, so everything is open. */
    method AllOpen(want: seq<Rule>) returns (out: map<Key, RuleState>)
      ensures ReportsOn(out, want) && forall key :: key in out ==> out[key] == Open
    {
      out := map[];
      var i := 0;
      while i < |want|
        invariant i <= |want|
        invariant forall k :: 0 <= k < i ==> want[k].Key() in out
        invariant forall key :: key in out ==> out[key] == Open && IsWanted(want, key)
      {
        assert want[i] in want;
        out := out[want[i].Key() := Open];
        i := i + 1;
      }
    }

    /** The second result lists the commands that were to change something. */
    method Sync(want: seq<Rule>) returns (r: Option<Report>, ghost calls: seq<Call>)
      requires Valid() && DistinctRules(want)
      modifies this`rules, this`nextHandle, shell
      ensures Valid() && shell.ran >= old(shell.ran)
      ensures shell.changes == old(shell.changes) + |calls| && shell.log == old(shell.log) + calls
      ensures shell.AllOk(old(shell.ran)) ==> r.Some? && AllWorked(calls)
      ensures r.None? <==> shell.fails(old(shell.ran))
      ensures r.None? || chains == [] ==> rules == old(rules) && calls == []
      ensures r.Some? ==> (r.value.active <==> chains != [])
      ensures r.Some? && chains == [] ==> ReportsOn(r.value.rules, want) && forall key :: key in r.value.rules ==> r.value.rules[key] == Open
      // whatever fails, exactly the commands that the listing calls for are issued, each once,
      // and ruleset and report follow from which of them worked
      ensures r.Some? && chains != [] ==> Synced(want, chains, old(rules), rules, r.value.rules, calls)
      // so operator rules stay where they are and none appears, and the report is true of
      // every input chain
      ensures SameOperator(old(rules), rules)
      ensures r.Some? ==> ReportsOn(r.value.rules, want) && forall c :: c in chains ==> Truthful(r.value.rules, want, PlaceOf(rules, c))
      // with every command succeeding all input chains converge
      ensures shell.AllOk(old(shell.ran)) ==> NoneFailed(r.value.rules)
      ensures shell.AllOk(old(shell.ran)) && chains != [] ==> Settled(rules, chains, want)
      ensures old(Settled(rules, chains, want)) ==> rules == old(rules) && calls == []
    {
      calls := [];
      var listed := shell.Query();
      if !listed { return None, calls; }
      if chains == [] {
        var open := AllOpen(want);
        return Some(Report(false, open)), calls;
      }
      var out;
      out, calls := SyncRules(want);
      r := Some(Report(true, out));
      SyncedSpares(want, chains, old(rules), rules, out, calls);
      forall c | c in chains ensures Truthful(out, want, PlaceOf(rules, c)) {
        SyncedIsTrue(want, chains, old(rules), rules, out, calls, c);
      }
      if AllWorked(calls) { SyncedAchieves(want, chains, old(rules), rules, out, calls); }
      if old(Settled(rules, chains, want)) { SyncedRests(want, chains, old(rules), rules, out, calls); }
    }

    method SyncRules(want: seq<Rule>) returns (out: map<Key, RuleState>, ghost calls: seq<Call>)
      requires Valid() && DistinctRules(want)
      modifies this`rules, this`nextHandle, shell
      ensures Valid() && Ran(old(shell.Now()), calls) && Synced(want, chains, old(rules), rules, out, calls)
    {
      var present, existing := PresentIn(rules, want), ExistingIn(rules);
      calls := RemoveStale(want);
      ghost var cleaned, middle, second := rules, shell.Now(), calls;
      out, second := AddMissing(want, present, existing);
      LoopsSync(want, chains, old(nextHandle), old(rules), cleaned, rules, out, calls, second);
      JoinBetween(shell.fails, old(shell.Now()), middle, shell.Now(), calls, second);
      calls := calls + second;
    }
  }

  /** Two syncs in a row: all input chains converge and the second issues no command that
      changes anything. */
  method SyncTwice(n: Nftables, want: seq<Rule>) returns (extra: int)
    requires n.Valid() && DistinctRules(want) && n.chains != []
    modifies n`rules, n`nextHandle, n.shell
    ensures n.shell.AllOk(old(n.shell.ran)) ==> extra == 0 && forall c :: c in n.chains ==> Converged(PlaceOf(n.rules, c), want)
  {
    var first, calls := n.Sync(want);
    extra := n.shell.changes;
    var second, more := n.Sync(want);
    extra := n.shell.changes - extra;
    if Settled(n.rules, n.chains, want) {
      forall c | c in n.chains ensures Converged(PlaceOf(n.rules, c), want) {
        SettledConverges(n.rules, n.chains, want, c);
      }
    }
  }
}
