/** The iptables backend, with iptables and ip6tables side by side:
    internal/firewall/iptables.go:21-126. */
module IptablesBackend {
  import opened Basics
  import opened Rules
  import opened Reconcile
  import opened IptablesChain

  // ----- what the two loops do -----------------------------------------------------------------

  /** wanted maps the key of every wanted rule to its id. */
  ghost predicate Indexes(wanted: map<Key, RuleId>, want: seq<Rule>) {
    forall key :: WantedId(want, key) == if key in wanted then Some(wanted[key]) else None
  }

  lemma IndexIsWanted(wanted: map<Key, RuleId>, want: seq<Rule>)
    requires DistinctRules(want)
    requires forall w :: w in want ==> w.Key() in wanted && wanted[w.Key()] == w.id
    requires forall key :: key in wanted ==> exists w :: w in want && w.Key() == key && w.id == wanted[key]
    ensures Indexes(wanted, want)
  {
    forall key ensures WantedId(want, key) == if key in wanted then Some(wanted[key]) else None {
      if key in wanted {
        var w :| w in want && w.Key() == key && w.id == wanted[key];
        WantedIdOf(want, w);
      } else {
        WantedIdFinds(want, key);
      }
    }
  }

  lemma SameWantedIds(a: seq<Rule>, b: seq<Rule>)
    requires DistinctRules(a) && DistinctRules(b) && forall w :: w in a <==> w in b
    ensures forall key :: WantedId(a, key) == WantedId(b, key)
  {
    forall key ensures WantedId(a, key) == WantedId(b, key) {
      if w :| w in a && w.Key() == key {
        WantedIdOf(a, w);
        WantedIdOf(b, w);
      } else {
        WantedIdFinds(a, key);
        WantedIdFinds(b, key);
      }
    }
  }

  /** The keys on which the first loop deletes. */
  ghost function StaleKeys(chain: seq<ChainRule>, want: seq<Rule>): set<Key> {
    set k | k in TaggedIn(chain) && Stale(TagsOf(chain, k), WantedId(want, k))
  }

  /** The chain while the first loop is at work. */
  ghost predicate Removed(want: seq<Rule>, was: seq<ChainRule>, chain: seq<ChainRule>, issued: set<Key>, kept: set<Key>) {
    && Operators(chain) == Operators(was) && kept <= issued
    && forall k {:trigger TagsOf(chain, k)} :: TagsOf(chain, k) ==
         if k in issued then Cleaned(TagsOf(was, k), WantedId(want, k), k in kept) else TagsOf(was, k)
  }

  lemma RemovedStep(want: seq<Rule>, was: seq<ChainRule>, chain: seq<ChainRule>, issued: set<Key>, kept: set<Key>,
                    key: Key, id: RuleId, ok: bool, chain': seq<ChainRule>)
    requires Removed(want, was, chain, issued, kept) && key !in issued && StaleTag(want, was, key, id)
    requires chain' == if ok then DeleteFirst(chain, Tagged(key, id)) else chain
    ensures Removed(want, was, chain', issued + {key}, if ok then kept else kept + {key})
  {
    DeleteFirstKeepsOperators(chain, Tagged(key, id));
    var issued', kept' := issued + {key}, if ok then kept else kept + {key};
    forall k
      ensures TagsOf(chain', k) == if k in issued' then Cleaned(TagsOf(was, k), WantedId(want, k), k in kept') else TagsOf(was, k)
    {
      if ok { TagsAfterDelete(chain, key, id, k); }
      if k != key { assert k in issued' <==> k in issued; }
    }
  }

  /** A listed tag is stale exactly when it is not the wanted one of its key. */
  lemma StaleIsUnwanted(chain: seq<ChainRule>, want: seq<Rule>, wanted: map<Key, RuleId>, key: Key)
    requires Indexes(wanted, want) && key in TaggedIn(chain)
    ensures TagsOf(chain, key) != [] && TaggedIn(chain)[key] == Last(TagsOf(chain, key))
    ensures key in StaleKeys(chain, want) <==> !(key in wanted && wanted[key] == TaggedIn(chain)[key])
    ensures key in StaleKeys(chain, want) <==> Stale(TagsOf(chain, key), WantedId(want, key))
  {
    TaggedInIsLast(chain, key);
  }

  /** The tag that the first loop deletes on a key. */
  ghost predicate StaleTag(want: seq<Rule>, chain: seq<ChainRule>, key: Key, id: RuleId) {
    Stale(TagsOf(chain, key), WantedId(want, key)) && id == Last(TagsOf(chain, key))
  }

  /** Why and what the first loop deletes on a listed key. */
  ghost predicate ToDelete(want: seq<Rule>, wanted: map<Key, RuleId>, listed: map<Key, RuleId>, stale: set<Key>,
                           chain: seq<ChainRule>, key: Key)
    requires key in listed
  {
    && (key in stale <==> !(key in wanted && wanted[key] == listed[key]))
    && (key in stale ==> StaleTag(want, chain, key, listed[key]))
  }

  lemma RemovedAll(want: seq<Rule>, was: seq<ChainRule>, chain: seq<ChainRule>, kept: set<Key>, k: Key)
    requires Removed(want, was, chain, StaleKeys(was, want), kept)
    ensures TagsOf(chain, k) == Cleaned(TagsOf(was, k), WantedId(want, k), k in kept)
  {
    TaggedInIsLast(was, k);
  }

  predicate Listed(w: Rule, listed: map<Key, RuleId>, plain: set<Key>) {
    w.Key() in plain || (w.Key() in listed && listed[w.Key()] == w.id)
  }

  /** The keys on which the second loop inserts. */
  ghost function NeededKeys(want: seq<Rule>, listed: map<Key, RuleId>, plain: set<Key>): set<Key> {
    set w | w in want && !Listed(w, listed, plain) :: w.Key()
  }

  lemma NeededGrows(sorted: seq<Rule>, i: nat, listed: map<Key, RuleId>, plain: set<Key>)
    requires DistinctRules(sorted) && i < |sorted|
    ensures NeededKeys(sorted[..i + 1], listed, plain) ==
            NeededKeys(sorted[..i], listed, plain) + (if Listed(sorted[i], listed, plain) then {} else {sorted[i].Key()})
    ensures sorted[i].Key() !in NeededKeys(sorted[..i], listed, plain)
  {
    WantedGrows(sorted, i);
  }

  lemma NeededOf(want: seq<Rule>, listed: map<Key, RuleId>, plain: set<Key>, w: Rule)
    requires DistinctRules(want) && w in want
    ensures w.Key() in NeededKeys(want, listed, plain) <==> !Listed(w, listed, plain)
  {
    if o :| o in want && !Listed(o, listed, plain) && o.Key() == w.Key() {
      KeyIdentifiesRule(want, o, w);
    }
  }

  /** The second loop inserts exactly where the tags of the key ask for it. */
  lemma NeededIsMissing(chain: seq<ChainRule>, want: seq<Rule>, k: Key)
    requires DistinctRules(want)
    ensures k in NeededKeys(want, TaggedIn(chain), UntaggedIn(chain)) <==>
            Missing(TagsOf(chain, k), Plain(k) in chain, WantedId(want, k))
  {
    TaggedInIsLast(chain, k);
    if w :| w in want && w.Key() == k {
      WantedIdOf(want, w);
      NeededOf(want, TaggedIn(chain), UntaggedIn(chain), w);
    } else {
      WantedIdFinds(want, k);
    }
  }

  /** A pass over a chain issues no command exactly when the chain is quiet. */
  lemma QuietIsIdle(chain: seq<ChainRule>, want: seq<Rule>)
    requires DistinctRules(want)
    ensures Quiet(chain, want) <==> StaleKeys(chain, want) == {} && NeededKeys(want, TaggedIn(chain), UntaggedIn(chain)) == {}
  {
    var needed := NeededKeys(want, TaggedIn(chain), UntaggedIn(chain));
    forall k ensures QuietOn(chain, want, k) <==> k !in StaleKeys(chain, want) && k !in needed {
      TaggedInIsLast(chain, k);
      NeededIsMissing(chain, want, k);
    }
  }

  /** The state of a rule after one more tool: an operator's rule leaves it alone, our
      own rule makes it open, a failure sticks. */
  ghost predicate Merges(cur: RuleState, after: RuleState, plain: bool, tagged: bool) {
    && (after == Existing ==> cur == Existing && plain)
    && (after != Failed ==> cur != Failed && (plain || tagged))
  }

  /** What the insert loop has done to the report, rule by rule. */
  ghost predicate Handled(want: seq<Rule>, before: map<Key, RuleState>, after: map<Key, RuleState>, now: seq<ChainRule>) {
    && before.Keys == after.Keys
    && (forall key :: key in before && !IsWanted(want, key) ==> after[key] == before[key])
    && (forall w :: w in want && w.Key() in before ==>
          Merges(before[w.Key()], after[w.Key()], Plain(w.Key()) in now, Tagged(w.Key(), w.id) in now))
  }

  /** The tags on a key with one more in front, when there is one to add. */
  function Added(tags: seq<RuleId>, wid: Option<RuleId>, added: bool): seq<RuleId> {
    if added && wid.Some? then [wid.value] + tags else tags
  }

  /** The chain while the second loop is at work. */
  ghost predicate Grown(want: seq<Rule>, was: seq<ChainRule>, chain: seq<ChainRule>, added: set<Key>) {
    && Operators(chain) == Operators(was)
    && (forall r :: r in was ==> r in chain)
    && forall k {:trigger TagsOf(chain, k)} :: TagsOf(chain, k) == Added(TagsOf(was, k), WantedId(want, k), k in added)
  }

  lemma GrownStep(want: seq<Rule>, was: seq<ChainRule>, chain: seq<ChainRule>, added: set<Key>, w: Rule)
    requires DistinctRules(want) && w in want && Grown(want, was, chain, added) && w.Key() !in added
    ensures Grown(want, was, [Tagged(w.Key(), w.id)] + chain, added + {w.Key()})
  {
    InsertKeepsOperators(chain, Tagged(w.Key(), w.id));
    WantedIdOf(want, w);
    forall k ensures TagsOf([Tagged(w.Key(), w.id)] + chain, k) == (if k == w.Key() then [w.id] else []) + TagsOf(chain, k) {
      TagsAfterInsert(chain, w.Key(), w.id, k);
    }
  }

  lemma HandledStep(sorted: seq<Rule>, i: nat, before: map<Key, RuleState>, after: map<Key, RuleState>,
                    now: seq<ChainRule>, state: RuleState, now': seq<ChainRule>)
    requires DistinctRules(sorted) && i < |sorted| && sorted[i].Key() in before
    requires Handled(sorted[..i], before, after, now) && forall r :: r in now ==> r in now'
    requires Merges(after[sorted[i].Key()], state, Plain(sorted[i].Key()) in now', Tagged(sorted[i].Key(), sorted[i].id) in now')
    ensures Handled(sorted[..i + 1], before, after[sorted[i].Key() := state], now')
  {
    var w, after' := sorted[i], after[sorted[i].Key() := state];
    WantedGrows(sorted, i);
    forall o | o in sorted[..i + 1] && o.Key() in before
      ensures Merges(before[o.Key()], after'[o.Key()], Plain(o.Key()) in now', Tagged(o.Key(), o.id) in now')
    {
      if o in sorted[..i] {
        assert IsWanted(sorted[..i], o.Key());
      }
    }
  }

  lemma SameMembers(sorted: seq<Rule>, want: seq<Rule>, before: map<Key, RuleState>, after: map<Key, RuleState>, now: seq<ChainRule>)
    requires forall w :: w in sorted <==> w in want
    requires Handled(sorted, before, after, now)
    ensures Handled(want, before, after, now)
  {
    SameWanted(sorted, want);
  }

  /** The state of a rule after one more tool: our own rule makes it open, an operator's rule
      leaves it alone, and otherwise an insertion that failed is reported from then on. */
  ghost predicate Reports(w: Rule, listed: map<Key, RuleId>, plain: set<Key>, skipped: set<Key>, cur: RuleState, after: RuleState) {
    after == if w.Key() in listed && listed[w.Key()] == w.id then if cur == Existing then Open else cur
             else if w.Key() in plain then cur
             else if w.Key() in skipped || cur == Failed then Failed
             else Open
  }

  ghost predicate Reported(want: seq<Rule>, listed: map<Key, RuleId>, plain: set<Key>, skipped: set<Key>,
                           before: map<Key, RuleState>, after: map<Key, RuleState>) {
    && before.Keys == after.Keys
    && (forall key :: key in before && !IsWanted(want, key) ==> after[key] == before[key])
    && (forall w :: w in want && w.Key() in before ==> Reports(w, listed, plain, skipped, before[w.Key()], after[w.Key()]))
  }

  lemma ReportedStep(sorted: seq<Rule>, i: nat, listed: map<Key, RuleId>, plain: set<Key>, skipped: set<Key>, skipped': set<Key>,
                     before: map<Key, RuleState>, after: map<Key, RuleState>, state: RuleState)
    requires DistinctRules(sorted) && i < |sorted| && sorted[i].Key() in before
    requires Reported(sorted[..i], listed, plain, skipped, before, after)
    requires Reports(sorted[i], listed, plain, skipped', after[sorted[i].Key()], state)
    requires forall key :: key != sorted[i].Key() ==> (key in skipped' <==> key in skipped)
    ensures Reported(sorted[..i + 1], listed, plain, skipped', before, after[sorted[i].Key() := state])
  {
    WantedGrows(sorted, i);
    forall o | o in sorted[..i] ensures IsWanted(sorted[..i], o.Key()) {
    }
  }

  lemma SameReported(sorted: seq<Rule>, want: seq<Rule>, listed: map<Key, RuleId>, plain: set<Key>, skipped: set<Key>,
                     before: map<Key, RuleState>, after: map<Key, RuleState>)
    requires (forall w :: w in sorted <==> w in want) && Reported(sorted, listed, plain, skipped, before, after)
    ensures Reported(want, listed, plain, skipped, before, after)
  {
    SameWanted(sorted, want);
  }

  /** What was listed for the rule is in the chain. */
  ghost predicate ListingIsTrue(w: Rule, listed: map<Key, RuleId>, plain: set<Key>, chain: seq<ChainRule>) {
    && (w.Key() in listed && listed[w.Key()] == w.id ==> Tagged(w.Key(), w.id) in chain)
    && (w.Key() in plain ==> Plain(w.Key()) in chain)
  }

  /** What was listed and is wanted is still there after the stale rules are gone. */
  lemma ListingHolds(chain0: seq<ChainRule>, chain1: seq<ChainRule>, want: seq<Rule>, kept: set<Key>)
    requires DistinctRules(want) && Removed(want, chain0, chain1, StaleKeys(chain0, want), kept)
    ensures forall w :: w in want ==> ListingIsTrue(w, TaggedIn(chain0), UntaggedIn(chain0), chain1)
  {
    forall w | w in want ensures ListingIsTrue(w, TaggedIn(chain0), UntaggedIn(chain0), chain1) {
      var k := w.Key();
      WantedIdOf(want, w);
      TaggedInIsLast(chain0, k);
      RemovedAll(want, chain0, chain1, kept, k);
      TagsOfMembers(chain1, k, w.id);
      PlainIsOperators(chain0, k);
      PlainIsOperators(chain1, k);
    }
  }

  /** Both loops together are one pass. */
  lemma LoopsArePass(chain0: seq<ChainRule>, chain1: seq<ChainRule>, chain2: seq<ChainRule>, want: seq<Rule>,
                     kept: set<Key>, added: set<Key>, skipped: set<Key>)
    requires DistinctRules(want) && Removed(want, chain0, chain1, StaleKeys(chain0, want), kept)
    requires Grown(want, chain1, chain2, added)
    requires added == NeededKeys(want, TaggedIn(chain0), UntaggedIn(chain0)) - skipped
    ensures PassedWith(want, chain0, chain2, kept, skipped)
  {
    forall k
      ensures TagsOf(chain2, k) == Pass(TagsOf(chain0, k), Plain(k) in chain0, WantedId(want, k), k in kept, k in skipped)
    {
      NeededIsMissing(chain0, want, k);
      RemovedAll(want, chain0, chain1, kept, k);
      var cleaned := Cleaned(TagsOf(chain0, k), WantedId(want, k), k in kept);
      assert [] + cleaned == cleaned;
    }
  }

  /** The second loop after the first i rules. */
  ghost predicate Turns(sorted: seq<Rule>, i: nat, listed: map<Key, RuleId>, plain: set<Key>, rules: map<Key, RuleState>,
                        out: map<Key, RuleState>, was: seq<ChainRule>, chain: seq<ChainRule>, skipped: set<Key>)
    requires i <= |sorted|
  {
    && Handled(sorted[..i], rules, out, chain)
    && Reported(sorted[..i], listed, plain, skipped, rules, out)
    && Grown(sorted, was, chain, NeededKeys(sorted[..i], listed, plain) - skipped)
    && skipped <= NeededKeys(sorted[..i], listed, plain)
    && (skipped == {} && NoneFailed(rules) ==> NoneFailed(out))
  }

  /** One turn's change of the chain. */
  lemma GrownTurn(sorted: seq<Rule>, i: nat, listed: map<Key, RuleId>, plain: set<Key>, was: seq<ChainRule>,
                  before: seq<ChainRule>, skipped: set<Key>, chain: seq<ChainRule>, ok: bool)
    requires DistinctRules(sorted) && i < |sorted| && skipped <= NeededKeys(sorted[..i], listed, plain)
    requires Grown(sorted, was, before, NeededKeys(sorted[..i], listed, plain) - skipped)
    requires chain == if ok && !Listed(sorted[i], listed, plain) then [Tagged(sorted[i].Key(), sorted[i].id)] + before else before
    ensures
      var skipped' := if ok || Listed(sorted[i], listed, plain) then skipped else skipped + {sorted[i].Key()};
      && skipped' <= NeededKeys(sorted[..i + 1], listed, plain)
      && Grown(sorted, was, chain, NeededKeys(sorted[..i + 1], listed, plain) - skipped')
  {
    var key, needed, more := sorted[i].Key(), NeededKeys(sorted[..i], listed, plain), NeededKeys(sorted[..i + 1], listed, plain);
    NeededGrows(sorted, i, listed, plain);
    if Listed(sorted[i], listed, plain) {
      assert more == needed;
    } else if ok {
      GrownStep(sorted, was, before, needed - skipped, sorted[i]);
      assert more - skipped == needed - skipped + {key};
    } else {
      assert more - (skipped + {key}) == needed - skipped;
    }
  }

  lemma NotNeededYet(sorted: seq<Rule>, i: nat, listed: map<Key, RuleId>, plain: set<Key>)
    requires DistinctRules(sorted) && i < |sorted|
    ensures sorted[i].Key() !in NeededKeys(sorted[..i], listed, plain)
  {
    WantedGrows(sorted, i);
  }

  lemma TurnStep(sorted: seq<Rule>, i: nat, listed: map<Key, RuleId>, plain: set<Key>, rules: map<Key, RuleState>,
                 out: map<Key, RuleState>, was: seq<ChainRule>, before: seq<ChainRule>, skipped: set<Key>,
                 state: RuleState, chain: seq<ChainRule>, ok: bool)
    requires DistinctRules(sorted) && i < |sorted| && sorted[i].Key() in rules
    requires Turns(sorted, i, listed, plain, rules, out, was, before, skipped)
    requires chain == if ok && !Listed(sorted[i], listed, plain) then [Tagged(sorted[i].Key(), sorted[i].id)] + before else before
    requires Merges(out[sorted[i].Key()], state, Plain(sorted[i].Key()) in chain, Tagged(sorted[i].Key(), sorted[i].id) in chain)
    requires Reports(sorted[i], listed, plain, if ok then {} else {sorted[i].Key()}, out[sorted[i].Key()], state)
    requires (ok || Listed(sorted[i], listed, plain)) && out[sorted[i].Key()] != Failed ==> state != Failed
    ensures
      var key := sorted[i].Key();
      var skipped' := if ok || Listed(sorted[i], listed, plain) then skipped else skipped + {key};
      Turns(sorted, i + 1, listed, plain, rules, out[key := state], was, chain, skipped')
  {
    GrownTurn(sorted, i, listed, plain, was, before, skipped, chain, ok);
    HandledStep(sorted, i, rules, out, before, state, chain);
    var skipped' := if ok || Listed(sorted[i], listed, plain) then skipped else skipped + {sorted[i].Key()};
    NotNeededYet(sorted, i, listed, plain);
    ReportedStep(sorted, i, listed, plain, skipped, skipped', rules, out, state);
  }

  /** One of the two command-line tools and the chain it manages. */
  class Tool {
    const shell: Shell
    var chain: seq<ChainRule>
    /** The policy of the chain drops or rejects. */
    var drops: bool

    constructor (shell: Shell, chain: seq<ChainRule>, drops: bool)
      ensures this.shell == shell && this.chain == chain && this.drops == drops
    {
      this.shell, this.chain, this.drops := shell, chain, drops;
    }

    method Insert(key: Key, id: RuleId) returns (ok: bool)
      modifies this`chain, shell
      ensures shell.ran == old(shell.ran) + 1 && shell.changes == old(shell.changes) + 1 && ok == !shell.fails(old(shell.ran))
      ensures chain == if ok then [Tagged(key, id)] + old(chain) else old(chain)
    {
      ok := shell.Change(Allow(0, key, id));
      if ok { chain := [Tagged(key, id)] + chain; }
    }

    method Delete(key: Key, id: RuleId) returns (ok: bool)
      modifies this`chain, shell
      ensures shell.ran == old(shell.ran) + 1 && shell.changes == old(shell.changes) + 1 && ok == !shell.fails(old(shell.ran))
      ensures chain == if ok then DeleteFirst(old(chain), Tagged(key, id)) else old(chain)
    {
      ok := shell.Change(Revoke(0, key, id));
      if ok { chain := DeleteFirst(chain, Tagged(key, id)); }
    }

    /** Deletes the last tag of a key on which nothing has been done yet. */
    method RemoveOne(key: Key, id: RuleId, ghost want: seq<Rule>, ghost was: seq<ChainRule>, ghost issued: set<Key>, ghost kept: set<Key>)
      returns (ok: bool)
      requires Removed(want, was, chain, issued, kept) && key !in issued
      requires StaleTag(want, was, key, id)
      modifies this`chain, shell
      ensures shell.ran == old(shell.ran) + 1 && shell.changes == old(shell.changes) + 1 && ok == !shell.fails(old(shell.ran))
      ensures Removed(want, was, chain, issued + {key}, if ok then kept else kept + {key})
    {
      ok := Delete(key, id);
      RemovedStep(want, was, old(chain), issued, kept, key, id, ok, chain);
    }

    /** First loop for this tool, over the listed tags in any order. The ghost result holds
        the keys whose deletion failed. */
    method RemoveStale(want: seq<Rule>, wanted: map<Key, RuleId>) returns (ghost kept: set<Key>)
      requires Indexes(wanted, want)
      modifies this`chain, shell
      ensures Removed(want, old(chain), chain, StaleKeys(old(chain), want), kept)
      ensures shell.ran == old(shell.ran) + |StaleKeys(old(chain), want)|
      ensures shell.changes == old(shell.changes) + |StaleKeys(old(chain), want)|
      ensures shell.AllOk(old(shell.ran)) ==> kept == {}
      ensures shell.NoneOk(old(shell.ran)) ==> kept == StaleKeys(old(chain), want)
      ensures StaleKeys(old(chain), want) == {} ==> chain == old(chain)
    {
      var listed := TaggedIn(chain);
      forall key | key in listed ensures ToDelete(want, wanted, listed, StaleKeys(chain, want), chain, key) {
        StaleIsUnwanted(chain, want, wanted, key);
      }
      kept := RemoveListed(want, wanted, listed, StaleKeys(chain, want));
    }

    method RemoveListed(ghost want: seq<Rule>, wanted: map<Key, RuleId>, listed: map<Key, RuleId>, ghost stale: set<Key>) returns (ghost kept: set<Key>)
      requires stale <= listed.Keys && forall key :: key in listed ==> ToDelete(want, wanted, listed, stale, chain, key)
      modifies this`chain, shell
      ensures Removed(want, old(chain), chain, stale, kept)
      ensures shell.ran == old(shell.ran) + |stale| && shell.changes == old(shell.changes) + |stale|
      ensures shell.AllOk(old(shell.ran)) ==> kept == {}
      ensures shell.NoneOk(old(shell.ran)) ==> kept == stale
      ensures stale == {} ==> chain == old(chain)
    {
      var todo := listed.Keys;
      ghost var was, ran0, changes0 := chain, shell.ran, shell.changes;
      ghost var issued: set<Key> := {};
      kept := {};
      while todo != {}
        invariant todo <= listed.Keys && forall k :: k in issued <==> k in stale && k !in todo
        invariant Removed(want, was, chain, issued, kept)
        invariant shell.ran == ran0 + |issued| && shell.changes == changes0 + |issued|
        invariant shell.AllOk(ran0) ==> kept == {}
        invariant shell.NoneOk(ran0) ==> kept == issued
        invariant issued == {} ==> chain == was
        decreases todo
      {
        var key :| key in todo;
        todo := todo - {key};
        assert ToDelete(want, wanted, listed, stale, was, key);
        if !(key in wanted && wanted[key] == listed[key]) {
          var ok := RemoveOne(key, listed[key], want, was, issued, kept);
          issued := issued + {key};
          if !ok { kept := kept + {key}; }
        }
      }
      assert issued == stale;
    }

    /** The case split of the second loop for one wanted rule; ok is false when the rule
        could not be inserted. */
    method Ensure(w: Rule, cur: RuleState, listed: map<Key, RuleId>, plain: set<Key>) returns (state: RuleState, ghost ok: bool)
      requires ListingIsTrue(w, listed, plain, chain)
      modifies this`chain, shell
      ensures Listed(w, listed, plain) ==> shell.ran == old(shell.ran) && shell.changes == old(shell.changes) && ok
      ensures !Listed(w, listed, plain) ==>
                shell.ran == old(shell.ran) + 1 && shell.changes == old(shell.changes) + 1 && ok == !shell.fails(old(shell.ran))
      ensures chain == if ok && !Listed(w, listed, plain) then [Tagged(w.Key(), w.id)] + old(chain) else old(chain)
      ensures Merges(cur, state, Plain(w.Key()) in chain, Tagged(w.Key(), w.id) in chain)
      ensures Reports(w, listed, plain, if ok then {} else {w.Key()}, cur, state)
      ensures ok && cur != Failed ==> state != Failed
    {
      var key := w.Key();
      ok := true;
      if key in listed && listed[key] == w.id {
        state := if cur == Existing then Open else cur;
      } else if key in plain {
        state := cur;
      } else {
        var inserted := Insert(key, w.id);
        ok := inserted;
        state := if !inserted then Failed else if cur != Failed then Open else cur;
      }
    }

    /** Second loop for this tool. The ghost result holds the keys whose insertion failed. */
    method AddMissing(want: seq<Rule>, rules: map<Key, RuleState>, listed: map<Key, RuleId>, plain: set<Key>)
      returns (out: map<Key, RuleState>, ghost skipped: set<Key>)
      requires DistinctRules(want) && ReportsOn(rules, want)
      requires forall w :: w in want ==> ListingIsTrue(w, listed, plain, chain)
      modifies this`chain, shell
      ensures Handled(want, rules, out, chain) && skipped <= NeededKeys(want, listed, plain)
      ensures Reported(want, listed, plain, skipped, rules, out)
      ensures Grown(want, old(chain), chain, NeededKeys(want, listed, plain) - skipped)
      ensures shell.ran == old(shell.ran) + |NeededKeys(want, listed, plain)|
      ensures shell.changes == old(shell.changes) + |NeededKeys(want, listed, plain)|
      ensures shell.AllOk(old(shell.ran)) ==> skipped == {}
      ensures skipped == {} && NoneFailed(rules) ==> NoneFailed(out)
      ensures NeededKeys(want, listed, plain) == {} ==> chain == old(chain)
    {
      var sorted := SortedRules(want);
      SortedRulesAreTheSame(want);
      out, skipped := AddInOrder(sorted, rules, listed, plain);
      assert sorted[..|sorted|] == sorted;
      SameMembers(sorted, want, rules, out, chain);
      SameReported(sorted, want, listed, plain, skipped, rules, out);
      SameWantedIds(sorted, want);
      assert NeededKeys(sorted, listed, plain) == NeededKeys(want, listed, plain);
    }

    /** One turn of the loop. */
    method AddOne(sorted: seq<Rule>, i: nat, rules: map<Key, RuleState>, listed: map<Key, RuleId>, plain: set<Key>,
                  before: map<Key, RuleState>, ghost was: seq<ChainRule>, ghost skipped0: set<Key>)
      returns (out: map<Key, RuleState>, ghost skipped: set<Key>)
      requires DistinctRules(sorted) && i < |sorted| && sorted[i].Key() in rules
      requires Turns(sorted, i, listed, plain, rules, before, was, chain, skipped0) && ListingIsTrue(sorted[i], listed, plain, was)
      modifies this`chain, shell
      ensures Turns(sorted, i + 1, listed, plain, rules, out, was, chain, skipped)
      ensures Listed(sorted[i], listed, plain) ==>
                shell.ran == old(shell.ran) && shell.changes == old(shell.changes) && chain == old(chain) && skipped == skipped0
      ensures !Listed(sorted[i], listed, plain) ==> shell.ran == old(shell.ran) + 1 && shell.changes == old(shell.changes) + 1
      ensures shell.AllOk(old(shell.ran)) ==> skipped == skipped0
    {
      var w := sorted[i];
      var state;
      ghost var ok;
      state, ok := Ensure(w, before[w.Key()], listed, plain);
      TurnStep(sorted, i, listed, plain, rules, before, was, old(chain), skipped0, state, chain, ok);
      out := before[w.Key() := state];
      skipped := if ok then skipped0 else skipped0 + {w.Key()};
    }

    method AddInOrder(sorted: seq<Rule>, rules: map<Key, RuleState>, listed: map<Key, RuleId>, plain: set<Key>)
      returns (out: map<Key, RuleState>, ghost skipped: set<Key>)
      requires DistinctRules(sorted) && forall w :: w in sorted ==> w.Key() in rules
      requires forall w :: w in sorted ==> ListingIsTrue(w, listed, plain, chain)
      modifies this`chain, shell
      ensures Turns(sorted, |sorted|, listed, plain, rules, out, old(chain), chain, skipped)
      ensures shell.ran == old(shell.ran) + |NeededKeys(sorted, listed, plain)|
      ensures shell.changes == old(shell.changes) + |NeededKeys(sorted, listed, plain)|
      ensures shell.AllOk(old(shell.ran)) ==> skipped == {}
      ensures NeededKeys(sorted, listed, plain) == {} ==> chain == old(chain)
    {
      out, skipped := rules, {};
      ghost var was, ran0, changes0 := chain, shell.ran, shell.changes;
      ghost var done: set<Key> := {};
      var i := 0;
      while i < |sorted|
        invariant i <= |sorted| && Turns(sorted, i, listed, plain, rules, out, was, chain, skipped)
        invariant done == NeededKeys(sorted[..i], listed, plain)
        invariant shell.ran == ran0 + |done| && shell.changes == changes0 + |done|
        invariant shell.AllOk(ran0) ==> skipped == {}
        invariant done == {} ==> chain == was
      {
        assert sorted[i] in sorted;
        out, skipped := AddOne(sorted, i, rules, listed, plain, out, was, skipped);
        NeededGrows(sorted, i, listed, plain);
        done := done + if Listed(sorted[i], listed, plain) then {} else {sorted[i].Key()};
        i := i + 1;
      }
      assert sorted[..i] == sorted;
    }

    /** Both loops for this tool, once its chain is listed. The ghost results hold the keys
        whose deletion and insertion failed, and the commands run by the end of the first
        loop. */
    method SyncChain(want: seq<Rule>, wanted: map<Key, RuleId>, rules: map<Key, RuleState>)
      returns (out: map<Key, RuleState>, ghost kept: set<Key>, ghost skipped: set<Key>, ghost middle: nat)
      requires DistinctRules(want) && Indexes(wanted, want) && ReportsOn(rules, want)
      modifies this`chain, shell
      ensures old(shell.ran) <= middle <= shell.ran && shell.changes >= old(shell.changes)
      ensures PassedWith(want, old(chain), chain, kept, skipped) && Handled(want, rules, out, chain)
      ensures Reported(want, TaggedIn(old(chain)), UntaggedIn(old(chain)), skipped, rules, out)
      ensures skipped == {} && NoneFailed(rules) ==> NoneFailed(out)
      ensures shell.AllOk(old(shell.ran)) ==> kept == {} && skipped == {}
      ensures shell.AllOk(middle) ==> skipped == {}
      ensures middle == old(shell.ran) + |StaleKeys(old(chain), want)|
      ensures (forall i :: old(shell.ran) <= i < middle ==> shell.fails(i)) ==> kept == StaleKeys(old(chain), want)
      ensures Quiet(old(chain), want) ==> chain == old(chain)
      ensures shell.changes == old(shell.changes) <==> Quiet(old(chain), want)
    {
      ghost var chain0 := chain;
      var listed, plain := TaggedIn(chain), UntaggedIn(chain);
      kept := RemoveStale(want, wanted);
      middle := shell.ran;
      ghost var chain1 := chain;
      ListingHolds(chain0, chain1, want, kept);
      out, skipped := AddMissing(want, rules, listed, plain);
      LoopsArePass(chain0, chain1, chain, want, kept, NeededKeys(want, listed, plain) - skipped, skipped);
      QuietIsIdle(chain0, want);
    }
  }

  /** The keys whose deletion and whose insertion failed in one chain. */
  datatype Fate = Fate(kept: set<Key>, skipped: set<Key>)

  /** What the loop over the tools knows: the report so far, which listings worked, what failed
      for the tools inspected, whether the firewall counts as active, and whether no command failed or changed
      anything at all. */
  datatype Tour = Tour(rules: map<Key, RuleState>, answers: seq<bool>, inspected: set<nat>, fates: map<nat, Fate>,
                       active: bool, ok: bool, idle: bool) {
    /** One more tool is done. */
    function Then(t: nat, after: map<Key, RuleState>, fate: Fate, active': bool, ok': bool, idle': bool): Tour {
      Tour(after, answers + [true], inspected + {t}, fates[t := fate], active', ok', idle')
    }
  }

  datatype Point = Point(ran: nat, changes: nat, listings: seq<bool>)

  /** Before any tool has been visited. */
  function FirstTour(rules: map<Key, RuleState>): Tour { Tour(rules, [], {}, map[], false, true, true) }

  /** What both loops do to the chain and the report of one tool. */
  ghost predicate Turned(want: seq<Rule>, was: seq<ChainRule>, chain: seq<ChainRule>, before: map<Key, RuleState>,
                         after: map<Key, RuleState>, fate: Fate) {
    match fate
    case Fate(kept, skipped) =>
      && Operators(chain) == Operators(was) && Handled(want, before, after, chain)
      && PassedWith(want, was, chain, kept, skipped)
      && Reported(want, TaggedIn(was), UntaggedIn(was), skipped, before, after)
      && (Quiet(was, want) ==> chain == was)
  }

  // ----- both tools ------------------------------------------------------------------------

  class Iptables {
    const shell: Shell
    /** iptables first, then ip6tables when it is installed. */
    const tools: seq<Tool>
    /** The listings asked for so far, and which of them worked. */
    ghost var listings: seq<bool>

    constructor (shell: Shell, tools: seq<Tool>)
      ensures this.shell == shell && this.tools == tools && listings == []
    {
      this.shell, this.tools, this.listings := shell, tools, [];
    }

    ghost predicate Valid() {
      && |tools| >= 1
      && (forall i :: 0 <= i < |tools| ==> tools[i].shell == shell)
      && (forall i, j :: 0 <= i < j < |tools| ==> tools[i] != tools[j])
    }

    /** Every rule starts as existing and is downgraded when something is added. */
    method AllExisting(want: seq<Rule>) returns (rules: map<Key, RuleState>)
      ensures ReportsOn(rules, want) && forall key :: key in rules ==> rules[key] == Existing
    {
      rules := map[];
      var i := 0;
      while i < |want|
        invariant i <= |want|
        invariant forall k :: 0 <= k < i ==> want[k].Key() in rules
        invariant forall key :: key in rules ==> rules[key] == Existing && IsWanted(want, key)
      {
        assert want[i] in want;
        rules := rules[want[i].Key() := Existing];
        i := i + 1;
      }
    }

    ghost function Chains(): seq<seq<ChainRule>>
      reads set i | 0 <= i < |tools| :: tools[i]
    {
      seq(|tools|, i requires 0 <= i < |tools| reads (if 0 <= i < |tools| then {tools[i]} else {}) => tools[i].chain)
    }

    ghost function Drops(): seq<bool>
      reads set i | 0 <= i < |tools| :: tools[i]
    {
      seq(|tools|, i requires 0 <= i < |tools| reads (if 0 <= i < |tools| then {tools[i]} else {}) => tools[i].drops)
    }

    /** "iptables -S INPUT", or the same of ip6tables */
    method List() returns (ok: bool)
      modifies shell, this`listings
      ensures shell.ran == old(shell.ran) + 1 && shell.changes == old(shell.changes) && ok == !shell.fails(old(shell.ran))
      ensures listings == old(listings) + [ok]
    {
      ok := shell.Query();
      listings := listings + [ok];
    }

    /** Both loops for one tool; the other tools are not touched. */
    method SyncToolAt(t: nat, want: seq<Rule>, wanted: map<Key, RuleId>, rules: map<Key, RuleState>)
      returns (out: map<Key, RuleState>, ghost fate: Fate)
      requires Valid() && t < |tools| && DistinctRules(want) && Indexes(wanted, want) && ReportsOn(rules, want)
      modifies shell, set i | 0 <= i < |tools| :: tools[i]`chain
      ensures shell.ran >= old(shell.ran) && shell.changes >= old(shell.changes)
      ensures Chains() == old(Chains())[t := Chains()[t]] && Drops() == old(Drops())
      ensures Turned(want, old(Chains()[t]), Chains()[t], rules, out, fate)
      ensures shell.AllOk(old(shell.ran)) ==> Passed(want, old(Chains()[t]), Chains()[t]) && (NoneFailed(rules) ==> NoneFailed(out))
      ensures shell.changes == old(shell.changes) <==> Quiet(old(Chains()[t]), want)
    {
      ghost var kept, skipped, middle;
      out, kept, skipped, middle := tools[t].SyncChain(want, wanted, rules);
      fate := Fate(kept, skipped);
    }

    /** Commands run so far, those that were to change something, and the listings. */
    ghost function Now(): Point
      reads this, shell
    {
      Point(shell.ran, shell.changes, listings)
    }

    /** The tour has this report, and its commands and listings are those since the given point. */
    ghost predicate Fits(tour: Tour, rules: map<Key, RuleState>, active: bool, since: Point)
      reads this, shell
    {
      && tour.rules == rules && tour.active == active
      && since.ran <= shell.ran && since.changes <= shell.changes && listings == since.listings + tour.answers
      && tour.ok == shell.AllOk(since.ran) && tour.idle == (shell.changes == since.changes)
    }

    /** One turn of the loop over the tools; stop means that iptables itself cannot list. */
    method Visit(t: nat, want: seq<Rule>, wanted: map<Key, RuleId>, rules: map<Key, RuleState>, active0: bool,
                 ghost was: seq<seq<ChainRule>>, ghost tour0: Tour, ghost since: Point)
      returns (stop: bool, out: map<Key, RuleState>, active: bool, ghost tour: Tour)
      requires Valid() && t < |tools| && DistinctRules(want) && Indexes(wanted, want)
      requires Fits(tour0, rules, active0, since)
      requires tour0 in Tours(want, was, Chains(), Drops(), t)
      modifies shell, this`listings, set i | 0 <= i < |tools| :: tools[i]`chain
      ensures shell.ran > old(shell.ran) && Drops() == old(Drops())
      ensures stop <==> t == 0 && shell.fails(old(shell.ran))
      ensures stop ==> Chains() == was && shell.changes == since.changes && !shell.AllOk(since.ran)
      ensures !stop ==> Fits(tour, out, active, since) && tour in Tours(want, was, Chains(), Drops(), t + 1)
    {
      ghost var now := Chains();
      var listed := List();
      assert Chains() == now && Drops() == old(Drops());
      if !listed {
        if t == 0 { NothingDone(want, was, now, Drops(), tour0); } else { TouredSkips(want, was, now, Drops(), t, tour0); }
        return t == 0, rules, active0, tour0.(answers := tour0.answers + [false], ok := false);
      }
      stop := false;
      active := active0 || tools[t].drops || |tools[t].chain| > 0;
      ghost var fate;
      out, fate := SyncToolAt(t, want, wanted, rules);
      tour := tour0.Then(t, out, fate, active, shell.AllOk(since.ran), shell.changes == since.changes);
      TouredStep(want, was, now, Drops(), t, tour0, out, Chains()[t], fate, shell.AllOk(since.ran), shell.changes == since.changes);
    }

    /** The second result says which tools could be listed, and which commands failed there. */
    method Sync(want: seq<Rule>) returns (r: Option<Report>, ghost tour: Tour)
      requires Valid() && DistinctRules(want)
      modifies shell, this`listings, set i | 0 <= i < |tools| :: tools[i]`chain
      ensures shell.ran >= old(shell.ran) && shell.changes >= old(shell.changes)
      // there is no report exactly when iptables itself cannot be listed
      ensures r.None? <==> shell.fails(old(shell.ran))
      ensures r.None? ==> Chains() == old(Chains()) && shell.changes == old(shell.changes)
      // whatever fails: each tool is listed once, and inspected exactly when that works;
      // operator rules keep their place and order; the report is true of every inspected
      // chain, the firewall counts as active when such a chain drops or has rules, and a
      // change is made exactly when such a chain leaves something to do; chains and report
      // follow, key by key, from which commands failed
      ensures r.Some? ==> Fits(tour, r.value.rules, r.value.active, old(Now())) && tour in Tours(want, old(Chains()), Chains(), Drops(), |tools|)
      ensures Drops() == old(Drops())
      // without failures each chain has made one pass, meets the specification exactly when
      // it had at most one tag on each unwanted key, and had a command exactly when it was
      // not quiet
      ensures shell.AllOk(old(shell.ran)) ==>
                r.Some? && SyncTold(want, old(Chains()), Chains(), shell.changes == old(shell.changes))
    {
      var wanted, rules := Begin(want);
      NothingToured(want, Chains(), Drops(), rules);
      ghost var was, ran0 := Chains(), shell.ran;
      r, tour := VisitAll(want, wanted, rules);
      if r.Some? && shell.AllOk(ran0) { TouredTells(want, was, Chains(), Drops(), tour); }
    }

    /** The index of the wanted rules, and the report before any tool is visited. */
    method Begin(want: seq<Rule>) returns (wanted: map<Key, RuleId>, rules: map<Key, RuleState>)
      requires DistinctRules(want)
      ensures Indexes(wanted, want) && ReportsOn(rules, want) && forall key :: key in rules ==> rules[key] == Existing
    {
      wanted := IndexWanted(want);
      IndexIsWanted(wanted, want);
      rules := AllExisting(want);
    }

    /** The loop over the tools. */
    method VisitAll(want: seq<Rule>, wanted: map<Key, RuleId>, rules0: map<Key, RuleState>) returns (r: Option<Report>, ghost tour: Tour)
      requires Valid() && DistinctRules(want) && Indexes(wanted, want)
      requires FirstTour(rules0) in Tours(want, Chains(), Chains(), Drops(), 0)
      modifies shell, this`listings, set i | 0 <= i < |tools| :: tools[i]`chain
      ensures shell.ran >= old(shell.ran) && shell.changes >= old(shell.changes) && Drops() == old(Drops())
      ensures r.None? <==> shell.fails(old(shell.ran))
      ensures r.None? ==> Chains() == old(Chains()) && shell.changes == old(shell.changes) && !shell.AllOk(old(shell.ran))
      ensures r.Some? ==> Fits(tour, r.value.rules, r.value.active, old(Now())) && tour in Tours(want, old(Chains()), Chains(), Drops(), |tools|)
    {
      var rules, active := rules0, false;
      tour := FirstTour(rules0);
      ghost var was, since := Chains(), Now();
      var t := 0;
      while t < |tools|
        invariant t <= |tools| && Drops() == old(Drops())
        invariant if t == 0 then shell.ran == since.ran else !shell.fails(since.ran)
        invariant Fits(tour, rules, active, since) && tour in Tours(want, was, Chains(), Drops(), t)
      {
        var stop;
        stop, rules, active, tour := Visit(t, want, wanted, rules, active, was, tour, since);
        if stop { return None, tour; }
        t := t + 1;
      }
      return Some(Report(active, rules)), tour;
    }
  }

  /** Nothing is left to do on the chains of these tools. */
  ghost predicate QuietAmong(chains: seq<seq<ChainRule>>, want: seq<Rule>, inspected: set<nat>) {
    forall i :: 0 <= i < |chains| && i in inspected ==> Quiet(chains[i], want)
  }

  ghost predicate AllQuiet(chains: seq<seq<ChainRule>>, want: seq<Rule>) {
    forall i :: 0 <= i < |chains| ==> Quiet(chains[i], want)
  }

  /** What one sync without failures achieves. */
  ghost predicate SyncTold(want: seq<Rule>, was: seq<seq<ChainRule>>, now: seq<seq<ChainRule>>, idle: bool) {
    AllPassed(want, was, now) && RepeatsTold(want, was, now, 1) && (idle <==> AllQuiet(was, want))
  }

  lemma TouredTells(want: seq<Rule>, was: seq<seq<ChainRule>>, now: seq<seq<ChainRule>>, drops: seq<bool>, tour: Tour)
    requires DistinctRules(want) && tour in Tours(want, was, now, drops, |was|) && tour.ok
    ensures SyncTold(want, was, now, tour.idle)
  {
    PassesConverge(want, was, now);
  }

  lemma QuietAmongStep(chains: seq<seq<ChainRule>>, want: seq<Rule>, inspected: set<nat>, t: nat)
    requires t < |chains|
    ensures QuietAmong(chains, want, inspected + {t}) <==> QuietAmong(chains, want, inspected) && Quiet(chains[t], want)
  {
    if QuietAmong(chains, want, inspected + {t}) {
      assert t in inspected + {t};
      forall i | 0 <= i < |chains| && i in inspected ensures Quiet(chains[i], want) {
        assert i in inspected + {t};
      }
    }
  }

  ghost predicate AllPassed(want: seq<Rule>, was: seq<seq<ChainRule>>, now: seq<seq<ChainRule>>) {
    |was| == |now| && forall i :: 0 <= i < |was| ==> Passed(want, was[i], now[i])
  }

  lemma PassesConverge(want: seq<Rule>, was: seq<seq<ChainRule>>, now: seq<seq<ChainRule>>)
    requires DistinctRules(want) && AllPassed(want, was, now)
    ensures RepeatsTold(want, was, now, 1)
  {
    NoPassYet(want, was);
    AllPassOneMore(want, was, was, now, 0);
    AfterRepeats(want, was, now, 1);
  }

  /** The listed tag of the rule's key is the wanted one. */
  ghost predicate TaggedRight(chain: seq<ChainRule>, w: Rule) {
    w.Key() in TaggedIn(chain) && TaggedIn(chain)[w.Key()] == w.id
  }

  /** A rule that was to be inserted in one of the chains and could not be is failed; one that
      the operator allows in every inspected chain, without a right tag of ours, is existing;
      any other one is open. */
  ghost predicate ReportIs(w: Rule, was: seq<seq<ChainRule>>, fates: map<nat, Fate>, state: RuleState)
    requires forall i :: i in fates ==> i < |was|
  {
    && (state == Failed <==> exists i :: i in fates && !Listed(w, TaggedIn(was[i]), UntaggedIn(was[i])) && w.Key() in fates[i].skipped)
    && (state == Existing <==> forall i :: i in fates ==> !TaggedRight(was[i], w) && w.Key() in UntaggedIn(was[i]))
  }

  /** Each inspected chain has made the pass that the failures leave of it, and the report is
      accordingly. */
  ghost predicate Accounted(want: seq<Rule>, was: seq<seq<ChainRule>>, now: seq<seq<ChainRule>>, t: nat, tour: Tour) {
    match tour
    case Tour(rules, _, inspected, fates, _, _, _) =>
      && t <= |was| == |now| && fates.Keys == inspected && (forall i :: i in fates ==> i < t)
      && (forall i :: i in fates ==> PassedWith(want, was[i], now[i], fates[i].kept, fates[i].skipped))
      && (forall w :: w in want ==> w.Key() in rules && ReportIs(w, was, fates, rules[w.Key()]))
  }

  lemma ReportIsStep(w: Rule, was: seq<seq<ChainRule>>, fates: map<nat, Fate>, t: nat, fate: Fate,
                     cur: RuleState, after: RuleState)
    requires t < |was| && t !in fates && (forall i :: i in fates ==> i < t) && ReportIs(w, was, fates, cur)
    requires Reports(w, TaggedIn(was[t]), UntaggedIn(was[t]), fate.skipped, cur, after)
    ensures ReportIs(w, was, fates[t := fate], after)
  {
    var more := fates[t := fate];
    assert forall i :: i in more <==> i in fates || i == t;
    assert forall i :: i in fates ==> more[i] == fates[i];
    if cur == Failed {
      var i :| i in fates && !Listed(w, TaggedIn(was[i]), UntaggedIn(was[i])) && w.Key() in fates[i].skipped;
      assert i in more;
    }
    assert t in more;
  }

  lemma AccountedStep(want: seq<Rule>, was: seq<seq<ChainRule>>, now: seq<seq<ChainRule>>, t: nat, tour: Tour,
                      after: map<Key, RuleState>, chain: seq<ChainRule>, fate: Fate, active: bool, ok: bool, idle: bool)
    requires t < |was| && Accounted(want, was, now, t, tour) && now[t] == was[t]
    requires Turned(want, now[t], chain, tour.rules, after, fate)
    ensures Accounted(want, was, now[t := chain], t + 1, tour.Then(t, after, fate, active, ok, idle))
  {
    forall w | w in want ensures w.Key() in after && ReportIs(w, was, tour.fates[t := fate], after[w.Key()]) {
      ReportIsStep(w, was, tour.fates, t, fate, tour.rules[w.Key()], after[w.Key()]);
    }
  }

  /** The first t tools are done. */
  ghost predicate Progress(want: seq<Rule>, was: seq<seq<ChainRule>>, now: seq<seq<ChainRule>>, t: nat,
                           rules: map<Key, RuleState>, inspected: set<nat>, ok: bool)
  {
    && t <= |was| == |now|
    && (forall i :: 0 <= i < |was| ==> Operators(now[i]) == Operators(was[i]))
    && (forall i :: t <= i < |was| ==> now[i] == was[i])
    && ReportsOn(rules, want)
    && (forall i :: i in inspected ==> i < t && Truthful(rules, want, PlaceOf(now[i])))
    && (ok ==> NoneFailed(rules))
    && (ok ==> forall i :: 0 <= i < t ==> i in inspected && Passed(want, was[i], now[i]))
    && (forall i :: 0 <= i < |was| && Quiet(was[i], want) ==> now[i] == was[i])
  }

  /** Some inspected chain drops by policy or has rules. */
  ghost predicate FilteringBelow(drops: seq<bool>, was: seq<seq<ChainRule>>, inspected: set<nat>, t: nat)
    requires t <= |drops| && t <= |was|
  {
    exists i :: 0 <= i < t && i in inspected && (drops[i] || was[i] != [])
  }

  lemma FilteringStep(drops: seq<bool>, was: seq<seq<ChainRule>>, before: set<nat>, after: set<nat>, t: nat)
    requires t < |drops| && t < |was| && forall i :: i != t ==> (i in before <==> i in after)
    ensures FilteringBelow(drops, was, after, t + 1) <==>
            FilteringBelow(drops, was, before, t) || (t in after && (drops[t] || was[t] != []))
  {
  }

  /** Progress, with what is known of the firewall's activity and of the commands issued. */
  ghost predicate Visited(want: seq<Rule>, was: seq<seq<ChainRule>>, now: seq<seq<ChainRule>>, drops: seq<bool>, t: nat, tour: Tour) {
    match tour
    case Tour(rules, answers, inspected, _, active, ok, idle) =>
      && Progress(want, was, now, t, rules, inspected, ok) && |drops| == |was|
      && |answers| == t && (forall i :: 0 <= i < t ==> (answers[i] <==> i in inspected))
      && (active <==> FilteringBelow(drops, was, inspected, t))
      && (idle <==> QuietAmong(was, want, inspected))
  }

  lemma VisitedSkips(want: seq<Rule>, was: seq<seq<ChainRule>>, now: seq<seq<ChainRule>>, drops: seq<bool>, t: nat, tour: Tour)
    requires t < |was| && Visited(want, was, now, drops, t, tour)
    ensures Visited(want, was, now, drops, t + 1, tour.(answers := tour.answers + [false], ok := false))
  {
    ProgressSkips(want, was, now, t, tour.rules, tour.inspected, tour.ok);
    FilteringStep(drops, was, tour.inspected, tour.inspected, t);
  }

  lemma VisitedStep(want: seq<Rule>, was: seq<seq<ChainRule>>, now: seq<seq<ChainRule>>, drops: seq<bool>, t: nat, tour: Tour,
                    after: map<Key, RuleState>, chain: seq<ChainRule>, fate: Fate, ok: bool, idle: bool)
    requires t < |was| && Visited(want, was, now, drops, t, tour) && (ok ==> tour.ok)
    requires Turned(want, now[t], chain, tour.rules, after, fate)
    requires ok ==> Passed(want, now[t], chain) && (NoneFailed(tour.rules) ==> NoneFailed(after))
    requires idle <==> tour.idle && Quiet(now[t], want)
    ensures Visited(want, was, now[t := chain], drops, t + 1,
                    tour.Then(t, after, fate, tour.active || drops[t] || was[t] != [], ok, idle))
  {
    ProgressStep(want, was, now, t, tour.rules, tour.inspected, tour.ok, after, chain, ok);
    FilteringStep(drops, was, tour.inspected, tour.inspected + {t}, t);
    QuietAmongStep(was, want, tour.inspected, t);
  }

  /** What may be known once the first t tools have been visited. */
  ghost function Tours(want: seq<Rule>, was: seq<seq<ChainRule>>, now: seq<seq<ChainRule>>, drops: seq<bool>, t: nat): iset<Tour> {
    iset tour | Visited(want, was, now, drops, t, tour) && Accounted(want, was, now, t, tour)
  }

  lemma NothingToured(want: seq<Rule>, was: seq<seq<ChainRule>>, drops: seq<bool>, rules: map<Key, RuleState>)
    requires |drops| == |was| && ReportsOn(rules, want) && forall key :: key in rules ==> rules[key] == Existing
    ensures FirstTour(rules) in Tours(want, was, was, drops, 0)
  {
  }

  lemma NothingDone(want: seq<Rule>, was: seq<seq<ChainRule>>, now: seq<seq<ChainRule>>, drops: seq<bool>, tour: Tour)
    requires tour in Tours(want, was, now, drops, 0)
    ensures now == was && tour.idle
  {
  }

  lemma TouredSkips(want: seq<Rule>, was: seq<seq<ChainRule>>, now: seq<seq<ChainRule>>, drops: seq<bool>, t: nat, tour: Tour)
    requires t < |was| && tour in Tours(want, was, now, drops, t)
    ensures tour.(answers := tour.answers + [false], ok := false) in Tours(want, was, now, drops, t + 1)
  {
    VisitedSkips(want, was, now, drops, t, tour);
  }

  lemma TouredStep(want: seq<Rule>, was: seq<seq<ChainRule>>, now: seq<seq<ChainRule>>, drops: seq<bool>, t: nat, tour: Tour,
                   after: map<Key, RuleState>, chain: seq<ChainRule>, fate: Fate, ok: bool, idle: bool)
    requires t < |was| && tour in Tours(want, was, now, drops, t) && (ok ==> tour.ok)
    requires Turned(want, now[t], chain, tour.rules, after, fate)
    requires ok ==> Passed(want, now[t], chain) && (NoneFailed(tour.rules) ==> NoneFailed(after))
    requires idle <==> tour.idle && Quiet(now[t], want)
    ensures tour.Then(t, after, fate, tour.active || drops[t] || was[t] != [], ok, idle)
            in Tours(want, was, now[t := chain], drops, t + 1)
  {
    assert now[t] == was[t];
    VisitedStep(want, was, now, drops, t, tour, after, chain, fate, ok, idle);
    AccountedStep(want, was, now, t, tour, after, chain, fate, tour.active || drops[t] || was[t] != [], ok, idle);
  }

  lemma ProgressSkips(want: seq<Rule>, was: seq<seq<ChainRule>>, now: seq<seq<ChainRule>>, t: nat,
                      rules: map<Key, RuleState>, inspected: set<nat>, ok: bool)
    requires t < |was| && Progress(want, was, now, t, rules, inspected, ok)
    ensures Progress(want, was, now, t + 1, rules, inspected, false)
  {
  }

  lemma ProgressStep(want: seq<Rule>, was: seq<seq<ChainRule>>, now: seq<seq<ChainRule>>, t: nat,
                     before: map<Key, RuleState>, inspected: set<nat>, ok: bool,
                     after: map<Key, RuleState>, chain: seq<ChainRule>, ok': bool)
    requires t < |was| && Progress(want, was, now, t, before, inspected, ok) && (ok' ==> ok)
    requires Operators(chain) == Operators(now[t]) && Handled(want, before, after, chain)
    requires ok' ==> Passed(want, now[t], chain) && (NoneFailed(before) ==> NoneFailed(after))
    requires Quiet(now[t], want) ==> chain == now[t]
    ensures Progress(want, was, now[t := chain], t + 1, after, inspected + {t}, ok')
  {
    MergedReport(want, before, after, chain);
    var now' := now[t := chain];
    forall i | i in inspected + {t} ensures i < t + 1 && Truthful(after, want, PlaceOf(now'[i])) {
      if i != t {
        assert Truthful(before, want, PlaceOf(now[i]));
      }
    }
  }

  /** A merged report is true of the new chain, and no less true of any other place. */
  lemma MergedReport(want: seq<Rule>, before: map<Key, RuleState>, after: map<Key, RuleState>, chain: seq<ChainRule>)
    requires ReportsOn(before, want) && Handled(want, before, after, chain)
    ensures ReportsOn(after, want) && Truthful(after, want, PlaceOf(chain))
    ensures forall p: Place :: Truthful(before, want, p) ==> Truthful(after, want, p)
  {
    forall w | w in want
      ensures after[w.Key()] != Failed ==> Covers(PlaceOf(chain), w) && before[w.Key()] != Failed
      ensures after[w.Key()] == Existing ==> w.Key() in PlaceOf(chain).operator && before[w.Key()] == Existing
    {
      CoversByTags(chain, w);
      TagsOfMembers(chain, w.Key(), w.id);
    }
  }

  // ----- syncs in a row --------------------------------------------------------------------------

  ghost predicate AllPassedTimes(want: seq<Rule>, was: seq<seq<ChainRule>>, now: seq<seq<ChainRule>>, n: nat) {
    |was| == |now| && forall i :: 0 <= i < |was| ==> PassedTimes(want, was[i], now[i], n)
  }

  lemma AllPassOneMore(want: seq<Rule>, was: seq<seq<ChainRule>>, mid: seq<seq<ChainRule>>, now: seq<seq<ChainRule>>, n: nat)
    requires AllPassedTimes(want, was, mid, n) && AllPassed(want, mid, now)
    ensures AllPassedTimes(want, was, now, n + 1)
  {
    forall i | 0 <= i < |was| ensures PassedTimes(want, was[i], now[i], n + 1) {
      OnePassMore(want, was[i], mid[i], now[i], n);
    }
  }

  lemma NoPassYet(want: seq<Rule>, was: seq<seq<ChainRule>>)
    ensures AllPassedTimes(want, was, was, 0)
  {
  }

  /** The chains of all tools before and after each of several syncs. */
  ghost predicate PassAfterPass(want: seq<Rule>, states: seq<seq<seq<ChainRule>>>) {
    forall j :: 0 <= j < |states| - 1 ==> AllPassed(want, states[j], states[j + 1])
  }

  lemma PassAppended(want: seq<Rule>, states: seq<seq<seq<ChainRule>>>, now: seq<seq<ChainRule>>)
    requires states != [] && PassAfterPass(want, states) && AllPassed(want, states[|states| - 1], now)
    ensures PassAfterPass(want, states + [now])
  {
    var more := states + [now];
    forall j | 0 <= j < |more| - 1 ensures AllPassed(want, more[j], more[j + 1]) {
      if j < |states| - 1 {
        assert AllPassed(want, states[j], states[j + 1]);
      }
    }
  }

  lemma {:induction false} PassesAddUp(want: seq<Rule>, states: seq<seq<seq<ChainRule>>>, j: nat)
    requires PassAfterPass(want, states) && j < |states|
    ensures AllPassedTimes(want, states[0], states[j], j)
  {
    if j == 0 {
      NoPassYet(want, states[0]);
    } else {
      PassesAddUp(want, states, j - 1);
      assert AllPassed(want, states[j - 1], states[j - 1 + 1]);
      AllPassOneMore(want, states[0], states[j - 1], states[j], j - 1);
    }
  }

  /** n syncs, with what the chains were before and after each. */
  method SyncTimes(ipt: Iptables, want: seq<Rule>, n: nat) returns (ghost states: seq<seq<seq<ChainRule>>>)
    requires ipt.Valid() && DistinctRules(want)
    modifies ipt.shell, ipt`listings, set i | 0 <= i < |ipt.tools| :: ipt.tools[i]`chain
    ensures ipt.shell.ran >= old(ipt.shell.ran)
    ensures |states| == n + 1 && states[0] == old(ipt.Chains()) && states[n] == ipt.Chains()
    ensures ipt.shell.AllOk(old(ipt.shell.ran)) ==> PassAfterPass(want, states)
  {
    states := [ipt.Chains()];
    ghost var ran0 := ipt.shell.ran;
    var done := 0;
    while done < n
      invariant done <= n && ipt.shell.ran >= ran0
      invariant |states| == done + 1 && states[0] == old(ipt.Chains()) && states[done] == ipt.Chains()
      invariant ipt.shell.AllOk(ran0) ==> PassAfterPass(want, states)
    {
      var report, tour := ipt.Sync(want);
      if ipt.shell.AllOk(ran0) { PassAppended(want, states, ipt.Chains()); }
      states := states + [ipt.Chains()];
      done := done + 1;
    }
  }

  /** n syncs in a row with the same rules. */
  method SyncRepeatedly(ipt: Iptables, want: seq<Rule>, n: nat)
    requires ipt.Valid() && DistinctRules(want) && n >= 1
    modifies ipt.shell, ipt`listings, set i | 0 <= i < |ipt.tools| :: ipt.tools[i]`chain
    ensures ipt.shell.AllOk(old(ipt.shell.ran)) ==> RepeatsTold(want, old(ipt.Chains()), ipt.Chains(), n)
  {
    ghost var states := SyncTimes(ipt, want, n);
    if ipt.shell.AllOk(old(ipt.shell.ran)) {
      PassesAddUp(want, states, n);
      AfterRepeats(want, old(ipt.Chains()), ipt.Chains(), n);
    }
  }

  /** What n syncs without failures achieve: a chain meets the specification exactly when it
      began with at most n tags on each unwanted key, and with at most n tags on any key
      there is nothing left to do. */
  ghost predicate RepeatsTold(want: seq<Rule>, was: seq<seq<ChainRule>>, now: seq<seq<ChainRule>>, n: nat) {
    && |was| == |now|
    && (forall i :: 0 <= i < |was| ==> (Converged(PlaceOf(now[i]), want) <==> FewTags(was[i], want, n)))
    && (forall i :: 0 <= i < |was| && (forall k :: |TagsOf(was[i], k)| <= n) ==> Quiet(now[i], want))
  }

  lemma AfterRepeats(want: seq<Rule>, was: seq<seq<ChainRule>>, now: seq<seq<ChainRule>>, n: nat)
    requires DistinctRules(want) && n >= 1 && AllPassedTimes(want, was, now, n)
    ensures RepeatsTold(want, was, now, n)
  {
    forall i | 0 <= i < |was|
      ensures Converged(PlaceOf(now[i]), want) <==> FewTags(was[i], want, n)
      ensures (forall k :: |TagsOf(was[i], k)| <= n) ==> Quiet(now[i], want)
    {
      ConvergedAfter(want, was[i], now[i], n);
      if forall k :: |TagsOf(was[i], k)| <= n { QuietAfter(want, was[i], now[i], n); }
    }
  }

  /** Two syncs in a row: without failures the second one changes nothing exactly when every
      key of every chain settles at once. */
  method SyncTwice(ipt: Iptables, want: seq<Rule>) returns (extra: int)
    requires ipt.Valid() && DistinctRules(want)
    modifies ipt.shell, ipt`listings, set i | 0 <= i < |ipt.tools| :: ipt.tools[i]`chain
    ensures ipt.shell.AllOk(old(ipt.shell.ran)) ==> (extra == 0 <==> AllSettle(old(ipt.Chains()), want))
  {
    ghost var was, ran0 := ipt.Chains(), ipt.shell.ran;
    var first, tour := ipt.Sync(want);
    extra := ipt.shell.changes;
    ghost var mid, ok := ipt.Chains(), ipt.shell.AllOk(ran0);
    if ok { QuietAfterSync(want, was, mid); }
    var second, tourAgain := ipt.Sync(want);
    extra := ipt.shell.changes - extra;
  }

  ghost predicate AllSettle(chains: seq<seq<ChainRule>>, want: seq<Rule>) {
    forall i :: 0 <= i < |chains| ==> SettlesAll(chains[i], want)
  }

  lemma QuietAfterSync(want: seq<Rule>, was: seq<seq<ChainRule>>, now: seq<seq<ChainRule>>)
    requires AllPassed(want, was, now)
    ensures AllQuiet(now, want) <==> AllSettle(was, want)
  {
    forall i | 0 <= i < |was| ensures Quiet(now[i], want) <==> SettlesAll(was[i], want) {
      QuietAfterPass(want, was[i], now[i]);
    }
  }

  ghost predicate SettlesAll(chain: seq<ChainRule>, want: seq<Rule>) {
    forall k :: SettlesOn(chain, want, k)
  }

  // ----- recovery after a failed deletion ----------------------------------------------------

  lemma OneStaleTag(key: Key, a: RuleId, w: Rule)
    requires w.Key() == key && w.id != a
    ensures DistinctRules([w]) && ReportsOn(map[key := Existing], [w]) && Indexes(map[key := w.id], [w])
    ensures
      var chain := [Tagged(key, a)];
      TagsOf(chain, key) == [a] && Plain(key) !in chain && StaleKeys(chain, [w]) == {key}
    ensures WantedId([w], key) == Some(w.id) && WantedId([], key) == None
  {
    var chain := [Tagged(key, a)];
    assert w in [w] && IsWanted([w], key);
    IndexIsWanted(map[key := w.id], [w]);
    assert chain[1..] == [];
    assert TaggedIn(chain) == map[key := a] by {
      assert chain[..0] == [];
    }
  }

  lemma FailedDeletionPasses(key: Key, a: RuleId, w: Rule, chain1: seq<ChainRule>, chain2: seq<ChainRule>)
    requires w.Key() == key && w.id != a
    requires PassedWith([w], [Tagged(key, a)], chain1, {key}, {}) && Passed([], chain1, chain2)
    ensures TagsOf(chain1, key) == [w.id, a] && TagsOf(chain2, key) == [w.id] && !Converged(PlaceOf(chain2), [])
  {
    OneStaleTag(key, a, w);
    assert [w.id, a] == [w.id] + [a] && [w.id, a][1..] == [a] && [a][1..] == [];
    assert FirstOut([w.id, a], a) == [w.id] + FirstOut([a], a) == [w.id];
    assert !IsWanted([], key);
    NoneOnUnwanted(chain2, []);
  }

  /** A rule changes its owner, the deletion of the old tag fails and the insertion of the
      new one works; then the rule is no longer wanted and every command works: the port
      stays open all the same, until one more pass. */
  method FailedDeletionRun(key: Key, a: RuleId, b: RuleId) returns (tool: Tool)
    requires a != b
    ensures fresh(tool) && TagsOf(tool.chain, key) == [b] && !Converged(PlaceOf(tool.chain), [])
  {
    var shell := new Shell((i: nat) => i == 0);
    tool := new Tool(shell, [Tagged(key, a)], true);
    var w := Rule(b, key.port, key.transport);
    OneStaleTag(key, a, w);
    var report;
    ghost var kept, skipped, middle;
    report, kept, skipped, middle := tool.SyncChain([w], map[key := b], map[key := Existing]);
    ghost var chain1 := tool.chain;
    assert kept == {key} && skipped == {};
    report, kept, skipped, middle := tool.SyncChain([], map[], map[]);
    FailedDeletionPasses(key, a, w, chain1, tool.chain);
  }
}
