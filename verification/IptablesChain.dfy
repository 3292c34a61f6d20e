/** The INPUT chain of one iptables tool, and what passes of the backend do to it:
    internal/firewall/iptables.go:21-126. A pass is followed key by key, as a change of the
    list of tags on the key. */
module IptablesChain {
  import opened Basics
  import opened Seqs
  import opened Rules
  import opened Reconcile

  /** A rule of the INPUT chain: ours, an operator's plain accept of a port, or anything
      else an operator may have written. */
  datatype ChainRule = Tagged(key: Key, id: RuleId) | Plain(key: Key) | Other(text: nat)

  function ByOperator(): ChainRule -> bool { (r: ChainRule) => !r.Tagged? }

  /** The operator's part of a chain, in order. */
  function Operators(chain: seq<ChainRule>): seq<ChainRule> { Filter(chain, ByOperator()) }

  ghost function PlaceOf(chain: seq<ChainRule>): Place {
    Place(set r | r in chain && r.Plain? :: r.key, set r | r in chain && r.Tagged? :: (r.key, r.id))
  }

  // ----- reading a chain -----------------------------------------------------------------

  /** parseIptables: of several tagged rules on one key the last one counts. */
  function TaggedIn(chain: seq<ChainRule>): map<Key, RuleId> {
    if chain == [] then map[]
    else
      var last := chain[|chain| - 1];
      if last.Tagged? then TaggedIn(chain[..|chain| - 1])[last.key := last.id] else TaggedIn(chain[..|chain| - 1])
  }

  function UntaggedIn(chain: seq<ChainRule>): set<Key> {
    set r | r in chain && r.Plain? :: r.key
  }

  /** The tags on a key, in the order of the chain. */
  function TagsOf(chain: seq<ChainRule>, key: Key): seq<RuleId> {
    if chain == [] then []
    else (if chain[0].Tagged? && chain[0].key == key then [chain[0].id] else []) + TagsOf(chain[1..], key)
  }

  lemma {:induction false} TagsOfConcat(a: seq<ChainRule>, b: seq<ChainRule>, key: Key)
    ensures TagsOf(a + b, key) == TagsOf(a, key) + TagsOf(b, key)
  {
    if a == [] {
      assert a + b == b;
    } else {
      assert (a + b)[1..] == a[1..] + b;
      TagsOfConcat(a[1..], b, key);
    }
  }

  lemma {:induction false} TagsOfMembers(chain: seq<ChainRule>, key: Key, id: RuleId)
    ensures Tagged(key, id) in chain <==> id in TagsOf(chain, key)
  {
    if chain != [] {
      assert chain == [chain[0]] + chain[1..];
      TagsOfMembers(chain[1..], key, id);
    }
  }

  function Last(tags: seq<RuleId>): RuleId
    requires tags != []
  {
    tags[|tags| - 1]
  }

  /** What is read from the chain is the last tag on each key. */
  lemma {:induction false} TaggedInIsLast(chain: seq<ChainRule>, key: Key)
    ensures key in TaggedIn(chain) <==> TagsOf(chain, key) != []
    ensures key in TaggedIn(chain) ==> TaggedIn(chain)[key] == Last(TagsOf(chain, key))
  {
    if chain != [] {
      var init, last := chain[..|chain| - 1], chain[|chain| - 1];
      assert chain == init + [last];
      TaggedInIsLast(init, key);
      TagsOfConcat(init, [last], key);
      assert TagsOf([last], key) == if last.Tagged? && last.key == key then [last.id] else [];
    }
  }

  // ----- changing a chain -------------------------------------------------------------------

  /** "-D": deletes the first rule that matches. */
  function DeleteFirst(chain: seq<ChainRule>, r: ChainRule): seq<ChainRule> {
    if chain == [] then []
    else if chain[0] == r then chain[1..]
    else [chain[0]] + DeleteFirst(chain[1..], r)
  }

  function FirstOut(tags: seq<RuleId>, id: RuleId): seq<RuleId> {
    if tags == [] then []
    else if tags[0] == id then tags[1..]
    else [tags[0]] + FirstOut(tags[1..], id)
  }

  lemma {:induction false} TagsAfterDelete(chain: seq<ChainRule>, key: Key, id: RuleId, k: Key)
    ensures TagsOf(DeleteFirst(chain, Tagged(key, id)), k) ==
            if k == key then FirstOut(TagsOf(chain, k), id) else TagsOf(chain, k)
  {
    if chain != [] {
      var tags := TagsOf(chain[1..], k);
      if chain[0].Tagged? && chain[0].key == k {
        assert ([chain[0].id] + tags)[1..] == tags;
      }
      if chain[0] != Tagged(key, id) {
        TagsAfterDelete(chain[1..], key, id, k);
        var rest := DeleteFirst(chain[1..], Tagged(key, id));
        assert ([chain[0]] + rest)[1..] == rest;
      } else {
        assert [] + tags == tags;
      }
    }
  }

  lemma TagsAfterInsert(chain: seq<ChainRule>, key: Key, id: RuleId, k: Key)
    ensures TagsOf([Tagged(key, id)] + chain, k) == (if k == key then [id] else []) + TagsOf(chain, k)
  {
    assert ([Tagged(key, id)] + chain)[1..] == chain;
  }

  lemma {:induction false} DeleteFirstKeepsOperators(chain: seq<ChainRule>, r: ChainRule)
    requires r.Tagged?
    ensures Operators(DeleteFirst(chain, r)) == Operators(chain)
  {
    if chain != [] {
      var rest := chain[1..];
      assert chain == [chain[0]] + rest;
      FilterOfConcat([chain[0]], rest, ByOperator());
      if chain[0] == r {
        assert Filter([chain[0]], ByOperator()) == [];
      } else {
        DeleteFirstKeepsOperators(rest, r);
        FilterOfConcat([chain[0]], DeleteFirst(rest, r), ByOperator());
      }
    }
  }

  lemma InsertKeepsOperators(chain: seq<ChainRule>, r: ChainRule)
    requires r.Tagged?
    ensures Operators([r] + chain) == Operators(chain)
  {
    FilterOfConcat([r], chain, ByOperator());
    assert Filter([r], ByOperator()) == [];
  }

  lemma PlainIsOperators(chain: seq<ChainRule>, key: Key)
    ensures Plain(key) in chain <==> Plain(key) in Operators(chain)
  {
    FilterMembers(chain, ByOperator());
  }

  // ----- one key, one pass --------------------------------------------------------------------

  /** The tag a key should carry. */
  function WantedId(want: seq<Rule>, key: Key): Option<RuleId> {
    if want == [] then None
    else if want[0].Key() == key then Some(want[0].id)
    else WantedId(want[1..], key)
  }

  lemma {:induction false} WantedIdFinds(want: seq<Rule>, key: Key)
    ensures WantedId(want, key).Some? <==> IsWanted(want, key)
    ensures WantedId(want, key).Some? ==> exists w :: w in want && w.Key() == key && w.id == WantedId(want, key).value
  {
    if want != [] {
      assert want == [want[0]] + want[1..];
      WantedIdFinds(want[1..], key);
      if want[0].Key() == key {
        assert want[0] in want;
      } else if w :| w in want[1..] && w.Key() == key && WantedId(want[1..], key) == Some(w.id) {
        assert w in want;
      }
    }
  }

  lemma WantedIdOf(want: seq<Rule>, w: Rule)
    requires DistinctRules(want) && w in want
    ensures WantedId(want, w.Key()) == Some(w.id)
  {
    WantedIdFinds(want, w.Key());
    var o :| o in want && o.Key() == w.Key() && WantedId(want, w.Key()) == Some(o.id);
    KeyIdentifiesRule(want, o, w);
  }

  /** The first loop deletes something on this key. */
  predicate Stale(tags: seq<RuleId>, wid: Option<RuleId>) {
    tags != [] && wid != Some(Last(tags))
  }

  /** The second loop inserts something on this key. */
  predicate Missing(tags: seq<RuleId>, plain: bool, wid: Option<RuleId>) {
    wid.Some? && !plain && !(tags != [] && Last(tags) == wid.value)
  }

  /** The first loop on one key: one rule with the last tag goes, if the command works. */
  function Cleaned(tags: seq<RuleId>, wid: Option<RuleId>, kept: bool): seq<RuleId> {
    if Stale(tags, wid) && !kept then FirstOut(tags, Last(tags)) else tags
  }

  /** Both loops on one key; kept and skipped say that a deletion or an insertion failed. */
  function Pass(tags: seq<RuleId>, plain: bool, wid: Option<RuleId>, kept: bool, skipped: bool): seq<RuleId> {
    (if Missing(tags, plain, wid) && !skipped then [wid.value] else []) + Cleaned(tags, wid, kept)
  }

  function CleanPass(tags: seq<RuleId>, plain: bool, wid: Option<RuleId>): seq<RuleId> {
    Pass(tags, plain, wid, false, false)
  }

  /** Nothing to do on this key. */
  predicate QuietKey(tags: seq<RuleId>, plain: bool, wid: Option<RuleId>) {
    !Stale(tags, wid) && !Missing(tags, plain, wid)
  }

  lemma {:induction false} FirstOutSize(tags: seq<RuleId>, id: RuleId)
    requires id in tags
    ensures |FirstOut(tags, id)| == |tags| - 1
    ensures forall x :: x in tags && x != id ==> x in FirstOut(tags, id)
    ensures forall x :: x in FirstOut(tags, id) ==> x in tags
  {
    if tags[0] != id {
      assert tags == [tags[0]] + tags[1..];
      FirstOutSize(tags[1..], id);
    } else {
      assert tags == [id] + tags[1..];
    }
  }

  /** A pass takes one tag off an unwanted key. */
  lemma UnwantedShrinks(tags: seq<RuleId>, plain: bool)
    ensures |CleanPass(tags, plain, None)| == if tags == [] then 0 else |tags| - 1
  {
    if tags != [] {
      FirstOutSize(tags, Last(tags));
    }
  }

  /** A pass puts a wanted key in force. */
  lemma WantedIsInForce(tags: seq<RuleId>, plain: bool, id: RuleId)
    ensures plain || id in CleanPass(tags, plain, Some(id))
  {
  }

  // ----- many passes ------------------------------------------------------------------------------

  function Passes(tags: seq<RuleId>, plain: bool, wid: Option<RuleId>, n: nat): seq<RuleId> {
    if n == 0 then tags else CleanPass(Passes(tags, plain, wid, n - 1), plain, wid)
  }

  lemma {:induction false} UnwantedAfter(tags: seq<RuleId>, plain: bool, n: nat)
    ensures |Passes(tags, plain, None, n)| == if n <= |tags| then |tags| - n else 0
  {
    if n > 0 {
      UnwantedAfter(tags, plain, n - 1);
      UnwantedShrinks(Passes(tags, plain, None, n - 1), plain);
    }
  }

  /** How many tags are not the wanted one. */
  function Others(tags: seq<RuleId>, wid: Option<RuleId>): nat {
    if tags == [] then 0 else (if wid == Some(tags[0]) then 0 else 1) + Others(tags[1..], wid)
  }

  lemma {:induction false} OthersOfFirstOut(tags: seq<RuleId>, wid: Option<RuleId>, id: RuleId)
    requires id in tags && wid != Some(id)
    ensures Others(FirstOut(tags, id), wid) == Others(tags, wid) - 1
  {
    if tags[0] != id {
      assert tags == [tags[0]] + tags[1..];
      OthersOfFirstOut(tags[1..], wid, id);
      var rest := FirstOut(tags[1..], id);
      assert ([tags[0]] + rest)[1..] == rest;
    }
  }

  lemma {:induction false} OthersAtMost(tags: seq<RuleId>, wid: Option<RuleId>)
    ensures Others(tags, wid) <= |tags|
    ensures Stale(tags, wid) ==> Others(tags, wid) > 0
  {
    if tags != [] {
      OthersAtMost(tags[1..], wid);
      if |tags| > 1 {
        assert Last(tags[1..]) == Last(tags);
      }
    }
  }

  /** Passes still needed at most. */
  function Work(tags: seq<RuleId>, plain: bool, wid: Option<RuleId>): nat {
    if QuietKey(tags, plain, wid) then 0 else if tags == [] then 1 else Others(tags, wid)
  }

  lemma WorkShrinks(tags: seq<RuleId>, plain: bool, wid: Option<RuleId>)
    ensures QuietKey(tags, plain, wid) ==> CleanPass(tags, plain, wid) == tags
    ensures !QuietKey(tags, plain, wid) ==> Work(CleanPass(tags, plain, wid), plain, wid) < Work(tags, plain, wid)
  {
    var after := CleanPass(tags, plain, wid);
    if Stale(tags, wid) {
      var rest := FirstOut(tags, Last(tags));
      OthersAtMost(tags, wid);
      OthersOfFirstOut(tags, wid, Last(tags));
      if Missing(tags, plain, wid) {
        assert after == [wid.value] + rest && after[1..] == rest;
      } else {
        assert after == rest;
      }
    } else if Missing(tags, plain, wid) {
      assert after == [wid.value];
    }
  }

  /** What is still to do after n passes is little enough. */
  predicate WorkedOff(before: nat, after: nat, n: nat) { after == 0 || after + n <= before }

  lemma {:induction false} WorkAfter(tags: seq<RuleId>, plain: bool, wid: Option<RuleId>, n: nat)
    ensures WorkedOff(Work(tags, plain, wid), Work(Passes(tags, plain, wid, n), plain, wid), n)
  {
    if n > 0 {
      var before := Passes(tags, plain, wid, n - 1);
      WorkAfter(tags, plain, wid, n - 1);
      WorkOfOne(before, plain, wid);
      assert Passes(tags, plain, wid, n) == CleanPass(before, plain, wid);
    }
  }

  lemma WorkOfOne(tags: seq<RuleId>, plain: bool, wid: Option<RuleId>)
    ensures WorkedOff(Work(tags, plain, wid), Work(CleanPass(tags, plain, wid), plain, wid), 1)
  {
    WorkShrinks(tags, plain, wid);
  }

  lemma WorkIsLittle(tags: seq<RuleId>, plain: bool, wid: Option<RuleId>)
    ensures Work(tags, plain, wid) <= 1 || Work(tags, plain, wid) <= |tags|
    ensures Work(tags, plain, wid) == 0 <==> QuietKey(tags, plain, wid)
  {
    OthersAtMost(tags, wid);
  }

  /** With as many passes as there are tags on the key, nothing is left to do. */
  lemma EnoughPasses(tags: seq<RuleId>, plain: bool, wid: Option<RuleId>, n: nat)
    requires n >= 1 && n >= |tags|
    ensures QuietKey(Passes(tags, plain, wid, n), plain, wid)
  {
    WorkAfter(tags, plain, wid, n);
    WorkIsLittle(tags, plain, wid);
    WorkIsLittle(Passes(tags, plain, wid, n), plain, wid);
  }

  /** The next pass finds nothing to do on a key. */
  predicate SettlesAtOnce(tags: seq<RuleId>, wid: Option<RuleId>) {
    || |tags| <= 1
    || wid == Some(Last(tags))
    || (wid.Some? && |FirstOut(tags, Last(tags))| > 0 && wid == Some(Last(FirstOut(tags, Last(tags)))))
  }

  lemma QuietAfterOne(tags: seq<RuleId>, plain: bool, wid: Option<RuleId>)
    ensures QuietKey(CleanPass(tags, plain, wid), plain, wid) <==> SettlesAtOnce(tags, wid)
  {
    if Stale(tags, wid) {
      var rest := FirstOut(tags, Last(tags));
      FirstOutSize(tags, Last(tags));
      if rest != [] && Missing(tags, plain, wid) {
        assert Last([wid.value] + rest) == Last(rest);
      }
    }
  }

  // ----- the contract of one tool ------------------------------------------------------------

  /** now is what a pass makes of was, the deletions on kept and the insertions on skipped
      having failed. */
  ghost predicate PassedWith(want: seq<Rule>, was: seq<ChainRule>, now: seq<ChainRule>, kept: set<Key>, skipped: set<Key>) {
    && Operators(now) == Operators(was)
    && forall k {:trigger TagsOf(now, k)} :: TagsOf(now, k) == Pass(TagsOf(was, k), Plain(k) in was, WantedId(want, k), k in kept, k in skipped)
  }

  ghost predicate Passed(want: seq<Rule>, was: seq<ChainRule>, now: seq<ChainRule>) {
    PassedWith(want, was, now, {}, {})
  }

  ghost predicate QuietOn(chain: seq<ChainRule>, want: seq<Rule>, k: Key) {
    QuietKey(TagsOf(chain, k), Plain(k) in chain, WantedId(want, k))
  }

  /** A pass issues no command that changes the chain. */
  ghost predicate Quiet(chain: seq<ChainRule>, want: seq<Rule>) {
    forall k :: QuietOn(chain, want, k)
  }

  /** At most n tags on every key that is not wanted. */
  ghost predicate FewTags(chain: seq<ChainRule>, want: seq<Rule>, n: nat) {
    forall k :: !IsWanted(want, k) ==> |TagsOf(chain, k)| <= n
  }

  lemma NoneOnUnwanted(chain: seq<ChainRule>, want: seq<Rule>)
    ensures FewTags(chain, want, 0) <==> forall key, id :: (key, id) in PlaceOf(chain).ours ==> IsWanted(want, key)
  {
    var p := PlaceOf(chain);
    if FewTags(chain, want, 0) {
      forall key, id | (key, id) in p.ours ensures IsWanted(want, key) {
        TagsOfMembers(chain, key, id);
      }
    }
    if !FewTags(chain, want, 0) {
      var k :| !IsWanted(want, k) && |TagsOf(chain, k)| > 0;
      TagsOfMembers(chain, k, TagsOf(chain, k)[0]);
      assert (k, TagsOf(chain, k)[0]) in p.ours;
    }
  }

  lemma CoversByTags(chain: seq<ChainRule>, w: Rule)
    ensures Covers(PlaceOf(chain), w) <==> Plain(w.Key()) in chain || w.id in TagsOf(chain, w.Key())
  {
    TagsOfMembers(chain, w.Key(), w.id);
    assert Tagged(w.Key(), w.id) in chain <==> (w.Key(), w.id) in PlaceOf(chain).ours;
  }

  /** The chain after n passes. */
  ghost predicate PassedTimes(want: seq<Rule>, was: seq<ChainRule>, now: seq<ChainRule>, n: nat) {
    && Operators(now) == Operators(was)
    && forall k {:trigger TagsOf(now, k)} :: TagsOf(now, k) == Passes(TagsOf(was, k), Plain(k) in was, WantedId(want, k), n)
  }

  lemma OnePassMore(want: seq<Rule>, was: seq<ChainRule>, mid: seq<ChainRule>, now: seq<ChainRule>, n: nat)
    requires PassedTimes(want, was, mid, n) && Passed(want, mid, now)
    ensures PassedTimes(want, was, now, n + 1)
  {
    forall k ensures TagsOf(now, k) == Passes(TagsOf(was, k), Plain(k) in was, WantedId(want, k), n + 1) {
      PlainIsOperators(was, k);
      PlainIsOperators(mid, k);
    }
  }

  /** After n passes without failures a chain meets the specification exactly when it began
      with at most n tags on every unwanted key. */
  lemma ConvergedAfter(want: seq<Rule>, was: seq<ChainRule>, now: seq<ChainRule>, n: nat)
    requires DistinctRules(want) && n >= 1 && PassedTimes(want, was, now, n)
    ensures Converged(PlaceOf(now), want) <==> FewTags(was, want, n)
  {
    forall w | w in want ensures Covers(PlaceOf(now), w) {
      var k := w.Key();
      WantedIdOf(want, w);
      WantedIsInForce(Passes(TagsOf(was, k), Plain(k) in was, Some(w.id), n - 1), Plain(k) in was, w.id);
      PlainIsOperators(was, k);
      PlainIsOperators(now, k);
      CoversByTags(now, w);
    }
    NoneOnUnwanted(now, want);
    forall k | !IsWanted(want, k) ensures |TagsOf(now, k)| == 0 <==> |TagsOf(was, k)| <= n {
      WantedIdFinds(want, k);
      UnwantedAfter(TagsOf(was, k), Plain(k) in was, n);
    }
  }

  /** After at least as many passes as any key has tags, a further pass changes nothing. */
  lemma QuietAfter(want: seq<Rule>, was: seq<ChainRule>, now: seq<ChainRule>, n: nat)
    requires n >= 1 && PassedTimes(want, was, now, n) && forall k :: |TagsOf(was, k)| <= n
    ensures Quiet(now, want)
  {
    forall k ensures QuietOn(now, want, k) {
      PlainIsOperators(was, k);
      PlainIsOperators(now, k);
      EnoughPasses(TagsOf(was, k), Plain(k) in was, WantedId(want, k), n);
    }
  }

  ghost predicate SettlesOn(chain: seq<ChainRule>, want: seq<Rule>, k: Key) {
    SettlesAtOnce(TagsOf(chain, k), WantedId(want, k))
  }

  /** After one pass the next one changes nothing exactly under a condition on each key. */
  lemma QuietAfterPass(want: seq<Rule>, was: seq<ChainRule>, now: seq<ChainRule>)
    requires Passed(want, was, now)
    ensures Quiet(now, want) <==> forall k :: SettlesOn(was, want, k)
  {
    forall k ensures QuietOn(now, want, k) <==> SettlesOn(was, want, k) {
      PlainIsOperators(was, k);
      PlainIsOperators(now, k);
      QuietAfterOne(TagsOf(was, k), Plain(k) in was, WantedId(want, k));
    }
  }

  /** From one tag on a key, a pass leaves two exactly when its deletion failed and its
      insertion did not. */
  lemma FailedDeletionDoubles(want: seq<Rule>, was: seq<ChainRule>, now: seq<ChainRule>, kept: set<Key>, skipped: set<Key>, k: Key)
    requires PassedWith(want, was, now, kept, skipped) && |TagsOf(was, k)| == 1
    ensures |TagsOf(now, k)| == 2 <==>
              k in kept && k !in skipped && Plain(k) !in was
              && WantedId(want, k).Some? && WantedId(want, k) != Some(TagsOf(was, k)[0])
  {
  }
}
