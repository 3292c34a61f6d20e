/** Forward groups: expanding a port spec into members and swapping the members of a
    group in the stored list. internal/server/groups.go:110-221 */
module Groups {
  import opened Basics
  import opened Protocols
  import opened Seqs
  import opened Sorting
  import opened Entries
  import opened PortSpec
  import opened Rendering
  import opened Text
  import opened Forwards
  import opened GroupSwitch
  import opened Store

  datatype GroupFields = GroupFields(
    clientId: Id, name: string, protocol: string, ports: string, targetHost: string, enabled: bool)

  // ----- expanding -----------------------------------------------------------------

  /** prevByKey: the old member on the same public port with the same protocol. */
  function FindPrev(prev: seq<Forward>, e: PortEntry): Option<Forward> {
    if prev == [] then None
    else
      var last := prev[|prev| - 1];
      if last.publicPort == e.port && last.proto == e.proto then Some(last) else FindPrev(prev[..|prev| - 1], e)
  }

  function Member(groupId: Id, g: GroupFields, prev: seq<Forward>, e: PortEntry, newId: Id, now: int): Forward {
    var was := FindPrev(prev, e);
    Forward(if was.Some? then was.value.id else newId, g.clientId, groupId, g.name, e.proto, e.port,
            g.targetHost, e.target, g.enabled, if was.Some? then was.value.createdAt else now, now)
  }

  /** The member loop; a bad member ends it. */
  function ExpandFrom(cfg: Config, groupId: Id, g: GroupFields, prev: seq<Forward>, entries: seq<PortEntry>,
                      ids: seq<Id>, now: int, k: nat): Result<seq<Forward>, Failure>
    requires k <= |entries| <= |ids|
    decreases |entries| - k
  {
    if k == |entries| then Ok([])
    else
      var f := Member(groupId, g, prev, entries[k], ids[k], now);
      if !Valid(f) then Err(Validation)
      else if Reserved(cfg, f.publicPort) then Err(Conflict)
      else
        match ExpandFrom(cfg, groupId, g, prev, entries, ids, now, k + 1)
        case Err(e) => Err(e)
        case Ok(rest) => Ok([f] + rest)
  }

  function NamedFields(g: GroupFields, entries: seq<PortEntry>): GroupFields {
    if g.name == "" then g.(name := Render(entries)) else g
  }

  function ExpandGroup(cfg: Config, groupId: Id, g: GroupFields, prev: seq<Forward>, ids: seq<Id>, now: int)
    : Result<seq<Forward>, Failure>
    requires |ids| >= MAX_GROUP_PORTS
  {
    match ReadSpec(g.ports, g.protocol)
    case Err(_) => Err(Validation)
    case Ok(entries) =>
      ParsedIsValid(g.ports, g.protocol);
      if !ValidName(NamedFields(g, entries).name) then Err(Validation)
      else ExpandFrom(cfg, groupId, NamedFields(g, entries), prev, entries, ids, now, 0)
  }

  /** next is the list of members made from the entries. */
  ghost predicate MadeFrom(next: seq<Forward>, groupId: Id, g: GroupFields, prev: seq<Forward>,
                           entries: seq<PortEntry>, ids: seq<Id>, now: int) {
    && |next| == |entries| <= |ids|
    && forall i :: 0 <= i < |next| ==> next[i] == Member(groupId, g, prev, entries[i], ids[i], now)
  }

  predicate Storable(cfg: Config, f: Forward) {
    Valid(f) && !Reserved(cfg, f.publicPort)
  }

  lemma {:induction false} ExpandFromMeaning(cfg: Config, groupId: Id, g: GroupFields, prev: seq<Forward>,
                                             entries: seq<PortEntry>, ids: seq<Id>, now: int, k: nat)
    requires k <= |entries| <= |ids|
    ensures
      var r := ExpandFrom(cfg, groupId, g, prev, entries, ids, now, k);
      && (r.Ok? <==> forall i :: k <= i < |entries| ==> Storable(cfg, Member(groupId, g, prev, entries[i], ids[i], now)))
      && (r.Ok? ==> |r.value| == |entries| - k)
      && (r.Ok? ==> forall i :: 0 <= i < |r.value| ==>
            r.value[i] == Member(groupId, g, prev, entries[k + i], ids[k + i], now))
    decreases |entries| - k
  {
    if k < |entries| {
      ExpandFromMeaning(cfg, groupId, g, prev, entries, ids, now, k + 1);
      var r := ExpandFrom(cfg, groupId, g, prev, entries, ids, now, k);
      if r.Ok? {
        forall i | 0 <= i < |r.value| ensures r.value[i] == Member(groupId, g, prev, entries[k + i], ids[k + i], now) {
          if i > 0 {
            assert r.value[i] == r.value[1..][i - 1];
          }
        }
      }
    }
  }

  lemma ExpandMeaning(cfg: Config, groupId: Id, g: GroupFields, prev: seq<Forward>, ids: seq<Id>, now: int)
    returns (entries: seq<PortEntry>, g': GroupFields)
    requires |ids| >= MAX_GROUP_PORTS && ExpandGroup(cfg, groupId, g, prev, ids, now).Ok?
    ensures ReadSpec(g.ports, g.protocol) == Ok(entries) && ValidEntries(entries)
    ensures Ordered(entries, EntryKey) && g' == NamedFields(g, entries)
    ensures MadeFrom(ExpandGroup(cfg, groupId, g, prev, ids, now).value, groupId, g', prev, entries, ids, now)
    ensures forall f :: f in ExpandGroup(cfg, groupId, g, prev, ids, now).value ==> Storable(cfg, f)
  {
    entries := ReadSpec(g.ports, g.protocol).value;
    ParsedIsValid(g.ports, g.protocol);
    g' := NamedFields(g, entries);
    ExpandFromMeaning(cfg, groupId, g', prev, entries, ids, now, 0);
  }

  // ----- what expansion establishes ------------------------------------------------------

  lemma {:induction false} FindPrevFinds(prev: seq<Forward>, e: PortEntry)
    ensures FindPrev(prev, e).Some? ==>
              var p := FindPrev(prev, e).value; p in prev && p.publicPort == e.port && p.proto == e.proto
    ensures FindPrev(prev, e).None? ==> forall p :: p in prev ==> !(p.publicPort == e.port && p.proto == e.proto)
  {
    if prev != [] {
      FindPrevFinds(prev[..|prev| - 1], e);
      assert prev == prev[..|prev| - 1] + [prev[|prev| - 1]];
    }
  }

  /** A supply of identifiers that are new to the store. */
  predicate FreshIds(ids: seq<Id>, fs: seq<Forward>) {
    && |ids| >= MAX_GROUP_PORTS
    && (forall i, j :: 0 <= i < j < |ids| ==> ids[i] != ids[j])
    && (forall i :: 0 <= i < |ids| ==> ids[i] != NO_ID)
    && (forall i, f :: 0 <= i < |ids| && f in fs ==> ids[i] != f.id)
  }

  /** A member's id is that of the old member with its port and protocol, or new. */
  lemma MemberId(next: seq<Forward>, groupId: Id, g: GroupFields, prev: seq<Forward>,
                 entries: seq<PortEntry>, ids: seq<Id>, now: int, i: nat, p: Forward)
    requires MadeFrom(next, groupId, g, prev, entries, ids, now) && i < |next|
    requires DistinctIds(prev) && FreshIds(ids, prev) && p in prev && next[i].id == p.id
    ensures p.publicPort == next[i].publicPort && p.proto == next[i].proto && p.createdAt == next[i].createdAt
  {
    FindPrevFinds(prev, entries[i]);
    if FindPrev(prev, entries[i]).Some? {
      IdIsIdentity(prev, p, FindPrev(prev, entries[i]).value);
    }
  }

  lemma MembersHaveDistinctIds(next: seq<Forward>, groupId: Id, g: GroupFields, prev: seq<Forward>,
                               entries: seq<PortEntry>, ids: seq<Id>, now: int)
    requires MadeFrom(next, groupId, g, prev, entries, ids, now)
    requires DistinctIds(prev) && FreshIds(ids, prev) && NoOverlap(entries)
    ensures DistinctIds(next)
  {
    NoOverlapHasDistinctKeys(entries);
    forall i, j | 0 <= i < j < |next| ensures next[i].id != next[j].id {
      FindPrevFinds(prev, entries[i]);
      FindPrevFinds(prev, entries[j]);
      assert EntryKey(entries[i]) != EntryKey(entries[j]);
      var a := FindPrev(prev, entries[i]);
      if a.Some? && next[i].id == next[j].id {
        MemberId(next, groupId, g, prev, entries, ids, now, j, a.value);
      }
    }
  }

  lemma MembersDoNotClash(next: seq<Forward>, groupId: Id, g: GroupFields, prev: seq<Forward>,
                          entries: seq<PortEntry>, ids: seq<Id>, now: int)
    requires MadeFrom(next, groupId, g, prev, entries, ids, now) && ValidEntries(entries)
    ensures NoClash(next)
  {
    forall i, j | 0 <= i < j < |next| ensures !Clash(next[i], next[j]) {
      assert !Overlap(entries[i], entries[j]);
      OverlapIsSharedListener(entries[i].proto, entries[j].proto);
    }
  }

  // ----- committing -----------------------------------------------------------------------

  /** The compaction of st.Forwards[:0]: members are replaced or dropped in place; each
      replacement is used once. The second result is what is still to be appended. */
  function Replace(fs: seq<Forward>, groupId: Id, pending: map<Id, Forward>): (r: (seq<Forward>, map<Id, Forward>))
    ensures |r.0| <= |fs|
  {
    if fs == [] then ([], pending)
    else
      var (kept, left) := Replace(fs[..|fs| - 1], groupId, pending);
      var o := fs[|fs| - 1];
      if o.groupId != groupId then (kept + [o], left)
      else if o.id in left then (kept + [left[o.id]], left - {o.id})
      else (kept, left)
  }

  function Swap(fs: seq<Forward>, groupId: Id, next: seq<Forward>): seq<Forward> {
    var (kept, left) := Replace(fs, groupId, ById(next));
    kept + Filter(next, (f: Forward) => f.id in left)
  }

  function CommitGroup(st: State, groupId: Id, next: seq<Forward>, prev: seq<Forward>): (State, Option<Failure>)
    requires next != []
  {
    if next[0].clientId !in st.clients then (st, Some(Validation))
    else if exists f :: f in next && GroupPortConflict(st.forwards, groupId, f) then (st, Some(Conflict))
    else
      var (net, ok) := ApplyGroup(st.net, next, prev);
      if !ok then (st.(net := net), Some(Conflict))
      else (State(st.clients, Swap(st.forwards, groupId, next), net), None)
  }

  // ----- what swapping means -----------------------------------------------------------------

  /** Members not in the group stay, members with a successor stay too. */
  function Stays(groupId: Id, x: map<Id, Forward>): Forward -> bool {
    (f: Forward) => f.groupId != groupId || f.id in x
  }

  function Successor(groupId: Id, x: map<Id, Forward>): Forward -> Forward {
    (f: Forward) => if f.groupId == groupId && f.id in x then x[f.id] else f
  }

  predicate IsMember(fs: seq<Forward>, groupId: Id, id: Id) {
    exists o :: o in fs && o.groupId == groupId && o.id == id
  }

  function NewTo(fs: seq<Forward>, groupId: Id): Forward -> bool {
    (f: Forward) => !IsMember(fs, groupId, f.id)
  }

  lemma MemberOfLonger(init: seq<Forward>, o: Forward, groupId: Id, id: Id)
    ensures IsMember(init + [o], groupId, id) <==> IsMember(init, groupId, id) || (o.groupId == groupId && o.id == id)
  {
    assert o in init + [o];
    forall f ensures f in init + [o] <==> f in init || f == o {}
  }

  lemma {:induction false} ReplaceLeaves(fs: seq<Forward>, groupId: Id, x: map<Id, Forward>, id: Id)
    requires DistinctIds(fs)
    ensures id in Replace(fs, groupId, x).1 <==> id in x && !IsMember(fs, groupId, id)
    ensures id in Replace(fs, groupId, x).1 ==> Replace(fs, groupId, x).1[id] == x[id]
  {
    if fs != [] {
      var init, o := fs[..|fs| - 1], fs[|fs| - 1];
      assert fs == init + [o];
      ReplaceLeaves(init, groupId, x, id);
      MemberOfLonger(init, o, groupId, id);
    }
  }

  lemma NotAmongEarlier(fs: seq<Forward>, groupId: Id)
    requires DistinctIds(fs) && fs != []
    ensures !IsMember(fs[..|fs| - 1], groupId, fs[|fs| - 1].id)
  {
  }

  lemma {:induction false} ReplaceMeaning(fs: seq<Forward>, groupId: Id, x: map<Id, Forward>)
    requires DistinctIds(fs)
    ensures Replace(fs, groupId, x).0 == Mapped(Filter(fs, Stays(groupId, x)), Successor(groupId, x))
  {
    if fs != [] {
      var init, o := fs[..|fs| - 1], fs[|fs| - 1];
      ReplaceMeaning(init, groupId, x);
      ReplaceLeaves(init, groupId, x, o.id);
      NotAmongEarlier(fs, groupId);
      var stays, s := Filter(init, Stays(groupId, x)), Successor(groupId, x);
      assert Mapped(stays + [o], s) == Mapped(stays, s) + [s(o)];
    }
  }

  /** The in-place compaction does what the plain description says: everyone else keeps
      place and value, kept members are replaced where they stand, dropped members
      vanish, and new members follow in order, once each. */
  lemma SwapMeaning(fs: seq<Forward>, groupId: Id, next: seq<Forward>)
    requires DistinctIds(fs) && DistinctIds(next)
    ensures
      var x := ById(next);
      Swap(fs, groupId, next) ==
        Mapped(Filter(fs, Stays(groupId, x)), Successor(groupId, x)) + Filter(next, NewTo(fs, groupId))
  {
    var x := ById(next);
    ReplaceMeaning(fs, groupId, x);
    var left := Replace(fs, groupId, x).1;
    forall f | f in next ensures f.id in left <==> !IsMember(fs, groupId, f.id) {
      var i :| 0 <= i < |next| && next[i] == f;
      ByIdAt(next, i);
      ReplaceLeaves(fs, groupId, x, f.id);
    }
    FilterCongruence(next, (f: Forward) => f.id in left, NewTo(fs, groupId));
  }

  lemma {:induction false} FilterCongruence<T>(s: seq<T>, p: T -> bool, q: T -> bool)
    requires forall x :: x in s ==> p(x) == q(x)
    ensures Filter(s, p) == Filter(s, q)
  {
    if s != [] {
      assert s == s[..|s| - 1] + [s[|s| - 1]];
      FilterCongruence(s[..|s| - 1], p, q);
    }
  }
}
