/** A group edit that does not mention ports keeps every member in place:
    internal/server/groups.go:294-314, 164-175. */
module GroupPatch {
  import opened Basics
  import opened Protocols
  import opened Seqs
  import opened Sorting
  import opened Entries
  import opened PortSpec
  import opened Rendering
  import opened Text
  import opened Forwards
  import opened GroupSwitch
  import opened Store
  import opened Groups
  import opened GroupInvariant
  import opened Api
  import Grammar

  lemma GroupSharesNoPort(cfg: Config, st: State, id: Id)
    requires Inv(cfg, st)
    ensures
      var prev := ForwardsInGroup(st.forwards, id);
      && DistinctIds(prev) && NoClash(prev) && Ordered(prev, ForwardKey) && |prev| <= MAX_GROUP_PORTS
      && forall i :: 0 <= i < |prev| ==> prev[i] in st.forwards && prev[i].groupId == id
  {
    var prev := ForwardsInGroup(st.forwards, id);
    GroupMembers(st.forwards, id);
    GroupHasDistinctIds(st.forwards, id);
    PrevDoesNotClash(st.forwards, id, prev);
    SortOrders(Filter(st.forwards, InGroup(id)), ForwardKey);
    assert |prev| == |Filter(st.forwards, InGroup(id))|;
    assert forall i :: 0 <= i < |prev| ==> prev[i] in prev;
  }

  /** The entries of a stored group are a valid spec in canonical order. */
  lemma GroupEntriesAreValid(cfg: Config, st: State, id: Id)
    requires Inv(cfg, st) && ForwardsInGroup(st.forwards, id) != []
    ensures
      var es := Mapped(ForwardsInGroup(st.forwards, id), EntryOf);
      ValidEntries(es) && SortEntries(es) == es
  {
    var prev := ForwardsInGroup(st.forwards, id);
    var es := Mapped(prev, EntryOf);
    GroupSharesNoPort(cfg, st, id);
    forall i, j | 0 <= i < j < |es| ensures !Overlap(es[i], es[j]) {
      assert !Clash(prev[i], prev[j]);
      OverlapIsSharedListener(prev[i].proto, prev[j].proto);
    }
    assert forall i :: 0 <= i < |es| ==> EntryKey(es[i]) == ForwardKey(prev[i]);
    SortOfOrdered(es, EntryKey);
  }

  /** Re-reading the group's own spec yields its members' entries, in order. */
  lemma OwnSpecReadsBack(cfg: Config, st: State, id: Id, defProto: string)
    requires Inv(cfg, st) && ForwardsInGroup(st.forwards, id) != [] && ProtoOf(defProto) != Unknown
    ensures
      var prev := ForwardsInGroup(st.forwards, id);
      ReadSpec(GroupSpec(prev), defProto) == Ok(Mapped(prev, EntryOf))
  {
    GroupEntriesAreValid(cfg, st, id);
    RoundTrip(Mapped(ForwardsInGroup(st.forwards, id), EntryOf), defProto);
  }

  /** A member looked up by its own port and protocol is found. */
  lemma FindsItself(prev: seq<Forward>, i: nat)
    requires DistinctIds(prev) && NoClash(prev) && i < |prev| && prev[i].proto != Unknown
    ensures FindPrev(prev, EntryOf(prev[i])) == Some(prev[i])
  {
    forall k | 0 <= k < |prev| && k != i ensures !Clash(prev[i], prev[k]) {
      assert !Clash(prev[if i < k then i else k], prev[if i < k then k else i]);
    }
    FindPrevFinds(prev, EntryOf(prev[i]));
    assert prev[i] in prev;
    var p := FindPrev(prev, EntryOf(prev[i])).value;
    var j :| 0 <= j < |prev| && prev[j] == p;
  }

  /** What a ports-free edit does to one member. */
  function Patched(g: GroupFields, now: int): Forward -> Forward {
    (f: Forward) => f.(clientId := g.clientId, name := g.name, targetHost := g.targetHost, enabled := g.enabled, updatedAt := now)
  }

  /** The protocol an edit names, if any, is one of the three known ones. */
  predicate KnowsProtocol(inp: GroupInput) {
    inp.protocol.Some? ==> ProtoOf(Grammar.Lower(Trim(inp.protocol.value))) != Unknown
  }

  /** The fields after the edit, with the name filled in from the spec when it is blank. */
  function PatchFields(inp: GroupInput, prev: seq<Forward>): GroupFields
    requires prev != []
  {
    NamedFields(ApplyGroupInput(inp, CurrentFields(prev)), Mapped(prev, EntryOf))
  }

  lemma PatchedMember(id: Id, g: GroupFields, prev: seq<Forward>, newId: Id, now: int, i: nat)
    requires DistinctIds(prev) && NoClash(prev) && i < |prev| && prev[i].proto != Unknown && prev[i].groupId == id
    ensures Member(id, g, prev, EntryOf(prev[i]), newId, now) == Patched(g, now)(prev[i])
  {
    FindsItself(prev, i);
  }

  lemma PatchedIsStorable(cfg: Config, g: GroupFields, now: int, f: Forward)
    requires Storable(cfg, f)
    ensures Storable(cfg, Patched(g, now)(f)) <==> ValidName(g.name) && ValidHost(g.targetHost)
  {
  }

  lemma PatchExpands(cfg: Config, id: Id, g: GroupFields, prev: seq<Forward>, ids: seq<Id>, now: int)
    requires DistinctIds(prev) && NoClash(prev) && prev != [] && |prev| <= |ids|
    requires forall i :: 0 <= i < |prev| ==> Storable(cfg, prev[i]) && prev[i].groupId == id
    ensures
      var r := ExpandFrom(cfg, id, g, prev, Mapped(prev, EntryOf), ids, now, 0);
      && (r.Ok? <==> ValidName(g.name) && ValidHost(g.targetHost))
      && (r.Ok? ==> r.value == Mapped(prev, Patched(g, now)))
  {
    var es := Mapped(prev, EntryOf);
    ExpandFromMeaning(cfg, id, g, prev, es, ids, now, 0);
    forall i | 0 <= i < |prev|
      ensures Member(id, g, prev, es[i], ids[i], now) == Patched(g, now)(prev[i])
      ensures Storable(cfg, Member(id, g, prev, es[i], ids[i], now)) <==> ValidName(g.name) && ValidHost(g.targetHost)
    {
      PatchedMember(id, g, prev, ids[i], now, i);
      PatchedIsStorable(cfg, g, now, prev[i]);
    }
    assert Storable(cfg, Member(id, g, prev, es[0], ids[0], now)) <==> ValidName(g.name) && ValidHost(g.targetHost);
  }

  /** A ports-free edit is refused exactly for its protocol, name or host. Otherwise the
      members are the old ones with their id, creation time, port, protocol and target port. */
  lemma PatchIsIdentityOnMembers(cfg: Config, st: State, id: Id, inp: GroupInput, ids: seq<Id>, now: int)
    requires Inv(cfg, st) && ForwardsInGroup(st.forwards, id) != [] && inp.ports.None? && |ids| >= MAX_GROUP_PORTS
    ensures
      var prev := ForwardsInGroup(st.forwards, id);
      var g, r := PatchFields(inp, prev), ExpandGroup(cfg, id, ApplyGroupInput(inp, CurrentFields(prev)), prev, ids, now);
      && (r.Ok? <==> KnowsProtocol(inp) && ValidName(g.name) && ValidHost(g.targetHost))
      && (r.Ok? ==> r.value == Mapped(prev, Patched(g, now)))
  {
    var prev := ForwardsInGroup(st.forwards, id);
    var g0 := ApplyGroupInput(inp, CurrentFields(prev));
    GroupSharesNoPort(cfg, st, id);
    if KnowsProtocol(inp) {
      OwnSpecReadsBack(cfg, st, id, g0.protocol);
      PatchExpands(cfg, id, PatchFields(inp, prev), prev, ids, now);
    }
  }

  /** An edit that mentions nothing at all is never refused by the expansion. */
  lemma EmptyPatchExpands(cfg: Config, st: State, id: Id, ids: seq<Id>, now: int)
    requires Inv(cfg, st) && ForwardsInGroup(st.forwards, id) != [] && |ids| >= MAX_GROUP_PORTS
    ensures
      var prev := ForwardsInGroup(st.forwards, id);
      ExpandGroup(cfg, id, ApplyGroupInput(GroupInput(None, None, None, None, None, None), CurrentFields(prev)), prev, ids, now).Ok?
  {
    var prev := ForwardsInGroup(st.forwards, id);
    GroupSharesNoPort(cfg, st, id);
    assert prev[0] in st.forwards;
    PatchIsIdentityOnMembers(cfg, st, id, GroupInput(None, None, None, None, None, None), ids, now);
  }

  /** Members changed in place, everyone else left alone. */
  function InPlace(groupId: Id, change: Forward -> Forward): Forward -> Forward {
    (f: Forward) => if f.groupId == groupId then change(f) else f
  }

  lemma ChangedById(fs: seq<Forward>, id: Id, prev: seq<Forward>, change: Forward -> Forward, f: Forward)
    requires ListsGroup(fs, id, prev) && forall p :: p in prev ==> change(p).id == p.id
    requires f in fs && f.groupId == id
    ensures f.id in ById(Mapped(prev, change)) && ById(Mapped(prev, change))[f.id] == change(f)
  {
    var next := Mapped(prev, change);
    assert forall i :: 0 <= i < |prev| ==> prev[i] in prev;
    assert f in prev;
    var i :| 0 <= i < |prev| && prev[i] == f;
    ByIdAt(next, i);
  }

  lemma NothingIsNew(fs: seq<Forward>, id: Id, prev: seq<Forward>, change: Forward -> Forward)
    requires ListsGroup(fs, id, prev) && forall p :: p in prev ==> change(p).id == p.id
    ensures Filter(Mapped(prev, change), NewTo(fs, id)) == []
  {
    var next := Mapped(prev, change);
    forall n | n in next ensures IsMember(fs, id, n.id) {
      var i :| 0 <= i < |next| && next[i] == n;
      assert prev[i] in prev;
    }
    FilterAll(next, NewTo(fs, id));
  }

  /** Swapping a group for its own members, each changed but with the same id. */
  lemma SwapOfChanged(fs: seq<Forward>, id: Id, prev: seq<Forward>, change: Forward -> Forward)
    requires DistinctIds(fs) && ListsGroup(fs, id, prev)
    requires forall f :: f in prev ==> change(f).id == f.id
    ensures Swap(fs, id, Mapped(prev, change)) == Mapped(fs, InPlace(id, change))
  {
    var next := Mapped(prev, change);
    var x := ById(next);
    assert DistinctIds(next) by {
      assert forall i :: 0 <= i < |prev| ==> prev[i] in prev;
    }
    SwapMeaning(fs, id, next);
    NothingIsNew(fs, id, prev, change);
    forall f | f in fs ensures Stays(id, x)(f) && Successor(id, x)(f) == InPlace(id, change)(f) {
      if f.groupId == id {
        ChangedById(fs, id, prev, change, f);
      }
    }
    FilterAll(fs, Stays(id, x));
    MappedCongruence(fs, Successor(id, x), InPlace(id, change));
  }

  lemma MappedCongruence<A, B>(s: seq<A>, f: A -> B, g: A -> B)
    requires forall x :: x in s ==> f(x) == g(x)
    ensures Mapped(s, f) == Mapped(s, g) == Mapped(s, f) + []
  {
    assert forall i :: 0 <= i < |s| ==> s[i] in s;
  }

  lemma CommitResult(st: State, groupId: Id, next: seq<Forward>, prev: seq<Forward>)
    requires next != [] && CommitGroup(st, groupId, next, prev).1.None?
    ensures CommitGroup(st, groupId, next, prev).0.forwards == Swap(st.forwards, groupId, next)
  {
  }

  /** In the stored list a ports-free edit moves nothing: members are patched where they
      stand, and every other forward is untouched. */
  lemma PatchKeepsPlaces(cfg: Config, st: State, id: Id, inp: GroupInput, ids: seq<Id>, now: int)
    requires Inv(cfg, st) && ForwardsInGroup(st.forwards, id) != [] && inp.ports.None? && FreshIds(ids, st.forwards)
    ensures
      var g, r := PatchFields(inp, ForwardsInGroup(st.forwards, id)), UpdateGroup(cfg, st, id, inp, ids, now);
      r.1.None? ==> r.0.forwards == Mapped(st.forwards, InPlace(id, Patched(g, now)))
  {
    var prev := ForwardsInGroup(st.forwards, id);
    var change := Patched(PatchFields(inp, prev), now);
    PatchIsIdentityOnMembers(cfg, st, id, inp, ids, now);
    GroupMembers(st.forwards, id);
    GroupHasDistinctIds(st.forwards, id);
    if UpdateGroup(cfg, st, id, inp, ids, now).1.None? {
      assert UpdateGroup(cfg, st, id, inp, ids, now) == CommitGroup(st, id, Mapped(prev, change), prev);
      CommitResult(st, id, Mapped(prev, change), prev);
      SwapOfChanged(st.forwards, id, prev, change);
    }
  }
}
