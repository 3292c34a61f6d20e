/** Committing a group keeps the store invariant and the agreement of the listeners. */
module GroupInvariant {
  import opened Seqs
  import opened Entries
  import opened PortSpec
  import opened Rendering
  import opened Forwards
  import opened Listeners
  import opened GroupSwitch
  import opened GroupSafety
  import opened Store
  import opened Groups

  /** prev lists the members of the group, each once. */
  ghost predicate ListsGroup(fs: seq<Forward>, groupId: Id, prev: seq<Forward>) {
    DistinctIds(prev) && forall f :: f in prev <==> f in fs && f.groupId == groupId
  }

  /** next can take the place of the group's members. */
  ghost predicate Committable(cfg: Config, clients: seq<Id>, fs: seq<Forward>, groupId: Id, next: seq<Forward>, prev: seq<Forward>) {
    && 1 <= |next| <= MAX_GROUP_PORTS
    && DistinctIds(next) && NoClash(next)
    && (forall f :: f in next ==> Storable(cfg, f) && f.id != NO_ID && f.groupId == groupId)
    && (forall f, o :: f in next && o in next ==> f.clientId == o.clientId)
    && (forall f, o :: f in next && o in fs && o.id == f.id ==>
          o in prev && o.publicPort == f.publicPort && o.proto == f.proto)
  }

  lemma ExpandIsCommittable(cfg: Config, clients: seq<Id>, fs: seq<Forward>, groupId: Id, g: GroupFields,
                            prev: seq<Forward>, ids: seq<Id>, now: int)
    requires StoreInv(cfg, clients, fs) && ListsGroup(fs, groupId, prev) && FreshIds(ids, fs)
    ensures ExpandGroup(cfg, groupId, g, prev, ids, now).Ok? ==>
              Committable(cfg, clients, fs, groupId, ExpandGroup(cfg, groupId, g, prev, ids, now).value, prev)
  {
    if ExpandGroup(cfg, groupId, g, prev, ids, now).Ok? {
      var next := ExpandGroup(cfg, groupId, g, prev, ids, now).value;
      var entries, g' := ExpandMeaning(cfg, groupId, g, prev, ids, now);
      MadeIsCommittable(cfg, clients, fs, groupId, g', prev, entries, ids, now, next);
    }
  }

  lemma MadeIsCommittable(cfg: Config, clients: seq<Id>, fs: seq<Forward>, groupId: Id, g: GroupFields, prev: seq<Forward>,
                          entries: seq<PortEntry>, ids: seq<Id>, now: int, next: seq<Forward>)
    requires StoreInv(cfg, clients, fs) && ListsGroup(fs, groupId, prev) && FreshIds(ids, fs)
    requires MadeFrom(next, groupId, g, prev, entries, ids, now) && ValidEntries(entries)
    requires forall f :: f in next ==> Storable(cfg, f)
    ensures Committable(cfg, clients, fs, groupId, next, prev)
  {
    assert FreshIds(ids, prev);
    MembersHaveDistinctIds(next, groupId, g, prev, entries, ids, now);
    MembersDoNotClash(next, groupId, g, prev, entries, ids, now);
    forall f | f in next
      ensures f.id != NO_ID
      ensures forall o :: o in fs && o.id == f.id ==> o in prev && o.publicPort == f.publicPort && o.proto == f.proto
    {
      var i :| 0 <= i < |next| && next[i] == f;
      FindPrevFinds(prev, entries[i]);
      forall o | o in fs && o.id == f.id
        ensures o in prev && o.publicPort == f.publicPort && o.proto == f.proto
      {
        var p := FindPrev(prev, entries[i]).value;
        IdIsIdentity(fs, o, p);
      }
    }
  }

  // ----- the listeners are ready for the switch ----------------------------------------------

  lemma ByIdNoClash(fs: seq<Forward>)
    requires DistinctIds(fs) && NoClash(fs)
    ensures NoClashById(ById(fs))
  {
    var x := ById(fs);
    forall a, b | a in x && b in x && a != b ensures !Clash(x[a], x[b]) {
      ByIdFinds(fs, a);
      ByIdFinds(fs, b);
      var i :| 0 <= i < |fs| && fs[i] == x[a];
      var j :| 0 <= j < |fs| && fs[j] == x[b];
      assert i != j;
      assert !Clash(fs[if i < j then i else j], fs[if i < j then j else i]);
    }
  }

  lemma ByIdIsMember(fs: seq<Forward>, id: Id)
    requires DistinctIds(fs)
    ensures id in ById(fs) ==> ById(fs)[id] in fs && ById(fs)[id].id == id
    ensures forall f :: f in fs && f.id == id ==> id in ById(fs) && ById(fs)[id] == f
  {
    ByIdFinds(fs, id);
    forall f | f in fs && f.id == id ensures id in ById(fs) && ById(fs)[id] == f {
      var i :| 0 <= i < |fs| && fs[i] == f;
      ByIdAt(fs, i);
    }
  }

  lemma PrevDoesNotClash(fs: seq<Forward>, groupId: Id, prev: seq<Forward>)
    requires DistinctIds(fs) && NoSharedPorts(fs) && ListsGroup(fs, groupId, prev)
    ensures NoClash(prev)
  {
    forall i, j | 0 <= i < j < |prev| ensures !Clash(prev[i], prev[j]) {
      assert prev[i] in fs && prev[j] in fs && prev[i].id != prev[j].id;
    }
  }

  /** The runner of an id agrees with the stored forward of that id. */
  lemma RunnerIsStored(cfg: Config, st: State, id: Id) returns (f: Forward)
    requires Inv(cfg, st) && id in st.net.runners
    ensures f in st.forwards && f.id == id && f.enabled && st.net.runners[id].Same(f)
  {
    f :| f in st.forwards && f.id == id && f.enabled && st.net.runners[id].Same(f);
  }

  /** A running member serves the old member as recorded. */
  lemma MemberRunsAsRecorded(cfg: Config, st: State, groupId: Id, prev: seq<Forward>, id: Id)
    requires Inv(cfg, st) && ListsGroup(st.forwards, groupId, prev) && id in st.net.runners
    ensures id in ById(prev) ==> st.net.runners[id].Same(ById(prev)[id])
    ensures id !in ById(prev) ==> exists f :: f in st.forwards && f.groupId != groupId && f.id == id && st.net.runners[id].Same(f)
  {
    var f := RunnerIsStored(cfg, st, id);
    ByIdIsMember(prev, id);
    if id in ById(prev) {
      IdIsIdentity(st.forwards, f, ById(prev)[id]);
    } else {
      assert f !in prev;
    }
  }

  /** A stored forward of another group is in nobody's way. */
  lemma OthersAreOutOfTheWay(cfg: Config, clients: seq<Id>, fs: seq<Forward>, groupId: Id, next: seq<Forward>, prev: seq<Forward>, o: Forward, f: Forward)
    requires StoreInv(cfg, clients, fs) && ListsGroup(fs, groupId, prev) && o in fs && o.groupId != groupId
    requires (f in next && !GroupPortConflict(fs, groupId, f)) || f in prev
    ensures !Clash(o, f)
  {
    if f in prev && o.id == f.id {
      IdIsIdentity(fs, o, f);
    }
  }

  /** A runner of another group is in nobody's way. */
  lemma OutsiderIsOutOfTheWay(cfg: Config, st: State, groupId: Id, next: seq<Forward>, prev: seq<Forward>, id: Id, f: Forward)
    requires Inv(cfg, st) && ListsGroup(st.forwards, groupId, prev)
    ensures id in st.net.runners && id !in ById(prev)
            && ((f in next && !GroupPortConflict(st.forwards, groupId, f)) || f in prev) ==>
              !Clash(st.net.runners[id], f)
  {
    if id in st.net.runners && id !in ById(prev) && ((f in next && !GroupPortConflict(st.forwards, groupId, f)) || f in prev) {
      MemberRunsAsRecorded(cfg, st, groupId, prev, id);
      var o :| o in st.forwards && o.groupId != groupId && o.id == id && st.net.runners[id].Same(o);
      OthersAreOutOfTheWay(cfg, st.clients, st.forwards, groupId, next, prev, o, f);
    }
  }

  lemma KeptMembers(cfg: Config, st: State, groupId: Id, next: seq<Forward>, prev: seq<Forward>, id: Id)
    requires Inv(cfg, st) && ListsGroup(st.forwards, groupId, prev) && id in ById(next)
    requires Committable(cfg, st.clients, st.forwards, groupId, next, prev)
    ensures id in ById(prev) ==>
              ById(next)[id].publicPort == ById(prev)[id].publicPort && ById(next)[id].proto == ById(prev)[id].proto
    ensures id !in ById(prev) ==> id !in st.net.runners
  {
    ByIdIsMember(next, id);
    ByIdIsMember(prev, id);
    if id in st.net.runners {
      var f := RunnerIsStored(cfg, st, id);
      assert f in prev;
    }
  }

  lemma SwitchIsReady(cfg: Config, st: State, groupId: Id, next: seq<Forward>, prev: seq<Forward>)
    requires Inv(cfg, st) && ListsGroup(st.forwards, groupId, prev)
    requires Committable(cfg, st.clients, st.forwards, groupId, next, prev)
    requires forall f :: f in next ==> !GroupPortConflict(st.forwards, groupId, f)
    ensures GroupReady(st.net, next, prev)
  {
    var x, p, net := ById(next), ById(prev), st.net;
    ByIdNoClash(next);
    PrevDoesNotClash(st.forwards, groupId, prev);
    ByIdNoClash(prev);
    forall id | id in x
      ensures id in p ==> x[id].publicPort == p[id].publicPort && x[id].proto == p[id].proto
      ensures id !in p ==> id !in net.runners
    {
      KeptMembers(cfg, st, groupId, next, prev, id);
    }
    forall id | id in p && id in net.runners ensures net.runners[id].Same(p[id]) {
      MemberRunsAsRecorded(cfg, st, groupId, prev, id);
    }
    forall id, o | id in net.runners && id !in p && o in x ensures !Clash(net.runners[id], x[o]) {
      ByIdIsMember(next, o);
      OutsiderIsOutOfTheWay(cfg, st, groupId, next, prev, id, x[o]);
    }
    forall id, o | id in net.runners && id !in p && o in p ensures !Clash(net.runners[id], p[o]) {
      ByIdIsMember(prev, o);
      OutsiderIsOutOfTheWay(cfg, st, groupId, next, prev, id, p[o]);
    }
  }

  // ----- the stored list after a swap -------------------------------------------------------------

  lemma MappedMembers<A, B>(s: seq<A>, f: A -> B, y: B)
    ensures y in Mapped(s, f) <==> exists x :: x in s && f(x) == y
  {
    if y in Mapped(s, f) {
      var i :| 0 <= i < |s| && Mapped(s, f)[i] == y;
      assert s[i] in s && f(s[i]) == y;
    }
    if x :| x in s && f(x) == y {
      var i :| 0 <= i < |s| && s[i] == x;
      assert Mapped(s, f)[i] == y;
    }
  }

  /** After a swap the store holds the forwards of all other groups and exactly the new
      members. */
  lemma SwapMembers(fs: seq<Forward>, groupId: Id, next: seq<Forward>, f: Forward)
    requires DistinctIds(fs) && DistinctIds(next) && (forall n :: n in next ==> n.groupId == groupId)
    ensures f in Swap(fs, groupId, next) <==> (f in fs && f.groupId != groupId) || f in next
  {
    var x := ById(next);
    var stays, s, added := Filter(fs, Stays(groupId, x)), Successor(groupId, x), Filter(next, NewTo(fs, groupId));
    SwapMeaning(fs, groupId, next);
    FilterMembers(fs, Stays(groupId, x));
    FilterMembers(next, NewTo(fs, groupId));
    MappedMembers(stays, s, f);
    if f in fs && f.groupId != groupId {
      assert f in stays && s(f) == f;
    }
    if f in next && IsMember(fs, groupId, f.id) {
      var o :| o in fs && o.groupId == groupId && o.id == f.id;
      ByIdIsMember(next, f.id);
      assert o in stays && s(o) == f;
    }
    if f in Mapped(stays, s) {
      var o :| o in stays && s(o) == f;
      if o.groupId == groupId {
        ByIdIsMember(next, o.id);
      }
    }
  }

  lemma SwapHasDistinctIds(fs: seq<Forward>, groupId: Id, next: seq<Forward>)
    requires DistinctIds(fs) && DistinctIds(next)
    requires forall f, o :: f in next && o in fs && o.id == f.id ==> o.groupId == groupId
    ensures DistinctIds(Swap(fs, groupId, next))
  {
    var x := ById(next);
    var stays, s, added := Filter(fs, Stays(groupId, x)), Successor(groupId, x), Filter(next, NewTo(fs, groupId));
    SwapMeaning(fs, groupId, next);
    FilterDistinctIds(fs, Stays(groupId, x));
    FilterDistinctIds(next, NewTo(fs, groupId));
    FilterMembers(fs, Stays(groupId, x));
    FilterMembers(next, NewTo(fs, groupId));
    var kept := Mapped(stays, s);
    forall i | 0 <= i < |kept| ensures kept[i].id == stays[i].id {
      ByIdIsMember(next, stays[i].id);
    }
    forall i, j | 0 <= i < |kept| && 0 <= j < |added| ensures kept[i].id != added[j].id {
      assert stays[i] in stays && added[j] in added;
      assert stays[i].groupId == groupId ==> IsMember(fs, groupId, stays[i].id);
    }
  }

  lemma {:induction false} OthersKeepTheirPlace(fs: seq<Forward>, groupId: Id, x: map<Id, Forward>, other: Id)
    requires other != groupId && forall id :: id in x ==> x[id].groupId == groupId
    ensures Filter(Mapped(Filter(fs, Stays(groupId, x)), Successor(groupId, x)), InGroup(other)) == Filter(fs, InGroup(other))
  {
    if fs != [] {
      var init, o := fs[..|fs| - 1], fs[|fs| - 1];
      OthersKeepTheirPlace(init, groupId, x, other);
      var stays, s := Filter(init, Stays(groupId, x)), Successor(groupId, x);
      if Stays(groupId, x)(o) {
        assert Mapped(stays + [o], s) == Mapped(stays, s) + [s(o)];
        FilterOfConcat(Mapped(stays, s), [s(o)], InGroup(other));
        assert Filter([s(o)], InGroup(other)) == if o.groupId == other then [o] else [];
      }
    }
  }

  lemma IdsOfLonger(init: seq<Forward>, last: Forward)
    ensures Ids(init + [last]) == Ids(init) + {last.id}
  {
    var fs := init + [last];
    forall id ensures id in Ids(fs) <==> id in Ids(init) || id == last.id {
      if id in Ids(init) {
        var i :| 0 <= i < |init| && init[i].id == id;
        assert fs[i].id == id;
      }
      if id == last.id {
        assert fs[|init|].id == id;
      }
      if id in Ids(fs) && id != last.id {
        var i :| 0 <= i < |fs| && fs[i].id == id;
        assert init[i].id == id;
      }
    }
  }

  lemma {:induction false} DistinctCount(fs: seq<Forward>)
    requires DistinctIds(fs)
    ensures |Ids(fs)| == |fs|
  {
    if fs != [] {
      var init, last := fs[..|fs| - 1], fs[|fs| - 1];
      DistinctCount(init);
      assert fs == init + [last];
      IdsOfLonger(init, last);
      assert last.id !in Ids(init);
    }
  }

  lemma DistinctSublist(a: seq<Forward>, b: seq<Forward>)
    requires DistinctIds(a) && DistinctIds(b) && forall f :: f in a ==> f in b
    ensures |a| <= |b|
  {
    DistinctCount(a);
    DistinctCount(b);
    forall id | id in Ids(a) ensures id in Ids(b) {
      var i :| 0 <= i < |a| && a[i].id == id;
      assert a[i] in b;
    }
    SubsetSize(Ids(a), Ids(b));
  }

  lemma SubsetSize<T>(a: set<T>, b: set<T>)
    requires a <= b
    ensures |a| <= |b|
  {
    assert b == a + (b - a);
  }

  lemma SwapKeepsGroupsSmall(fs: seq<Forward>, groupId: Id, next: seq<Forward>)
    requires DistinctIds(fs) && DistinctIds(next) && GroupsSmall(fs) && |next| <= MAX_GROUP_PORTS
    requires forall n :: n in next ==> n.groupId == groupId
    requires DistinctIds(Swap(fs, groupId, next))
    ensures GroupsSmall(Swap(fs, groupId, next))
  {
    var x, out := ById(next), Swap(fs, groupId, next);
    forall g ensures |Filter(out, InGroup(g))| <= MAX_GROUP_PORTS {
      if g == groupId {
        var members := Filter(out, InGroup(g));
        FilterDistinctIds(out, InGroup(g));
        FilterMembers(out, InGroup(g));
        forall f | f in members ensures f in next {
          SwapMembers(fs, groupId, next, f);
        }
        DistinctSublist(members, next);
      } else {
        SwapMeaning(fs, groupId, next);
        forall id | id in x ensures x[id].groupId == groupId {
          ByIdIsMember(next, id);
        }
        OthersKeepTheirPlace(fs, groupId, x, g);
        var added := Filter(next, NewTo(fs, groupId));
        FilterMembers(next, NewTo(fs, groupId));
        FilterAll(added, InGroup(g));
        FilterOfConcat(Mapped(Filter(fs, Stays(groupId, x)), Successor(groupId, x)), added, InGroup(g));
      }
    }
  }

  lemma NoClashPair(next: seq<Forward>, f: Forward, o: Forward)
    requires NoClash(next) && f in next && o in next && f.id != o.id
    ensures !Clash(f, o)
  {
    var i :| 0 <= i < |next| && next[i] == f;
    var j :| 0 <= j < |next| && next[j] == o;
    assert !Clash(next[if i < j then i else j], next[if i < j then j else i]);
  }

  /** New members share no port with each other, nor with the forwards of other groups. */
  lemma SwapSharesNoPorts(fs: seq<Forward>, groupId: Id, next: seq<Forward>, out: seq<Forward>)
    requires NoSharedPorts(fs) && NoClash(next) && forall f :: f in next ==> !GroupPortConflict(fs, groupId, f)
    requires forall f :: f in out ==> (f in fs && f.groupId != groupId) || f in next
    ensures NoSharedPorts(out)
  {
    forall f, o | f in out && o in out && f.id != o.id ensures !Clash(f, o) {
      if f in next && o in next {
        NoClashPair(next, f, o);
      } else if f in next {
        assert !GroupPortConflict(fs, groupId, f);
      } else if o in next {
        assert !GroupPortConflict(fs, groupId, o);
      }
    }
  }

  lemma SwapKeepsStoreInv(cfg: Config, clients: seq<Id>, fs: seq<Forward>, groupId: Id, next: seq<Forward>, prev: seq<Forward>)
    requires StoreInv(cfg, clients, fs) && ListsGroup(fs, groupId, prev)
    requires Committable(cfg, clients, fs, groupId, next, prev) && next[0].clientId in clients
    requires forall f :: f in next ==> !GroupPortConflict(fs, groupId, f)
    ensures StoreInv(cfg, clients, Swap(fs, groupId, next))
  {
    var out := Swap(fs, groupId, next);
    SwapHasDistinctIds(fs, groupId, next);
    SwapKeepsGroupsSmall(fs, groupId, next);
    forall f ensures f in out <==> (f in fs && f.groupId != groupId) || f in next {
      SwapMembers(fs, groupId, next, f);
    }
    assert next[0] in next;
    SwapSharesNoPorts(fs, groupId, next, out);
  }

  // ----- committing keeps the invariant -----------------------------------------------------------------

  lemma SuccessAgrees(cfg: Config, st: State, groupId: Id, next: seq<Forward>, prev: seq<Forward>)
    requires Inv(cfg, st) && ListsGroup(st.forwards, groupId, prev) && GroupReady(st.net, next, prev)
    requires ApplyGroup(st.net, next, prev).1
    requires forall n :: n in next ==> n.groupId == groupId
    ensures Consistent(ApplyGroup(st.net, next, prev).0)
    ensures Agrees(ApplyGroup(st.net, next, prev).0, Swap(st.forwards, groupId, next))
  {
    var after, out := ApplyGroup(st.net, next, prev).0, Swap(st.forwards, groupId, next);
    GroupSuccess(st.net, next, prev);
    forall id | id in after.runners
      ensures exists f :: f in out && f.id == id && f.enabled && after.runners[id].Same(f)
    {
      ByIdIsMember(next, id);
      ByIdIsMember(prev, id);
      if id in ById(next) {
        var f := ById(next)[id];
        var i :| 0 <= i < |next| && next[i] == f;
        SwapMembers(st.forwards, groupId, next, f);
      } else {
        var f := RunnerIsStored(cfg, st, id);
        assert f !in prev;
        SwapMembers(st.forwards, groupId, next, f);
      }
    }
  }

  lemma FailureAgrees(cfg: Config, st: State, groupId: Id, next: seq<Forward>, prev: seq<Forward>)
    requires Inv(cfg, st) && ListsGroup(st.forwards, groupId, prev) && GroupReady(st.net, next, prev)
    requires !ApplyGroup(st.net, next, prev).1
    ensures Consistent(ApplyGroup(st.net, next, prev).0)
    ensures Agrees(ApplyGroup(st.net, next, prev).0, st.forwards)
  {
    var after := ApplyGroup(st.net, next, prev).0;
    var m := GroupFailure(st.net, next, prev);
    forall id | id in after.runners
      ensures exists f :: f in st.forwards && f.id == id && f.enabled && after.runners[id].Same(f)
    {
      assert At(m, id) == AfterFailure(st.net, next, prev, id);
      ByIdIsMember(prev, id);
      if At(m, id) == Original(st.net, prev, id) && id in ById(prev) {
        assert ById(prev)[id] in st.forwards;
      } else {
        var f := RunnerIsStored(cfg, st, id);
      }
    }
  }

  /** A commit, whether it succeeds or fails, leaves the store valid and the listeners
      in agreement with it; when it fails the stored list is untouched. */
  lemma CommitKeepsInv(cfg: Config, st: State, groupId: Id, next: seq<Forward>, prev: seq<Forward>)
    requires Inv(cfg, st) && ListsGroup(st.forwards, groupId, prev)
    requires Committable(cfg, st.clients, st.forwards, groupId, next, prev)
    ensures
      var (after, err) := CommitGroup(st, groupId, next, prev);
      && Inv(cfg, after) && after.clients == st.clients
      && (err.Some? ==> after.forwards == st.forwards)
      && (err.None? ==> after.forwards == Swap(st.forwards, groupId, next))
  {
    if next[0].clientId in st.clients && !(exists f :: f in next && GroupPortConflict(st.forwards, groupId, f)) {
      SwitchIsReady(cfg, st, groupId, next, prev);
      if ApplyGroup(st.net, next, prev).1 {
        SwapKeepsStoreInv(cfg, st.clients, st.forwards, groupId, next, prev);
        SuccessAgrees(cfg, st, groupId, next, prev);
      } else {
        FailureAgrees(cfg, st, groupId, next, prev);
      }
    }
  }
}
