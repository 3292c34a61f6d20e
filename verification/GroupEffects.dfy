/** What creating and editing a forward group achieves, and exactly how it is answered. */
module GroupEffects {
  import opened Basics
  import opened Protocols
  import opened Seqs
  import opened Entries
  import opened PortSpec
  import opened Rendering
  import opened Text
  import opened Forwards
  import opened Listeners
  import GroupSwitch
  import Sorting
  import opened Store
  import opened Groups
  import opened GroupInvariant
  import opened Api
  import opened ApiEffects
  import opened Requests
  import GroupPatch

  // ----- what is asked for and what is answered ----------------------------------------

  /** f is the member of the group for the entry e. */
  ghost predicate MemberFor(f: Forward, groupId: Id, g: GroupFields, name: string, e: PortEntry, now: int) {
    && f.groupId == groupId && f.clientId == g.clientId && f.name == name
    && f.proto == e.proto && f.publicPort == e.port
    && f.targetHost == g.targetHost && f.targetPort == e.target
    && f.enabled == g.enabled && f.updatedAt == now
  }

  /** Identity and age come from the old member on the same port with the same protocol;
      without one the id is a new one and the time is now. */
  ghost predicate Succeeds(f: Forward, fs: seq<Forward>, groupId: Id, newId: Id, now: int) {
    || (exists p :: p in fs && p.groupId == groupId && p.publicPort == f.publicPort && p.proto == f.proto
                    && f.id == p.id && f.createdAt == p.createdAt)
    || (f.id == newId && f.createdAt == now
        && forall p :: p in fs && p.groupId == groupId ==> p.publicPort != f.publicPort || p.proto != f.proto)
  }

  /** One member for each entry, in order. */
  ghost predicate Members(next: seq<Forward>, fs: seq<Forward>, groupId: Id, g: GroupFields, name: string,
                          entries: seq<PortEntry>, ids: seq<Id>, now: int) {
    && |next| == |entries| <= |ids|
    && forall i :: 0 <= i < |next| ==>
         MemberFor(next[i], groupId, g, name, entries[i], now) && Succeeds(next[i], fs, groupId, ids[i], now)
  }

  /** The answer, once the ports are read: what is wrong with the group, and then who is in
      its way. */
  ghost function GroupVerdict(cfg: Config, st: State, groupId: Id, g: GroupFields, name: string, next: seq<Forward>): Option<Failure> {
    if !GoodName(name) || !GoodHost(g.targetHost) then Some(Validation)
    else if exists f :: f in next && OnOwnPort(cfg, f) then Some(Conflict)
    else if g.clientId !in st.clients then Some(Validation)
    else if exists f, o :: f in next && o in st.forwards && o.groupId != groupId && Compete(f, o) then Some(Conflict)
    else if exists f :: f in next && TakenElsewhere(st.net.table, f) then Some(Conflict)
    else None
  }

  /** The group consists of next and runs as recorded; what it dropped is stopped, and
      nothing else has moved. */
  ghost predicate Installed(st: State, after: State, groupId: Id, next: seq<Forward>) {
    && after.clients == st.clients
    && (forall f :: f in after.forwards <==> (f in st.forwards && f.groupId != groupId) || f in next)
    && (forall f :: f in next ==> Served(after.net, f))
    && (forall f :: f in st.forwards && f.groupId == groupId && f.id !in Ids(next) ==> f.id !in after.net.runners)
    && (forall id :: id !in Ids(next) && (forall f :: f in st.forwards && f.groupId == groupId ==> f.id != id) ==>
          (id in after.net.runners <==> id in st.net.runners)
          && (id in st.net.runners ==> Relays(after.net.runners[id], st.net.runners[id])))
  }

  // ----- expanding ------------------------------------------------------------------------

  lemma MemberIsValid(cfg: Config, groupId: Id, g: GroupFields, prev: seq<Forward>, e: PortEntry, newId: Id, now: int)
    requires ValidEntry(e)
    ensures Valid(Member(groupId, g, prev, e, newId, now)) <==> ValidName(g.name) && ValidHost(g.targetHost)
    ensures Member(groupId, g, prev, e, newId, now).publicPort == e.port
  {
  }

  lemma {:induction false} ExpandAnswers(cfg: Config, groupId: Id, g: GroupFields, prev: seq<Forward>,
                                         entries: seq<PortEntry>, ids: seq<Id>, now: int, k: nat)
    requires k < |entries| <= |ids| && AllValid(entries)
    ensures
      var r := ExpandFrom(cfg, groupId, g, prev, entries, ids, now, k);
      if !ValidName(g.name) || !ValidHost(g.targetHost) then r == Err(Validation)
      else if exists i :: k <= i < |entries| && Reserved(cfg, entries[i].port) then r == Err(Conflict)
      else r.Ok?
    decreases |entries| - k
  {
    MemberIsValid(cfg, groupId, g, prev, entries[k], ids[k], now);
    if k + 1 < |entries| {
      ExpandAnswers(cfg, groupId, g, prev, entries, ids, now, k + 1);
    } else {
      assert ExpandFrom(cfg, groupId, g, prev, entries, ids, now, k + 1) == Ok([]);
    }
  }

  /** The members that expanding makes, if it does. */
  function MadeMembers(groupId: Id, g: GroupFields, prev: seq<Forward>, entries: seq<PortEntry>, ids: seq<Id>, now: int): (next: seq<Forward>)
    requires |entries| <= |ids|
    ensures MadeFrom(next, groupId, g, prev, entries, ids, now)
  {
    seq(|entries|, i requires 0 <= i < |entries| => Member(groupId, g, prev, entries[i], ids[i], now))
  }

  lemma MadeAreMembers(fs: seq<Forward>, groupId: Id, g: GroupFields, name: string, prev: seq<Forward>,
                       entries: seq<PortEntry>, ids: seq<Id>, now: int)
    requires ListsGroup(fs, groupId, prev) && |entries| <= |ids|
    ensures Members(MadeMembers(groupId, g.(name := name), prev, entries, ids, now), fs, groupId, g, name, entries, ids, now)
  {
    var next := MadeMembers(groupId, g.(name := name), prev, entries, ids, now);
    forall i | 0 <= i < |next|
      ensures MemberFor(next[i], groupId, g, name, entries[i], now) && Succeeds(next[i], fs, groupId, ids[i], now)
    {
      FindPrevFinds(prev, entries[i]);
      assert next[i] == Member(groupId, g.(name := name), prev, entries[i], ids[i], now);
    }
  }

  /** Expanding and committing, as both requests do. */
  function Put(cfg: Config, st: State, groupId: Id, g: GroupFields, prev: seq<Forward>, ids: seq<Id>, now: int): (State, Option<Failure>)
    requires |ids| >= MAX_GROUP_PORTS
  {
    match ExpandGroup(cfg, groupId, g, prev, ids, now)
    case Err(e) => (st, Some(e))
    case Ok(next) =>
      ExpandIsNotEmpty(cfg, groupId, g, prev, ids, now);
      CommitGroup(st, groupId, next, prev)
  }

  lemma ExpandIsMade(cfg: Config, groupId: Id, g: GroupFields, prev: seq<Forward>, ids: seq<Id>, now: int)
    requires |ids| >= MAX_GROUP_PORTS && ReadSpec(g.ports, g.protocol).Ok?
    ensures
      var entries := ReadSpec(g.ports, g.protocol).value;
      var named := NamedFields(g, entries);
      var r := ExpandGroup(cfg, groupId, g, prev, ids, now);
      && 1 <= |entries| <= |ids|
      && if !GoodName(named.name) || !GoodHost(g.targetHost) then r == Err(Validation)
         else if exists i :: 0 <= i < |entries| && Reserved(cfg, entries[i].port) then r == Err(Conflict)
         else r == Ok(MadeMembers(groupId, named, prev, entries, ids, now))
  {
    var entries := ReadSpec(g.ports, g.protocol).value;
    var named := NamedFields(g, entries);
    ParsedIsValid(g.ports, g.protocol);
    NameMeaning(named.name);
    HostMeaning(g.targetHost);
    ExpandAnswers(cfg, groupId, named, prev, entries, ids, now, 0);
    ExpandFromMeaning(cfg, groupId, named, prev, entries, ids, now, 0);
    var r := ExpandGroup(cfg, groupId, g, prev, ids, now);
    if r.Ok? {
      assert r.value == MadeMembers(groupId, named, prev, entries, ids, now);
    }
  }

  // ----- committing -----------------------------------------------------------------------

  /** Someone of another group listens where next is to listen. */
  lemma ConflictMeaning(fs: seq<Forward>, groupId: Id, next: seq<Forward>)
    ensures (exists f :: f in next && GroupPortConflict(fs, groupId, f)) <==>
            exists f, o :: f in next && o in fs && o.groupId != groupId && Compete(f, o)
  {
    if f :| f in next && GroupPortConflict(fs, groupId, f) {
      var o :| o in fs && o.groupId != groupId && Clash(f, o);
      CompeteMeaning(f, o);
    }
    if f, o :| f in next && o in fs && o.groupId != groupId && Compete(f, o) {
      CompeteMeaning(f, o);
      assert GroupPortConflict(fs, groupId, f);
    }
  }

  lemma ForeignMeaning(table: map<Socket, Owner>, next: seq<Forward>)
    ensures (exists f :: f in next && f.enabled && ForeignOn(table, f)) <==> exists f :: f in next && TakenElsewhere(table, f)
  {
    if f :| f in next && f.enabled && ForeignOn(table, f) {
      TakenMeaning(table, f);
    }
    if f :| f in next && TakenElsewhere(table, f) {
      TakenMeaning(table, f);
    }
  }

  lemma CommitAnswers(cfg: Config, st: State, groupId: Id, g: GroupFields, name: string, next: seq<Forward>, prev: seq<Forward>)
    requires Inv(cfg, st) && ListsGroup(st.forwards, groupId, prev)
    requires Committable(cfg, st.clients, st.forwards, groupId, next, prev)
    requires GoodName(name) && GoodHost(g.targetHost) && next[0].clientId == g.clientId
    requires forall f :: f in next ==> !OnOwnPort(cfg, f)
    ensures CommitGroup(st, groupId, next, prev).1 == GroupVerdict(cfg, st, groupId, g, name, next)
  {
    CommitEffect(cfg, st, groupId, next, prev);
    ConflictMeaning(st.forwards, groupId, next);
    ForeignMeaning(st.net.table, next);
  }

  lemma CommitInstalls(cfg: Config, st: State, groupId: Id, next: seq<Forward>, prev: seq<Forward>)
    requires Inv(cfg, st) && ListsGroup(st.forwards, groupId, prev)
    requires Committable(cfg, st.clients, st.forwards, groupId, next, prev)
    ensures
      var (after, err) := CommitGroup(st, groupId, next, prev);
      && (err.None? ==> Installed(st, after, groupId, next))
      && (err.Some? ==> after.forwards == st.forwards && after.clients == st.clients)
  {
    CommitEffect(cfg, st, groupId, next, prev);
    forall id | id in Ids(prev) ensures exists f :: f in st.forwards && f.groupId == groupId && f.id == id {
      var i :| 0 <= i < |prev| && prev[i].id == id;
      assert prev[i] in prev;
    }
  }

  // ----- the requests -----------------------------------------------------------------------

  /** The ports are read or the request is refused; then the group has one member for each of
      them, or the request is refused for the stated reason and the stored list is as it was. */
  ghost predicate Outcome(cfg: Config, st: State, groupId: Id, g: GroupFields, ids: seq<Id>, now: int,
                          next: seq<Forward>, r: (State, Option<Failure>)) {
    match ReadSpec(g.ports, g.protocol)
    case Err(_) => r == (st, Some(Validation))
    case Ok(entries) =>
      var name := if g.name == "" then Render(entries) else g.name;
      && Members(next, st.forwards, groupId, g, name, entries, ids, now)
      && r.1 == GroupVerdict(cfg, st, groupId, g, name, next)
      && (r.1.None? ==> Installed(st, r.0, groupId, next))
      && (r.1.Some? ==> r.0.forwards == st.forwards && r.0.clients == st.clients)
  }

  lemma PutEffect(cfg: Config, st: State, groupId: Id, g: GroupFields, prev: seq<Forward>, ids: seq<Id>, now: int)
    returns (next: seq<Forward>)
    requires Inv(cfg, st) && ListsGroup(st.forwards, groupId, prev) && FreshIds(ids, st.forwards)
    ensures Outcome(cfg, st, groupId, g, ids, now, next, Put(cfg, st, groupId, g, prev, ids, now))
    ensures Put(cfg, st, groupId, g, prev, ids, now).1.None? ==> Committed(cfg, st, groupId, g, prev, ids, now, next)
    ensures ReadSpec(g.ports, g.protocol).Err? ==> next == []
  {
    next := [];
    if ReadSpec(g.ports, g.protocol).Ok? {
      var entries := ReadSpec(g.ports, g.protocol).value;
      var named := NamedFields(g, entries);
      ExpandIsMade(cfg, groupId, g, prev, ids, now);
      MadeAreMembers(st.forwards, groupId, g, named.name, prev, entries, ids, now);
      assert named == g.(name := named.name);
      next := MadeMembers(groupId, named, prev, entries, ids, now);
      PutAnswers(cfg, st, groupId, g, prev, ids, now, named, entries, next);
    }
  }

  /** next is what has been committed. */
  ghost predicate Committed(cfg: Config, st: State, groupId: Id, g: GroupFields, prev: seq<Forward>, ids: seq<Id>, now: int, next: seq<Forward>)
    requires |ids| >= MAX_GROUP_PORTS
  {
    && next != [] && DistinctIds(next)
    && Put(cfg, st, groupId, g, prev, ids, now) == CommitGroup(st, groupId, next, prev)
  }

  lemma PutAnswers(cfg: Config, st: State, groupId: Id, g: GroupFields, prev: seq<Forward>, ids: seq<Id>, now: int,
                   named: GroupFields, entries: seq<PortEntry>, next: seq<Forward>)
    requires Inv(cfg, st) && ListsGroup(st.forwards, groupId, prev) && FreshIds(ids, st.forwards)
    requires ReadSpec(g.ports, g.protocol) == Ok(entries) && named == NamedFields(g, entries) && 1 <= |entries| <= |ids|
    requires next == MadeMembers(groupId, named, prev, entries, ids, now)
    ensures
      var r := Put(cfg, st, groupId, g, prev, ids, now);
      && r.1 == GroupVerdict(cfg, st, groupId, g, named.name, next)
      && (r.1.None? ==> Committed(cfg, st, groupId, g, prev, ids, now, next) && Installed(st, r.0, groupId, next))
      && (r.1.Some? ==> r.0.forwards == st.forwards && r.0.clients == st.clients)
  {
    ExpandIsMade(cfg, groupId, g, prev, ids, now);
    OwnPortsMeaning(cfg, entries, next);
    if ExpandGroup(cfg, groupId, g, prev, ids, now).Ok? {
      ExpandIsCommittable(cfg, st.clients, st.forwards, groupId, g, prev, ids, now);
      CommitAnswers(cfg, st, groupId, g, named.name, next, prev);
      CommitInstalls(cfg, st, groupId, next, prev);
    }
  }

  lemma OwnPortsMeaning(cfg: Config, entries: seq<PortEntry>, next: seq<Forward>)
    requires |next| == |entries| && forall i :: 0 <= i < |next| ==> next[i].publicPort == entries[i].port
    ensures (exists f :: f in next && OnOwnPort(cfg, f)) <==> exists i :: 0 <= i < |entries| && Reserved(cfg, entries[i].port)
  {
    if f :| f in next && OnOwnPort(cfg, f) {
      var i :| 0 <= i < |next| && next[i] == f;
      assert Reserved(cfg, entries[i].port);
    }
    if i :| 0 <= i < |entries| && Reserved(cfg, entries[i].port) {
      assert next[i] in next && OnOwnPort(cfg, next[i]);
    }
  }

  lemma NewGroupIsAppended(fs: seq<Forward>, groupId: Id, next: seq<Forward>)
    requires DistinctIds(fs) && DistinctIds(next) && forall f :: f in fs ==> f.groupId != groupId
    ensures Swap(fs, groupId, next) == fs + next
  {
    var x := GroupSwitch.ById(next);
    SwapMeaning(fs, groupId, next);
    FilterAll(fs, Stays(groupId, x));
    FilterAll(next, NewTo(fs, groupId));
    assert forall i :: 0 <= i < |fs| ==> fs[i] in fs;
    assert Mapped(fs, Successor(groupId, x)) == fs;
  }

  const NEW_GROUP := GroupFields(NO_ID, "", "tcp", "", "127.0.0.1", true)

  lemma CreateAppends(cfg: Config, st: State, groupId: Id, g: GroupFields, ids: seq<Id>, now: int, next: seq<Forward>)
    requires Inv(cfg, st) && FreshIds(ids, st.forwards) && forall f :: f in st.forwards ==> f.groupId != groupId
    requires Committed(cfg, st, groupId, g, [], ids, now, next) && Put(cfg, st, groupId, g, [], ids, now).1.None?
    ensures Put(cfg, st, groupId, g, [], ids, now).0.forwards == st.forwards + next
  {
    NewGroupIsAppended(st.forwards, groupId, next);
    GroupPatch.CommitResult(st, groupId, next, []);
  }

  /** A new group: what is not given is tcp, this machine, enabled and without a name. */
  lemma CreateGroupEffect(cfg: Config, st: State, inp: GroupInput, groupId: Id, ids: seq<Id>, now: int)
    returns (g: GroupFields, next: seq<Forward>)
    requires Inv(cfg, st) && Possible(st, ReqCreateGroup(inp, groupId, ids, now))
    ensures GroupEdited(inp, GroupFields(NO_ID, "", "tcp", "", "127.0.0.1", true), g)
    ensures Outcome(cfg, st, groupId, g, ids, now, next, CreateGroup(cfg, st, inp, groupId, ids, now))
    ensures CreateGroup(cfg, st, inp, groupId, ids, now).1.None? ==>
              CreateGroup(cfg, st, inp, groupId, ids, now).0.forwards == st.forwards + next
    ensures forall i :: 0 <= i < |next| ==> i < |ids| && next[i].id == ids[i] && next[i].createdAt == now
  {
    g := ApplyGroupInput(inp, NEW_GROUP);
    GroupEditMeaning(inp, NEW_GROUP);
    assert ListsGroup(st.forwards, groupId, []);
    next := PutEffect(cfg, st, groupId, g, [], ids, now);
    assert CreateGroup(cfg, st, inp, groupId, ids, now) == Put(cfg, st, groupId, g, [], ids, now);
    if Put(cfg, st, groupId, g, [], ids, now).1.None? {
      CreateAppends(cfg, st, groupId, g, ids, now, next);
    }
    NewIds(cfg, st, groupId, g, ids, now, next);
  }

  lemma NewIds(cfg: Config, st: State, groupId: Id, g: GroupFields, ids: seq<Id>, now: int, next: seq<Forward>)
    requires |ids| >= MAX_GROUP_PORTS && forall f :: f in st.forwards ==> f.groupId != groupId
    requires Outcome(cfg, st, groupId, g, ids, now, next, Put(cfg, st, groupId, g, [], ids, now))
    requires ReadSpec(g.ports, g.protocol).Err? ==> next == []
    ensures forall i :: 0 <= i < |next| ==> i < |ids| && next[i].id == ids[i] && next[i].createdAt == now
  {
    if ReadSpec(g.ports, g.protocol).Ok? {
      forall i | 0 <= i < |next| ensures i < |ids| && next[i].id == ids[i] && next[i].createdAt == now {
        assert Succeeds(next[i], st.forwards, groupId, ids[i], now);
      }
    }
  }

  /** The fields that the group has so far: client, name and host of its first member in the
      order of ports, enabled when all are, and its ports in the canonical form. */
  ghost predicate Current(fs: seq<Forward>, id: Id, cur: GroupFields) {
    && cur.protocol == "tcp"
    && (cur.enabled <==> forall f :: f in fs && f.groupId == id ==> f.enabled)
    && (exists first :: LeadsGroup(fs, id, first)
          && cur.clientId == first.clientId && cur.name == first.name && cur.targetHost == first.targetHost)
    && (exists members, es :: ListsGroup(fs, id, members) && AreEntries(members, es) && cur.ports == Render(es))
  }

  ghost predicate LeadsGroup(fs: seq<Forward>, id: Id, first: Forward) {
    && first in fs && first.groupId == id
    && forall f :: f in fs && f.groupId == id && f != first ==>
         || first.publicPort < f.publicPort
         || (first.publicPort == f.publicPort && LessText(ProtoText(first.proto), ProtoText(f.proto)))
  }

  ghost predicate AreEntries(fs: seq<Forward>, es: seq<PortEntry>) {
    && |es| == |fs|
    && forall i :: 0 <= i < |fs| ==> es[i] == PortEntry(fs[i].publicPort, fs[i].proto, fs[i].targetPort)
  }

  lemma CurrentMeaning(cfg: Config, st: State, id: Id)
    requires Inv(cfg, st) && ForwardsInGroup(st.forwards, id) != []
    ensures ListsGroup(st.forwards, id, ForwardsInGroup(st.forwards, id))
    ensures Current(st.forwards, id, CurrentFields(ForwardsInGroup(st.forwards, id)))
  {
    var prev := ForwardsInGroup(st.forwards, id);
    GroupMembers(st.forwards, id);
    GroupHasDistinctIds(st.forwards, id);
    assert AreEntries(prev, Mapped(prev, EntryOf));
    FirstLeads(cfg, st, id);
  }

  lemma FirstLeads(cfg: Config, st: State, id: Id)
    requires Inv(cfg, st) && ForwardsInGroup(st.forwards, id) != []
    ensures LeadsGroup(st.forwards, id, ForwardsInGroup(st.forwards, id)[0])
  {
    var prev := ForwardsInGroup(st.forwards, id);
    var first := prev[0];
    GroupMembers(st.forwards, id);
    Sorting.SortOrders(Filter(st.forwards, InGroup(id)), ForwardKey);
    assert first in prev;
    forall f | f in st.forwards && f.groupId == id && f != first
      ensures first.publicPort < f.publicPort
              || (first.publicPort == f.publicPort && LessText(ProtoText(first.proto), ProtoText(f.proto)))
    {
      assert f in prev;
      var i :| 0 <= i < |prev| && prev[i] == f;
      assert ForwardKey(first) <= ForwardKey(f);
      if first.id == f.id { IdIsIdentity(st.forwards, first, f); }
      assert !Clash(first, f);
      KeyIsOrder(EntryOf(first), EntryOf(f));
    }
  }

  lemma UpdateIsPut(cfg: Config, st: State, id: Id, inp: GroupInput, ids: seq<Id>, now: int)
    requires |ids| >= MAX_GROUP_PORTS
    ensures
      var prev := ForwardsInGroup(st.forwards, id);
      if prev == [] then UpdateGroup(cfg, st, id, inp, ids, now) == (st, Some(NotFound))
      else UpdateGroup(cfg, st, id, inp, ids, now) == Put(cfg, st, id, ApplyGroupInput(inp, CurrentFields(prev)), prev, ids, now)
  {
  }

  /** An edit of a group starts from the fields it has. */
  lemma UpdateGroupEffect(cfg: Config, st: State, id: Id, inp: GroupInput, ids: seq<Id>, now: int)
    returns (cur: GroupFields, g: GroupFields, next: seq<Forward>)
    requires Inv(cfg, st) && Possible(st, ReqUpdateGroup(id, inp, ids, now))
    ensures
      var r := UpdateGroup(cfg, st, id, inp, ids, now);
      if forall f :: f in st.forwards ==> f.groupId != id then r == (st, Some(NotFound))
      else Current(st.forwards, id, cur) && GroupEdited(inp, cur, g) && Outcome(cfg, st, id, g, ids, now, next, r)
  {
    var prev := ForwardsInGroup(st.forwards, id);
    GroupMembers(st.forwards, id);
    UpdateIsPut(cfg, st, id, inp, ids, now);
    if prev == [] {
      cur, g, next := NEW_GROUP, NEW_GROUP, [];
    } else {
      assert prev[0] in prev;
      CurrentMeaning(cfg, st, id);
      cur := CurrentFields(prev);
      g := ApplyGroupInput(inp, cur);
      GroupEditMeaning(inp, cur);
      next := PutEffect(cfg, st, id, g, prev, ids, now);
    }
  }

  /** An edit without ports changes the members where they stand: each keeps its identity,
      its age, its ports and its protocol, and takes the other fields from the group. */
  lemma PortsFreeEditEffect(cfg: Config, st: State, id: Id, inp: GroupInput, ids: seq<Id>, now: int)
    returns (cur: GroupFields, g: GroupFields)
    requires Inv(cfg, st) && Possible(st, ReqUpdateGroup(id, inp, ids, now))
    requires inp.ports.None? && UpdateGroup(cfg, st, id, inp, ids, now).1.None?
    ensures Current(st.forwards, id, cur) && GroupEdited(inp, cur, g)
    ensures
      var after := UpdateGroup(cfg, st, id, inp, ids, now).0.forwards;
      && |after| == |st.forwards|
      && forall k :: 0 <= k < |after| ==>
           var f := st.forwards[k];
           if f.groupId != id then after[k] == f
           else after[k] == Forward(f.id, g.clientId, id, if g.name == "" then cur.ports else g.name,
                                    f.proto, f.publicPort, g.targetHost, f.targetPort, g.enabled, f.createdAt, now)
  {
    var prev := ForwardsInGroup(st.forwards, id);
    UpdateIsPut(cfg, st, id, inp, ids, now);
    CurrentMeaning(cfg, st, id);
    cur := CurrentFields(prev);
    g := ApplyGroupInput(inp, cur);
    GroupEditMeaning(inp, cur);
    GroupPatch.PatchKeepsPlaces(cfg, st, id, inp, ids, now);
    var change := GroupPatch.Patched(GroupPatch.PatchFields(inp, prev), now);
    assert UpdateGroup(cfg, st, id, inp, ids, now).0.forwards == Mapped(st.forwards, GroupPatch.InPlace(id, change));
  }
}
