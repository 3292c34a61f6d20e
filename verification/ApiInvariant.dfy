/** Every request keeps the invariant, so it holds in every reachable state. */
module ApiInvariant {
  import opened Seqs
  import opened PortSpec
  import opened Forwards
  import opened Listeners
  import opened GroupSwitch
  import opened GroupSafety
  import opened Startup
  import opened Store
  import opened Groups
  import opened GroupInvariant
  import opened Api

  // ----- adding and replacing one forward ----------------------------------------------

  lemma AppendKeepsStoreInv(cfg: Config, clients: seq<Id>, fs: seq<Forward>, f: Forward)
    requires StoreInv(cfg, clients, fs)
    requires Storable(cfg, f) && f.id != NO_ID && f.clientId in clients && !PortConflict(fs, f)
    requires forall o :: o in fs ==> o.id != f.id && o.groupId != f.groupId
    ensures StoreInv(cfg, clients, fs + [f])
  {
    var out := fs + [f];
    forall i, j | 0 <= i < j < |out| ensures out[i].id != out[j].id {
      assert out[i] in fs;
    }
    forall g ensures |Filter(out, InGroup(g))| <= MAX_GROUP_PORTS {
      FilterOfConcat(fs, [f], InGroup(g));
      FilterMembers([f], InGroup(g));
      if g == f.groupId {
        FilterAll(fs, InGroup(g));
      } else {
        FilterAll([f], InGroup(g));
      }
    }
  }

  lemma {:induction false} FilterOfUpdate(fs: seq<Forward>, i: nat, f: Forward, g: Id)
    requires i < |fs| && f.groupId == fs[i].groupId
    ensures |Filter(fs[i := f], InGroup(g))| == |Filter(fs, InGroup(g))|
  {
    var init := fs[..|fs| - 1];
    if i < |fs| - 1 {
      FilterOfUpdate(init, i, f, g);
      assert fs[i := f][..|fs| - 1] == init[i := f];
    } else {
      assert fs[i := f][..|fs| - 1] == init;
    }
  }

  lemma UpdatedMembers(fs: seq<Forward>, i: nat, f: Forward, o: Forward)
    requires i < |fs| && DistinctIds(fs) && f.id == fs[i].id
    ensures o in fs[i := f] <==> o == f || (o in fs && o.id != f.id)
  {
    var out := fs[i := f];
    if o in out {
      var j :| 0 <= j < |out| && out[j] == o;
      if j != i {
        assert fs[j].id != fs[i].id by {
          if j < i {
            assert fs[j].id != fs[i].id;
          } else {
            assert fs[i].id != fs[j].id;
          }
        }
      }
    }
    if o == f {
      assert out[i] == o;
    }
    if o in fs && o.id != f.id {
      var j :| 0 <= j < |fs| && fs[j] == o;
      assert out[j] == o;
    }
  }

  lemma LoneMember(fs: seq<Forward>, f: Forward, o: Forward)
    requires f in fs && o in fs && f.groupId == o.groupId && |ForwardsInGroup(fs, f.groupId)| <= 1
    ensures f == o
  {
    GroupMembers(fs, f.groupId);
    var members := ForwardsInGroup(fs, f.groupId);
    assert f in members && o in members;
  }

  lemma UpdateKeepsStoreInv(cfg: Config, clients: seq<Id>, fs: seq<Forward>, i: nat, f: Forward)
    requires StoreInv(cfg, clients, fs) && i < |fs|
    requires f.id == fs[i].id && f.groupId == fs[i].groupId
    requires Storable(cfg, f) && f.clientId in clients && !PortConflict(fs, f)
    requires f.clientId == fs[i].clientId || |ForwardsInGroup(fs, f.groupId)| <= 1
    ensures StoreInv(cfg, clients, fs[i := f])
  {
    var out := fs[i := f];
    assert fs[i] in fs;
    forall g ensures |Filter(out, InGroup(g))| <= MAX_GROUP_PORTS {
      FilterOfUpdate(fs, i, f, g);
    }
    forall o ensures o in out <==> o == f || (o in fs && o.id != f.id) {
      UpdatedMembers(fs, i, f, o);
    }
    forall o | o in fs && o.id != f.id && o.groupId == f.groupId ensures o.clientId == f.clientId {
      if f.clientId != fs[i].clientId {
        LoneMember(fs, fs[i], o);
      }
    }
  }

  // ----- one listener at a time -------------------------------------------------------------

  /** Storing f and applying it keeps the listeners in agreement with the store. */
  lemma ApplyAgrees(net: Net, fs: seq<Forward>, f: Forward, out: seq<Forward>)
    requires Consistent(net) && Agrees(net, fs) && Apply(net, f).1
    requires f in out && forall o :: o in fs && o.id != f.id ==> o in out
    ensures Consistent(Apply(net, f).0) && Agrees(Apply(net, f).0, out)
  {
    ApplyMeaning(net, f);
    var after := Apply(net, f).0;
    forall id | id in after.runners
      ensures exists o :: o in out && o.id == id && o.enabled && after.runners[id].Same(o)
    {
      if id != f.id {
        ApplyKeepsOthers(net, f, id);
        var o :| o in fs && o.id == id && o.enabled && net.runners[id].Same(o);
        assert o in out;
      }
    }
  }

  lemma {:induction false} RemoveFromMeaning(net: Net, fs: seq<Forward>, k: nat)
    requires Consistent(net) && k <= |fs|
    ensures
      var after := RemoveFrom(net, fs, k);
      && Consistent(after) && SameForeign(after.table, net.table)
      && (forall id :: id in after.runners <==> id in net.runners && forall i :: k <= i < |fs| ==> fs[i].id != id)
      && (forall id :: id in after.runners ==> after.runners[id] == net.runners[id])
    decreases |fs| - k
  {
    if k < |fs| {
      RemoveKeepsConsistent(net, fs[k].id);
      RemoveFromMeaning(Remove(net, fs[k].id), fs, k + 1);
    }
  }

  /** Dropping forwards from the store and stopping their runners. */
  lemma DropAgrees(net: Net, fs: seq<Forward>, removed: seq<Forward>, keep: Forward -> bool)
    requires Consistent(net) && Agrees(net, fs)
    requires forall f :: f in fs && !keep(f) ==> f in removed
    ensures Consistent(RemoveFrom(net, removed, 0)) && Agrees(RemoveFrom(net, removed, 0), Filter(fs, keep))
  {
    RemoveFromMeaning(net, removed, 0);
    FilterMembers(fs, keep);
    var after := RemoveFrom(net, removed, 0);
    forall f | f in removed ensures f.id !in after.runners {
      var i :| 0 <= i < |removed| && removed[i] == f;
    }
    forall id | id in after.runners
      ensures exists f :: f in Filter(fs, keep) && f.id == id && f.enabled && after.runners[id].Same(f)
    {
      var f :| f in fs && f.id == id && f.enabled && net.runners[id].Same(f);
      assert keep(f);
    }
  }

  // ----- request by request ---------------------------------------------------------------------

  lemma CreateForwardKeepsInv(cfg: Config, st: State, inp: ForwardInput, id: Id, now: int)
    requires Inv(cfg, st) && Possible(st, ReqCreateForward(inp, id, now))
    ensures
      var (after, err) := CreateForward(cfg, st, inp, id, now);
      Inv(cfg, after) && (err.Some? ==> after == st)
  {
    var f := NewForward(inp, id, now);
    assert id !in st.net.runners;
    ApplyMeaning(st.net, f);
    if Valid(f) && !Reserved(cfg, f.publicPort) && f.clientId in st.clients && !PortConflict(st.forwards, f) && Apply(st.net, f).1 {
      AppendKeepsStoreInv(cfg, st.clients, st.forwards, f);
      ApplyAgrees(st.net, st.forwards, f, st.forwards + [f]);
    }
  }

  /** Replacing a stored forward whose successor could be applied. */
  lemma ReplacedKeepsInv(cfg: Config, st: State, i: nat, next: Forward)
    requires Inv(cfg, st) && i < |st.forwards| && Apply(st.net, next).1
    requires StoreInv(cfg, st.clients, st.forwards[i := next]) && next.id == st.forwards[i].id
    ensures Inv(cfg, State(st.clients, st.forwards[i := next], Apply(st.net, next).0))
  {
    var out := st.forwards[i := next];
    forall o ensures o in out <==> o == next || (o in st.forwards && o.id != next.id) {
      UpdatedMembers(st.forwards, i, next, o);
    }
    ApplyAgrees(st.net, st.forwards, next, out);
  }

  lemma UpdateForwardKeepsInv(cfg: Config, st: State, id: Id, inp: ForwardInput, now: int)
    requires Inv(cfg, st)
    ensures
      var (after, err) := UpdateForward(cfg, st, id, inp, now);
      Inv(cfg, after) && (err.Some? ==> after == st)
  {
    var i := IndexOf(st.forwards, id);
    if i < |st.forwards| {
      var next := ApplyForwardInput(inp, st.forwards[i]).(updatedAt := now);
      ApplyMeaning(st.net, next);
      if UpdateForward(cfg, st, id, inp, now).1.None? {
        UpdateKeepsStoreInv(cfg, st.clients, st.forwards, i, next);
        ReplacedKeepsInv(cfg, st, i, next);
      }
    }
  }

  lemma RemovedAgrees(net: Net, fs: seq<Forward>, out: seq<Forward>, id: Id)
    requires Consistent(net) && Agrees(net, fs) && forall f :: f in fs && f.id != id ==> f in out
    ensures Consistent(Remove(net, id)) && Agrees(Remove(net, id), out)
  {
    RemoveKeepsConsistent(net, id);
    var after := Remove(net, id);
    forall i | i in after.runners ensures exists f :: f in out && f.id == i && f.enabled && after.runners[i].Same(f) {
      var f :| f in fs && f.id == i && f.enabled && net.runners[i].Same(f);
      assert f in out;
    }
  }

  lemma DeleteForwardKeepsInv(cfg: Config, st: State, id: Id)
    requires Inv(cfg, st)
    ensures Inv(cfg, DeleteForward(st, id).0)
  {
    FilterKeepsStoreInv(cfg, st.clients, st.forwards, NotWithId(id));
    FilterMembers(st.forwards, NotWithId(id));
    RemovedAgrees(st.net, st.forwards, Filter(st.forwards, NotWithId(id)), id);
  }

  lemma DeleteGroupKeepsInv(cfg: Config, st: State, id: Id)
    requires Inv(cfg, st)
    ensures Inv(cfg, DeleteGroup(st, id).0)
  {
    var removed := ForwardsInGroup(st.forwards, id);
    GroupMembers(st.forwards, id);
    FilterKeepsStoreInv(cfg, st.clients, st.forwards, NotInGroup(id));
    DropAgrees(st.net, st.forwards, removed, NotInGroup(id));
  }

  lemma DeleteClientKeepsInv(cfg: Config, st: State, id: Id)
    requires Inv(cfg, st)
    ensures Inv(cfg, DeleteClient(st, id).0)
  {
    FilterKeepsStoreInv(cfg, st.clients, st.forwards, NotOfClient(id));
    FilterMembers(st.forwards, NotOfClient(id));
    FilterMembers(st.forwards, OfClient(id));
    FilterMembers(st.clients, OtherThan(id));
    DropAgrees(st.net, st.forwards, Filter(st.forwards, OfClient(id)), NotOfClient(id));
  }

  lemma CreateGroupKeepsInv(cfg: Config, st: State, inp: GroupInput, groupId: Id, ids: seq<Id>, now: int)
    requires Inv(cfg, st) && Possible(st, ReqCreateGroup(inp, groupId, ids, now))
    ensures
      var (after, err) := CreateGroup(cfg, st, inp, groupId, ids, now);
      && Inv(cfg, after) && after.clients == st.clients
      && (err.Some? ==> after.forwards == st.forwards && SameNet(after.net, st.net))
  {
    var g := ApplyGroupInput(inp, GroupFields(NO_ID, "", "tcp", "", "127.0.0.1", true));
    assert ListsGroup(st.forwards, groupId, []);
    if ExpandGroup(cfg, groupId, g, [], ids, now).Ok? {
      var next := ExpandGroup(cfg, groupId, g, [], ids, now).value;
      ExpandIsCommittable(cfg, st.clients, st.forwards, groupId, g, [], ids, now);
      CommitKeepsInv(cfg, st, groupId, next, []);
      FailedCommitOfRunningGroup(cfg, st, groupId, next, []);
    }
  }

  lemma UnchangedIsSame(net: Net)
    requires Consistent(net)
    ensures SameNet(net, net)
  {
  }

  /** A refused commit leaves the listeners alone when the old members are running. */
  lemma FailedCommitOfRunningGroup(cfg: Config, st: State, groupId: Id, next: seq<Forward>, prev: seq<Forward>)
    requires Inv(cfg, st) && ListsGroup(st.forwards, groupId, prev)
    requires Committable(cfg, st.clients, st.forwards, groupId, next, prev)
    requires forall f :: f in prev && f.enabled ==> f.id in st.net.runners
    ensures CommitGroup(st, groupId, next, prev).1.Some? ==> SameNet(CommitGroup(st, groupId, next, prev).0.net, st.net)
  {
    UnchangedIsSame(st.net);
    if next[0].clientId in st.clients && !(exists f :: f in next && GroupPortConflict(st.forwards, groupId, f)) {
      SwitchIsReady(cfg, st, groupId, next, prev);
      if !ApplyGroup(st.net, next, prev).1 {
        RunningGroupIsRestored(st.net, next, prev);
      }
    }
  }

  lemma UpdateGroupKeepsInv(cfg: Config, st: State, id: Id, inp: GroupInput, ids: seq<Id>, now: int)
    requires Inv(cfg, st) && Possible(st, ReqUpdateGroup(id, inp, ids, now))
    ensures
      var (after, err) := UpdateGroup(cfg, st, id, inp, ids, now);
      && Inv(cfg, after) && after.clients == st.clients
      && (err.Some? ==> after.forwards == st.forwards)
      && (err.Some? && (forall f :: f in st.forwards && f.groupId == id && f.enabled ==> f.id in st.net.runners) ==>
            SameNet(after.net, st.net))
  {
    var prev := ForwardsInGroup(st.forwards, id);
    GroupMembers(st.forwards, id);
    GroupHasDistinctIds(st.forwards, id);
    UnchangedIsSame(st.net);
    if prev != [] {
      var g := ApplyGroupInput(inp, CurrentFields(prev));
      if ExpandGroup(cfg, id, g, prev, ids, now).Ok? {
        var next := ExpandGroup(cfg, id, g, prev, ids, now).value;
        ExpandIsCommittable(cfg, st.clients, st.forwards, id, g, prev, ids, now);
        CommitKeepsInv(cfg, st, id, next, prev);
        if forall f :: f in st.forwards && f.groupId == id && f.enabled ==> f.id in st.net.runners {
          FailedCommitOfRunningGroup(cfg, st, id, next, prev);
        }
      }
    }
  }

  lemma StoredDoNotClash(cfg: Config, clients: seq<Id>, fs: seq<Forward>)
    requires StoreInv(cfg, clients, fs)
    ensures NoClashById(ById(fs))
  {
    forall i, j | 0 <= i < j < |fs| ensures !Clash(fs[i], fs[j]) {
      assert fs[i] in fs && fs[j] in fs && fs[i].id != fs[j].id;
    }
    ByIdNoClash(fs);
  }

  lemma StartKeepsInv(cfg: Config, st: State, table: map<Socket, Owner>)
    requires Inv(cfg, st) && Possible(st, Start(table))
    ensures Inv(cfg, st.(net := SyncAll(Net(map[], table), st.forwards).0))
  {
    StoredDoNotClash(cfg, st.clients, st.forwards);
    SyncMeaning(Net(map[], table), st.forwards);
    var net := SyncAll(Net(map[], table), st.forwards).0;
    forall id | id in net.runners
      ensures exists f :: f in st.forwards && f.id == id && f.enabled && net.runners[id].Same(f)
    {
      ByIdIsMember(st.forwards, id);
    }
  }

  lemma HostChangeKeepsConsistent(net: Net, table: map<Socket, Owner>)
    requires Consistent(net)
    requires forall s, id :: (s in table && table[s] == Held(id)) <==> (s in net.table && net.table[s] == Held(id))
    ensures Consistent(net.(table := table))
  {
    forall id, s | id in net.runners && Needs(net.runners[id], s) ensures s in table && table[s] == Held(id) {
      assert net.table[s] == Held(id);
    }
    forall s | s in table && table[s].Held?
      ensures table[s].id in net.runners && Needs(net.runners[table[s].id], s)
    {
      assert table[s] == Held(table[s].id);
    }
  }

  lemma HostChangeKeepsInv(cfg: Config, st: State, table: map<Socket, Owner>)
    requires Inv(cfg, st) && Possible(st, HostChange(table))
    ensures Inv(cfg, st.(net := st.net.(table := table)))
  {
    HostChangeKeepsConsistent(st.net, table);
  }

  lemma ServeKeepsInv(cfg: Config, st: State, req: Request)
    requires Inv(cfg, st) && Possible(st, req)
    ensures Inv(cfg, Serve(cfg, st, req).0)
  {
    match req
    case ReqCreateClient(id) =>
    case ReqDeleteClient(id) => DeleteClientKeepsInv(cfg, st, id);
    case ReqCreateForward(inp, id, now) => CreateForwardKeepsInv(cfg, st, inp, id, now);
    case ReqUpdateForward(id, inp, now) => UpdateForwardKeepsInv(cfg, st, id, inp, now);
    case ReqDeleteForward(id) => DeleteForwardKeepsInv(cfg, st, id);
    case ReqCreateGroup(inp, groupId, ids, now) => CreateGroupKeepsInv(cfg, st, inp, groupId, ids, now);
    case ReqUpdateGroup(id, inp, ids, now) => UpdateGroupKeepsInv(cfg, st, id, inp, ids, now);
    case ReqDeleteGroup(id) => DeleteGroupKeepsInv(cfg, st, id);
    case Start(table) => StartKeepsInv(cfg, st, table);
    case HostChange(table) => HostChangeKeepsInv(cfg, st, table);
  }

  // ----- every run ----------------------------------------------------------------------------------

  /** The request is possible and leads from one state to the other. */
  ghost predicate Leads(cfg: Config, before: State, req: Request, after: State) {
    Possible(before, req) && after == Serve(cfg, before, req).0
  }

  /** A run: each state follows from the one before by one possible request. */
  ghost predicate IsRun(cfg: Config, states: seq<State>, reqs: seq<Request>) {
    && |states| == |reqs| + 1
    && states[0] == State([], [], Net(map[], map[]))
    && forall i :: 0 <= i < |reqs| ==> Leads(cfg, states[i], reqs[i], states[i + 1])
  }

  lemma EmptyIsSound(cfg: Config)
    ensures Inv(cfg, State([], [], Net(map[], map[])))
  {
    assert forall g :: Filter([], InGroup(g)) == [];
  }

  lemma LeadsKeepsInv(cfg: Config, before: State, req: Request, after: State)
    requires Inv(cfg, before) && Leads(cfg, before, req, after)
    ensures Inv(cfg, after)
  {
    ServeKeepsInv(cfg, before, req);
  }

  lemma StepKeepsInv(cfg: Config, states: seq<State>, reqs: seq<Request>, i: nat)
    requires IsRun(cfg, states, reqs) && i < |reqs| && Inv(cfg, states[i])
    ensures Inv(cfg, states[i + 1])
  {
    LeadsKeepsInv(cfg, states[i], reqs[i], states[i + 1]);
  }

  lemma StartIsSound(cfg: Config, states: seq<State>, reqs: seq<Request>)
    requires IsRun(cfg, states, reqs)
    ensures Inv(cfg, states[0])
  {
    EmptyIsSound(cfg);
  }

  /** The invariant holds after every prefix of every run, failed requests included. */
  lemma EveryReachableStateIsSound(cfg: Config, states: seq<State>, reqs: seq<Request>, i: nat)
    requires IsRun(cfg, states, reqs) && i < |states|
    ensures Inv(cfg, states[i])
  {
    StartIsSound(cfg, states, reqs);
    var j := 0;
    while j < i
      invariant j <= i && Inv(cfg, states[j])
    {
      StepKeepsInv(cfg, states, reqs, j);
      j := j + 1;
    }
  }
}
