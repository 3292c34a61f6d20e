/** What each request achieves, and exactly when it is accepted. */
module ApiEffects {
  import opened Basics
  import opened Seqs
  import opened PortSpec
  import opened Forwards
  import opened Listeners
  import opened GroupSwitch
  import opened GroupSafety
  import opened Store
  import opened Groups
  import opened GroupInvariant
  import opened Api
  import opened ApiInvariant
  import opened Requests

  /** No listener of any other forward has moved. */
  ghost predicate OthersUntouched(before: Net, after: Net, ids: set<Id>) {
    forall id :: id !in ids ==>
      (id in after.runners <==> id in before.runners) && (id in before.runners ==> Relays(after.runners[id], before.runners[id]))
  }

  // ----- single forwards ---------------------------------------------------------------

  /** Without a conflict in the store only another process can be in the way. */
  lemma OnlyForeignInTheWay(cfg: Config, st: State, f: Forward)
    requires Inv(cfg, st) && !PortConflict(st.forwards, f)
    ensures FreeFor(st.net.table, f) <==> !ForeignOn(st.net.table, f)
  {
    forall id | id in st.net.runners && id != f.id ensures !Clash(st.net.runners[id], f) {
      var o := RunnerIsStored(cfg, st, id);
      assert !Clash(f, o);
    }
    BlockedIsNotFree(st.net, st.net.runners, f);
  }

  lemma AppliedServes(net: Net, f: Forward)
    requires Consistent(net) && Apply(net, f).1
    ensures Served(Apply(net, f).0, f) && OthersUntouched(net, Apply(net, f).0, {f.id})
  {
    ApplyMeaning(net, f);
    ApplyServes(net, f);
    forall id | id != f.id
      ensures id in Apply(net, f).0.runners <==> id in net.runners
      ensures id in net.runners ==> Apply(net, f).0.runners[id] == net.runners[id]
    {
      ApplyKeepsOthers(net, f, id);
    }
  }

  /** The conditions under which a forward can be stored and started. */
  ghost predicate Acceptable(cfg: Config, st: State, f: Forward) {
    && Storable(cfg, f) && f.clientId in st.clients && !PortConflict(st.forwards, f)
    && !(f.enabled && ForeignOn(st.net.table, f))
  }

  lemma CreateIsAcceptable(cfg: Config, st: State, inp: ForwardInput, id: Id, now: int)
    requires Inv(cfg, st) && Possible(st, ReqCreateForward(inp, id, now))
    ensures CreateForward(cfg, st, inp, id, now).1.None? <==> Acceptable(cfg, st, NewForward(inp, id, now))
  {
    var f := NewForward(inp, id, now);
    ApplyMeaning(st.net, f);
    if !PortConflict(st.forwards, f) { OnlyForeignInTheWay(cfg, st, f); }
  }

  /** The answer to a request that is to store f: what is wrong with it, and then who is in
      its way. */
  ghost function Verdict(cfg: Config, st: State, f: Forward): Option<Failure> {
    if !Sensible(f) then Some(Validation)
    else if OnOwnPort(cfg, f) then Some(Conflict)
    else if f.clientId !in st.clients then Some(Validation)
    else if (exists o :: o in st.forwards && o.id != f.id && Compete(f, o)) || TakenElsewhere(st.net.table, f) then Some(Conflict)
    else None
  }

  lemma VerdictMeaning(cfg: Config, st: State, f: Forward)
    ensures Acceptable(cfg, st, f) <==> Verdict(cfg, st, f) == None
    ensures Valid(f) <==> Sensible(f)
    ensures Reserved(cfg, f.publicPort) <==> OnOwnPort(cfg, f)
  {
    SensibleMeaning(f);
    TakenMeaning(st.net.table, f);
    forall o ensures Clash(f, o) <==> Compete(f, o) {
      CompeteMeaning(f, o);
    }
  }

  lemma CreateAnswers(cfg: Config, st: State, inp: ForwardInput, id: Id, now: int)
    requires Inv(cfg, st) && Possible(st, ReqCreateForward(inp, id, now))
    ensures
      var f := NewForward(inp, id, now);
      var (after, err) := CreateForward(cfg, st, inp, id, now);
      && err == Verdict(cfg, st, f)
      && (err.None? ==> Apply(st.net, f).1 && after == State(st.clients, st.forwards + [f], Apply(st.net, f).0))
  {
    VerdictMeaning(cfg, st, NewForward(inp, id, now));
    CreateIsAcceptable(cfg, st, inp, id, now);
  }

  /** A create stores the forward that the request describes behind the others and starts it,
      or is refused with nothing changed. */
  lemma CreateForwardEffect(cfg: Config, st: State, inp: ForwardInput, id: Id, now: int) returns (f: Forward)
    requires Inv(cfg, st) && Possible(st, ReqCreateForward(inp, id, now))
    ensures Created(inp, id, now, f)
    ensures
      var (after, err) := CreateForward(cfg, st, inp, id, now);
      && err == Verdict(cfg, st, f)
      && (err.Some? ==> after == st)
      && (err.None? ==>
            && after.clients == st.clients && after.forwards == st.forwards + [f]
            && Served(after.net, f) && OthersUntouched(st.net, after.net, {f.id}))
  {
    f := NewForward(inp, id, now);
    CreateMeaning(inp, id, now);
    CreateAnswers(cfg, st, inp, id, now);
    CreateForwardKeepsInv(cfg, st, inp, id, now);
    if Apply(st.net, f).1 { AppliedServes(st.net, f); }
  }

  /** The position of a stored id. */
  lemma IndexOfStored(fs: seq<Forward>, i: nat)
    requires DistinctIds(fs) && i < |fs|
    ensures IndexOf(fs, fs[i].id) == i
  {
    var j := IndexOf(fs, fs[i].id);
    assert j <= i;
  }

  /** An edit changes the stored forward where it stands, in the fields that the request
      has, and moves its listeners; or it is refused with nothing changed. */
  lemma UpdateForwardEffect(cfg: Config, st: State, i: nat, inp: ForwardInput, now: int) returns (next: Forward)
    requires Inv(cfg, st) && i < |st.forwards|
    ensures Edited(inp, st.forwards[i], now, next)
    ensures
      var f := st.forwards[i];
      var (after, err) := UpdateForward(cfg, st, f.id, inp, now);
      && err == (if next.clientId != f.clientId && exists o :: o in st.forwards && o.groupId == f.groupId && o != f
                 then Some(Validation) else Verdict(cfg, st, next))
      && (err.Some? ==> after == st)
      && (err.None? ==>
            && after.clients == st.clients && after.forwards == st.forwards[i := next]
            && Served(after.net, next) && OthersUntouched(st.net, after.net, {f.id}))
  {
    var f := st.forwards[i];
    next := ApplyForwardInput(inp, f).(updatedAt := now);
    EditMeaning(inp, f, now);
    UpdateAnswers(cfg, st, i, inp, now);
    UpdateForwardKeepsInv(cfg, st, f.id, inp, now);
    if Apply(st.net, next).1 { AppliedServes(st.net, next); }
  }

  lemma UpdateAnswers(cfg: Config, st: State, i: nat, inp: ForwardInput, now: int)
    requires Inv(cfg, st) && i < |st.forwards|
    ensures
      var f := st.forwards[i];
      var next := ApplyForwardInput(inp, f).(updatedAt := now);
      var moves := next.clientId != f.clientId && exists o :: o in st.forwards && o.groupId == f.groupId && o != f;
      var (after, err) := UpdateForward(cfg, st, f.id, inp, now);
      && err == (if moves then Some(Validation) else Verdict(cfg, st, next))
      && (err.None? ==> Apply(st.net, next).1 && after == State(st.clients, st.forwards[i := next], Apply(st.net, next).0))
  {
    VerdictMeaning(cfg, st, ApplyForwardInput(inp, st.forwards[i]).(updatedAt := now));
    UpdateIsAcceptable(cfg, st, i, inp, now);
  }

  lemma UpdateIsAcceptable(cfg: Config, st: State, i: nat, inp: ForwardInput, now: int)
    requires Inv(cfg, st) && i < |st.forwards|
    ensures
      var f := st.forwards[i];
      var next := ApplyForwardInput(inp, f).(updatedAt := now);
      var moves := next.clientId != f.clientId && exists o :: o in st.forwards && o.groupId == f.groupId && o != f;
      && IndexOf(st.forwards, f.id) == i
      && (UpdateForward(cfg, st, f.id, inp, now).1.None? <==> !moves && Acceptable(cfg, st, next))
      && (|ForwardsInGroup(st.forwards, f.groupId)| > 1 <==> exists o :: o in st.forwards && o.groupId == f.groupId && o != f)
  {
    var f := st.forwards[i];
    var next := ApplyForwardInput(inp, f).(updatedAt := now);
    IndexOfStored(st.forwards, i);
    LoneGroup(cfg, st, f);
    ApplyMeaning(st.net, next);
    if !PortConflict(st.forwards, next) { OnlyForeignInTheWay(cfg, st, next); }
  }

  lemma LoneGroup(cfg: Config, st: State, f: Forward)
    requires Inv(cfg, st) && f in st.forwards
    ensures |ForwardsInGroup(st.forwards, f.groupId)| <= 1 <==>
            forall o :: o in st.forwards && o.groupId == f.groupId ==> o == f
  {
    var members := ForwardsInGroup(st.forwards, f.groupId);
    GroupMembers(st.forwards, f.groupId);
    GroupHasDistinctIds(st.forwards, f.groupId);
    if |members| <= 1 {
      forall o | o in st.forwards && o.groupId == f.groupId ensures o == f {
        LoneMember(st.forwards, f, o);
      }
    } else {
      assert members[0] in members && members[1] in members;
    }
  }

  /** Deleting takes out the one element and its runner, and frees its sockets. */
  lemma DeleteForwardEffect(cfg: Config, st: State, i: nat)
    requires Inv(cfg, st) && i < |st.forwards|
    ensures
      var id := st.forwards[i].id;
      var (after, err) := DeleteForward(st, id);
      && err.None? && after.clients == st.clients && after.forwards == Without(st.forwards, i)
      && after.net.runners == st.net.runners - {id}
      && forall s :: s in after.net.table <==> s in st.net.table && st.net.table[s] != Held(id)
  {
    var id := st.forwards[i].id;
    IndexOfStored(st.forwards, i);
    RemoveKeepsConsistent(st.net, id);
    FilterOneOut(st.forwards, i);
  }

  lemma {:induction false} FilterOneOut(fs: seq<Forward>, i: nat)
    requires DistinctIds(fs) && i < |fs|
    ensures Filter(fs, NotWithId(fs[i].id)) == Without(fs, i)
  {
    var init, keep := fs[..|fs| - 1], NotWithId(fs[i].id);
    if i == |fs| - 1 {
      FilterAll(init, keep);
      assert Without(fs, i) == init;
    } else {
      FilterOneOut(init, i);
      assert fs[i].id != fs[|fs| - 1].id;
      assert Without(fs, i) == Without(init, i) + [fs[|fs| - 1]];
    }
  }

  /** NotFound is the answer exactly when the id is not stored, and then nothing changes;
      deleting is never refused for another reason. */
  lemma UnknownIdIsNotFound(cfg: Config, st: State, id: Id, inp: ForwardInput, now: int)
    ensures UpdateForward(cfg, st, id, inp, now).1 == Some(NotFound) <==> forall f :: f in st.forwards ==> f.id != id
    ensures DeleteForward(st, id).1.Some? <==> forall f :: f in st.forwards ==> f.id != id
    ensures UpdateForward(cfg, st, id, inp, now).1 == Some(NotFound) ==> UpdateForward(cfg, st, id, inp, now).0 == st
    ensures DeleteForward(st, id).1.Some? ==> DeleteForward(st, id) == (st, Some(NotFound))
  {
    var i := IndexOf(st.forwards, id);
    if f :| f in st.forwards && f.id == id {
      var j :| 0 <= j < |st.forwards| && st.forwards[j] == f;
      assert i <= j;
    }
  }

  // ----- groups and clients --------------------------------------------------------------

  /** After a switch the members of next are served, dropped ones are not, and no other
      listener has moved. */
  lemma SwitchServes(net: Net, next: seq<Forward>, prev: seq<Forward>)
    requires GroupReady(net, next, prev) && ApplyGroup(net, next, prev).1
    ensures
      var after := ApplyGroup(net, next, prev).0;
      && (forall f :: f in next ==> Served(after, f))
      && (forall f :: f in prev && f.id !in Ids(next) ==> f.id !in after.runners)
      && OthersUntouched(net, after, Ids(prev) + Ids(next))
  {
    var after := ApplyGroup(net, next, prev).0;
    GroupSuccess(net, next, prev);
    forall f | f in prev && f.id !in Ids(next) ensures f.id !in after.runners {
      ByIdIsMember(prev, f.id);
      ByIdFinds(next, f.id);
    }
    forall id | id !in Ids(prev) + Ids(next) ensures id !in ById(prev) && id !in ById(next) {
      ByIdFinds(prev, id);
      ByIdFinds(next, id);
    }
  }

  lemma SwapLists(fs: seq<Forward>, groupId: Id, next: seq<Forward>)
    requires DistinctIds(fs) && DistinctIds(next) && (forall n :: n in next ==> n.groupId == groupId)
    ensures forall f :: f in Swap(fs, groupId, next) <==> (f in fs && f.groupId != groupId) || f in next
  {
    forall f ensures f in Swap(fs, groupId, next) <==> (f in fs && f.groupId != groupId) || f in next {
      SwapMembers(fs, groupId, next, f);
    }
  }

  /** A commit is accepted exactly when the client exists, no other group uses a port it
      needs and no other process holds one; then the group is next, and running. */
  lemma CommitEffect(cfg: Config, st: State, groupId: Id, next: seq<Forward>, prev: seq<Forward>)
    requires Inv(cfg, st) && ListsGroup(st.forwards, groupId, prev)
    requires Committable(cfg, st.clients, st.forwards, groupId, next, prev)
    ensures
      var (after, err) := CommitGroup(st, groupId, next, prev);
      && (err.None? <==>
            next[0].clientId in st.clients
            && forall f :: f in next ==> !GroupPortConflict(st.forwards, groupId, f) && !(f.enabled && ForeignOn(st.net.table, f)))
      && (err.None? ==>
            && (forall f :: f in after.forwards <==> (f in st.forwards && f.groupId != groupId) || f in next)
            && (forall f :: f in next ==> Served(after.net, f))
            && (forall f :: f in prev && f.id !in Ids(next) ==> f.id !in after.net.runners)
            && OthersUntouched(st.net, after.net, Ids(prev) + Ids(next)))
  {
    if next[0].clientId in st.clients && forall f :: f in next ==> !GroupPortConflict(st.forwards, groupId, f) {
      SwitchIsReady(cfg, st, groupId, next, prev);
      GroupFailsOnlyOnForeign(st.net, next, prev);
      if ApplyGroup(st.net, next, prev).1 {
        SwitchServes(st.net, next, prev);
        SwapLists(st.forwards, groupId, next);
      }
    }
  }

  /** After deleting a group no forward and no runner of it is left. */
  lemma DeleteGroupEffect(cfg: Config, st: State, id: Id)
    requires Inv(cfg, st)
    ensures
      var (after, err) := DeleteGroup(st, id);
      && err == (if exists f :: f in st.forwards && f.groupId == id then None else Some(NotFound))
      && (err.Some? ==> after == st)
      && (err.None? ==>
            && after.clients == st.clients
            && (forall f :: f in after.forwards <==> f in st.forwards && f.groupId != id)
            && (forall f :: f in st.forwards ==>
                  (f.id in after.net.runners <==> f.id in st.net.runners && f.groupId != id))
            && SameForeign(after.net.table, st.net.table))
  {
    var removed := ForwardsInGroup(st.forwards, id);
    GroupMembers(st.forwards, id);
    FilterMembers(st.forwards, NotInGroup(id));
    RemoveFromMeaning(st.net, removed, 0);
    if removed != [] {
      assert removed[0] in removed;
    }
    forall f | f in st.forwards
      ensures f.groupId == id <==> exists i :: 0 <= i < |removed| && removed[i].id == f.id
    {
      RemovedById(st.forwards, removed, f);
    }
  }

  lemma RemovedById(fs: seq<Forward>, removed: seq<Forward>, f: Forward)
    requires DistinctIds(fs) && f in fs && forall r :: r in removed ==> r in fs
    ensures f in removed <==> exists i :: 0 <= i < |removed| && removed[i].id == f.id
  {
    if i :| 0 <= i < |removed| && removed[i].id == f.id {
      assert removed[i] in removed;
      IdIsIdentity(fs, f, removed[i]);
    }
    if f in removed {
      var i :| 0 <= i < |removed| && removed[i] == f;
    }
  }

  /** After deleting a client none of its forwards is stored or running. */
  lemma DeleteClientEffect(cfg: Config, st: State, id: Id)
    requires Inv(cfg, st)
    ensures id !in st.clients ==> DeleteClient(st, id) == (st, Some(NotFound))
    ensures id in st.clients ==>
      var (after, err) := DeleteClient(st, id);
      && err.None?
      && (forall c :: c in after.clients <==> c in st.clients && c != id)
      && (forall f :: f in after.forwards <==> f in st.forwards && f.clientId != id)
      && (forall f :: f in st.forwards ==>
            (f.id in after.net.runners <==> f.id in st.net.runners && f.clientId != id))
      && SameForeign(after.net.table, st.net.table)
  {
    var removed := Filter(st.forwards, OfClient(id));
    FilterMembers(st.forwards, OfClient(id));
    FilterMembers(st.forwards, NotOfClient(id));
    FilterMembers(st.clients, OtherThan(id));
    RemoveFromMeaning(st.net, removed, 0);
    forall f | f in st.forwards
      ensures f.clientId == id <==> exists i :: 0 <= i < |removed| && removed[i].id == f.id
    {
      RemovedById(st.forwards, removed, f);
    }
  }

  // ----- every run ---------------------------------------------------------------------------

  /** In every reachable state a runner relays what a stored, enabled forward says, and the
      host's table has for it exactly the sockets of that forward. */
  lemma EveryRunnerRelaysItsForward(cfg: Config, states: seq<State>, reqs: seq<Request>, i: nat, id: Id) returns (f: Forward)
    requires IsRun(cfg, states, reqs) && i < |states| && id in states[i].net.runners
    ensures f in states[i].forwards && f.id == id && f.enabled
    ensures
      var r, table := states[i].net.runners[id], states[i].net.table;
      && r.clientId == f.clientId && r.publicPort == f.publicPort && r.proto == f.proto
      && r.targetHost == f.targetHost && r.targetPort == f.targetPort && r.enabled
      && forall s :: s in table && table[s] == Held(id) <==> ListensOn(f, s)
  {
    EveryReachableStateIsSound(cfg, states, reqs, i);
    f := RunnerIsStored(cfg, states[i], id);
    var r, table := states[i].net.runners[id], states[i].net.table;
    forall s ensures s in table && table[s] == Held(id) <==> ListensOn(f, s) {
      ListensMeaning(r, s);
    }
  }
}
