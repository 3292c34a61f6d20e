/** Deletions stop their runners only after the store lock is released
    (internal/server/api.go:848-863, 516-540 and internal/server/groups.go:333-352), so
    other requests can come in between. `ending` holds the ids that have left the store and
    whose runners may still be there. */
module LateRemoval {
  import opened Basics
  import opened Seqs
  import PortSpec
  import opened Forwards
  import opened Listeners
  import opened GroupSwitch
  import opened HiddenRunners
  import opened Store
  import opened Groups
  import opened GroupInvariant
  import opened Api
  import opened ApiInvariant
  import opened ApiEffects

  /** Every runner serves a stored, enabled forward as stored, or is about to be stopped. */
  ghost predicate AgreesBut(net: Net, fs: seq<Forward>, ending: set<Id>) {
    forall id :: id in net.runners && id !in ending ==>
      exists f :: f in fs && f.id == id && f.enabled && net.runners[id].Same(f)
  }

  ghost predicate LateInv(cfg: Config, st: State, ending: set<Id>) {
    && StoreInv(cfg, st.clients, st.forwards) && Consistent(st.net) && AgreesBut(st.net, st.forwards, ending)
    && forall f :: f in st.forwards ==> f.id !in ending
  }

  /** With nothing left to stop this is the invariant of the requests as a whole. */
  lemma NothingEnding(cfg: Config, st: State)
    ensures LateInv(cfg, st, {}) <==> Inv(cfg, st)
  {
  }

  // ----- the two halves of a deletion -----------------------------------------------------

  /** The first half: some forwards leave the store, and perhaps a client with its forwards. */
  function LeaveStore(st: State, clients: seq<Id>, keep: Forward -> bool): State {
    st.(clients := clients, forwards := Filter(st.forwards, keep))
  }

  /** The forwards that are not kept. */
  function Leaving(keep: Forward -> bool): Forward -> bool { (f: Forward) => !keep(f) }

  lemma LeaveKeepsAgreement(net: Net, fs: seq<Forward>, ending: set<Id>, keep: Forward -> bool)
    requires AgreesBut(net, fs, ending)
    ensures AgreesBut(net, Filter(fs, keep), ending + Ids(Filter(fs, Leaving(keep))))
  {
    var gone := Filter(fs, Leaving(keep));
    FilterMembers(fs, keep);
    FilterMembers(fs, Leaving(keep));
    forall id | id in net.runners && id !in ending + Ids(gone)
      ensures exists f :: f in Filter(fs, keep) && f.id == id && f.enabled && net.runners[id].Same(f)
    {
      var f :| f in fs && f.id == id && f.enabled && net.runners[id].Same(f);
      if !keep(f) { GoneId(gone, f); }
    }
  }

  /** No identifier is both kept and gone. */
  lemma KeptIsNotGone(fs: seq<Forward>, keep: Forward -> bool, f: Forward)
    requires DistinctIds(fs) && f in Filter(fs, keep)
    ensures f.id !in Ids(Filter(fs, Leaving(keep)))
  {
    var gone := Filter(fs, Leaving(keep));
    FilterMembers(fs, keep);
    FilterMembers(fs, Leaving(keep));
    forall i | 0 <= i < |gone| ensures gone[i].id != f.id {
      assert gone[i] in gone;
    }
  }

  lemma LeaveKeepsLateInv(cfg: Config, st: State, clients: seq<Id>, ending: set<Id>, keep: Forward -> bool)
    requires LateInv(cfg, st, ending) && NO_ID !in clients
    requires forall f :: f in st.forwards && keep(f) ==> f.clientId in clients
    ensures LateInv(cfg, LeaveStore(st, clients, keep), ending + Ids(Filter(st.forwards, Leaving(keep))))
  {
    FilterKeepsStoreInv(cfg, st.clients, st.forwards, keep);
    FilterMembers(st.forwards, keep);
    LeaveKeepsAgreement(st.net, st.forwards, ending, keep);
    forall f | f in Filter(st.forwards, keep) ensures f.id !in ending + Ids(Filter(st.forwards, Leaving(keep))) {
      KeptIsNotGone(st.forwards, keep, f);
    }
  }

  lemma GoneId(gone: seq<Forward>, f: Forward)
    requires f in gone
    ensures f.id in Ids(gone)
  {
    var i :| 0 <= i < |gone| && gone[i] == f;
  }

  /** The second half, one runner at a time. */
  lemma StopKeepsLateInv(cfg: Config, st: State, ending: set<Id>, id: Id)
    requires LateInv(cfg, st, ending) && id in ending
    ensures LateInv(cfg, st.(net := Remove(st.net, id)), ending - {id})
  {
    RemoveKeepsConsistent(st.net, id);
  }

  /** Both halves with nothing in between are the request as a whole. */
  lemma HalvesAreDelete(st: State, id: Id)
    ensures
      var half := LeaveStore(st, st.clients, NotWithId(id));
      DeleteForward(st, id).1.None? ==> half.(net := Remove(half.net, id)) == DeleteForward(st, id).0
    ensures
      var half := LeaveStore(st, st.clients, NotInGroup(id));
      DeleteGroup(st, id).1.None? ==> half.(net := RemoveFrom(half.net, ForwardsInGroup(st.forwards, id), 0)) == DeleteGroup(st, id).0
    ensures
      var half := LeaveStore(st, Filter(st.clients, OtherThan(id)), NotOfClient(id));
      DeleteClient(st, id).1.None? ==> half.(net := RemoveFrom(half.net, Filter(st.forwards, OfClient(id)), 0)) == DeleteClient(st, id).0
  {
  }

  function Hidden(st: State, ending: set<Id>): State { st.(net := Hide(st.net, ending)) }

  /** The invariant in between is the invariant of the hidden state. */
  lemma LateIsHidden(cfg: Config, st: State, ending: set<Id>)
    requires Consistent(st.net)
    ensures StoreInv(cfg, st.clients, st.forwards) && AgreesBut(st.net, st.forwards, ending) <==> Inv(cfg, Hidden(st, ending))
  {
    HideKeepsConsistent(st.net, ending);
    if Inv(cfg, Hidden(st, ending)) {
      forall id | id in st.net.runners && id !in ending
        ensures exists f :: f in st.forwards && f.id == id && f.enabled && st.net.runners[id].Same(f)
      {
        assert id in Hide(st.net, ending).runners;
      }
    }
  }

  // ----- requests in between ---------------------------------------------------------------

  /** A request behaves as if the runners still to be stopped were other processes'. */
  ghost predicate Carries(ending: set<Id>, r: (State, Option<Failure>), hidden: (State, Option<Failure>)) {
    hidden == (Hidden(r.0, ending), r.1) && Consistent(r.0.net) && AllOutside(r.0.forwards, ending)
  }

  /** The listener part of creating a forward. */
  function Outcome(st: State, f: Forward, ok: bool, net: Net, err: Option<Failure>): (State, Option<Failure>) {
    if err.Some? then (st.(net := Remove(st.net, f.id)), err)
    else if !ok then (st.(net := Remove(net, f.id)), Some(Conflict))
    else (State(st.clients, st.forwards + [f], net), None)
  }

  /** The checks of a create that come before the listeners, all made on the store. */
  function Checks(st: State, f: Forward): Option<Failure> {
    if f.clientId !in st.clients then Some(Validation)
    else if PortConflict(st.forwards, f) then Some(Conflict)
    else None
  }

  lemma CreateByParts(cfg: Config, st: State, inp: ForwardInput, id: Id, now: int)
    requires Storable(cfg, NewForward(inp, id, now))
    ensures
      var f := NewForward(inp, id, now);
      CreateForward(cfg, st, inp, id, now) == Outcome(st, f, Apply(st.net, f).1, Apply(st.net, f).0, Checks(st, f))
  {
  }

  lemma HiddenOutcome(st: State, ending: set<Id>, f: Forward, err: Option<Failure>)
    requires Consistent(st.net) && AllOutside(st.forwards, ending) && f.id !in ending
    ensures
      var h := Hidden(st, ending);
      Carries(ending, Outcome(st, f, Apply(st.net, f).1, Apply(st.net, f).0, err),
              Outcome(h, f, Apply(h.net, f).1, Apply(h.net, f).0, err))
  {
    ApplyMeaning(st.net, f);
    HideApply(st.net, ending, f);
    RemoveKeepsConsistent(st.net, f.id);
    RemoveKeepsConsistent(Apply(st.net, f).0, f.id);
    HideRemove(st.net, ending, f.id);
    HideRemove(Apply(st.net, f).0, ending, f.id);
  }

  lemma HiddenCreate(cfg: Config, st: State, ending: set<Id>, inp: ForwardInput, id: Id, now: int)
    requires LateInv(cfg, st, ending) && id !in ending
    ensures Carries(ending, CreateForward(cfg, st, inp, id, now), CreateForward(cfg, Hidden(st, ending), inp, id, now))
  {
    var f := NewForward(inp, id, now);
    if Storable(cfg, f) {
      CreateByParts(cfg, st, inp, id, now);
      CreateByParts(cfg, Hidden(st, ending), inp, id, now);
      HiddenOutcome(st, ending, f, Checks(st, f));
    }
  }

  /** The checks of an edit that come before the listeners, all made on the store. */
  function EditChecks(cfg: Config, clients: seq<Id>, fs: seq<Forward>, f: Forward, next: Forward): Option<Failure> {
    if next.clientId != f.clientId && |ForwardsInGroup(fs, f.groupId)| > 1 then Some(Validation)
    else if !Valid(next) then Some(Validation)
    else if Reserved(cfg, next.publicPort) then Some(Conflict)
    else if next.clientId !in clients then Some(Validation)
    else if PortConflict(fs, next) then Some(Conflict)
    else None
  }

  /** The listener part of an edit. */
  function EditOutcome(st: State, i: nat, next: Forward, ok: bool, net: Net, err: Option<Failure>): (State, Option<Failure>)
    requires i < |st.forwards|
  {
    if err.Some? then (st, err)
    else if !ok then (st.(net := net), Some(Conflict))
    else (State(st.clients, st.forwards[i := next], net), None)
  }

  lemma UpdateByParts(cfg: Config, st: State, id: Id, inp: ForwardInput, now: int)
    requires IndexOf(st.forwards, id) < |st.forwards|
    ensures
      var i := IndexOf(st.forwards, id);
      var next := ApplyForwardInput(inp, st.forwards[i]).(updatedAt := now);
      UpdateForward(cfg, st, id, inp, now) ==
        EditOutcome(st, i, next, Apply(st.net, next).1, Apply(st.net, next).0,
                    EditChecks(cfg, st.clients, st.forwards, st.forwards[i], next))
  {
  }

  lemma HiddenEditOutcome(st: State, ending: set<Id>, i: nat, next: Forward, err: Option<Failure>)
    requires Consistent(st.net) && AllOutside(st.forwards, ending) && i < |st.forwards| && next.id !in ending
    ensures
      var h := Hidden(st, ending);
      Carries(ending, EditOutcome(st, i, next, Apply(st.net, next).1, Apply(st.net, next).0, err),
              EditOutcome(h, i, next, Apply(h.net, next).1, Apply(h.net, next).0, err))
  {
    ApplyMeaning(st.net, next);
    HideApply(st.net, ending, next);
  }

  lemma HiddenUpdate(cfg: Config, st: State, ending: set<Id>, id: Id, inp: ForwardInput, now: int)
    requires LateInv(cfg, st, ending)
    ensures Carries(ending, UpdateForward(cfg, st, id, inp, now), UpdateForward(cfg, Hidden(st, ending), id, inp, now))
  {
    var i := IndexOf(st.forwards, id);
    if i < |st.forwards| {
      var f := st.forwards[i];
      var next := ApplyForwardInput(inp, f).(updatedAt := now);
      assert f in st.forwards;
      UpdateByParts(cfg, st, id, inp, now);
      UpdateByParts(cfg, Hidden(st, ending), id, inp, now);
      HiddenEditOutcome(st, ending, i, next, EditChecks(cfg, st.clients, st.forwards, f, next));
    }
  }

  lemma HiddenDelete(cfg: Config, st: State, ending: set<Id>, id: Id)
    requires LateInv(cfg, st, ending)
    ensures Carries(ending, DeleteForward(st, id), DeleteForward(Hidden(st, ending), id))
  {
    FilterMembers(st.forwards, NotWithId(id));
    RemoveKeepsConsistent(st.net, id);
    var i := IndexOf(st.forwards, id);
    if i < |st.forwards| {
      assert st.forwards[i] in st.forwards;
      HideRemove(st.net, ending, id);
    }
  }

  lemma HiddenCommit(cfg: Config, st: State, ending: set<Id>, groupId: Id, next: seq<Forward>, prev: seq<Forward>)
    requires LateInv(cfg, st, ending) && next != [] && AllOutside(next, ending) && AllOutside(prev, ending)
    requires DistinctIds(prev) && DistinctIds(next) && forall n :: n in next ==> n.groupId == groupId
    ensures Carries(ending, CommitGroup(st, groupId, next, prev), CommitGroup(Hidden(st, ending), groupId, next, prev))
  {
    HideApplyGroup(st.net, ending, next, prev);
    forall f ensures f in Swap(st.forwards, groupId, next) <==> (f in st.forwards && f.groupId != groupId) || f in next {
      SwapMembers(st.forwards, groupId, next, f);
    }
  }

  /** The members an edit asks for are outside as well. */
  lemma ExpandedOutside(cfg: Config, clients: seq<Id>, fs: seq<Forward>, ending: set<Id>, groupId: Id, g: GroupFields,
                        prev: seq<Forward>, ids: seq<Id>, now: int)
    requires |ids| >= PortSpec.MAX_GROUP_PORTS && AllOutside(prev, ending) && forall id :: id in ids ==> id !in ending
    ensures ExpandGroup(cfg, groupId, g, prev, ids, now).Ok? ==>
              AllOutside(ExpandGroup(cfg, groupId, g, prev, ids, now).value, ending)
  {
    if ExpandGroup(cfg, groupId, g, prev, ids, now).Ok? {
      var next := ExpandGroup(cfg, groupId, g, prev, ids, now).value;
      var entries, g' := ExpandMeaning(cfg, groupId, g, prev, ids, now);
      forall f | f in next ensures f.id !in ending {
        var i :| 0 <= i < |next| && next[i] == f;
        FindPrevFinds(prev, entries[i]);
        assert ids[i] in ids;
      }
    }
  }

  lemma HiddenGroup(cfg: Config, st: State, ending: set<Id>, groupId: Id, g: GroupFields, prev: seq<Forward>, ids: seq<Id>, now: int)
    requires LateInv(cfg, st, ending) && FreshIds(ids, st.forwards) && ListsGroup(st.forwards, groupId, prev)
    requires forall id :: id in ids ==> id !in ending
    ensures
      var r := ExpandGroup(cfg, groupId, g, prev, ids, now);
      r.Ok? ==> r.value != []
                && Carries(ending, CommitGroup(st, groupId, r.value, prev), CommitGroup(Hidden(st, ending), groupId, r.value, prev))
  {
    ExpandedOutside(cfg, st.clients, st.forwards, ending, groupId, g, prev, ids, now);
    ExpandIsCommittable(cfg, st.clients, st.forwards, groupId, g, prev, ids, now);
    var r := ExpandGroup(cfg, groupId, g, prev, ids, now);
    if r.Ok? { HiddenCommit(cfg, st, ending, groupId, r.value, prev); }
  }

  lemma HiddenCreateGroup(cfg: Config, st: State, ending: set<Id>, inp: GroupInput, groupId: Id, ids: seq<Id>, now: int)
    requires LateInv(cfg, st, ending) && Api.Possible(st, ReqCreateGroup(inp, groupId, ids, now))
    requires forall id :: id in ids ==> id !in ending
    ensures Carries(ending, CreateGroup(cfg, st, inp, groupId, ids, now), CreateGroup(cfg, Hidden(st, ending), inp, groupId, ids, now))
  {
    var g := ApplyGroupInput(inp, GroupFields(NO_ID, "", "tcp", "", "127.0.0.1", true));
    assert ListsGroup(st.forwards, groupId, []);
    HiddenGroup(cfg, st, ending, groupId, g, [], ids, now);
  }

  lemma HiddenUpdateGroup(cfg: Config, st: State, ending: set<Id>, id: Id, inp: GroupInput, ids: seq<Id>, now: int)
    requires LateInv(cfg, st, ending) && FreshIds(ids, st.forwards) && forall i :: i in ids ==> i !in ending
    ensures Carries(ending, UpdateGroup(cfg, st, id, inp, ids, now), UpdateGroup(cfg, Hidden(st, ending), id, inp, ids, now))
  {
    var prev := ForwardsInGroup(st.forwards, id);
    GroupMembers(st.forwards, id);
    GroupHasDistinctIds(st.forwards, id);
    if prev != [] {
      HiddenGroup(cfg, st, ending, id, ApplyGroupInput(inp, CurrentFields(prev)), prev, ids, now);
    }
  }

  lemma HiddenDeleteMany(cfg: Config, st: State, ending: set<Id>, id: Id)
    requires LateInv(cfg, st, ending)
    ensures Carries(ending, DeleteGroup(st, id), DeleteGroup(Hidden(st, ending), id))
    ensures Carries(ending, DeleteClient(st, id), DeleteClient(Hidden(st, ending), id))
  {
    GroupMembers(st.forwards, id);
    FilterMembers(st.forwards, NotInGroup(id));
    FilterMembers(st.forwards, OfClient(id));
    FilterMembers(st.forwards, NotOfClient(id));
    HideRemoveFrom(st.net, ending, ForwardsInGroup(st.forwards, id), 0);
    HideRemoveFrom(st.net, ending, Filter(st.forwards, OfClient(id)), 0);
  }

  /** New identifiers are not among those still to be stopped either. */
  ghost predicate Avoids(req: Request, ending: set<Id>) {
    match req
    case ReqCreateForward(_, id, _) => id !in ending
    case ReqCreateGroup(_, _, ids, _) => forall id :: id in ids ==> id !in ending
    case ReqUpdateGroup(_, _, ids, _) => forall id :: id in ids ==> id !in ending
    case Start(_) => false
    case HostChange(_) => false
    case _ => true
  }

  /** Every request in between, refused or not: its outcome is that of the state in which the
      runners still to be stopped count as other processes, so all that is proved about
      requests holds of it in those terms; and the invariant in between is kept. */
  lemma ServesAsHidden(cfg: Config, st: State, ending: set<Id>, req: Request)
    requires LateInv(cfg, st, ending) && Api.Possible(st, req) && Avoids(req, ending)
    ensures Carries(ending, Serve(cfg, st, req), Serve(cfg, Hidden(st, ending), req))
  {
    match req
    case ReqCreateClient(id) =>
    case ReqDeleteClient(id) => HiddenDeleteMany(cfg, st, ending, id);
    case ReqCreateForward(inp, id, now) => HiddenCreate(cfg, st, ending, inp, id, now);
    case ReqUpdateForward(id, inp, now) => HiddenUpdate(cfg, st, ending, id, inp, now);
    case ReqDeleteForward(id) => HiddenDelete(cfg, st, ending, id);
    case ReqCreateGroup(inp, groupId, ids, now) => HiddenCreateGroup(cfg, st, ending, inp, groupId, ids, now);
    case ReqUpdateGroup(id, inp, ids, now) => HiddenUpdateGroup(cfg, st, ending, id, inp, ids, now);
    case ReqDeleteGroup(id) => HiddenDeleteMany(cfg, st, ending, id);
  }

  lemma ServesInBetween(cfg: Config, st: State, ending: set<Id>, req: Request)
    requires LateInv(cfg, st, ending) && Api.Possible(st, req) && Avoids(req, ending)
    ensures LateInv(cfg, Serve(cfg, st, req).0, ending)
  {
    LateIsHidden(cfg, st, ending);
    ServesAsHidden(cfg, st, ending, req);
    ServeKeepsInv(cfg, Hidden(st, ending), req);
    LateIsHidden(cfg, Serve(cfg, st, req).0, ending);
  }

  /** In particular a forward is accepted exactly when it would be otherwise and neither
      another process nor a runner still to be stopped is in its way. */
  lemma CreateInBetween(cfg: Config, st: State, ending: set<Id>, inp: ForwardInput, id: Id, now: int)
    requires LateInv(cfg, st, ending) && Api.Possible(st, ReqCreateForward(inp, id, now)) && id !in ending
    ensures CreateForward(cfg, st, inp, id, now).1.None? <==> Acceptable(cfg, Hidden(st, ending), NewForward(inp, id, now))
  {
    LateIsHidden(cfg, st, ending);
    HiddenCreate(cfg, st, ending, inp, id, now);
    CreateIsAcceptable(cfg, Hidden(st, ending), inp, id, now);
  }

  lemma ForeignWhenHidden(net: Net, ending: set<Id>, f: Forward)
    requires Consistent(net)
    ensures ForeignOn(Hide(net, ending).table, f) <==>
            ForeignOn(net.table, f) || exists id :: id in ending && id in net.runners && Clash(net.runners[id], f)
  {
    var out := Hide(net, ending).table;
    if ForeignOn(out, f) && !ForeignOn(net.table, f) {
      var s := if f.HasTCP() && TakenByOthers(out, TcpSocket(f)) then TcpSocket(f) else UdpSocket(f);
      var id := net.table[s].id;
      assert Needs(net.runners[id], s) && Needs(f, s);
      ClashIsSharedSocket(net.runners[id], f);
    }
    if id :| id in ending && id in net.runners && Clash(net.runners[id], f) {
      ClashIsSharedSocket(net.runners[id], f);
      var s :| Needs(net.runners[id], s) && Needs(f, s);
      assert net.table[s] == Held(id);
      assert s == TcpSocket(f) || s == UdpSocket(f);
    }
  }

  /** The first half of deleting one forward. */
  lemma HalfDeleted(cfg: Config, st: State, i: nat)
    requires Inv(cfg, st) && i < |st.forwards|
    ensures LateInv(cfg, LeaveStore(st, st.clients, NotWithId(st.forwards[i].id)), {st.forwards[i].id})
  {
    NothingEnding(cfg, st);
    LeaveKeepsLateInv(cfg, st, st.clients, {}, NotWithId(st.forwards[i].id));
    OnlyOneGone(st.forwards, i);
  }

  /** A forward is deleted, and before its runner is stopped its port is asked for again: the
      request is refused, whether or not another process is in its way. */
  lemma RefusedInBetween(cfg: Config, st: State, i: nat, inp: ForwardInput, id: Id, now: int)
    requires Inv(cfg, st) && i < |st.forwards| && st.forwards[i].id in st.net.runners
    requires Api.Possible(st, ReqCreateForward(inp, id, now))
    requires NewForward(inp, id, now).enabled && Clash(st.forwards[i], NewForward(inp, id, now))
    ensures
      var half := LeaveStore(st, st.clients, NotWithId(st.forwards[i].id));
      LateInv(cfg, half, {st.forwards[i].id}) && CreateForward(cfg, half, inp, id, now).1.Some?
  {
    var was := st.forwards[i];
    HalfDeleted(cfg, st, i);
    StillFresh(st, was.id, inp, id, now);
    RunsAsStored(cfg, st, was);
    EndingRefuses(cfg, LeaveStore(st, st.clients, NotWithId(was.id)), {was.id}, inp, id, now, was.id);
  }

  lemma EndingRefuses(cfg: Config, st: State, ending: set<Id>, inp: ForwardInput, id: Id, now: int, o: Id)
    requires LateInv(cfg, st, ending) && Api.Possible(st, ReqCreateForward(inp, id, now)) && id !in ending
    requires o in ending && o in st.net.runners && NewForward(inp, id, now).enabled && Clash(st.net.runners[o], NewForward(inp, id, now))
    ensures CreateForward(cfg, st, inp, id, now).1.Some?
  {
    CreateInBetween(cfg, st, ending, inp, id, now);
    ForeignWhenHidden(st.net, ending, NewForward(inp, id, now));
  }

  lemma RunsAsStored(cfg: Config, st: State, f: Forward)
    requires Inv(cfg, st) && f in st.forwards && f.id in st.net.runners
    ensures st.net.runners[f.id].Same(f)
  {
    var o := RunnerIsStored(cfg, st, f.id);
    IdIsIdentity(st.forwards, o, f);
  }

  lemma StillFresh(st: State, gone: Id, inp: ForwardInput, id: Id, now: int)
    requires Api.Possible(st, ReqCreateForward(inp, id, now))
    ensures Api.Possible(LeaveStore(st, st.clients, NotWithId(gone)), ReqCreateForward(inp, id, now))
  {
    FilterMembers(st.forwards, NotWithId(gone));
  }

  lemma OnlyOneGone(fs: seq<Forward>, i: nat)
    requires i < |fs|
    ensures Ids(Filter(fs, Leaving(NotWithId(fs[i].id)))) == {fs[i].id}
  {
    var gone := Filter(fs, Leaving(NotWithId(fs[i].id)));
    FilterMembers(fs, Leaving(NotWithId(fs[i].id)));
    assert fs[i] in gone;
    GoneId(gone, fs[i]);
    forall id | id in Ids(gone) ensures id == fs[i].id {
      var j :| 0 <= j < |gone| && gone[j].id == id;
      assert gone[j] in gone;
    }
  }

  // ----- every run -----------------------------------------------------------------------------

  /** Deletions in two halves, everything else as a whole. */
  datatype Step = Whole(req: Request) | ForwardLeaves(id: Id) | GroupLeaves(id: Id) | ClientLeaves(id: Id) | Stop(id: Id)

  datatype Moment = Moment(st: State, ending: set<Id>)

  ghost predicate CanHappen(m: Moment, step: Step) {
    match step
    case Whole(req) => Api.Possible(m.st, req) && Avoids(req, m.ending)
    case Stop(id) => id in m.ending
    case _ => true
  }

  function Leaves(m: Moment, clients: seq<Id>, keep: Forward -> bool): Moment {
    Moment(LeaveStore(m.st, clients, keep), m.ending + Ids(Filter(m.st.forwards, Leaving(keep))))
  }

  function Next(cfg: Config, m: Moment, step: Step): Moment
    requires CanHappen(m, step)
  {
    match step
    case Whole(req) => m.(st := Serve(cfg, m.st, req).0)
    case ForwardLeaves(id) => Leaves(m, m.st.clients, NotWithId(id))
    case GroupLeaves(id) => Leaves(m, m.st.clients, NotInGroup(id))
    case ClientLeaves(id) => Leaves(m, Filter(m.st.clients, OtherThan(id)), NotOfClient(id))
    case Stop(id) => Moment(m.st.(net := Remove(m.st.net, id)), m.ending - {id})
  }

  lemma NextKeepsLateInv(cfg: Config, m: Moment, step: Step)
    requires LateInv(cfg, m.st, m.ending) && CanHappen(m, step)
    ensures LateInv(cfg, Next(cfg, m, step).st, Next(cfg, m, step).ending)
  {
    match step
    case Whole(req) => ServesInBetween(cfg, m.st, m.ending, req);
    case ForwardLeaves(id) => LeaveKeepsLateInv(cfg, m.st, m.st.clients, m.ending, NotWithId(id));
    case GroupLeaves(id) => LeaveKeepsLateInv(cfg, m.st, m.st.clients, m.ending, NotInGroup(id));
    case ClientLeaves(id) =>
      FilterMembers(m.st.clients, OtherThan(id));
      LeaveKeepsLateInv(cfg, m.st, Filter(m.st.clients, OtherThan(id)), m.ending, NotOfClient(id));
    case Stop(id) => StopKeepsLateInv(cfg, m.st, m.ending, id);
  }

  ghost predicate Follows(cfg: Config, m: Moment, step: Step, after: Moment) {
    CanHappen(m, step) && after == Next(cfg, m, step)
  }

  ghost predicate IsLateRun(cfg: Config, moments: seq<Moment>, steps: seq<Step>) {
    && |moments| == |steps| + 1
    && moments[0] == Moment(State([], [], Net(map[], map[])), {})
    && forall i :: 0 <= i < |steps| ==> Follows(cfg, moments[i], steps[i], moments[i + 1])
  }

  lemma LateStepKeepsInv(cfg: Config, moments: seq<Moment>, steps: seq<Step>, i: nat)
    requires IsLateRun(cfg, moments, steps) && i < |steps| && LateInv(cfg, moments[i].st, moments[i].ending)
    ensures LateInv(cfg, moments[i + 1].st, moments[i + 1].ending)
  {
    assert Follows(cfg, moments[i], steps[i], moments[i + 1]);
    NextKeepsLateInv(cfg, moments[i], steps[i]);
  }

  /** Under every interleaving of requests with the second halves of deletions: the store is
      sound, and every runner serves a stored forward or is about to be stopped. */
  lemma EveryMomentIsSound(cfg: Config, moments: seq<Moment>, steps: seq<Step>, i: nat)
    requires IsLateRun(cfg, moments, steps) && i < |moments|
    ensures LateInv(cfg, moments[i].st, moments[i].ending)
  {
    EmptyIsSound(cfg);
    NothingEnding(cfg, moments[0].st);
    var j := 0;
    while j < i
      invariant j <= i && LateInv(cfg, moments[j].st, moments[j].ending)
    {
      LateStepKeepsInv(cfg, moments, steps, j);
      j := j + 1;
    }
  }
}
