/** A refused group edit and the listeners: exactly when they are as before, and a run of
    requests after which they are not. internal/server/groups.go:187-200 and
    internal/server/tunnel.go:351-394 */
module RollbackRun {
  import opened Basics
  import opened Protocols
  import opened Seqs
  import opened Sorting
  import opened Entries
  import opened PortSpec
  import opened Rendering
  import opened Text
  import opened Forwards
  import opened Listeners
  import opened GroupSwitch
  import opened GroupSafety
  import opened Startup
  import opened Store
  import opened Groups
  import opened GroupInvariant
  import opened Api
  import opened ApiInvariant
  import opened ApiEffects

  // ----- the exact condition ----------------------------------------------------------------

  /** The commit gets as far as the listeners. */
  ghost predicate TriesListeners(st: State, groupId: Id, next: seq<Forward>) {
    next != [] && next[0].clientId in st.clients && forall f :: f in next ==> !GroupPortConflict(st.forwards, groupId, f)
  }

  /** A refused commit leaves all listeners as they were if and only if it did not get to
      them, or every enabled old member it touched was running or blocked by another process. */
  lemma RefusedCommit(cfg: Config, st: State, groupId: Id, next: seq<Forward>, prev: seq<Forward>)
    requires Inv(cfg, st) && ListsGroup(st.forwards, groupId, prev)
    requires Committable(cfg, st.clients, st.forwards, groupId, next, prev)
    ensures CommitGroup(st, groupId, next, prev).1.Some? ==>
              (SameNet(CommitGroup(st, groupId, next, prev).0.net, st.net) <==>
                 (TriesListeners(st, groupId, next) ==> Undoable(st.net, next, prev)))
  {
    UnchangedIsSame(st.net);
    if CommitGroup(st, groupId, next, prev).1.Some? && TriesListeners(st, groupId, next) {
      SwitchIsReady(cfg, st, groupId, next, prev);
      GroupIsAllOrNothing(st.net, next, prev);
    }
  }

  /** The members an edit asks for. */
  function Edited(cfg: Config, st: State, id: Id, inp: GroupInput, ids: seq<Id>, now: int): Result<seq<Forward>, Failure>
    requires |ids| >= MAX_GROUP_PORTS && ForwardsInGroup(st.forwards, id) != []
  {
    var prev := ForwardsInGroup(st.forwards, id);
    ExpandGroup(cfg, id, ApplyGroupInput(inp, CurrentFields(prev)), prev, ids, now)
  }

  /** The same for a whole request to edit a group. */
  lemma RefusedEdit(cfg: Config, st: State, id: Id, inp: GroupInput, ids: seq<Id>, now: int)
    requires Inv(cfg, st) && FreshIds(ids, st.forwards)
    ensures
      var prev, r := ForwardsInGroup(st.forwards, id), UpdateGroup(cfg, st, id, inp, ids, now);
      r.1.Some? ==>
        (SameNet(r.0.net, st.net) <==>
           (prev != [] && Edited(cfg, st, id, inp, ids, now).Ok?
            && TriesListeners(st, id, Edited(cfg, st, id, inp, ids, now).value) ==>
              Undoable(st.net, Edited(cfg, st, id, inp, ids, now).value, prev)))
  {
    var prev := ForwardsInGroup(st.forwards, id);
    GroupMembers(st.forwards, id);
    GroupHasDistinctIds(st.forwards, id);
    UnchangedIsSame(st.net);
    if prev != [] && Edited(cfg, st, id, inp, ids, now).Ok? {
      var next := Edited(cfg, st, id, inp, ids, now).value;
      ExpandIsCommittable(cfg, st.clients, st.forwards, id, ApplyGroupInput(inp, CurrentFields(prev)), prev, ids, now);
      RefusedCommit(cfg, st, id, next, prev);
    }
  }

  // ----- a run ------------------------------------------------------------------------------------

  const CFG: Config := Config(1, 2)

  /** The forward as it is created. */
  const OLD_FORWARD: Forward := Forward(8, 7, 8, "a", Tcp, 100, "h", 100, true, 0, 0)

  const OLD_INPUT: ForwardInput := ForwardInput(Some(7), Some("a"), None, Some(100), Some("h"), None, Some(true))

  function Ids64(): (ids: seq<Id>)
    ensures |ids| == 64 && forall i :: 0 <= i < 64 ==> ids[i] == 100 + i
  {
    seq(64, i requires 0 <= i => 100 + i)
  }

  function MoveTo200(): GroupInput {
    GroupInput(None, None, None, Some(Render([PortEntry(200, Tcp, 200)])), None, None)
  }

  const TAKEN_100: map<Socket, Owner> := map[Socket(100, TCP) := Foreign]

  const TAKEN_200: map<Socket, Owner> := map[Socket(200, TCP) := Foreign]

  lemma ShortTexts()
    ensures Trim("a") == "a" && Trim("h") == "h" && NewForward(OLD_INPUT, 8, 0) == OLD_FORWARD && Storable(CFG, OLD_FORWARD)
  {
    assert TrimLeft("a") == "a" && TrimRight("a") == "a";
    assert TrimLeft("h") == "h" && TrimRight("h") == "h";
  }

  /** Creating the client. */
  lemma Registers(empty: State) returns (st: State, req: Request)
    requires empty == State([], [], Net(map[], map[]))
    ensures Leads(CFG, empty, req, st)
    ensures Inv(CFG, st) && st.clients == [7] && st.forwards == [] && st.net.table == map[]
  {
    req := ReqCreateClient(7);
    st := CreateClient(empty, 7).0;
    assert empty.clients + [7] == [7];
    assert forall g :: Filter(st.forwards, InGroup(g)) == [];
  }

  /** Creating the forward. */
  lemma Creates(before: State) returns (st: State, req: Request)
    requires Inv(CFG, before) && before.clients == [7] && before.forwards == [] && before.net.table == map[]
    ensures Leads(CFG, before, req, st)
    ensures Inv(CFG, st) && st.clients == [7] && st.forwards == [OLD_FORWARD]
  {
    ShortTexts();
    req := ReqCreateForward(OLD_INPUT, 8, 0);
    assert Possible(before, req);
    CreateIsAcceptable(CFG, before, OLD_INPUT, 8, 0);
    CreateForwardKeepsInv(CFG, before, OLD_INPUT, 8, 0);
    st := CreateForward(CFG, before, OLD_INPUT, 8, 0).0;
    assert before.forwards + [OLD_FORWARD] == [OLD_FORWARD];
  }

  /** At a start with port 100 taken the forward does not run. */
  lemma StartsWithout()
    ensures Consistent(SyncAll(Net(map[], TAKEN_100), [OLD_FORWARD]).0) && SyncAll(Net(map[], TAKEN_100), [OLD_FORWARD]).0.runners == map[]
  {
    var net, fs := Net(map[], TAKEN_100), [OLD_FORWARD];
    SyncInGeneral(net, fs);
    OneById();
    SyncMeaning(net, fs);
    assert ForeignOn(TAKEN_100, fs[0]) && fs[0].id == 8;
    var after := SyncAll(net, fs).0;
    forall id ensures id !in after.runners {
    }
    assert after.runners == map[];
  }

  lemma OneById()
    ensures NoClashById(ById([OLD_FORWARD]))
  {
    ByIdNoClash([OLD_FORWARD]);
  }

  /** After the restart the forward does not run, and then its port is free. */
  lemma Restarts(st: State) returns (st1: State, st2: State, req1: Request, req2: Request)
    requires Inv(CFG, st) && st.clients == [7] && st.forwards == [OLD_FORWARD]
    ensures Leads(CFG, st, req1, st1) && Leads(CFG, st1, req2, st2)
    ensures Inv(CFG, st2) && st2.clients == [7] && st2.forwards == [OLD_FORWARD] && st2.net == Net(map[], TAKEN_200)
  {
    req1, req2 := Start(TAKEN_100), HostChange(TAKEN_200);
    StartKeepsInv(CFG, st, TAKEN_100);
    StartsWithout();
    st1 := st.(net := SyncAll(Net(map[], TAKEN_100), st.forwards).0);
    assert forall s :: s in st1.net.table ==> st1.net.table[s] == Foreign;
    HostChangeKeepsInv(CFG, st1, TAKEN_200);
    st2 := st1.(net := st1.net.(table := TAKEN_200));
  }

  /** The forward as the edit wants it. */
  const NEW_FORWARD: Forward := Forward(100, 7, 8, "a", Tcp, 200, "h", 200, true, 1, 1)

  lemma OneMember()
    ensures ForwardsInGroup([OLD_FORWARD], 8) == [OLD_FORWARD] && SortEntries([PortEntry(200, Tcp, 200)]) == [PortEntry(200, Tcp, 200)]
  {
    FilterAll([OLD_FORWARD], InGroup(8));
    SortOfOrdered([OLD_FORWARD], ForwardKey);
    SortOfOrdered([PortEntry(200, Tcp, 200)], EntryKey);
  }

  lemma NewMember(g: GroupFields)
    requires g == GroupFields(7, "a", "tcp", Render([PortEntry(200, Tcp, 200)]), "h", true)
    ensures ExpandFrom(CFG, 8, g, [OLD_FORWARD], [PortEntry(200, Tcp, 200)], Ids64(), 1, 0) == Ok([NEW_FORWARD])
  {
    var e := PortEntry(200, Tcp, 200);
    FindPrevFinds([OLD_FORWARD], e);
    assert FindPrev([OLD_FORWARD], e) == None;
    ShortTexts();
    assert Member(8, g, [OLD_FORWARD], e, Ids64()[0], 1) == NEW_FORWARD;
    var r := ExpandFrom(CFG, 8, g, [OLD_FORWARD], [e], Ids64(), 1, 0);
    ExpandFromMeaning(CFG, 8, g, [OLD_FORWARD], [e], Ids64(), 1, 0);
    assert r.Ok? && |r.value| == 1 && r.value[0] == NEW_FORWARD;
    assert r.value == [NEW_FORWARD];
  }

  /** What the edit asks for. */
  lemma Moves(st: State)
    requires st.forwards == [OLD_FORWARD]
    ensures ForwardsInGroup(st.forwards, 8) == [OLD_FORWARD] && Edited(CFG, st, 8, MoveTo200(), Ids64(), 1) == Ok([NEW_FORWARD])
  {
    var e := PortEntry(200, Tcp, 200);
    OneMember();
    RoundTrip([e], "tcp");
    ShortTexts();
    var g := ApplyGroupInput(MoveTo200(), CurrentFields([OLD_FORWARD]));
    assert g == GroupFields(7, "a", "tcp", Render([e]), "h", true);
    NewMember(g);
  }

  lemma NotUndoable(net: Net)
    requires net == Net(map[], TAKEN_200)
    ensures !Undoable(net, [NEW_FORWARD], [OLD_FORWARD])
  {
    assert ById([OLD_FORWARD]) == map[8 := OLD_FORWARD] && ById([NEW_FORWARD]) == map[100 := NEW_FORWARD] by {
      assert [OLD_FORWARD][..0] == [] && [NEW_FORWARD][..0] == [];
    }
    assert Touched(net, [NEW_FORWARD], 8) && !ForeignOn(net.table, OLD_FORWARD);
  }

  lemma IdsAreFresh(fs: seq<Forward>)
    requires fs == [OLD_FORWARD]
    ensures FreshIds(Ids64(), fs)
  {
    var ids := Ids64();
    forall i, j | 0 <= i < j < |ids| ensures ids[i] != ids[j] {
    }
  }

  lemma EditIsCommittable(st: State)
    requires Inv(CFG, st) && st.clients == [7] && st.forwards == [OLD_FORWARD]
    ensures ListsGroup(st.forwards, 8, [OLD_FORWARD]) && TriesListeners(st, 8, [NEW_FORWARD])
    ensures Committable(CFG, st.clients, st.forwards, 8, [NEW_FORWARD], [OLD_FORWARD])
  {
    Moves(st);
    IdsAreFresh(st.forwards);
    assert ListsGroup(st.forwards, 8, [OLD_FORWARD]);
    var g := ApplyGroupInput(MoveTo200(), CurrentFields([OLD_FORWARD]));
    assert Edited(CFG, st, 8, MoveTo200(), Ids64(), 1) == ExpandGroup(CFG, 8, g, [OLD_FORWARD], Ids64(), 1);
    ExpandIsCommittable(CFG, st.clients, st.forwards, 8, g, [OLD_FORWARD], Ids64(), 1);
  }

  /** In this state the edit is refused and yet starts the old listener. */
  lemma EditIsRefused(st: State)
    requires Inv(CFG, st) && st.clients == [7] && st.forwards == [OLD_FORWARD] && st.net == Net(map[], TAKEN_200)
    ensures UpdateGroup(CFG, st, 8, MoveTo200(), Ids64(), 1).1.Some?
    ensures !SameNet(UpdateGroup(CFG, st, 8, MoveTo200(), Ids64(), 1).0.net, st.net)
  {
    Moves(st);
    EditIsCommittable(st);
    CommitIsRefused(st);
    assert UpdateGroup(CFG, st, 8, MoveTo200(), Ids64(), 1) == CommitGroup(st, 8, [NEW_FORWARD], [OLD_FORWARD]);
  }

  lemma CommitIsRefused(st: State)
    requires Inv(CFG, st) && st.clients == [7] && st.forwards == [OLD_FORWARD] && st.net == Net(map[], TAKEN_200)
    requires ListsGroup(st.forwards, 8, [OLD_FORWARD]) && TriesListeners(st, 8, [NEW_FORWARD])
    requires Committable(CFG, st.clients, st.forwards, 8, [NEW_FORWARD], [OLD_FORWARD])
    ensures CommitGroup(st, 8, [NEW_FORWARD], [OLD_FORWARD]).1.Some? && !SameNet(CommitGroup(st, 8, [NEW_FORWARD], [OLD_FORWARD]).0.net, st.net)
  {
    CommitEffect(CFG, st, 8, [NEW_FORWARD], [OLD_FORWARD]);
    assert NEW_FORWARD in [NEW_FORWARD] && ForeignOn(st.net.table, NEW_FORWARD);
    RefusedCommit(CFG, st, 8, [NEW_FORWARD], [OLD_FORWARD]);
    NotUndoable(st.net);
  }

  lemma RunGrows(cfg: Config, states: seq<State>, reqs: seq<Request>, req: Request, after: State)
    requires ApiInvariant.IsRun(cfg, states, reqs) && Leads(cfg, states[|reqs|], req, after)
    ensures ApiInvariant.IsRun(cfg, states + [after], reqs + [req])
  {
    var ss, rs := states + [after], reqs + [req];
    forall i | 0 <= i < |rs| ensures Leads(cfg, ss[i], rs[i], ss[i + 1]) {
      assert i < |reqs| ==> Leads(cfg, states[i], reqs[i], states[i + 1]);
    }
  }

  /** A client and a forward on port 100 are created. */
  lemma FirstPart() returns (states: seq<State>, reqs: seq<Request>)
    ensures ApiInvariant.IsRun(CFG, states, reqs) && |reqs| == 2
    ensures Inv(CFG, states[2]) && states[2].clients == [7] && states[2].forwards == [OLD_FORWARD]
  {
    states, reqs := [State([], [], Net(map[], map[]))], [];
    var s1, r1 := Registers(states[0]);
    RunGrows(CFG, states, reqs, r1, s1);
    states, reqs := states + [s1], reqs + [r1];
    var s2, r2 := Creates(s1);
    RunGrows(CFG, states, reqs, r2, s2);
    states, reqs := states + [s2], reqs + [r2];
  }

  /** The server starts again while another process holds the port; that process gives up
      port 100, and one takes port 200. */
  lemma SecondPart() returns (states: seq<State>, reqs: seq<Request>)
    ensures ApiInvariant.IsRun(CFG, states, reqs) && |reqs| == 4
    ensures Inv(CFG, states[4]) && states[4].clients == [7] && states[4].forwards == [OLD_FORWARD] && states[4].net == Net(map[], TAKEN_200)
  {
    states, reqs := FirstPart();
    var s3, s4, r3, r4 := Restarts(states[2]);
    RunGrows(CFG, states, reqs, r3, s3);
    states, reqs := states + [s3], reqs + [r3];
    RunGrows(CFG, states, reqs, r4, s4);
    states, reqs := states + [s4], reqs + [r4];
  }

  /** Requests alone lead to a state in which a group edit, to move to port 200, is refused
      and leaves a listener running that did not run before. */
  lemma RollbackStartsAListener() returns (states: seq<State>, reqs: seq<Request>, inp: GroupInput, ids: seq<Id>)
    ensures ApiInvariant.IsRun(CFG, states, reqs) && |reqs| == 4 && FreshIds(ids, states[4].forwards)
    ensures
      var (after, err) := UpdateGroup(CFG, states[4], 8, inp, ids, 1);
      err.Some? && !SameNet(after.net, states[4].net)
  {
    states, reqs := SecondPart();
    inp, ids := MoveTo200(), Ids64();
    IdsAreFresh(states[4].forwards);
    EditIsRefused(states[4]);
  }
}
