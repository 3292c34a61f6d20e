/** The mutating requests as transitions of the server state.
    internal/server/api.go:420-447, 506-547, 673-868 and internal/server/groups.go:110-135, 254-358 */
module Api {
  import opened Basics
  import opened Protocols
  import opened Decimal
  import opened Seqs
  import opened PortSpec
  import opened Rendering
  import Entries
  import Grammar
  import opened Text
  import opened Forwards
  import opened Listeners
  import opened GroupSwitch
  import opened Startup
  import opened Store
  import opened Groups

  // ----- inputs ---------------------------------------------------------------------

  datatype ForwardInput = ForwardInput(
    clientId: Option<Id>, name: Option<string>, protocol: Option<string>, publicPort: Option<int>,
    targetHost: Option<string>, targetPort: Option<int>, enabled: Option<bool>)

  datatype GroupInput = GroupInput(
    clientId: Option<Id>, name: Option<string>, protocol: Option<string>, ports: Option<string>,
    targetHost: Option<string>, enabled: Option<bool>)

  function OrElse<T>(o: Option<T>, d: T): T { if o.Some? then o.value else d }

  function OrTrimmed(o: Option<string>, d: string): string { if o.Some? then Trim(o.value) else d }

  function ApplyForwardInput(inp: ForwardInput, f: Forward): Forward {
    f.(clientId := OrElse(inp.clientId, f.clientId),
       name := OrTrimmed(inp.name, f.name),
       proto := if inp.protocol.Some? then ProtoOf(Grammar.Lower(Trim(inp.protocol.value))) else f.proto,
       publicPort := OrElse(inp.publicPort, f.publicPort),
       targetHost := OrTrimmed(inp.targetHost, f.targetHost),
       targetPort := OrElse(inp.targetPort, f.targetPort),
       enabled := OrElse(inp.enabled, f.enabled))
  }

  function ApplyGroupInput(inp: GroupInput, g: GroupFields): GroupFields {
    g.(clientId := OrElse(inp.clientId, g.clientId),
       name := OrTrimmed(inp.name, g.name),
       protocol := if inp.protocol.Some? then Grammar.Lower(Trim(inp.protocol.value)) else g.protocol,
       ports := OrElse(inp.ports, g.ports),
       targetHost := OrTrimmed(inp.targetHost, g.targetHost),
       enabled := OrElse(inp.enabled, g.enabled))
  }

  // ----- single forwards ---------------------------------------------------------------

  function DefaultName(f: Forward): string {
    ProtoText(f.proto) + "-" + Itoa(f.publicPort)
  }

  /** The forward a create request describes, with its defaults. */
  function NewForward(inp: ForwardInput, id: Id, now: int): Forward {
    var base := Forward(id, NO_ID, id, "", Tcp, 0, "127.0.0.1", 0, true, now, now);
    var f := ApplyForwardInput(inp, base);
    var f1 := if inp.publicPort.None? && inp.targetPort.Some? then f.(publicPort := f.targetPort) else f;
    var f2 := if inp.targetPort.None? && inp.publicPort.Some? then f1.(targetPort := f1.publicPort) else f1;
    if f2.name == "" then f2.(name := DefaultName(f2)) else f2
  }

  function CreateForward(cfg: Config, st: State, inp: ForwardInput, id: Id, now: int): (State, Option<Failure>) {
    var f := NewForward(inp, id, now);
    if !Valid(f) then (st, Some(Validation))
    else if Reserved(cfg, f.publicPort) then (st, Some(Conflict))
    else if f.clientId !in st.clients then (st.(net := Remove(st.net, id)), Some(Validation))
    else if PortConflict(st.forwards, f) then (st.(net := Remove(st.net, id)), Some(Conflict))
    else
      var (net, ok) := Apply(st.net, f);
      if !ok then (st.(net := Remove(net, id)), Some(Conflict))
      else (State(st.clients, st.forwards + [f], net), None)
  }

  /** The position of the forward with this id, or |fs|. */
  function IndexOf(fs: seq<Forward>, id: Id): (i: nat)
    ensures i <= |fs| && (i < |fs| ==> fs[i].id == id)
    ensures forall j :: 0 <= j < i ==> fs[j].id != id
  {
    if fs == [] || fs[0].id == id then 0 else 1 + IndexOf(fs[1..], id)
  }

  function UpdateForward(cfg: Config, st: State, id: Id, inp: ForwardInput, now: int): (State, Option<Failure>) {
    var i := IndexOf(st.forwards, id);
    if i == |st.forwards| then (st, Some(NotFound))
    else
      var f := st.forwards[i];
      var next := ApplyForwardInput(inp, f).(updatedAt := now);
      if next.clientId != f.clientId && |ForwardsInGroup(st.forwards, f.groupId)| > 1 then (st, Some(Validation))
      else if !Valid(next) then (st, Some(Validation))
      else if Reserved(cfg, next.publicPort) then (st, Some(Conflict))
      else if next.clientId !in st.clients then (st, Some(Validation))
      else if PortConflict(st.forwards, next) then (st, Some(Conflict))
      else
        var (net, ok) := Apply(st.net, next);
        if !ok then (st.(net := net), Some(Conflict))
        else (State(st.clients, st.forwards[i := next], net), None)
  }

  function NotWithId(id: Id): Forward -> bool { (f: Forward) => f.id != id }

  function DeleteForward(st: State, id: Id): (State, Option<Failure>) {
    if IndexOf(st.forwards, id) == |st.forwards| then (st, Some(NotFound))
    else (State(st.clients, Filter(st.forwards, NotWithId(id)), Remove(st.net, id)), None)
  }

  // ----- groups ---------------------------------------------------------------------------

  function EntryOf(f: Forward): Entries.PortEntry {
    Entries.PortEntry(f.publicPort, f.proto, f.targetPort)
  }

  /** GroupSpec: the canonical spec of the members. */
  function GroupSpec(fs: seq<Forward>): string {
    Render(Mapped(fs, EntryOf))
  }

  function CreateGroup(cfg: Config, st: State, inp: GroupInput, groupId: Id, ids: seq<Id>, now: int): (State, Option<Failure>)
    requires |ids| >= MAX_GROUP_PORTS
  {
    var g := ApplyGroupInput(inp, GroupFields(NO_ID, "", "tcp", "", "127.0.0.1", true));
    match ExpandGroup(cfg, groupId, g, [], ids, now)
    case Err(e) => (st, Some(e))
    case Ok(next) =>
      ExpandIsNotEmpty(cfg, groupId, g, [], ids, now);
      CommitGroup(st, groupId, next, [])
  }

  lemma ExpandIsNotEmpty(cfg: Config, groupId: Id, g: GroupFields, prev: seq<Forward>, ids: seq<Id>, now: int)
    requires |ids| >= MAX_GROUP_PORTS && ExpandGroup(cfg, groupId, g, prev, ids, now).Ok?
    ensures 1 <= |ExpandGroup(cfg, groupId, g, prev, ids, now).value| <= MAX_GROUP_PORTS
  {
    var entries, g' := ExpandMeaning(cfg, groupId, g, prev, ids, now);
  }

  predicate AllEnabled(fs: seq<Forward>) {
    forall f :: f in fs ==> f.enabled
  }

  /** The current fields of a group: those of its first member, its canonical spec, and
      enabled when every member is. */
  function CurrentFields(prev: seq<Forward>): GroupFields
    requires prev != []
  {
    GroupFields(prev[0].clientId, prev[0].name, "tcp", GroupSpec(prev), prev[0].targetHost, AllEnabled(prev))
  }

  function UpdateGroup(cfg: Config, st: State, id: Id, inp: GroupInput, ids: seq<Id>, now: int): (State, Option<Failure>)
    requires |ids| >= MAX_GROUP_PORTS
  {
    var prev := ForwardsInGroup(st.forwards, id);
    if prev == [] then (st, Some(NotFound))
    else
      var g := ApplyGroupInput(inp, CurrentFields(prev));
      match ExpandGroup(cfg, id, g, prev, ids, now)
      case Err(e) => (st, Some(e))
      case Ok(next) =>
        ExpandIsNotEmpty(cfg, id, g, prev, ids, now);
        CommitGroup(st, id, next, prev)
  }

  function NotInGroup(groupId: Id): Forward -> bool { (f: Forward) => f.groupId != groupId }

  function DeleteGroup(st: State, id: Id): (State, Option<Failure>) {
    var removed := ForwardsInGroup(st.forwards, id);
    if removed == [] then (st, Some(NotFound))
    else (State(st.clients, Filter(st.forwards, NotInGroup(id)), RemoveFrom(st.net, removed, 0)), None)
  }

  // ----- clients ----------------------------------------------------------------------------

  function CreateClient(st: State, id: Id): (State, Option<Failure>) {
    (st.(clients := st.clients + [id]), None)
  }

  function OfClient(id: Id): Forward -> bool { (f: Forward) => f.clientId == id }

  function NotOfClient(id: Id): Forward -> bool { (f: Forward) => f.clientId != id }

  function OtherThan(id: Id): Id -> bool { (c: Id) => c != id }

  function DeleteClient(st: State, id: Id): (State, Option<Failure>) {
    if id !in st.clients then (st, Some(NotFound))
    else
      (State(Filter(st.clients, OtherThan(id)), Filter(st.forwards, NotOfClient(id)),
             RemoveFrom(st.net, Filter(st.forwards, OfClient(id)), 0)), None)
  }

  // ----- all requests -------------------------------------------------------------------------

  /** Requests, and two events of the environment: the server process starting on a
      stored document, and other processes taking or releasing ports. */
  datatype Request =
    | ReqCreateClient(clientId: Id)
    | ReqDeleteClient(id: Id)
    | ReqCreateForward(forward: ForwardInput, newId: Id, now: int)
    | ReqUpdateForward(id: Id, forward: ForwardInput, now: int)
    | ReqDeleteForward(id: Id)
    | ReqCreateGroup(group: GroupInput, groupId: Id, ids: seq<Id>, now: int)
    | ReqUpdateGroup(id: Id, group: GroupInput, ids: seq<Id>, now: int)
    | ReqDeleteGroup(id: Id)
    | Start(table: map<Socket, Owner>)
    | HostChange(table: map<Socket, Owner>)

  /** NewID never repeats an identifier in use; a starting process holds no socket yet;
      other processes cannot take a socket that a runner holds. */
  ghost predicate Possible(st: State, req: Request) {
    match req
    case ReqCreateClient(id) => id != NO_ID && id !in st.clients
    case ReqCreateForward(_, id, _) =>
      id != NO_ID && forall f :: f in st.forwards ==> f.id != id && f.groupId != id
    case ReqCreateGroup(_, groupId, ids, _) =>
      FreshIds(ids, st.forwards) && forall f :: f in st.forwards ==> f.groupId != groupId
    case ReqUpdateGroup(_, _, ids, _) => FreshIds(ids, st.forwards)
    case Start(table) => forall s :: s in table ==> table[s] == Foreign
    case HostChange(table) =>
      forall s, id :: (s in table && table[s] == Held(id)) <==> (s in st.net.table && st.net.table[s] == Held(id))
    case _ => true
  }

  function Serve(cfg: Config, st: State, req: Request): (State, Option<Failure>)
    requires req.ReqCreateGroup? || req.ReqUpdateGroup? ==> |req.ids| >= MAX_GROUP_PORTS
  {
    match req
    case ReqCreateClient(id) => CreateClient(st, id)
    case ReqDeleteClient(id) => DeleteClient(st, id)
    case ReqCreateForward(inp, id, now) => CreateForward(cfg, st, inp, id, now)
    case ReqUpdateForward(id, inp, now) => UpdateForward(cfg, st, id, inp, now)
    case ReqDeleteForward(id) => DeleteForward(st, id)
    case ReqCreateGroup(inp, groupId, ids, now) => CreateGroup(cfg, st, inp, groupId, ids, now)
    case ReqUpdateGroup(id, inp, ids, now) => UpdateGroup(cfg, st, id, inp, ids, now)
    case ReqDeleteGroup(id) => DeleteGroup(st, id)
    case Start(table) => (st.(net := SyncAll(Net(map[], table), st.forwards).0), None)
    case HostChange(table) => (st.(net := st.net.(table := table)), None)
  }
}
