/** The request handlers as methods of the server object. The stored list lives in a
    growable array and is compacted in place, as the slices of the source are.
    internal/server/api.go:506-547, 717-868 and internal/server/groups.go:153-221, 254-358 */
module ServerObject {
  import opened Basics
  import opened Protocols
  import opened Seqs
  import opened Sorting
  import opened Entries
  import opened PortSpec
  import opened Rendering
  import opened Text
  import opened Forwards
  import opened Listeners
  import opened GroupSwitch
  import opened Startup
  import opened Store
  import opened Groups
  import opened Api
  import opened TunnelObject

  /** One step of a filter over a growing prefix. */
  lemma FilterGrows<T>(s: seq<T>, i: nat, keep: T -> bool)
    requires i < |s|
    ensures Filter(s[..i + 1], keep) == if keep(s[i]) then Filter(s[..i], keep) + [s[i]] else Filter(s[..i], keep)
    ensures |Filter(s[..i], keep)| <= i
  {
    assert s[..i + 1][..i] == s[..i];
    FilterMembers(s[..i], keep);
  }

  lemma ReplaceGrows(fs: seq<Forward>, i: nat, groupId: Id, x: map<Id, Forward>)
    requires i < |fs|
    ensures
      var (kept, left) := Replace(fs[..i], groupId, x);
      var o := fs[i];
      && |kept| <= i
      && Replace(fs[..i + 1], groupId, x) ==
           if o.groupId != groupId then (kept + [o], left)
           else if o.id in left then (kept + [left[o.id]], left - {o.id})
           else (kept, left)
  {
    assert fs[..i + 1][..i] == fs[..i];
  }

  /** State.Forwards: a slice, that is an array with a length. */
  class ForwardList {
    var buf: array<Forward>
    var len: nat

    ghost predicate Valid()
      reads this
    {
      len <= buf.Length
    }

    ghost function Contents(): seq<Forward>
      reads this, buf
      requires Valid()
    {
      buf[..len]
    }

    constructor ()
      ensures Valid() && fresh(buf) && Contents() == []
    {
      buf := new Forward[0](_ => Forward(0, 0, 0, "", Unknown, 0, "", 0, false, 0, 0));
      len := 0;
    }

    /** append: in place while there is room, else into a larger array. */
    method Append(f: Forward)
      requires Valid()
      modifies this, buf
      ensures Valid() && (buf == old(buf) || fresh(buf))
      ensures Contents() == old(Contents()) + [f]
    {
      if len == buf.Length {
        ghost var before := buf[..len];
        var n, was := len, buf;
        buf := new Forward[2 * n + 1](i requires 0 <= i reads was => if i < was.Length then was[i] else f);
        assert buf[..len] == before;
      }
      buf[len] := f;
      len := len + 1;
    }

    /** kept := list[:0]; keep what passes; list = kept. The output overwrites the array
        that is being read. */
    method Retain(keep: Forward -> bool)
      requires Valid()
      modifies this`len, buf
      ensures Valid() && Contents() == Filter(old(Contents()), keep)
    {
      ghost var was := Contents();
      var kept, i := 0, 0;
      while i < len
        invariant kept <= i <= len == old(len)
        invariant buf[..kept] == Filter(was[..i], keep)
        invariant buf[i..len] == was[i..]
      {
        FilterGrows(was, i, keep);
        assert buf[i] == buf[i..len][0] == was[i];
        if keep(buf[i]) {
          kept := Put(kept, i, buf[i]);
        }
        assert buf[i + 1..len] == was[i + 1..];
        i := i + 1;
      }
      assert was[..i] == was;
      len := kept;
    }

    /** The compaction of commitGroup, in place as well: members of the group are
        replaced by their successor or dropped. */
    method ReplaceMembers(groupId: Id, nextById: map<Id, Forward>) returns (left: map<Id, Forward>)
      requires Valid()
      modifies this`len, buf
      ensures Valid() && (Contents(), left) == Replace(old(Contents()), groupId, nextById)
    {
      ghost var was := Contents();
      left := nextById;
      var kept, i := 0, 0;
      while i < len
        invariant kept <= i <= len == old(len)
        invariant buf[..kept] == Replace(was[..i], groupId, nextById).0
        invariant left == Replace(was[..i], groupId, nextById).1
        invariant buf[i..len] == was[i..]
      {
        ReplaceGrows(was, i, groupId, nextById);
        var o := buf[i];
        assert o == buf[i..len][0] == was[i];
        if o.groupId != groupId {
          kept := Put(kept, i, o);
        } else if o.id in left {
          kept := Put(kept, i, left[o.id]);
          left := left - {o.id};
        }
        assert buf[i + 1..len] == was[i + 1..];
        i := i + 1;
      }
      assert was[..i] == was;
      len := kept;
    }

    /** kept = append(kept, f), which writes behind the reading position. */
    method Put(kept: nat, i: nat, f: Forward) returns (after: nat)
      requires Valid() && kept <= i < len
      modifies buf
      ensures after == kept + 1 && buf[..after] == old(buf[..kept]) + [f]
      ensures buf[i + 1..len] == old(buf[i..len])[1..]
    {
      buf[kept] := f;
      after := kept + 1;
    }

    /** Both loops of commitGroup. */
    method SwapMembers(groupId: Id, next: seq<Forward>)
      requires Valid()
      modifies this, buf
      ensures Valid() && (buf == old(buf) || fresh(buf))
      ensures Contents() == Swap(old(Contents()), groupId, next)
    {
      var nextById := IndexById(next);
      var left := ReplaceMembers(groupId, nextById);
      AppendNew(next, left);
    }

    /** Second loop of commitGroup: what no old member was replaced by is appended. */
    method AppendNew(next: seq<Forward>, left: map<Id, Forward>)
      requires Valid()
      modifies this, buf
      ensures Valid() && (buf == old(buf) || fresh(buf))
      ensures Contents() == old(Contents()) + Filter(next, (f: Forward) => f.id in left)
    {
      ghost var kept := Contents();
      ghost var pending := (f: Forward) => f.id in left;
      var i := 0;
      while i < |next|
        invariant i <= |next| && Valid() && (buf == old(buf) || fresh(buf))
        invariant Contents() == kept + Filter(next[..i], pending)
      {
        FilterGrows(next, i, pending);
        if next[i].id in left {
          Append(next[i]);
        }
        i := i + 1;
      }
      assert next[..i] == next;
    }

    method Find(id: Id) returns (i: nat)
      requires Valid()
      ensures i == IndexOf(Contents(), id)
    {
      i := 0;
      while i < len && buf[i].id != id
        invariant i <= len
        invariant IndexOf(Contents(), id) == i + IndexOf(Contents()[i..], id)
      {
        i := i + 1;
      }
    }

    method HasPortConflict(f: Forward) returns (found: bool)
      requires Valid()
      ensures found <==> PortConflict(Contents(), f)
    {
      var i := 0;
      while i < len
        invariant i <= len
        invariant forall k :: 0 <= k < i ==> !(buf[k].id != f.id && Clash(f, buf[k]))
      {
        if buf[i].id != f.id && Clash(f, buf[i]) {
          assert Contents()[i] in Contents();
          return true;
        }
        i := i + 1;
      }
      return false;
    }

    method HasGroupConflict(groupId: Id, f: Forward) returns (found: bool)
      requires Valid()
      ensures found <==> GroupPortConflict(Contents(), groupId, f)
    {
      var i := 0;
      while i < len
        invariant i <= len
        invariant forall k :: 0 <= k < i ==> !(buf[k].groupId != groupId && Clash(f, buf[k]))
      {
        if buf[i].groupId != groupId && Clash(f, buf[i]) {
          assert Contents()[i] in Contents();
          return true;
        }
        i := i + 1;
      }
      return false;
    }

    method AnyGroupConflict(groupId: Id, next: seq<Forward>) returns (found: bool)
      requires Valid()
      ensures found <==> exists f :: f in next && GroupPortConflict(Contents(), groupId, f)
    {
      var i := 0;
      while i < |next|
        invariant i <= |next|
        invariant forall k :: 0 <= k < i ==> !GroupPortConflict(Contents(), groupId, next[k])
      {
        found := HasGroupConflict(groupId, next[i]);
        if found {
          assert next[i] in next;
          return true;
        }
        i := i + 1;
      }
      return false;
    }

    /** ForwardsInGroup: collect, then sort by port and protocol. */
    method Members(groupId: Id) returns (out: seq<Forward>)
      requires Valid()
      ensures out == ForwardsInGroup(Contents(), groupId)
    {
      out := Collect(InGroup(groupId));
      out := SortBy(out, ForwardKey);
    }

    method Collect(keep: Forward -> bool) returns (out: seq<Forward>)
      requires Valid()
      ensures out == Filter(Contents(), keep)
    {
      out := [];
      var i := 0;
      while i < len
        invariant i <= len && out == Filter(Contents()[..i], keep)
      {
        FilterGrows(Contents(), i, keep);
        if keep(buf[i]) { out := out + [buf[i]]; }
        i := i + 1;
      }
      assert Contents()[..i] == Contents();
    }
  }

  method IndexById(fs: seq<Forward>) returns (m: map<Id, Forward>)
    ensures m == ById(fs)
  {
    m := map[];
    var i := 0;
    while i < |fs|
      invariant i <= |fs| && m == ById(fs[..i])
    {
      ByIdGrows(fs, i);
      m := m[fs[i].id := fs[i]];
      i := i + 1;
    }
    assert fs[..i] == fs;
  }

  // ----- expanding a group -----------------------------------------------------------

  /** prevByKey, filled in order so that a later member wins. */
  method IndexByKey(prev: seq<Forward>) returns (m: map<(int, Proto), Forward>)
    ensures forall e: PortEntry ::
              FindPrev(prev, e) == if (e.port, e.proto) in m then Some(m[(e.port, e.proto)]) else None
  {
    m := map[];
    var i := 0;
    while i < |prev|
      invariant i <= |prev|
      invariant forall e: PortEntry ::
                  FindPrev(prev[..i], e) == if (e.port, e.proto) in m then Some(m[(e.port, e.proto)]) else None
    {
      assert prev[..i + 1][..i] == prev[..i];
      m := m[(prev[i].publicPort, prev[i].proto) := prev[i]];
      i := i + 1;
    }
    assert prev[..i] == prev;
  }

  method BuildMembers(cfg: Config, groupId: Id, g: GroupFields, prev: seq<Forward>, entries: seq<PortEntry>, ids: seq<Id>, now: int)
    returns (r: Result<seq<Forward>, Failure>)
    requires |entries| <= |ids|
    ensures r == ExpandFrom(cfg, groupId, g, prev, entries, ids, now, 0)
  {
    var prevByKey := IndexByKey(prev);
    var members: seq<Forward> := [];
    assert forall rest: seq<Forward> :: members + rest == rest;
    var k := 0;
    while k < |entries|
      invariant k <= |entries|
      invariant ExpandFrom(cfg, groupId, g, prev, entries, ids, now, 0) ==
                  match ExpandFrom(cfg, groupId, g, prev, entries, ids, now, k)
                  case Err(e) => Err(e)
                  case Ok(rest) => Ok(members + rest)
    {
      var e := entries[k];
      var f := Forward(ids[k], g.clientId, groupId, g.name, e.proto, e.port, g.targetHost, e.target, g.enabled, now, now);
      if (e.port, e.proto) in prevByKey {
        var was := prevByKey[(e.port, e.proto)];
        f := f.(id := was.id, createdAt := was.createdAt);
      }
      assert f == Member(groupId, g, prev, e, ids[k], now);
      if !Valid(f) { return Err(Validation); }
      if Reserved(cfg, f.publicPort) { return Err(Conflict); }
      ghost var done := members;
      members := members + [f];
      assert forall rest: seq<Forward> :: done + ([f] + rest) == members + rest;
      k := k + 1;
    }
    assert members + [] == members;
    return Ok(members);
  }

  method BuildGroup(cfg: Config, groupId: Id, g: GroupFields, prev: seq<Forward>, ids: seq<Id>, now: int)
    returns (r: Result<seq<Forward>, Failure>)
    requires |ids| >= MAX_GROUP_PORTS
    ensures r == ExpandGroup(cfg, groupId, g, prev, ids, now)
  {
    var parsed := ParsePortSpec(g.ports, g.protocol);
    if parsed.Err? { return Err(Validation); }
    var entries := parsed.value;
    ParsedIsValid(g.ports, g.protocol);
    var named := g;
    if named.name == "" {
      var spec := RenderPortSpec(entries);
      named := named.(name := spec);
    }
    if !ValidName(named.name) { return Err(Validation); }
    r := BuildMembers(cfg, groupId, named, prev, entries, ids, now);
  }

  /** GroupSpec of the members. */
  method SpecOf(fs: seq<Forward>) returns (spec: string)
    ensures spec == GroupSpec(fs)
  {
    var es: seq<PortEntry> := [];
    var i := 0;
    while i < |fs|
      invariant i <= |fs| && es == Mapped(fs[..i], EntryOf)
    {
      es := es + [EntryOf(fs[i])];
      i := i + 1;
    }
    assert fs[..i] == fs;
    spec := RenderPortSpec(es);
  }

  method EveryEnabled(fs: seq<Forward>) returns (all: bool)
    ensures all <==> AllEnabled(fs)
  {
    all := true;
    var i := 0;
    while i < |fs|
      invariant i <= |fs|
      invariant all <==> forall k :: 0 <= k < i ==> fs[k].enabled
    {
      if !fs[i].enabled { all := false; }
      i := i + 1;
    }
    assert forall k :: 0 <= k < |fs| ==> fs[k] in fs;
  }

  // ----- the server --------------------------------------------------------------------

  class Server {
    const cfg: Config
    var clients: seq<Id>
    const forwards: ForwardList
    const tunnel: Tunnel

    ghost predicate Valid()
      reads this, forwards
    {
      forwards.Valid()
    }

    ghost function State(): Store.State
      reads this, forwards, forwards.buf, tunnel
      requires Valid()
    {
      Store.State.State(clients, forwards.Contents(), tunnel.State())
    }

    constructor (cfg: Config, table: map<Socket, Owner>)
      ensures Valid() && this.cfg == cfg && State() == Store.State.State([], [], Net(map[], table))
      ensures fresh(forwards) && fresh(forwards.buf) && fresh(tunnel)
    {
      this.cfg := cfg;
      clients := [];
      forwards := new ForwardList();
      tunnel := new Tunnel(table);
    }

    method CreateClient(id: Id) returns (err: Option<Failure>)
      requires Valid()
      modifies this`clients
      ensures Valid() && (State(), err) == Api.CreateClient(old(State()), id)
    {
      clients := clients + [id];
      return None;
    }

    method CreateForward(inp: ForwardInput, id: Id, now: int) returns (err: Option<Failure>)
      requires Valid()
      modifies this, forwards, forwards.buf, tunnel
      ensures Valid() && (forwards.buf == old(forwards.buf) || fresh(forwards.buf))
      ensures (State(), err) == Api.CreateForward(cfg, old(State()), inp, id, now)
    {
      var f := NewForward(inp, id, now);
      if !Store.Valid(f) { return Some(Validation); }
      if Reserved(cfg, f.publicPort) { return Some(Conflict); }
      if f.clientId !in clients {
        tunnel.RemoveForward(f.id);
        return Some(Validation);
      }
      var conflict := forwards.HasPortConflict(f);
      if conflict {
        tunnel.RemoveForward(f.id);
        return Some(Conflict);
      }
      var ok := tunnel.ApplyForward(f);
      if !ok {
        tunnel.RemoveForward(f.id);
        return Some(Conflict);
      }
      forwards.Append(f);
      return None;
    }

    method UpdateForward(id: Id, inp: ForwardInput, now: int) returns (err: Option<Failure>)
      requires Valid()
      modifies this, forwards, forwards.buf, tunnel
      ensures Valid() && forwards.buf == old(forwards.buf)
      ensures (State(), err) == Api.UpdateForward(cfg, old(State()), id, inp, now)
    {
      var i := forwards.Find(id);
      if i == forwards.len { return Some(NotFound); }
      var f := forwards.buf[i];
      var next := ApplyForwardInput(inp, f).(updatedAt := now);
      if next.clientId != f.clientId {
        var group := forwards.Members(f.groupId);
        if |group| > 1 { return Some(Validation); }
      }
      if !Store.Valid(next) { return Some(Validation); }
      if Reserved(cfg, next.publicPort) { return Some(Conflict); }
      if next.clientId !in clients { return Some(Validation); }
      var conflict := forwards.HasPortConflict(next);
      if conflict { return Some(Conflict); }
      var ok := tunnel.ApplyForward(next);
      if !ok { return Some(Conflict); }
      forwards.buf[i] := next;
      return None;
    }

    method DeleteForward(id: Id) returns (err: Option<Failure>)
      requires Valid()
      modifies this, forwards, forwards.buf, tunnel
      ensures Valid() && forwards.buf == old(forwards.buf)
      ensures (State(), err) == Api.DeleteForward(old(State()), id)
    {
      var i := forwards.Find(id);
      if i == forwards.len { return Some(NotFound); }
      forwards.Retain(NotWithId(id));
      tunnel.RemoveForward(id);
      return None;
    }

    /** commitGroup: conflicts, listeners, then the stored list. */
    method Commit(groupId: Id, next: seq<Forward>, prev: seq<Forward>) returns (err: Option<Failure>)
      requires Valid() && next != []
      modifies this, forwards, forwards.buf, tunnel
      ensures Valid() && (forwards.buf == old(forwards.buf) || fresh(forwards.buf))
      ensures (State(), err) == CommitGroup(old(State()), groupId, next, prev)
    {
      if next[0].clientId !in clients { return Some(Validation); }
      var conflict := forwards.AnyGroupConflict(groupId, next);
      if conflict { return Some(Conflict); }
      var ok := tunnel.SwitchGroup(next, prev);
      if !ok { return Some(Conflict); }
      forwards.SwapMembers(groupId, next);
      return None;
    }

    method CreateGroup(inp: GroupInput, groupId: Id, ids: seq<Id>, now: int) returns (err: Option<Failure>)
      requires Valid() && |ids| >= MAX_GROUP_PORTS
      modifies this, forwards, forwards.buf, tunnel
      ensures Valid() && (forwards.buf == old(forwards.buf) || fresh(forwards.buf))
      ensures (State(), err) == Api.CreateGroup(cfg, old(State()), inp, groupId, ids, now)
    {
      var g := ApplyGroupInput(inp, GroupFields(NO_ID, "", "tcp", "", "127.0.0.1", true));
      var members := BuildGroup(cfg, groupId, g, [], ids, now);
      if members.Err? { return Some(members.error); }
      ExpandIsNotEmpty(cfg, groupId, g, [], ids, now);
      err := Commit(groupId, members.value, []);
    }

    method UpdateGroup(id: Id, inp: GroupInput, ids: seq<Id>, now: int) returns (err: Option<Failure>)
      requires Valid() && |ids| >= MAX_GROUP_PORTS
      modifies this, forwards, forwards.buf, tunnel
      ensures Valid() && (forwards.buf == old(forwards.buf) || fresh(forwards.buf))
      ensures (State(), err) == Api.UpdateGroup(cfg, old(State()), id, inp, ids, now)
    {
      var prev := forwards.Members(id);
      if |prev| == 0 { return Some(NotFound); }
      var spec := SpecOf(prev);
      var enabled := EveryEnabled(prev);
      var cur := GroupFields(prev[0].clientId, prev[0].name, "tcp", spec, prev[0].targetHost, enabled);
      assert cur == CurrentFields(prev);
      var g := ApplyGroupInput(inp, cur);
      var next := BuildGroup(cfg, id, g, prev, ids, now);
      if next.Err? { return Some(next.error); }
      ExpandIsNotEmpty(cfg, id, g, prev, ids, now);
      err := Commit(id, next.value, prev);
    }

    method RemoveRunners(removed: seq<Forward>)
      modifies tunnel
      ensures tunnel.State() == RemoveFrom(old(tunnel.State()), removed, 0)
    {
      var i := 0;
      while i < |removed|
        invariant i <= |removed|
        invariant RemoveFrom(tunnel.State(), removed, i) == RemoveFrom(old(tunnel.State()), removed, 0)
      {
        tunnel.RemoveForward(removed[i].id);
        i := i + 1;
      }
    }

    method DeleteGroup(id: Id) returns (err: Option<Failure>)
      requires Valid()
      modifies this, forwards, forwards.buf, tunnel
      ensures Valid() && forwards.buf == old(forwards.buf)
      ensures (State(), err) == Api.DeleteGroup(old(State()), id)
    {
      var removed := forwards.Members(id);
      if |removed| == 0 { return Some(NotFound); }
      forwards.Retain(NotInGroup(id));
      RemoveRunners(removed);
      return None;
    }

    method DeleteClient(id: Id) returns (err: Option<Failure>)
      requires Valid()
      modifies this, forwards, forwards.buf, tunnel
      ensures Valid() && forwards.buf == old(forwards.buf)
      ensures (State(), err) == Api.DeleteClient(old(State()), id)
    {
      if id !in clients { return Some(NotFound); }
      var removed := forwards.Collect(OfClient(id));
      forwards.Retain(NotOfClient(id));
      clients := Filter(clients, OtherThan(id));
      RemoveRunners(removed);
      return None;
    }

    /** The listeners of a starting process. */
    method StartListeners() returns (errs: set<Id>)
      requires Valid() && Consistent(tunnel.State())
      modifies tunnel
      ensures Valid() && (tunnel.State(), errs) == SyncAll(old(tunnel.State()), forwards.Contents())
    {
      errs := tunnel.Synchronise(forwards.buf[..forwards.len]);
    }
  }
}
