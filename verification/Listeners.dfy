/** The listener table: what Apply, Remove and SyncAll do to the runners and to the
    ports of the host. internal/server/tunnel.go:319-349, 396-433, 481-534 */
module Listeners {
  import opened Basics
  import opened Forwards

  /** Who holds a socket of the host: another process, or the runner of a forward. */
  datatype Owner = Foreign | Held(id: Id)

  /** `runners` is Tunnel.runners with each runner's copy of its forward; `table` is
      the host's view of the bound ports. */
  datatype Net = Net(runners: map<Id, Forward>, table: map<Socket, Owner>)

  // ----- the operations ---------------------------------------------------------

  /** forwardRunner.start: TCP first, then UDP; a failing UDP bind closes the TCP one. */
  function Start(table: map<Socket, Owner>, f: Forward): Option<map<Socket, Owner>> {
    if f.HasTCP() && TcpSocket(f) in table then None
    else
      var t := if f.HasTCP() then table[TcpSocket(f) := Held(f.id)] else table;
      if f.HasUDP() && UdpSocket(f) in t then None
      else Some(if f.HasUDP() then t[UdpSocket(f) := Held(f.id)] else t)
  }

  /** forwardRunner.stop: closes the listeners the runner opened. */
  function Stop(table: map<Socket, Owner>, f: Forward): map<Socket, Owner> {
    table - ((if f.HasTCP() then {TcpSocket(f)} else {}) + (if f.HasUDP() then {UdpSocket(f)} else {}))
  }

  function Remove(net: Net, id: Id): Net {
    if id in net.runners then Net(net.runners - {id}, Stop(net.table, net.runners[id])) else net
  }

  function Apply(net: Net, f: Forward): (Net, bool) {
    if f.id in net.runners && net.runners[f.id].Same(f) then (net, true)
    else
      var stopped := Remove(net, f.id);
      if !f.enabled then (stopped, true)
      else
        match Start(stopped.table, f)
        case Some(t) => (Net(stopped.runners[f.id := f], t), true)
        case None =>
          if f.id !in net.runners then (stopped, false)
          else
            match Start(stopped.table, net.runners[f.id])
            case Some(t) => (Net(stopped.runners[f.id := net.runners[f.id]], t), false)
            case None => (stopped, false)
  }

  // ----- consistency --------------------------------------------------------------

  /** Every runner is of an enabled forward and holds exactly its sockets. */
  ghost predicate Consistent(net: Net) {
    && (forall id :: id in net.runners ==> net.runners[id].id == id && net.runners[id].enabled)
    && (forall id, s :: id in net.runners && Needs(net.runners[id], s) ==> s in net.table && net.table[s] == Held(id))
    && (forall s :: s in net.table && net.table[s].Held? ==>
          net.table[s].id in net.runners && Needs(net.runners[net.table[s].id], s))
  }

  predicate TakenByOthers(table: map<Socket, Owner>, s: Socket) {
    s in table && table[s] == Foreign
  }

  /** Another process holds a socket the forward needs. */
  predicate ForeignOn(table: map<Socket, Owner>, f: Forward) {
    || (f.HasTCP() && TakenByOthers(table, TcpSocket(f)))
    || (f.HasUDP() && TakenByOthers(table, UdpSocket(f)))
  }

  ghost predicate SameForeign(a: map<Socket, Owner>, b: map<Socket, Owner>) {
    forall s :: TakenByOthers(a, s) <==> TakenByOthers(b, s)
  }

  /** No socket the forward needs is held by another process or another runner. */
  predicate FreeFor(table: map<Socket, Owner>, f: Forward) {
    && (f.HasTCP() && TcpSocket(f) in table ==> table[TcpSocket(f)] == Held(f.id))
    && (f.HasUDP() && UdpSocket(f) in table ==> table[UdpSocket(f)] == Held(f.id))
  }

  lemma RemoveKeepsConsistent(net: Net, id: Id)
    requires Consistent(net)
    ensures Consistent(Remove(net, id)) && SameForeign(Remove(net, id).table, net.table)
    ensures Remove(net, id).runners == net.runners - {id}
    ensures forall s :: s in Remove(net, id).table <==> s in net.table && net.table[s] != Held(id)
    ensures forall s :: s in Remove(net, id).table ==> Remove(net, id).table[s] == net.table[s]
  {
    var out := Remove(net, id);
    if id in net.runners {
      var f := net.runners[id];
      forall s ensures s in out.table <==> s in net.table && net.table[s] != Held(id) {
        assert s == TcpSocket(f) || s == UdpSocket(f) || !Needs(f, s);
        assert Needs(f, TcpSocket(f)) <==> f.HasTCP();
        assert Needs(f, UdpSocket(f)) <==> f.HasUDP();
      }
    }
  }

  lemma StartBinds(net: Net, f: Forward)
    requires Consistent(net) && f.id !in net.runners && f.enabled
    ensures Start(net.table, f).Some? <==> FreeFor(net.table, f)
    ensures Start(net.table, f).Some? ==>
              var after := Net(net.runners[f.id := f], Start(net.table, f).value);
              && Consistent(after) && SameForeign(after.table, net.table)
              && (forall s :: s in after.table <==> s in net.table || Needs(f, s))
              && (forall s :: s in after.table ==> after.table[s] == if Needs(f, s) then Held(f.id) else net.table[s])
  {
    assert forall s :: Needs(f, s) ==> s == TcpSocket(f) || s == UdpSocket(f);
    assert forall s :: s in net.table ==> net.table[s] != Held(f.id);
    if Start(net.table, f).Some? {
      var after := Net(net.runners[f.id := f], Start(net.table, f).value);
      assert forall s :: s in after.table <==> s in net.table || Needs(f, s);
      assert forall s :: s in after.table ==> after.table[s] == if Needs(f, s) then Held(f.id) else net.table[s];
    }
  }

  /** Stopping a runner and starting the same forward again is always possible and
      changes nothing. */
  lemma RestartIsIdentity(net: Net, id: Id)
    requires Consistent(net) && id in net.runners
    ensures
      var stopped, f := Remove(net, id), net.runners[id];
      && Start(stopped.table, f).Some?
      && Net(stopped.runners[id := f], Start(stopped.table, f).value) == net
  {
    var stopped, f := Remove(net, id), net.runners[id];
    RemoveKeepsConsistent(net, id);
    assert Needs(f, TcpSocket(f)) <==> f.HasTCP();
    assert Needs(f, UdpSocket(f)) <==> f.HasUDP();
    StartBinds(stopped, f);
    var after := Net(stopped.runners[id := f], Start(stopped.table, f).value);
    assert after.runners == net.runners;
    assert after.table == net.table;
  }

  /** What Apply achieves: it succeeds exactly when the forward is disabled or no one
      else holds a socket it needs; a failure leaves runners and ports untouched. */
  lemma ApplyMeaning(net: Net, f: Forward)
    requires Consistent(net)
    ensures
      var (after, ok) := Apply(net, f);
      && Consistent(after) && SameForeign(after.table, net.table)
      && (ok <==> !f.enabled || FreeFor(net.table, f))
      && (!ok ==> after == net)
      && (ok ==> after.runners - {f.id} == net.runners - {f.id})
      && (ok && f.enabled ==> f.id in after.runners && after.runners[f.id].Same(f))
      && (ok && !f.enabled ==> f.id !in after.runners)
  {
    if f.id in net.runners && net.runners[f.id].Same(f) {
      var r := net.runners[f.id];
      assert Needs(r, TcpSocket(r)) <==> r.HasTCP();
      assert Needs(r, UdpSocket(r)) <==> r.HasUDP();
    } else {
      var stopped := Remove(net, f.id);
      RemoveKeepsConsistent(net, f.id);
      if f.enabled {
        StartBinds(stopped, f);
        assert FreeFor(stopped.table, f) <==> FreeFor(net.table, f);
        if Start(stopped.table, f).None? && f.id in net.runners {
          RestartIsIdentity(net, f.id);
        }
      }
    }
  }

  /** The runner r relays what f asks for. */
  ghost predicate Relays(r: Forward, f: Forward) {
    && r.id == f.id && r.clientId == f.clientId
    && r.publicPort == f.publicPort && r.proto == f.proto
    && r.targetHost == f.targetHost && r.targetPort == f.targetPort
    && r.enabled == f.enabled
  }

  /** f runs as recorded when it is enabled, and not at all when it is not. */
  ghost predicate Served(net: Net, f: Forward) {
    if f.enabled then f.id in net.runners && Relays(net.runners[f.id], f) else f.id !in net.runners
  }

  /** After a success an enabled forward has a runner that relays what it asks for; a runner
      it had before is left alone exactly when it did that already. */
  lemma ApplyServes(net: Net, f: Forward)
    requires Consistent(net)
    ensures
      var (after, ok) := Apply(net, f);
      && (ok ==> Served(after, f))
      && (ok && f.id in net.runners ==> (after == net <==> Relays(net.runners[f.id], f)))
      && (ok && f.enabled && f.id !in net.runners ==> after.runners == net.runners[f.id := f])
      && (!ok ==> after == net)
  {
    ApplyMeaning(net, f);
    if Apply(net, f).1 && f.enabled && f.id !in net.runners {
      assert Apply(net, f).0.runners == net.runners[f.id := f];
    }
  }

  /** Applying a forward touches no other runner. */
  lemma ApplyKeepsOthers(net: Net, f: Forward, id: Id)
    requires Consistent(net) && id != f.id
    ensures id in Apply(net, f).0.runners <==> id in net.runners
    ensures id in net.runners ==> Apply(net, f).0.runners[id] == net.runners[id]
  {
    ApplyMeaning(net, f);
    var (after, ok) := Apply(net, f);
    if ok {
      assert id in after.runners <==> id in after.runners - {f.id};
      assert id in net.runners <==> id in net.runners - {f.id};
      assert id in after.runners ==> after.runners[id] == (after.runners - {f.id})[id];
      assert id in net.runners ==> net.runners[id] == (net.runners - {f.id})[id];
    }
  }

  // ----- the abstract listener set ------------------------------------------------

  /** The runners are those of m, up to Same. */
  ghost predicate Matches(net: Net, m: map<Id, Forward>) {
    && net.runners.Keys == m.Keys
    && forall id :: id in m ==> m[id].id == id && m[id].enabled && net.runners[id].Same(m[id])
  }

  /** Something else needs a socket the forward needs. */
  ghost predicate Blocked(m: map<Id, Forward>, table: map<Socket, Owner>, f: Forward) {
    ForeignOn(table, f) || exists id :: id in m && id != f.id && Clash(m[id], f)
  }

  /** Apply, seen as a change of the set of running forwards. */
  ghost function Switch(m: map<Id, Forward>, table: map<Socket, Owner>, f: Forward): map<Id, Forward> {
    if !f.enabled then m - {f.id}
    else if Blocked(m, table, f) then m
    else m[f.id := f]
  }

  lemma BlockedIsNotFree(net: Net, m: map<Id, Forward>, f: Forward)
    requires Consistent(net) && Matches(net, m)
    ensures Blocked(m, net.table, f) <==> !FreeFor(net.table, f)
  {
    var tcp, udp := TcpSocket(f), UdpSocket(f);
    if !FreeFor(net.table, f) && !ForeignOn(net.table, f) {
      var s := if f.HasTCP() && tcp in net.table && net.table[tcp] != Held(f.id) then tcp else udp;
      var id := net.table[s].id;
      assert id in m && id != f.id && Needs(net.runners[id], s) && Needs(m[id], s) && Needs(f, s);
      ClashIsSharedSocket(m[id], f);
    }
    if id :| id in m && id != f.id && Clash(m[id], f) {
      ClashIsSharedSocket(net.runners[id], f);
      var s :| Needs(net.runners[id], s) && Needs(f, s);
      assert net.table[s] == Held(id);
      assert s == tcp || s == udp;
    }
  }

  lemma ApplyIsSwitch(net: Net, m: map<Id, Forward>, f: Forward)
    requires Consistent(net) && Matches(net, m)
    ensures
      var (after, ok) := Apply(net, f);
      && Consistent(after) && SameForeign(after.table, net.table)
      && Matches(after, Switch(m, net.table, f))
      && (ok <==> !f.enabled || !Blocked(m, net.table, f))
  {
    ApplyMeaning(net, f);
    BlockedIsNotFree(net, m, f);
    var (after, ok) := Apply(net, f);
    var m' := Switch(m, net.table, f);
    forall id | id != f.id
      ensures (id in after.runners <==> id in net.runners)
      ensures id in after.runners ==> after.runners[id] == net.runners[id]
    {
      if ok {
        assert id in after.runners <==> id in after.runners - {f.id};
        assert id in net.runners <==> id in net.runners - {f.id};
        assert id in after.runners ==> after.runners[id] == (after.runners - {f.id})[id];
        assert id in net.runners ==> net.runners[id] == (net.runners - {f.id})[id];
      }
    }
    assert forall id :: id in m' <==> id in after.runners;
  }

  lemma RemoveIsDrop(net: Net, m: map<Id, Forward>, id: Id)
    requires Consistent(net) && Matches(net, m)
    ensures
      var after := Remove(net, id);
      Consistent(after) && SameForeign(after.table, net.table) && Matches(after, m - {id})
  {
    RemoveKeepsConsistent(net, id);
  }

  /** Foreign sockets and the set of running forwards determine the port table. */
  lemma TableIsDetermined(a: Net, b: Net)
    requires Consistent(a) && Consistent(b) && SameForeign(a.table, b.table)
    requires Matches(a, b.runners)
    ensures a.table == b.table
  {
    forall s
      ensures s in a.table <==> s in b.table
      ensures s in a.table ==> a.table[s] == b.table[s]
    {
      assert TakenByOthers(a.table, s) <==> TakenByOthers(b.table, s);
      if s in a.table && a.table[s].Held? {
        var id := a.table[s].id;
        assert Needs(b.runners[id], s);
      } else if s in b.table && b.table[s].Held? {
        var id := b.table[s].id;
        assert Needs(a.runners[id], s);
      }
    }
  }
}
