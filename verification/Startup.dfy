/** Reconciling the listeners with the store: internal/server/tunnel.go:406-433. */
module Startup {
  import opened Basics
  import opened Protocols
  import opened Forwards
  import opened Listeners
  import opened GroupSwitch
  import opened GroupSafety

  function SyncFrom(net: Net, fs: seq<Forward>, k: nat, errs: set<Id>): (Net, set<Id>)
    requires k <= |fs|
    decreases |fs| - k
  {
    if k == |fs| then (net, errs)
    else
      var (after, ok) := Apply(net, fs[k]);
      SyncFrom(after, fs, k + 1, if ok then errs else errs + {fs[k].id})
  }

  /** Stops every runner whose forward is gone. */
  function Prune(net: Net, live: set<Id>): Net {
    Net(map id | id in net.runners && id in live :: net.runners[id],
        map s | s in net.table && (net.table[s] == Foreign || net.table[s].id in live) :: net.table[s])
  }

  function SyncAll(net: Net, fs: seq<Forward>): (Net, set<Id>) {
    var (after, errs) := SyncFrom(net, fs, 0, {});
    (Prune(after, Ids(fs)), errs)
  }

  /** The runners are of listed forwards and serve them as listed. */
  ghost predicate ServesList(net: Net, fs: seq<Forward>) {
    forall id :: id in net.runners ==> id in ById(fs) && net.runners[id].Same(ById(fs)[id])
  }

  /** The ids whose forward is enabled but whose socket another process holds. */
  function Refused(table: map<Socket, Owner>, fs: seq<Forward>): set<Id> {
    set i | 0 <= i < |fs| && fs[i].enabled && ForeignOn(table, fs[i]) :: fs[i].id
  }

  lemma RefusedGrows(table: map<Socket, Owner>, fs: seq<Forward>, k: nat)
    requires k < |fs|
    ensures Refused(table, fs[..k + 1]) ==
            Refused(table, fs[..k]) + (if fs[k].enabled && ForeignOn(table, fs[k]) then {fs[k].id} else {})
  {
    var a, b := fs[..k], fs[..k + 1];
    assert forall i :: 0 <= i < k ==> a[i] == b[i];
    forall id | id in Refused(table, a) ensures id in Refused(table, b) {
      var i :| 0 <= i < |a| && a[i].enabled && ForeignOn(table, a[i]) && a[i].id == id;
      assert b[i].id == id;
    }
    assert b[k] == fs[k];
    forall id | id in Refused(table, b)
      ensures id in Refused(table, a) || (fs[k].enabled && ForeignOn(table, fs[k]) && id == fs[k].id)
    {
      var i :| 0 <= i < |b| && b[i].enabled && ForeignOn(table, b[i]) && b[i].id == id;
      assert i < k ==> a[i].id == id;
    }
  }

  lemma PruneNothing(net: Net, live: set<Id>)
    requires Consistent(net) && net.runners.Keys <= live
    ensures Prune(net, live) == net
  {
    assert Prune(net, live).runners == net.runners;
    assert Prune(net, live).table == net.table;
  }

  /** Stopping one stale runner. */
  lemma PruneStep(net: Net, live: set<Id>, id: Id)
    requires Consistent(net) && id in net.runners && id in live
    ensures Remove(Prune(net, live), id) == Prune(net, live - {id})
  {
    var cur, out := Prune(net, live), Prune(net, live - {id});
    var f := net.runners[id];
    assert Needs(f, TcpSocket(f)) <==> f.HasTCP();
    assert Needs(f, UdpSocket(f)) <==> f.HasUDP();
    assert Remove(cur, id).runners == out.runners;
    forall s ensures s in Remove(cur, id).table <==> s in out.table {
      assert s == TcpSocket(f) || s == UdpSocket(f) || !Needs(f, s);
    }
    assert Remove(cur, id).table == out.table;
  }

  // ----- from any state of the listeners ----------------------------------------------------

  /** After k forwards: those reported are enabled and as they were before, the others are
      served as listed, and no one else has been touched. */
  ghost predicate SyncedTo(net: Net, cur: Net, fs: seq<Forward>, k: nat, errs: set<Id>)
    requires k <= |fs|
  {
    && Consistent(cur) && SameForeign(cur.table, net.table)
    && (forall id :: id in errs ==> exists j :: 0 <= j < k && fs[j].id == id)
    && (forall id :: (forall j :: 0 <= j < k ==> fs[j].id != id) ==> At(cur.runners, id) == At(net.runners, id))
    && (forall j :: 0 <= j < k ==>
          if fs[j].id in errs then fs[j].enabled && At(cur.runners, fs[j].id) == At(net.runners, fs[j].id)
          else Served(cur, fs[j]))
  }

  lemma OneMoreSynced(net: Net, cur: Net, fs: seq<Forward>, k: nat, errs: set<Id>)
    requires DistinctIds(fs) && k < |fs| && SyncedTo(net, cur, fs, k, errs)
    ensures
      var (after, ok) := Apply(cur, fs[k]);
      SyncedTo(net, after, fs, k + 1, if ok then errs else errs + {fs[k].id})
  {
    var (after, ok) := Apply(cur, fs[k]);
    var errs' := if ok then errs else errs + {fs[k].id};
    ApplyMeaning(cur, fs[k]);
    forall id | id != fs[k].id ensures At(after.runners, id) == At(cur.runners, id) {
      ApplyKeepsOthers(cur, fs[k], id);
    }
    forall id | id in errs' ensures exists j :: 0 <= j < k + 1 && fs[j].id == id {
      if id in errs {
        var j :| 0 <= j < k && fs[j].id == id;
      }
    }
    forall j | 0 <= j < k ensures fs[j].id != fs[k].id {
    }
    assert fs[k].id !in errs;
  }

  lemma {:induction false} SyncsAll(net: Net, cur: Net, fs: seq<Forward>, k: nat, errs: set<Id>)
    requires DistinctIds(fs) && k <= |fs| && SyncedTo(net, cur, fs, k, errs)
    ensures SyncedTo(net, SyncFrom(cur, fs, k, errs).0, fs, |fs|, SyncFrom(cur, fs, k, errs).1)
    decreases |fs| - k
  {
    if k < |fs| {
      var (after, ok) := Apply(cur, fs[k]);
      OneMoreSynced(net, cur, fs, k, errs);
      SyncsAll(net, after, fs, k + 1, if ok then errs else errs + {fs[k].id});
    }
  }

  lemma PruneKeepsConsistent(net: Net, live: set<Id>)
    requires Consistent(net)
    ensures Consistent(Prune(net, live)) && SameForeign(Prune(net, live).table, net.table)
    ensures forall id :: At(Prune(net, live).runners, id) == if id in live then At(net.runners, id) else None
  {
    var out := Prune(net, live);
    forall id, s | id in out.runners && Needs(out.runners[id], s) ensures s in out.table && out.table[s] == Held(id) {
      assert net.table[s] == Held(id);
    }
  }

  /** Whatever runs before, stale and outdated listeners included: afterwards nothing
      unlisted or disabled runs; a forward that is not reported is served as listed; one that
      is reported is enabled and as it was. */
  lemma SyncInGeneral(net: Net, fs: seq<Forward>)
    requires Consistent(net) && DistinctIds(fs)
    ensures
      var (after, errs) := SyncAll(net, fs);
      && Consistent(after) && SameForeign(after.table, net.table)
      && (forall id :: id in after.runners ==> exists i :: 0 <= i < |fs| && fs[i].id == id && fs[i].enabled)
      && (forall id :: id in errs ==> exists i :: 0 <= i < |fs| && fs[i].id == id)
      && (forall i :: 0 <= i < |fs| ==>
            if fs[i].id in errs then fs[i].enabled && At(after.runners, fs[i].id) == At(net.runners, fs[i].id)
            else Served(after, fs[i]))
  {
    SyncsAll(net, net, fs, 0, {});
    var (mid, errs) := SyncFrom(net, fs, 0, {});
    PruneKeepsConsistent(mid, Ids(fs));
    var after := Prune(mid, Ids(fs));
    forall i | 0 <= i < |fs| ensures At(after.runners, fs[i].id) == At(mid.runners, fs[i].id) {
      assert fs[i].id in Ids(fs);
    }
    forall id | id in after.runners ensures exists i :: 0 <= i < |fs| && fs[i].id == id && fs[i].enabled {
      assert At(after.runners, id).Some?;
      var i :| 0 <= i < |fs| && fs[i].id == id;
      assert fs[i].enabled;
    }
  }

  /** A listener in the way of forward k: another one on its port that no earlier forward of
      the list has moved. An earlier forward leaves it alone only when it is itself refused. */
  ghost predicate InTheWay(net: Net, fs: seq<Forward>, k: nat, id: Id)
    requires k < |fs|
  {
    && id in net.runners && id != fs[k].id && Clash(net.runners[id], fs[k])
    && forall j :: 0 <= j < k && fs[j].id == id ==> fs[j].enabled && ForeignOn(net.table, fs[j])
  }

  /** Forward k finds no listener in its way, or is not to be started, or is blocked anyway. */
  ghost predicate Clear(net: Net, fs: seq<Forward>, k: nat)
    requires k < |fs|
  {
    fs[k].enabled && !ForeignOn(net.table, fs[k]) ==> forall id :: !InTheWay(net, fs, k, id)
  }

  /** Who is in the way when forward k is applied is known from the state before the sync. */
  lemma WhoIsInTheWay(net: Net, cur: Net, fs: seq<Forward>, k: nat, errs: set<Id>, id: Id)
    requires DistinctIds(fs) && NoClash(fs) && k < |fs| && SyncedTo(net, cur, fs, k, errs)
    requires errs == Refused(net.table, fs[..k])
    ensures InTheWay(net, fs, k, id) <==> id in cur.runners && id != fs[k].id && Clash(cur.runners[id], fs[k])
  {
    if j :| 0 <= j < k && fs[j].id == id {
      assert fs[..k][j] == fs[j];
      RefusedHasId(net.table, fs[..k], j);
      if id in errs {
        assert At(cur.runners, id) == At(net.runners, id);
      } else {
        assert Served(cur, fs[j]);
        assert !Clash(fs[j], fs[k]);
      }
    } else {
      assert At(cur.runners, id) == At(net.runners, id);
    }
  }

  lemma WhenRefused(net: Net, cur: Net, fs: seq<Forward>, k: nat, errs: set<Id>)
    requires DistinctIds(fs) && NoClash(fs) && k < |fs| && SyncedTo(net, cur, fs, k, errs)
    requires errs == Refused(net.table, fs[..k])
    ensures Apply(cur, fs[k]).1 <==>
            !fs[k].enabled || (!ForeignOn(net.table, fs[k]) && forall id :: !InTheWay(net, fs, k, id))
  {
    var f := fs[k];
    ApplyMeaning(cur, f);
    BlockedIsNotFree(cur, cur.runners, f);
    assert TakenByOthers(cur.table, TcpSocket(f)) <==> TakenByOthers(net.table, TcpSocket(f));
    assert TakenByOthers(cur.table, UdpSocket(f)) <==> TakenByOthers(net.table, UdpSocket(f));
    forall id ensures InTheWay(net, fs, k, id) <==> id in cur.runners && id != f.id && Clash(cur.runners[id], f) {
      WhoIsInTheWay(net, cur, fs, k, errs, id);
    }
  }

  lemma {:induction false} ErrorsGrow(cur: Net, fs: seq<Forward>, k: nat, errs: set<Id>)
    requires k <= |fs|
    ensures errs <= SyncFrom(cur, fs, k, errs).1
    decreases |fs| - k
  {
    if k < |fs| {
      var (after, ok) := Apply(cur, fs[k]);
      ErrorsGrow(after, fs, k + 1, if ok then errs else errs + {fs[k].id});
    }
  }

  lemma {:induction false} RefusesOnlyForeign(net: Net, cur: Net, fs: seq<Forward>, k: nat, errs: set<Id>)
    requires DistinctIds(fs) && NoClash(fs) && k <= |fs| && SyncedTo(net, cur, fs, k, errs)
    requires errs == Refused(net.table, fs[..k])
    ensures SyncFrom(cur, fs, k, errs).1 == Refused(net.table, fs) <==> forall i :: k <= i < |fs| ==> Clear(net, fs, i)
    decreases |fs| - k
  {
    if k == |fs| {
      assert fs[..k] == fs;
    } else {
      var (after, ok) := Apply(cur, fs[k]);
      var errs' := if ok then errs else errs + {fs[k].id};
      WhenRefused(net, cur, fs, k, errs);
      if Clear(net, fs, k) {
        OneMoreSynced(net, cur, fs, k, errs);
        RefusedGrows(net.table, fs, k);
        RefusesOnlyForeign(net, after, fs, k + 1, errs');
      } else {
        ErrorsGrow(after, fs, k + 1, errs');
        RefusedHasId(net.table, fs, k);
      }
    }
  }

  /** From any listeners the errors of a sync are exactly the enabled forwards whose socket
      another process holds, if and only if every forward finds its way clear. */
  lemma SyncErrorsAreExact(net: Net, fs: seq<Forward>)
    requires Consistent(net) && DistinctIds(fs) && NoClash(fs)
    ensures SyncAll(net, fs).1 == Refused(net.table, fs) <==> forall i :: 0 <= i < |fs| ==> Clear(net, fs, i)
  {
    assert fs[..0] == [];
    RefusesOnlyForeign(net, net, fs, 0, {});
  }

  /** No listener is on the port of an enabled forward of another id. */
  ghost predicate OutOfTheWay(net: Net, fs: seq<Forward>) {
    forall id, i :: id in net.runners && 0 <= i < |fs| && fs[i].id != id && fs[i].enabled ==> !Clash(net.runners[id], fs[i])
  }

  /** In particular stale listeners on other ports do no harm. */
  lemma SyncPastStaleRunners(net: Net, fs: seq<Forward>)
    requires Consistent(net) && DistinctIds(fs) && NoClash(fs) && OutOfTheWay(net, fs)
    ensures SyncAll(net, fs).1 == Refused(net.table, fs)
  {
    SyncErrorsAreExact(net, fs);
  }

  /** Listeners that serve the list are in nobody's way. */
  lemma ServingIsOutOfTheWay(net: Net, fs: seq<Forward>)
    requires ServesList(net, fs) && DistinctIds(fs) && NoClashById(ById(fs))
    ensures NoClash(fs) && OutOfTheWay(net, fs)
  {
    forall i ensures 0 <= i < |fs| ==> fs[i].id in ById(fs) && ById(fs)[fs[i].id] == fs[i] {
      if 0 <= i < |fs| { ByIdAt(fs, i); }
    }
  }

  /** When every listener is of a listed forward and serves it: after a sync a forward runs
      exactly when it is enabled and no other process holds a socket it needs; the reported
      errors are exactly the enabled ones that do not run, and nothing else is running. */
  lemma SyncMeaning(net: Net, fs: seq<Forward>)
    requires Consistent(net) && ServesList(net, fs) && DistinctIds(fs) && NoClashById(ById(fs))
    ensures
      var (after, errs) := SyncAll(net, fs);
      && Consistent(after) && SameForeign(after.table, net.table) && ServesList(after, fs)
      && errs == Refused(net.table, fs)
      && (forall i :: 0 <= i < |fs| ==>
            (fs[i].id in after.runners <==> fs[i].enabled && !ForeignOn(net.table, fs[i])))
  {
    var (after, errs) := SyncAll(net, fs);
    ServingIsOutOfTheWay(net, fs);
    SyncInGeneral(net, fs);
    SyncPastStaleRunners(net, fs);
    forall i | 0 <= i < |fs|
      ensures fs[i].id in ById(fs) && ById(fs)[fs[i].id] == fs[i]
      ensures fs[i].id in after.runners <==> fs[i].enabled && !ForeignOn(net.table, fs[i])
      ensures fs[i].id in after.runners ==> after.runners[fs[i].id].Same(fs[i])
    {
      ByIdAt(fs, i);
      RefusedHasId(net.table, fs, i);
      if fs[i].id in errs && fs[i].id in net.runners {
        RunningIsNotForeign(net, fs[i].id, fs[i]);
      }
    }
  }

  lemma RefusedHasId(table: map<Socket, Owner>, fs: seq<Forward>, i: nat)
    requires DistinctIds(fs) && i < |fs|
    ensures fs[i].id in Refused(table, fs) <==> fs[i].enabled && ForeignOn(table, fs[i])
  {
    if fs[i].id in Refused(table, fs) {
      var j :| 0 <= j < |fs| && fs[j].enabled && ForeignOn(table, fs[j]) && fs[j].id == fs[i].id;
      assert fs[if i < j then i else j].id == fs[if i < j then j else i].id;
    }
  }

  /** Otherwise a stale listener on a forward's port can have it refused although no other
      process is in its way. */
  lemma StaleRunnerObstructs()
    ensures exists net, fs ::
              && Consistent(net) && DistinctIds(fs) && NoClash(fs)
              && SyncAll(net, fs).1 != Refused(net.table, fs)
  {
    var stale := Forward(1, 7, 1, "a", Tcp, 100, "h", 100, true, 0, 0);
    var f := stale.(id := 2, groupId := 2);
    var net, fs := Net(map[1 := stale], map[TcpSocket(stale) := Held(1)]), [f];
    assert Consistent(net);
    SyncErrorsAreExact(net, fs);
    assert InTheWay(net, fs, 0, 1) && !ForeignOn(net.table, fs[0]);
    assert !Clear(net, fs, 0);
  }
}
