/** The listener manager as an object: internal/server/tunnel.go:319-433, 477-534. */
module TunnelObject {
  import opened Basics
  import opened Forwards
  import opened Listeners
  import opened GroupSwitch
  import opened Startup

  lemma {:induction false} RemoveFromAppend(net: Net, fs: seq<Forward>, f: Forward, k: nat)
    requires k <= |fs|
    ensures RemoveFrom(net, fs + [f], k) == Remove(RemoveFrom(net, fs, k), f.id)
    decreases |fs| - k
  {
    if k < |fs| {
      assert (fs + [f])[k] == fs[k];
      RemoveFromAppend(Remove(net, fs[k].id), fs, f, k + 1);
    } else {
      assert (fs + [f])[k] == f;
      assert RemoveFrom(Remove(net, f.id), fs + [f], k + 1) == Remove(net, f.id);
    }
  }

  class Tunnel {
    /** Running forwards by forward id, with each runner's copy. */
    var runners: map<Id, Forward>
    /** The host's bound ports; also changed by other processes between calls. */
    var table: map<Socket, Owner>

    constructor (table: map<Socket, Owner>)
      ensures State() == Net(map[], table)
    {
      this.runners, this.table := map[], table;
    }

    ghost function State(): Net
      reads this
    {
      Net(runners, table)
    }

    /** net.Listen / net.ListenPacket on one port. */
    method Listen(s: Socket, id: Id) returns (ok: bool)
      modifies this`table
      ensures ok <==> s !in old(table)
      ensures table == if ok then old(table)[s := Held(id)] else old(table)
    {
      ok := s !in table;
      if ok { table := table[s := Held(id)]; }
    }

    method Close(s: Socket)
      modifies this`table
      ensures table == old(table) - {s}
    {
      table := table - {s};
    }

    method StartRunner(f: Forward) returns (ok: bool)
      modifies this`table
      ensures ok <==> Start(old(table), f).Some?
      ensures table == if ok then Start(old(table), f).value else old(table)
    {
      var tcp := false;
      if f.HasTCP() {
        tcp := Listen(TcpSocket(f), f.id);
        if !tcp { return false; }
      }
      if f.HasUDP() {
        var udp := Listen(UdpSocket(f), f.id);
        if !udp {
          if tcp { Close(TcpSocket(f)); }
          assert table == old(table);
          return false;
        }
      }
      return true;
    }

    method StopRunner(f: Forward)
      modifies this`table
      ensures table == Stop(old(table), f)
    {
      if f.HasTCP() { Close(TcpSocket(f)); }
      if f.HasUDP() { Close(UdpSocket(f)); }
      assert table == Stop(old(table), f);
    }

    method RemoveForward(id: Id)
      modifies this
      ensures State() == Remove(old(State()), id)
    {
      if id in runners {
        StopRunner(runners[id]);
        runners := runners - {id};
      }
    }

    method ApplyForward(f: Forward) returns (ok: bool)
      modifies this
      ensures (State(), ok) == Apply(old(State()), f)
    {
      var had := f.id in runners;
      if had && runners[f.id].Same(f) { return true; }
      var was := if had then Some(runners[f.id]) else None;
      if had {
        StopRunner(was.value);
        runners := runners - {f.id};
      }
      if !f.enabled { return true; }
      var started := StartRunner(f);
      if !started {
        if was.Some? {
          var restored := StartRunner(was.value);
          if restored { runners := runners[f.id := was.value]; }
        }
        return false;
      }
      runners := runners[f.id := f];
      return true;
    }

    /** First loop of ApplyGroup: index prev and stop what next no longer has. */
    method DropMembers(next: seq<Forward>, prev: seq<Forward>) returns (prevById: map<Id, Forward>, removed: seq<Forward>)
      modifies this
      ensures prevById == ById(prev) && removed == Dropped(prev, Ids(next))
      ensures State() == RemoveFrom(old(State()), removed, 0)
    {
      var nextIds: set<Id> := {};
      var k := 0;
      while k < |next|
        invariant k <= |next| && nextIds == Ids(next[..k])
        invariant State() == old(State())
      {
        nextIds := nextIds + {next[k].id};
        IdsGrow(next, k);
        k := k + 1;
      }
      assert next[..k] == next;
      prevById, removed := map[], [];
      var i := 0;
      while i < |prev|
        invariant i <= |prev|
        invariant prevById == ById(prev[..i]) && removed == Dropped(prev[..i], Ids(next))
        invariant State() == RemoveFrom(old(State()), removed, 0)
      {
        var f := prev[i];
        assert prev[..i + 1][..i] == prev[..i];
        prevById := prevById[f.id := f];
        if f.id !in nextIds {
          RemoveFromAppend(old(State()), removed, f, 0);
          removed := removed + [f];
          RemoveForward(f.id);
        }
        i := i + 1;
      }
      assert prev[..i] == prev;
    }

    /** The rollback closure of ApplyGroup; errors of a restore are only logged. */
    method Rollback(applied: seq<Forward>, prevById: map<Id, Forward>, removed: seq<Forward>)
      modifies this
      ensures State() == StartFrom(RestoreFrom(old(State()), applied, prevById, 0), removed, 0)
    {
      var j := 0;
      while j < |applied|
        invariant j <= |applied|
        invariant RestoreFrom(State(), applied, prevById, j) == RestoreFrom(old(State()), applied, prevById, 0)
      {
        var id := applied[j].id;
        if id in prevById {
          var _ := ApplyForward(prevById[id]);
        } else {
          RemoveForward(id);
        }
        j := j + 1;
      }
      ghost var undone := State();
      var r := 0;
      while r < |removed|
        invariant r <= |removed|
        invariant StartFrom(State(), removed, r) == StartFrom(undone, removed, 0)
      {
        var _ := ApplyForward(removed[r]);
        r := r + 1;
      }
    }

    method SwitchGroup(next: seq<Forward>, prev: seq<Forward>) returns (ok: bool)
      modifies this
      ensures (State(), ok) == ApplyGroup(old(State()), next, prev)
    {
      var prevById, removed := DropMembers(next, prev);
      ghost var dropped := State();
      var applied: seq<Forward> := [];
      var i := 0;
      while i < |next|
        invariant i <= |next| && applied == next[..i]
        invariant ApplyFrom(State(), next, i) == ApplyFrom(dropped, next, 0)
      {
        var applyOk := ApplyForward(next[i]);
        if !applyOk {
          Rollback(applied, prevById, removed);
          return false;
        }
        applied := applied + [next[i]];
        i := i + 1;
      }
      return true;
    }

    /** SyncAll: apply every stored forward, then stop the runners that are not live. */
    method Synchronise(forwards: seq<Forward>) returns (errs: set<Id>)
      requires Consistent(State())
      modifies this
      ensures (State(), errs) == SyncAll(old(State()), forwards)
    {
      errs := {};
      var live: set<Id> := {};
      var i := 0;
      while i < |forwards|
        invariant i <= |forwards| && live == Ids(forwards[..i])
        invariant Consistent(State())
        invariant SyncFrom(State(), forwards, i, errs) == SyncFrom(old(State()), forwards, 0, {})
      {
        ApplyMeaning(State(), forwards[i]);
        live := live + {forwards[i].id};
        var ok := ApplyForward(forwards[i]);
        if !ok { errs := errs + {forwards[i].id}; }
        IdsGrow(forwards, i);
        i := i + 1;
      }
      assert forwards[..i] == forwards;
      StopStale(live);
    }

    /** The last loop of SyncAll, over the runners in any order. */
    method StopStale(live: set<Id>)
      requires Consistent(State())
      modifies this
      ensures State() == Prune(old(State()), live)
    {
      var todo := runners.Keys;
      PruneNothing(State(), live + todo);
      while todo != {}
        invariant todo <= runners.Keys
        invariant State() == Prune(old(State()), live + todo)
        decreases todo
      {
        var id :| id in todo;
        ghost var before := live + todo;
        todo := todo - {id};
        if id in live {
          assert live + todo == before;
        } else {
          assert live + todo == before - {id};
          PruneStep(old(State()), before, id);
          StopRunner(runners[id]);
          runners := runners - {id};
        }
      }
      assert live + todo == live;
    }
  }

  lemma IdsGrow(fs: seq<Forward>, k: nat)
    requires k < |fs|
    ensures Ids(fs[..k + 1]) == Ids(fs[..k]) + {fs[k].id}
  {
    var a, b := fs[..k], fs[..k + 1];
    forall id ensures id in Ids(b) <==> id in Ids(a) || id == fs[k].id {
      if id in Ids(a) {
        var i :| 0 <= i < |a| && a[i].id == id;
        assert b[i].id == id;
      }
      if id == fs[k].id {
        assert b[k].id == id;
      }
      if id in Ids(b) {
        var i :| 0 <= i < |b| && b[i].id == id;
        assert i < k ==> a[i].id == id;
      }
    }
  }
}
