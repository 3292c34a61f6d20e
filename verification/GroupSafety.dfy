/** Why a group switch is all-or-nothing. The runners are followed as an abstract set
    of running forwards; each phase of ApplyGroup has a closed form per id. */
module GroupSafety {
  import opened Basics
  import opened Protocols
  import opened Forwards
  import opened Listeners
  import opened GroupSwitch

  function At(m: map<Id, Forward>, id: Id): Option<Forward> {
    if id in m then Some(m[id]) else None
  }

  function Shown(f: Forward): Option<Forward> {
    if f.enabled then Some(f) else None
  }

  /** What a restore leaves under an id: the old member, unless another process has
      taken a socket it needs. */
  function Healed(table: map<Socket, Owner>, f: Forward): Option<Forward> {
    if f.enabled && !ForeignOn(table, f) then Some(f) else None
  }

  /** Neither dropped member nor anything else has moved yet under this id. */
  function AfterDrop(net: Net, next: seq<Forward>, prev: seq<Forward>, id: Id): Option<Forward> {
    if id in ById(prev) && id !in ById(next) then None else At(net.runners, id)
  }

  /** After the first k members of next have been applied. */
  function AfterApply(net: Net, next: seq<Forward>, prev: seq<Forward>, k: nat, id: Id): Option<Forward>
    requires k <= |next|
  {
    var done := ById(next[..k]);
    if id in done then Shown(done[id]) else AfterDrop(net, next, prev, id)
  }

  function Original(net: Net, prev: seq<Forward>, id: Id): Option<Forward> {
    if id in ById(prev) then Healed(net.table, ById(prev)[id]) else None
  }

  /** During the rollback of the first k members, j of which are undone. */
  function AfterUndo(net: Net, next: seq<Forward>, prev: seq<Forward>, k: nat, j: nat, id: Id): Option<Forward>
    requires j <= k <= |next|
  {
    if id in ById(next[..k][..j]) then Original(net, prev, id) else AfterApply(net, next, prev, k, id)
  }

  /** At the end of the rollback, r of the dropped members being started again. */
  function AfterRestart(net: Net, next: seq<Forward>, prev: seq<Forward>, k: nat, r: nat, id: Id): Option<Forward>
    requires k <= |next| && r <= |Dropped(prev, Ids(next))|
  {
    if id in ById(Dropped(prev, Ids(next))[..r]) then Original(net, prev, id)
    else if id in ById(next[..k]) then Original(net, prev, id)
    else AfterDrop(net, next, prev, id)
  }

  /** cur is a consistent state whose running forwards are given by the closed form. */
  ghost predicate Reached(net: Net, cur: Net, m: map<Id, Forward>) {
    Consistent(cur) && SameForeign(cur.table, net.table) && Matches(cur, m)
  }

  // ----- who can be in the way ----------------------------------------------------------

  /** What may run beside the group at any point of the switch. */
  ghost predicate Bystander(net: Net, next: seq<Forward>, prev: seq<Forward>, id: Id, g: Forward) {
    var x, p := ById(next), ById(prev);
    || (id in x && g == x[id])
    || (id in p && g.Same(p[id]))
    || (id !in p && id in net.runners && g == net.runners[id])
  }

  lemma NextMemberIsUnobstructed(net: Net, next: seq<Forward>, prev: seq<Forward>, id: Id, g: Forward, o: Id)
    requires GroupReady(net, next, prev)
    ensures Bystander(net, next, prev, id, g) && o in ById(next) && id != o && (id in ById(prev) ==> id in ById(next)) ==>
              !Clash(g, ById(next)[o])
  {
  }

  /** Is what runs under id out of the way of the old member o? */
  ghost predicate LeavesRoom(next: seq<Forward>, prev: seq<Forward>, id: Id, g: Forward, o: Id) {
    && o in ById(prev) && id != o
    && (o in ById(next) || id !in ById(next) || id in ById(prev))
    && (o !in ById(next) ==> !(id in ById(next) && g == ById(next)[id]) || id in ById(prev))
  }

  lemma PrevMemberIsUnobstructed(net: Net, next: seq<Forward>, prev: seq<Forward>, id: Id, g: Forward, o: Id)
    requires GroupReady(net, next, prev)
    ensures Bystander(net, next, prev, id, g) && LeavesRoom(next, prev, id, g, o) ==> !Clash(g, ById(prev)[o])
  {
    var x, p := ById(next), ById(prev);
    if Bystander(net, next, prev, id, g) && LeavesRoom(next, prev, id, g, o) && id in x && g == x[id] {
      if o in x {
        assert !Clash(x[id], x[o]);
      } else {
        assert !Clash(p[id], p[o]);
      }
    }
  }

  /** With no clashing bystander, only another process can stop a listener. */
  lemma OnlyForeignBlocks(m: map<Id, Forward>, cur: Net, net: Net, f: Forward)
    requires SameForeign(cur.table, net.table)
    requires forall id :: id in m && id != f.id ==> !Clash(m[id], f)
    ensures Blocked(m, cur.table, f) <==> ForeignOn(net.table, f)
    ensures ForeignOn(cur.table, f) <==> ForeignOn(net.table, f)
  {
    assert TakenByOthers(cur.table, TcpSocket(f)) <==> TakenByOthers(net.table, TcpSocket(f));
    assert TakenByOthers(cur.table, UdpSocket(f)) <==> TakenByOthers(net.table, UdpSocket(f));
  }

  // ----- phase 1: dropping ----------------------------------------------------------------

  /** ids in gone are no longer running; all others are as in net. */
  ghost predicate WithoutIds(net: Net, m: map<Id, Forward>, gone: map<Id, Forward>) {
    forall id :: At(m, id) == if id in gone then None else At(net.runners, id)
  }

  lemma {:induction false} DropPhase(net: Net, cur: Net, m: map<Id, Forward>, fs: seq<Forward>, k: nat)
    returns (m': map<Id, Forward>)
    requires k <= |fs| && Reached(net, cur, m) && WithoutIds(net, m, ById(fs[..k]))
    ensures Reached(net, RemoveFrom(cur, fs, k), m') && WithoutIds(net, m', ById(fs))
    decreases |fs| - k
  {
    if k == |fs| {
      assert fs[..k] == fs;
      m' := m;
    } else {
      RemoveIsDrop(cur, m, fs[k].id);
      ByIdGrows(fs, k);
      var n := m - {fs[k].id};
      forall id ensures At(n, id) == if id in ById(fs[..k + 1]) then None else At(net.runners, id) {
        assert At(m, id) == if id in ById(fs[..k]) then None else At(net.runners, id);
      }
      m' := DropPhase(net, Remove(cur, fs[k].id), n, fs, k + 1);
    }
  }

  // ----- phase 2: applying ------------------------------------------------------------------

  ghost predicate Applied(net: Net, next: seq<Forward>, prev: seq<Forward>, k: nat, m: map<Id, Forward>)
    requires k <= |next|
  {
    forall id :: At(m, id) == AfterApply(net, next, prev, k, id)
  }

  lemma {:induction false} AppliedHasBystanders(net: Net, next: seq<Forward>, prev: seq<Forward>, k: nat, m: map<Id, Forward>, id: Id)
    requires GroupReady(net, next, prev) && k <= |next| && Applied(net, next, prev, k, m) && id in m
    ensures Bystander(net, next, prev, id, m[id])
    ensures id in ById(prev) ==> id in ById(next)
  {
    PrefixById(next, k, id);
    assert At(m, id) == AfterApply(net, next, prev, k, id);
  }

  lemma ApplyStep(net: Net, cur: Net, m: map<Id, Forward>, next: seq<Forward>, prev: seq<Forward>, k: nat)
    returns (m': map<Id, Forward>)
    requires GroupReady(net, next, prev) && k < |next|
    requires Reached(net, cur, m) && Applied(net, next, prev, k, m)
    ensures
      var (after, ok) := Apply(cur, next[k]);
      && Reached(net, after, m')
      && (ok <==> !(next[k].enabled && ForeignOn(net.table, next[k])))
      && (ok ==> Applied(net, next, prev, k + 1, m'))
      && (!ok ==> Applied(net, next, prev, k, m'))
  {
    var f := next[k];
    ByIdAt(next, k);
    forall id | id in m && id != f.id ensures !Clash(m[id], f) {
      AppliedHasBystanders(net, next, prev, k, m, id);
      NextMemberIsUnobstructed(net, next, prev, id, m[id], f.id);
    }
    OnlyForeignBlocks(m, cur, net, f);
    ApplyIsSwitch(cur, m, f);
    m' := Switch(m, cur.table, f);
    ByIdGrows(next, k);
    PrefixById(next, k, f.id);
    if !(f.enabled && ForeignOn(net.table, f)) {
      ApplyAdvances(net, next, prev, k, m, m');
    }
  }

  lemma ApplyAdvances(net: Net, next: seq<Forward>, prev: seq<Forward>, k: nat, m: map<Id, Forward>, m': map<Id, Forward>)
    requires k < |next| && Applied(net, next, prev, k, m)
    requires ById(next[..k + 1]) == ById(next[..k])[next[k].id := next[k]]
    requires At(m', next[k].id) == Shown(next[k])
    requires forall id :: id != next[k].id ==> At(m', id) == At(m, id)
    ensures Applied(net, next, prev, k + 1, m')
  {
    forall id ensures At(m', id) == AfterApply(net, next, prev, k + 1, id) {
      assert At(m, id) == AfterApply(net, next, prev, k, id);
    }
  }

  ghost predicate Startable(net: Net, next: seq<Forward>, k: nat)
    requires k <= |next|
  {
    forall i :: 0 <= i < k ==> !(next[i].enabled && ForeignOn(net.table, next[i]))
  }

  lemma {:induction false} ApplyPhase(net: Net, cur: Net, m: map<Id, Forward>, next: seq<Forward>, prev: seq<Forward>, k: nat)
    returns (m': map<Id, Forward>)
    requires GroupReady(net, next, prev) && k <= |next|
    requires Reached(net, cur, m) && Applied(net, next, prev, k, m) && Startable(net, next, k)
    ensures
      var (after, n) := ApplyFrom(cur, next, k);
      && Reached(net, after, m') && Applied(net, next, prev, n, m') && Startable(net, next, n)
      && (n < |next| ==> next[n].enabled && ForeignOn(net.table, next[n]))
    decreases |next| - k
  {
    if k == |next| {
      m' := m;
    } else {
      m' := ApplyStep(net, cur, m, next, prev, k);
      var (after, ok) := Apply(cur, next[k]);
      if ok {
        m' := ApplyPhase(net, after, m', next, prev, k + 1);
      }
    }
  }

  // ----- phase 3: undoing -----------------------------------------------------------------------

  ghost predicate Undone(net: Net, next: seq<Forward>, prev: seq<Forward>, k: nat, j: nat, m: map<Id, Forward>)
    requires j <= k <= |next|
  {
    forall id :: At(m, id) == AfterUndo(net, next, prev, k, j, id)
  }

  lemma UndoneHasBystanders(net: Net, next: seq<Forward>, prev: seq<Forward>, k: nat, j: nat, m: map<Id, Forward>, id: Id)
    requires GroupReady(net, next, prev) && j <= k <= |next| && Undone(net, next, prev, k, j, m) && id in m
    ensures Bystander(net, next, prev, id, m[id])
  {
    PrefixById(next, k, id);
    assert At(m, id) == AfterUndo(net, next, prev, k, j, id);
  }

  /** Applying an old member when only another process can be in its way, and then
      nothing is running under its id. */
  lemma HealStep(net: Net, cur: Net, m: map<Id, Forward>, f: Forward) returns (m': map<Id, Forward>)
    requires Reached(net, cur, m)
    requires forall id :: id in m && id != f.id ==> !Clash(m[id], f)
    requires f.enabled && ForeignOn(net.table, f) ==> f.id !in m
    ensures Reached(net, Apply(cur, f).0, m')
    ensures Apply(cur, f).1 <==> !(f.enabled && ForeignOn(net.table, f))
    ensures At(m', f.id) == Healed(net.table, f)
    ensures forall id :: id != f.id ==> At(m', id) == At(m, id)
  {
    OnlyForeignBlocks(m, cur, net, f);
    ApplyIsSwitch(cur, m, f);
    m' := Switch(m, cur.table, f);
  }

  lemma {:induction false} UndoneAt(net: Net, next: seq<Forward>, prev: seq<Forward>, k: nat, j: nat, m: map<Id, Forward>)
    requires GroupReady(net, next, prev) && j < k <= |next| && Undone(net, next, prev, k, j, m)
    ensures next[..k][j] == next[j]
    ensures At(m, next[j].id) == Shown(next[j])
    ensures next[j].id in ById(next) && ById(next)[next[j].id] == next[j]
    ensures ById(next[..k][..j + 1]) == ById(next[..k][..j])[next[j].id := next[j]]
  {
    var applied := next[..k];
    assert DistinctIds(applied) && applied[j] == next[j];
    ByIdAt(next, j);
    ByIdGrows(applied, j);
    ByIdAt(applied, j);
    PrefixById(applied, j, next[j].id);
    assert At(m, next[j].id) == AfterUndo(net, next, prev, k, j, next[j].id);
  }

  lemma UndoAdvances(net: Net, next: seq<Forward>, prev: seq<Forward>, k: nat, j: nat, m: map<Id, Forward>, m': map<Id, Forward>)
    requires j < k <= |next| && Undone(net, next, prev, k, j, m)
    requires ById(next[..k][..j + 1]) == ById(next[..k][..j])[next[j].id := next[j]]
    requires At(m', next[j].id) == Original(net, prev, next[j].id)
    requires forall id :: id != next[j].id ==> At(m', id) == At(m, id)
    ensures Undone(net, next, prev, k, j + 1, m')
  {
    forall id ensures At(m', id) == AfterUndo(net, next, prev, k, j + 1, id) {
      assert At(m, id) == AfterUndo(net, next, prev, k, j, id);
    }
  }

  lemma UndoKept(net: Net, cur: Net, m: map<Id, Forward>, next: seq<Forward>, prev: seq<Forward>, k: nat, j: nat)
    returns (m': map<Id, Forward>)
    requires GroupReady(net, next, prev) && j < k <= |next| && Startable(net, next, k)
    requires Reached(net, cur, m) && Undone(net, next, prev, k, j, m) && next[j].id in ById(prev)
    ensures Reached(net, Apply(cur, ById(prev)[next[j].id]).0, m')
    ensures At(m', next[j].id) == Original(net, prev, next[j].id)
    ensures forall id :: id != next[j].id ==> At(m', id) == At(m, id)
  {
    UndoneAt(net, next, prev, k, j, m);
    var o := next[j].id;
    var f := ById(prev)[o];
    ByIdFinds(prev, o);
    forall id | id in m && id != f.id ensures !Clash(m[id], f) {
      UndoneHasBystanders(net, next, prev, k, j, m, id);
      PrevMemberIsUnobstructed(net, next, prev, id, m[id], o);
    }
    assert ForeignOn(net.table, f) <==> ForeignOn(net.table, next[j]);
    m' := HealStep(net, cur, m, f);
  }

  lemma {:induction false} UndoStep(net: Net, cur: Net, m: map<Id, Forward>, next: seq<Forward>, prev: seq<Forward>, k: nat, j: nat)
    returns (m': map<Id, Forward>)
    requires GroupReady(net, next, prev) && j < k <= |next| && Startable(net, next, k)
    requires Reached(net, cur, m) && Undone(net, next, prev, k, j, m)
    ensures
      var id := next[..k][j].id;
      Reached(net, if id in ById(prev) then Apply(cur, ById(prev)[id]).0 else Remove(cur, id), m')
    ensures Undone(net, next, prev, k, j + 1, m')
  {
    UndoneAt(net, next, prev, k, j, m);
    var o := next[j].id;
    if o in ById(prev) {
      m' := UndoKept(net, cur, m, next, prev, k, j);
    } else {
      RemoveIsDrop(cur, m, o);
      m' := m - {o};
    }
    UndoAdvances(net, next, prev, k, j, m, m');
  }

  lemma {:induction false} UndoPhase(net: Net, cur: Net, m: map<Id, Forward>, next: seq<Forward>, prev: seq<Forward>, k: nat, j: nat)
    returns (m': map<Id, Forward>)
    requires GroupReady(net, next, prev) && j <= k <= |next| && Startable(net, next, k)
    requires Reached(net, cur, m) && Undone(net, next, prev, k, j, m)
    ensures Reached(net, RestoreFrom(cur, next[..k], ById(prev), j), m') && Undone(net, next, prev, k, k, m')
    decreases k - j
  {
    if j == k {
      m' := m;
    } else {
      m' := UndoStep(net, cur, m, next, prev, k, j);
      var id := next[..k][j].id;
      var after := if id in ById(prev) then Apply(cur, ById(prev)[id]).0 else Remove(cur, id);
      m' := UndoPhase(net, after, m', next, prev, k, j + 1);
    }
  }

  // ----- phase 4: restarting what was dropped -------------------------------------------------------

  ghost predicate Restarted(net: Net, next: seq<Forward>, prev: seq<Forward>, k: nat, r: nat, m: map<Id, Forward>)
    requires k <= |next| && r <= |Dropped(prev, Ids(next))|
  {
    forall id :: At(m, id) == AfterRestart(net, next, prev, k, r, id)
  }

  lemma RestartedHasBystanders(net: Net, next: seq<Forward>, prev: seq<Forward>, k: nat, r: nat, m: map<Id, Forward>, id: Id)
    requires GroupReady(net, next, prev) && k <= |next| && r <= |Dropped(prev, Ids(next))|
    requires Restarted(net, next, prev, k, r, m) && id in m
    ensures id in ById(prev) ==> m[id].Same(ById(prev)[id])
    ensures id !in ById(prev) ==> id in net.runners && m[id] == net.runners[id]
  {
    assert At(m, id) == AfterRestart(net, next, prev, k, r, id);
  }

  lemma RestartedAt(net: Net, next: seq<Forward>, prev: seq<Forward>, k: nat, r: nat, m: map<Id, Forward>)
    requires GroupReady(net, next, prev) && k <= |next| && r < |Dropped(prev, Ids(next))|
    requires Restarted(net, next, prev, k, r, m)
    ensures
      var removed := Dropped(prev, Ids(next));
      var f := removed[r];
      && f.id in ById(prev) && f == ById(prev)[f.id] && At(m, f.id) == None
      && ById(removed[..r + 1]) == ById(removed[..r])[f.id := f]
  {
    var removed := Dropped(prev, Ids(next));
    var f := removed[r];
    DroppedMembers(prev, Ids(next));
    DroppedById(next, prev);
    ByIdAt(removed, r);
    ByIdGrows(removed, r);
    PrefixById(removed, r, f.id);
    PrefixById(next, k, f.id);
    assert At(m, f.id) == AfterRestart(net, next, prev, k, r, f.id);
  }

  lemma RestartStep(net: Net, cur: Net, m: map<Id, Forward>, next: seq<Forward>, prev: seq<Forward>, k: nat, r: nat)
    returns (m': map<Id, Forward>)
    requires GroupReady(net, next, prev) && k <= |next| && r < |Dropped(prev, Ids(next))|
    requires Reached(net, cur, m) && Restarted(net, next, prev, k, r, m)
    ensures Reached(net, Apply(cur, Dropped(prev, Ids(next))[r]).0, m')
    ensures Restarted(net, next, prev, k, r + 1, m')
  {
    var f := Dropped(prev, Ids(next))[r];
    RestartedAt(net, next, prev, k, r, m);
    forall id | id in m && id != f.id ensures !Clash(m[id], f) {
      RestartedHasBystanders(net, next, prev, k, r, m, id);
      if id in ById(prev) {
        assert !Clash(ById(prev)[id], ById(prev)[f.id]);
      }
    }
    m' := HealStep(net, cur, m, f);
    RestartAdvances(net, next, prev, k, r, m, m');
  }

  lemma RestartAdvances(net: Net, next: seq<Forward>, prev: seq<Forward>, k: nat, r: nat, m: map<Id, Forward>, m': map<Id, Forward>)
    requires k <= |next| && r < |Dropped(prev, Ids(next))| && Restarted(net, next, prev, k, r, m)
    requires
      var removed := Dropped(prev, Ids(next));
      var f := removed[r];
      && f.id in ById(prev) && f == ById(prev)[f.id] && ById(removed[..r + 1]) == ById(removed[..r])[f.id := f]
      && At(m', f.id) == Healed(net.table, f)
      && forall id :: id != f.id ==> At(m', id) == At(m, id)
    ensures Restarted(net, next, prev, k, r + 1, m')
  {
    forall id ensures At(m', id) == AfterRestart(net, next, prev, k, r + 1, id) {
      assert At(m, id) == AfterRestart(net, next, prev, k, r, id);
    }
  }

  lemma {:induction false} RestartPhase(net: Net, cur: Net, m: map<Id, Forward>, next: seq<Forward>, prev: seq<Forward>, k: nat, r: nat)
    returns (m': map<Id, Forward>)
    requires GroupReady(net, next, prev) && k <= |next| && r <= |Dropped(prev, Ids(next))|
    requires Reached(net, cur, m) && Restarted(net, next, prev, k, r, m)
    ensures Reached(net, StartFrom(cur, Dropped(prev, Ids(next)), r), m')
    ensures Restarted(net, next, prev, k, |Dropped(prev, Ids(next))|, m')
    decreases |Dropped(prev, Ids(next))| - r
  {
    var removed := Dropped(prev, Ids(next));
    if r == |removed| {
      m' := m;
    } else {
      m' := RestartStep(net, cur, m, next, prev, k, r);
      m' := RestartPhase(net, Apply(cur, removed[r]).0, m', next, prev, k, r + 1);
    }
  }

  // ----- the main results -----------------------------------------------------------------------------

  /** The position of the first member that needs a socket of another process. */
  function FirstBlocked(table: map<Socket, Owner>, next: seq<Forward>, k: nat): (n: nat)
    requires k <= |next|
    ensures k <= n <= |next|
    ensures forall i :: k <= i < n ==> !(next[i].enabled && ForeignOn(table, next[i]))
    ensures n < |next| ==> next[n].enabled && ForeignOn(table, next[n])
    decreases |next| - k
  {
    if k == |next| || (next[k].enabled && ForeignOn(table, next[k])) then k else FirstBlocked(table, next, k + 1)
  }

  /** The forward phase stops exactly at the first blocked member. */
  lemma ForwardPhase(net: Net, next: seq<Forward>, prev: seq<Forward>) returns (m: map<Id, Forward>)
    requires GroupReady(net, next, prev)
    ensures
      var (after, k) := ApplyFrom(RemoveFrom(net, Dropped(prev, Ids(next)), 0), next, 0);
      && k == FirstBlocked(net.table, next, 0)
      && Reached(net, after, m) && Applied(net, next, prev, k, m) && Startable(net, next, k)
  {
    var removed := Dropped(prev, Ids(next));
    DroppedById(next, prev);
    m := DropPhase(net, net, net.runners, removed, 0);
    var start := RemoveFrom(net, removed, 0);
    assert Applied(net, next, prev, 0, m);
    m := ApplyPhase(net, start, m, next, prev, 0);
  }

  /** A group never blocks itself: the switch succeeds exactly when no enabled member
      needs a socket that another process holds. */
  lemma GroupFailsOnlyOnForeign(net: Net, next: seq<Forward>, prev: seq<Forward>)
    requires GroupReady(net, next, prev)
    ensures ApplyGroup(net, next, prev).1 <==>
            forall i :: 0 <= i < |next| && next[i].enabled ==> !ForeignOn(net.table, next[i])
  {
    var m := ForwardPhase(net, next, prev);
  }

  /** After a success the group's runners are exactly the enabled members of next, the
      dropped members are gone and every other forward is untouched. */
  lemma {:induction false} GroupSuccess(net: Net, next: seq<Forward>, prev: seq<Forward>)
    requires GroupReady(net, next, prev) && ApplyGroup(net, next, prev).1
    ensures
      var after := ApplyGroup(net, next, prev).0;
      && Consistent(after) && SameForeign(after.table, net.table)
      && (forall i :: 0 <= i < |next| ==>
            if next[i].enabled then next[i].id in after.runners && after.runners[next[i].id].Same(next[i])
            else next[i].id !in after.runners)
      && (forall id :: id in ById(prev) && id !in ById(next) ==> id !in after.runners)
      && (forall id :: id !in ById(prev) && id !in ById(next) ==>
            (id in after.runners <==> id in net.runners)
            && (id in net.runners ==> after.runners[id].Same(net.runners[id])))
  {
    var m := ForwardPhase(net, next, prev);
    assert next[..|next|] == next;
    forall i | 0 <= i < |next| ensures At(m, next[i].id) == Shown(next[i]) {
      ByIdAt(next, i);
      assert At(m, next[i].id) == AfterApply(net, next, prev, |next|, next[i].id);
    }
    forall id | id !in ById(next)
      ensures At(m, id) == if id in ById(prev) then None else At(net.runners, id)
    {
      assert At(m, id) == AfterApply(net, next, prev, |next|, id);
    }
  }

  /** Two listener states that no caller can tell apart: the same ports in the same
      hands, and under every id the same listeners. */
  ghost predicate SameNet(a: Net, b: Net) {
    a.table == b.table && Matches(a, b.runners)
  }

  /** The members a failing switch has moved before it stopped. */
  ghost predicate Touched(net: Net, next: seq<Forward>, id: Id) {
    id !in ById(next) || id in ById(next[..FirstBlocked(net.table, next, 0)])
  }

  /** Every old member that gets touched either runs as recorded or cannot run. */
  ghost predicate Undoable(net: Net, next: seq<Forward>, prev: seq<Forward>) {
    forall id :: id in ById(prev) && Touched(net, next, id) && ById(prev)[id].enabled && id !in net.runners ==>
      ForeignOn(net.table, ById(prev)[id])
  }

  /** The state after a failure, id by id. */
  function AfterFailure(net: Net, next: seq<Forward>, prev: seq<Forward>, id: Id): Option<Forward> {
    if id in ById(prev) && id !in ById(next) then Original(net, prev, id)
    else if id in ById(next[..FirstBlocked(net.table, next, 0)]) then Original(net, prev, id)
    else At(net.runners, id)
  }

  lemma GroupFailure(net: Net, next: seq<Forward>, prev: seq<Forward>) returns (m: map<Id, Forward>)
    requires GroupReady(net, next, prev) && !ApplyGroup(net, next, prev).1
    ensures Reached(net, ApplyGroup(net, next, prev).0, m)
    ensures forall id :: At(m, id) == AfterFailure(net, next, prev, id)
  {
    var removed := Dropped(prev, Ids(next));
    m := ForwardPhase(net, next, prev);
    var (after, k) := ApplyFrom(RemoveFrom(net, removed, 0), next, 0);
    assert next[..k][..0] == [];
    assert Undone(net, next, prev, k, 0, m);
    m := UndoPhase(net, after, m, next, prev, k, 0);
    assert next[..k][..k] == next[..k];
    assert removed[..0] == [];
    forall id ensures At(m, id) == AfterRestart(net, next, prev, k, 0, id) {
      assert At(m, id) == AfterUndo(net, next, prev, k, k, id);
    }
    m := RestartPhase(net, RestoreFrom(after, next[..k], ById(prev), 0), m, next, prev, k, 0);
    assert removed[..|removed|] == removed;
    DroppedById(next, prev);
    forall id ensures At(m, id) == AfterFailure(net, next, prev, id) {
      assert At(m, id) == AfterRestart(net, next, prev, k, |removed|, id);
    }
  }

  lemma RunningIsNotForeign(net: Net, id: Id, f: Forward)
    requires Consistent(net) && id in net.runners && net.runners[id].Same(f)
    ensures f.enabled && !ForeignOn(net.table, f)
  {
    var r := net.runners[id];
    if ForeignOn(net.table, f) {
      var s := if f.HasTCP() && TakenByOthers(net.table, TcpSocket(f)) then TcpSocket(f) else UdpSocket(f);
      assert Needs(r, s);
    }
  }

  lemma {:induction false} OriginalIsRecorded(net: Net, next: seq<Forward>, prev: seq<Forward>, id: Id)
    requires GroupReady(net, next, prev) && id in ById(prev)
    ensures id in net.runners ==> Original(net, prev, id) == Some(ById(prev)[id]) && net.runners[id].Same(ById(prev)[id])
    ensures id !in net.runners ==>
              (Original(net, prev, id) == None <==> !ById(prev)[id].enabled || ForeignOn(net.table, ById(prev)[id]))
  {
    if id in net.runners {
      RunningIsNotForeign(net, id, ById(prev)[id]);
    }
  }

  /** All or nothing: a failed switch leaves every listener as it was, exactly when the
      members it touched were running as recorded or could not have been running. */
  lemma GroupIsAllOrNothing(net: Net, next: seq<Forward>, prev: seq<Forward>)
    requires GroupReady(net, next, prev) && !ApplyGroup(net, next, prev).1
    ensures Consistent(ApplyGroup(net, next, prev).0)
    ensures SameForeign(ApplyGroup(net, next, prev).0.table, net.table)
    ensures SameNet(ApplyGroup(net, next, prev).0, net) <==> Undoable(net, next, prev)
  {
    var after := ApplyGroup(net, next, prev).0;
    var m := GroupFailure(net, next, prev);
    forall id | id in ById(next) && id !in ById(prev) ensures id !in net.runners {
    }
    if Undoable(net, next, prev) {
      FailureRestores(net, next, prev, after, m);
    }
    if SameNet(after, net) {
      forall id | id in ById(prev) && Touched(net, next, id) && ById(prev)[id].enabled && id !in net.runners
        ensures ForeignOn(net.table, ById(prev)[id])
      {
        OriginalIsRecorded(net, next, prev, id);
        assert At(m, id) == AfterFailure(net, next, prev, id) == Original(net, prev, id);
        assert id !in after.runners;
      }
    }
  }

  lemma FailureRestores(net: Net, next: seq<Forward>, prev: seq<Forward>, after: Net, m: map<Id, Forward>)
    requires GroupReady(net, next, prev) && Undoable(net, next, prev)
    requires Reached(net, after, m) && forall id :: At(m, id) == AfterFailure(net, next, prev, id)
    ensures SameNet(after, net)
  {
    var k := FirstBlocked(net.table, next, 0);
    forall id
      ensures id in m <==> id in net.runners
      ensures id in m ==> m[id].Same(net.runners[id])
    {
      assert At(m, id) == AfterFailure(net, next, prev, id);
      PrefixById(next, k, id);
      if id in ById(prev) {
        OriginalIsRecorded(net, next, prev, id);
      }
    }
    assert after.runners.Keys == net.runners.Keys;
    TableIsDetermined(after, net);
  }

  /** In particular when every enabled member of prev is running as recorded. */
  lemma RunningGroupIsRestored(net: Net, next: seq<Forward>, prev: seq<Forward>)
    requires GroupReady(net, next, prev) && !ApplyGroup(net, next, prev).1
    requires forall i :: 0 <= i < |prev| && prev[i].enabled ==> prev[i].id in net.runners
    ensures SameNet(ApplyGroup(net, next, prev).0, net)
  {
    forall id | id in ById(prev) && ById(prev)[id].enabled ensures id in net.runners {
      ByIdFinds(prev, id);
    }
    GroupIsAllOrNothing(net, next, prev);
  }

  /** Without that condition the claim is false: an old member whose port was taken at
      start-up and has been released since is started by the rollback. */
  lemma RollbackCanStartAListener()
    ensures exists net, next, prev ::
              && GroupReady(net, next, prev)
              && !ApplyGroup(net, next, prev).1
              && !SameNet(ApplyGroup(net, next, prev).0, net)
  {
    var a := Forward(1, 7, 3, "a", Tcp, 100, "h", 100, true, 0, 0);
    var b := a.(id := 2, publicPort := 200);
    var net := Net(map[], map[TcpSocket(b) := Foreign]);
    var next, prev := [b], [a];
    assert ById(next) == map[2 := b] && ById(prev) == map[1 := a] by {
      assert next[..0] == [] && prev[..0] == [];
    }
    assert GroupReady(net, next, prev);
    GroupFailsOnlyOnForeign(net, next, prev);
    assert next[0].enabled && ForeignOn(net.table, next[0]);
    assert !Undoable(net, next, prev) by {
      assert 1 in ById(prev) && Touched(net, next, 1) && !ForeignOn(net.table, a);
    }
    GroupIsAllOrNothing(net, next, prev);
  }
}
