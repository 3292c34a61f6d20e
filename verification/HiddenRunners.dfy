/** Listeners seen with some runners counting as other processes: applying forwards and
    switching groups of other identifiers do not see the difference.
    internal/server/tunnel.go:319-404 */
module HiddenRunners {
  import opened Forwards
  import opened Listeners
  import opened GroupSwitch

  /** The same listeners, the runners to be stopped counting as other processes. */
  function Hide(net: Net, ending: set<Id>): Net {
    Net(net.runners - ending,
        map s | s in net.table :: if net.table[s].Held? && net.table[s].id in ending then Foreign else net.table[s])
  }

  lemma HideKeepsConsistent(net: Net, ending: set<Id>)
    requires Consistent(net)
    ensures Consistent(Hide(net, ending))
  {
    var out := Hide(net, ending);
    forall id, s | id in out.runners && Needs(out.runners[id], s) ensures s in out.table && out.table[s] == Held(id) {
      assert net.table[s] == Held(id);
    }
  }

  lemma HideRemove(net: Net, ending: set<Id>, id: Id)
    requires id !in ending
    ensures Remove(Hide(net, ending), id) == Hide(Remove(net, id), ending)
  {
    var a, b := Remove(Hide(net, ending), id), Hide(Remove(net, id), ending);
    assert a.runners == b.runners;
    assert a.table == b.table;
  }

  lemma HideStart(net: Net, ending: set<Id>, f: Forward)
    requires f.id !in ending
    ensures Start(Hide(net, ending).table, f).Some? <==> Start(net.table, f).Some?
    ensures Start(net.table, f).Some? ==>
              Net(Hide(net, ending).runners[f.id := f], Start(Hide(net, ending).table, f).value)
              == Hide(Net(net.runners[f.id := f], Start(net.table, f).value), ending)
  {
    if Start(net.table, f).Some? {
      var a := Net(Hide(net, ending).runners[f.id := f], Start(Hide(net, ending).table, f).value);
      var b := Hide(Net(net.runners[f.id := f], Start(net.table, f).value), ending);
      assert a.runners == b.runners;
      assert a.table == b.table;
    }
  }

  /** Applying a forward does not see the difference. */
  lemma HideApply(net: Net, ending: set<Id>, f: Forward)
    requires Consistent(net) && f.id !in ending
    ensures Apply(Hide(net, ending), f) == (Hide(Apply(net, f).0, ending), Apply(net, f).1)
  {
    var stopped := Remove(net, f.id);
    HideRemove(net, ending, f.id);
    HideStart(stopped, ending, f);
    if f.id in net.runners { HideStart(stopped, ending, net.runners[f.id]); }
  }

  ghost predicate AllOutside(fs: seq<Forward>, ending: set<Id>) {
    forall f :: f in fs ==> f.id !in ending
  }

  lemma {:induction false} HideRemoveFrom(net: Net, ending: set<Id>, fs: seq<Forward>, k: nat)
    requires Consistent(net) && AllOutside(fs, ending) && k <= |fs|
    ensures RemoveFrom(Hide(net, ending), fs, k) == Hide(RemoveFrom(net, fs, k), ending)
    ensures Consistent(RemoveFrom(net, fs, k))
    decreases |fs| - k
  {
    if k < |fs| {
      RemoveKeepsConsistent(net, fs[k].id);
      HideRemove(net, ending, fs[k].id);
      HideRemoveFrom(Remove(net, fs[k].id), ending, fs, k + 1);
    }
  }

  lemma {:induction false} HideApplyFrom(net: Net, ending: set<Id>, fs: seq<Forward>, k: nat)
    requires Consistent(net) && AllOutside(fs, ending) && k <= |fs|
    ensures ApplyFrom(Hide(net, ending), fs, k) == (Hide(ApplyFrom(net, fs, k).0, ending), ApplyFrom(net, fs, k).1)
    ensures Consistent(ApplyFrom(net, fs, k).0)
    decreases |fs| - k
  {
    if k < |fs| {
      ApplyMeaning(net, fs[k]);
      HideApply(net, ending, fs[k]);
      if Apply(net, fs[k]).1 { HideApplyFrom(Apply(net, fs[k]).0, ending, fs, k + 1); }
    }
  }

  lemma {:induction false} HideStartFrom(net: Net, ending: set<Id>, fs: seq<Forward>, k: nat)
    requires Consistent(net) && AllOutside(fs, ending) && k <= |fs|
    ensures StartFrom(Hide(net, ending), fs, k) == Hide(StartFrom(net, fs, k), ending)
    ensures Consistent(StartFrom(net, fs, k))
    decreases |fs| - k
  {
    if k < |fs| {
      ApplyMeaning(net, fs[k]);
      HideApply(net, ending, fs[k]);
      HideStartFrom(Apply(net, fs[k]).0, ending, fs, k + 1);
    }
  }

  lemma {:induction false} HideRestoreFrom(net: Net, ending: set<Id>, applied: seq<Forward>, prevById: map<Id, Forward>, j: nat)
    requires Consistent(net) && AllOutside(applied, ending) && j <= |applied|
    requires forall id :: id in prevById ==> prevById[id].id == id && id !in ending
    ensures RestoreFrom(Hide(net, ending), applied, prevById, j) == Hide(RestoreFrom(net, applied, prevById, j), ending)
    ensures Consistent(RestoreFrom(net, applied, prevById, j))
    decreases |applied| - j
  {
    if j < |applied| {
      var id := applied[j].id;
      if id in prevById {
        ApplyMeaning(net, prevById[id]);
        HideApply(net, ending, prevById[id]);
        HideRestoreFrom(Apply(net, prevById[id]).0, ending, applied, prevById, j + 1);
      } else {
        RemoveKeepsConsistent(net, id);
        HideRemove(net, ending, id);
        HideRestoreFrom(Remove(net, id), ending, applied, prevById, j + 1);
      }
    }
  }

  /** Nor does switching a group, its rollback included. */
  lemma HideApplyGroup(net: Net, ending: set<Id>, next: seq<Forward>, prev: seq<Forward>)
    requires Consistent(net) && AllOutside(next, ending) && AllOutside(prev, ending) && DistinctIds(prev)
    ensures ApplyGroup(Hide(net, ending), next, prev) == (Hide(ApplyGroup(net, next, prev).0, ending), ApplyGroup(net, next, prev).1)
    ensures Consistent(ApplyGroup(net, next, prev).0)
  {
    var removed := Dropped(prev, Ids(next));
    DroppedMembers(prev, Ids(next));
    HideRemoveFrom(net, ending, removed, 0);
    var start := RemoveFrom(net, removed, 0);
    HideApplyFrom(start, ending, next, 0);
    var (after, k) := ApplyFrom(start, next, 0);
    forall id | id in ById(prev) ensures ById(prev)[id].id == id && id !in ending {
      ByIdFinds(prev, id);
    }
    HideRestoreFrom(after, ending, next[..k], ById(prev), 0);
    HideStartFrom(RestoreFrom(after, next[..k], ById(prev), 0), ending, removed, 0);
  }
}
