/** Moving a forward group from prev to next as one unit, with rollback:
    internal/server/tunnel.go:351-394. */
module GroupSwitch {
  import opened Forwards
  import opened Listeners

  // ----- the operation ------------------------------------------------------------

  function ById(fs: seq<Forward>): map<Id, Forward> {
    if fs == [] then map[] else ById(fs[..|fs| - 1])[fs[|fs| - 1].id := fs[|fs| - 1]]
  }

  /** The members of prev that next no longer has, in order. */
  function Dropped(prev: seq<Forward>, nextIds: set<Id>): seq<Forward> {
    if prev == [] then []
    else
      var rest := Dropped(prev[..|prev| - 1], nextIds);
      if prev[|prev| - 1].id in nextIds then rest else rest + [prev[|prev| - 1]]
  }

  function RemoveFrom(net: Net, fs: seq<Forward>, k: nat): Net
    requires k <= |fs|
    decreases |fs| - k
  {
    if k == |fs| then net else RemoveFrom(Remove(net, fs[k].id), fs, k + 1)
  }

  /** Applies next[k..] until one fails; the second result is its position, or |next|. */
  function ApplyFrom(net: Net, next: seq<Forward>, k: nat): (r: (Net, nat))
    requires k <= |next|
    ensures k <= r.1 <= |next|
    decreases |next| - k
  {
    if k == |next| then (net, k)
    else
      var (after, ok) := Apply(net, next[k]);
      if ok then ApplyFrom(after, next, k + 1) else (after, k)
  }

  /** First half of the rollback: undo what was applied. */
  function RestoreFrom(net: Net, applied: seq<Forward>, prevById: map<Id, Forward>, j: nat): Net
    requires j <= |applied|
    decreases |applied| - j
  {
    if j == |applied| then net
    else
      var id := applied[j].id;
      RestoreFrom(if id in prevById then Apply(net, prevById[id]).0 else Remove(net, id), applied, prevById, j + 1)
  }

  /** Second half of the rollback: start again what was dropped. */
  function StartFrom(net: Net, removed: seq<Forward>, r: nat): Net
    requires r <= |removed|
    decreases |removed| - r
  {
    if r == |removed| then net else StartFrom(Apply(net, removed[r]).0, removed, r + 1)
  }

  function ApplyGroup(net: Net, next: seq<Forward>, prev: seq<Forward>): (Net, bool) {
    var removed := Dropped(prev, Ids(next));
    var (after, k) := ApplyFrom(RemoveFrom(net, removed, 0), next, 0);
    if k == |next| then (after, true)
    else (StartFrom(RestoreFrom(after, next[..k], ById(prev), 0), removed, 0), false)
  }

  // ----- what the callers establish -------------------------------------------------

  ghost predicate NoClashById(m: map<Id, Forward>) {
    forall a, b :: a in m && b in m && a != b ==> !Clash(m[a], m[b])
  }

  /** The situation in which groups are switched: members do not clash among
      themselves, ids that stay keep their port and protocol, new ids are idle, the
      listeners of the old members are as recorded, and everyone else is out of the way. */
  ghost predicate GroupReady(net: Net, next: seq<Forward>, prev: seq<Forward>) {
    var x, p := ById(next), ById(prev);
    && Consistent(net)
    && DistinctIds(next) && DistinctIds(prev)
    && NoClashById(x) && NoClashById(p)
    && (forall id :: id in x && id in p ==> x[id].publicPort == p[id].publicPort && x[id].proto == p[id].proto)
    && (forall id :: id in p && id in net.runners ==> net.runners[id].Same(p[id]))
    && (forall id :: id in x && id !in p ==> id !in net.runners)
    && (forall id, o :: id in net.runners && id !in p && o in x ==> !Clash(net.runners[id], x[o]))
    && (forall id, o :: id in net.runners && id !in p && o in p ==> !Clash(net.runners[id], p[o]))
  }

  // ----- ById and Dropped ------------------------------------------------------------

  lemma {:induction false} ByIdFinds(fs: seq<Forward>, id: Id)
    ensures id in ById(fs) <==> id in Ids(fs)
    ensures id in ById(fs) ==> ById(fs)[id].id == id && ById(fs)[id] in fs
  {
    if fs != [] {
      var init := fs[..|fs| - 1];
      ByIdFinds(init, id);
      assert fs == init + [fs[|fs| - 1]];
      if id in Ids(init) {
        var i :| 0 <= i < |init| && init[i].id == id;
        assert fs[i].id == id;
      }
      if id in Ids(fs) && id != fs[|fs| - 1].id {
        var i :| 0 <= i < |fs| && fs[i].id == id;
        assert init[i].id == id;
      }
    }
  }

  lemma {:induction false} ByIdAt(fs: seq<Forward>, i: nat)
    requires DistinctIds(fs) && i < |fs|
    ensures fs[i].id in ById(fs) && ById(fs)[fs[i].id] == fs[i]
  {
    if i < |fs| - 1 {
      ByIdAt(fs[..|fs| - 1], i);
      assert fs[i].id != fs[|fs| - 1].id;
    }
  }

  lemma ByIdGrows(fs: seq<Forward>, k: nat)
    requires k < |fs|
    ensures ById(fs[..k + 1]) == ById(fs[..k])[fs[k].id := fs[k]]
  {
    assert fs[..k + 1][..k] == fs[..k];
  }

  lemma {:induction false} PrefixById(fs: seq<Forward>, k: nat, id: Id)
    requires DistinctIds(fs) && k <= |fs|
    ensures id in ById(fs[..k]) ==> id in ById(fs) && ById(fs[..k])[id] == ById(fs)[id]
    ensures k < |fs| ==> fs[k].id !in ById(fs[..k])
  {
    ByIdFinds(fs[..k], id);
    if id in ById(fs[..k]) {
      var f := ById(fs[..k])[id];
      assert f in fs[..k];
      var i :| 0 <= i < k && fs[..k][i] == f;
      ByIdAt(fs, i);
    }
    if k < |fs| {
      ByIdFinds(fs[..k], fs[k].id);
      assert forall i :: 0 <= i < k ==> fs[..k][i] == fs[i];
    }
  }

  lemma {:induction false} DroppedMembers(prev: seq<Forward>, nextIds: set<Id>)
    requires DistinctIds(prev)
    ensures DistinctIds(Dropped(prev, nextIds))
    ensures forall f :: f in Dropped(prev, nextIds) <==> f in prev && f.id !in nextIds
  {
    if prev != [] {
      var init, last := prev[..|prev| - 1], prev[|prev| - 1];
      DroppedMembers(init, nextIds);
      assert prev == init + [last];
      var rest := Dropped(init, nextIds);
      forall i | 0 <= i < |rest| ensures rest[i].id != last.id {
        assert rest[i] in init;
        var j :| 0 <= j < |init| && init[j] == rest[i];
        assert prev[j].id != last.id;
      }
    }
  }

  /** A dropped member is the old member with its id, and no member of next. */
  lemma DroppedById(next: seq<Forward>, prev: seq<Forward>)
    requires DistinctIds(prev)
    ensures
      var d := ById(Dropped(prev, Ids(next)));
      forall id :: id in d <==> id in ById(prev) && id !in ById(next)
    ensures
      var d := ById(Dropped(prev, Ids(next)));
      forall id :: id in d ==> d[id] == ById(prev)[id]
  {
    var removed := Dropped(prev, Ids(next));
    var d, p := ById(removed), ById(prev);
    DroppedMembers(prev, Ids(next));
    forall id
      ensures id in d <==> id in p && id !in ById(next)
      ensures id in d ==> d[id] == p[id]
    {
      ByIdFinds(removed, id);
      ByIdFinds(prev, id);
      ByIdFinds(next, id);
      if id in d {
        var i :| 0 <= i < |prev| && prev[i] == d[id];
        ByIdAt(prev, i);
      }
      if id in p && id !in ById(next) {
        assert p[id] in removed;
        var i :| 0 <= i < |removed| && removed[i] == p[id];
        ByIdAt(removed, i);
      }
    }
  }
}
