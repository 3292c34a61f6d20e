/** The stored document, its lookups and the invariant every request keeps.
    internal/store/store.go:284-361, 384-435 and internal/server/api.go:707-715 */
module Store {
  import opened Protocols
  import opened Seqs
  import opened Sorting
  import opened PortSpec
  import opened Text
  import opened Forwards
  import opened Listeners

  /** The server's own ports. */
  datatype Config = Config(tunnelPort: int, adminPort: int)

  /** Clients are known by id; `net` is the live side: runners and bound ports. */
  datatype State = State(clients: seq<Id>, forwards: seq<Forward>, net: Net)

  /** Classes of request errors: ErrValidation, ErrConflict and ErrNotFound. */
  datatype Failure = Validation | Conflict | NotFound

  /** The id of nothing: the empty text. No client or forward has it. */
  const NO_ID: Id := 0

  predicate Reserved(cfg: Config, port: int) {
    port == cfg.tunnelPort || port == cfg.adminPort
  }

  predicate Valid(f: Forward) {
    && ValidName(f.name) && f.proto != Unknown
    && InRange(f.publicPort) && InRange(f.targetPort)
    && ValidHost(f.targetHost)
  }

  /** PortConflict: another forward uses the port with a transport in common. */
  predicate PortConflict(fs: seq<Forward>, f: Forward) {
    exists o :: o in fs && o.id != f.id && Clash(f, o)
  }

  /** groupPortConflict: the same, ignoring the members of a group. */
  predicate GroupPortConflict(fs: seq<Forward>, groupId: Id, f: Forward) {
    exists o :: o in fs && o.groupId != groupId && Clash(f, o)
  }

  function ForwardKey(f: Forward): int { 4 * f.publicPort + Rank(f.proto) }

  function InGroup(groupId: Id): Forward -> bool {
    (f: Forward) => f.groupId == groupId
  }

  /** The members of a group, sorted by port. */
  function ForwardsInGroup(fs: seq<Forward>, groupId: Id): seq<Forward> {
    SortBy(Filter(fs, InGroup(groupId)), ForwardKey)
  }

  // ----- the invariant --------------------------------------------------------------

  predicate NoSharedPorts(fs: seq<Forward>) {
    forall f, o :: f in fs && o in fs && f.id != o.id ==> !Clash(f, o)
  }

  predicate AllStorable(cfg: Config, fs: seq<Forward>) {
    forall f :: f in fs ==> Valid(f) && !Reserved(cfg, f.publicPort) && f.id != NO_ID
  }

  predicate ClientsExist(clients: seq<Id>, fs: seq<Forward>) {
    NO_ID !in clients && forall f :: f in fs ==> f.clientId in clients
  }

  predicate GroupsCoherent(fs: seq<Forward>) {
    forall f, o :: f in fs && o in fs && f.groupId == o.groupId ==> f.clientId == o.clientId
  }

  ghost predicate GroupsSmall(fs: seq<Forward>) {
    forall g :: |Filter(fs, InGroup(g))| <= MAX_GROUP_PORTS
  }

  /** Every runner belongs to a stored, enabled forward and serves it as stored. */
  ghost predicate Agrees(net: Net, fs: seq<Forward>) {
    forall id :: id in net.runners ==> exists f :: f in fs && f.id == id && f.enabled && net.runners[id].Same(f)
  }

  ghost predicate StoreInv(cfg: Config, clients: seq<Id>, fs: seq<Forward>) {
    && DistinctIds(fs) && NoSharedPorts(fs) && AllStorable(cfg, fs)
    && ClientsExist(clients, fs) && GroupsCoherent(fs) && GroupsSmall(fs)
  }

  /** What holds between any two requests. */
  ghost predicate Inv(cfg: Config, st: State) {
    && StoreInv(cfg, st.clients, st.forwards)
    && Consistent(st.net) && Agrees(st.net, st.forwards)
  }

  // ----- consequences -----------------------------------------------------------------

  lemma IdIsIdentity(fs: seq<Forward>, f: Forward, o: Forward)
    requires DistinctIds(fs) && f in fs && o in fs && f.id == o.id
    ensures f == o
  {
    var i :| 0 <= i < |fs| && fs[i] == f;
    var j :| 0 <= j < |fs| && fs[j] == o;
  }

  lemma GroupMembers(fs: seq<Forward>, groupId: Id)
    ensures forall f :: f in ForwardsInGroup(fs, groupId) <==> f in fs && f.groupId == groupId
    ensures |ForwardsInGroup(fs, groupId)| == |Filter(fs, InGroup(groupId))|
  {
    var members := Filter(fs, InGroup(groupId));
    FilterMembers(fs, InGroup(groupId));
    SortRearranges(members, ForwardKey);
    forall f ensures f in ForwardsInGroup(fs, groupId) <==> f in members {
      assert f in ForwardsInGroup(fs, groupId) <==> f in multiset(members);
    }
  }

  lemma {:induction false} FilterDistinctIds(fs: seq<Forward>, keep: Forward -> bool)
    requires DistinctIds(fs)
    ensures DistinctIds(Filter(fs, keep))
  {
    if fs != [] {
      var init, last := fs[..|fs| - 1], fs[|fs| - 1];
      FilterDistinctIds(init, keep);
      FilterMembers(init, keep);
      var rest := Filter(init, keep);
      forall i | 0 <= i < |rest| ensures rest[i].id != last.id {
        assert rest[i] in init;
        var j :| 0 <= j < |init| && init[j] == rest[i];
        assert fs[j].id != last.id;
      }
    }
  }

  /** Two forwards of a stored list with the same id are the same list element. */
  lemma DistinctIdsOfPermutation(a: seq<Forward>, b: seq<Forward>)
    requires multiset(a) == multiset(b) && DistinctIds(a)
    ensures DistinctIds(b)
  {
    var key := (f: Forward) => f.id as int;
    assert DistinctKeys(a, key);
    DistinctKeysOfPermutation(a, b, key);
    forall i, j | 0 <= i < j < |b| ensures b[i].id != b[j].id {
      assert key(b[i]) != key(b[j]);
    }
  }

  lemma GroupHasDistinctIds(fs: seq<Forward>, groupId: Id)
    requires DistinctIds(fs)
    ensures DistinctIds(ForwardsInGroup(fs, groupId))
  {
    var members := Filter(fs, InGroup(groupId));
    FilterDistinctIds(fs, InGroup(groupId));
    SortRearranges(members, ForwardKey);
    DistinctIdsOfPermutation(members, ForwardsInGroup(fs, groupId));
  }

  /** Stored forwards never compete for a socket: no port and transport is bound by two
      runners, and each runner's sockets are its own. */
  lemma RunnersShareNoSocket(cfg: Config, st: State, a: Id, b: Id, s: Socket)
    requires Inv(cfg, st) && a in st.net.runners && b in st.net.runners && a != b
    ensures !(Needs(st.net.runners[a], s) && Needs(st.net.runners[b], s))
    ensures Needs(st.net.runners[a], s) ==> s in st.net.table && st.net.table[s] == Held(a)
  {
    if Needs(st.net.runners[a], s) { HoldsItsSockets(st.net, a, s); }
    if Needs(st.net.runners[b], s) { HoldsItsSockets(st.net, b, s); }
  }

  lemma HoldsItsSockets(net: Net, id: Id, s: Socket)
    requires Consistent(net) && id in net.runners && Needs(net.runners[id], s)
    ensures s in net.table && net.table[s] == Held(id)
  {
  }

  // ----- removing forwards -------------------------------------------------------------

  lemma FilterKeepsStoreInv(cfg: Config, clients: seq<Id>, fs: seq<Forward>, keep: Forward -> bool)
    requires StoreInv(cfg, clients, fs)
    ensures StoreInv(cfg, clients, Filter(fs, keep))
  {
    FilterMembers(fs, keep);
    FilterDistinctIds(fs, keep);
    forall g ensures |Filter(Filter(fs, keep), InGroup(g))| <= MAX_GROUP_PORTS {
      FilterTwice(fs, keep, InGroup(g));
    }
  }
}
