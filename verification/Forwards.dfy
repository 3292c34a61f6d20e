/** Port forwards and the sockets they listen on: internal/store/store.go:63-94, 425-435. */
module Forwards {
  import opened Protocols

  /** An identifier: six random bytes, written in hexadecimal by the source. */
  type Id = nat

  datatype Forward = Forward(
    id: Id,
    clientId: Id,
    groupId: Id,
    name: string,
    proto: Proto,
    publicPort: int,
    targetHost: string,
    targetPort: int,
    enabled: bool,
    createdAt: int,
    updatedAt: int
  ) {
    predicate HasTCP() { HasTcp(proto) }

    predicate HasUDP() { HasUdp(proto) }

    /** Both forwards would produce identical listeners. */
    predicate Same(o: Forward) {
      && clientId == o.clientId && proto == o.proto && publicPort == o.publicPort
      && targetHost == o.targetHost && targetPort == o.targetPort && enabled == o.enabled
    }
  }

  datatype Transport = TCP | UDP

  datatype Socket = Socket(port: int, transport: Transport)

  /** The listeners a running forward holds. */
  predicate Needs(f: Forward, s: Socket) {
    s.port == f.publicPort && match s.transport case TCP => f.HasTCP() case UDP => f.HasUDP()
  }

  function TcpSocket(f: Forward): Socket { Socket(f.publicPort, TCP) }

  function UdpSocket(f: Forward): Socket { Socket(f.publicPort, UDP) }

  /** Same port, and a transport in common. */
  predicate Clash(a: Forward, b: Forward) {
    && a.publicPort == b.publicPort
    && ((a.HasTCP() && b.HasTCP()) || (a.HasUDP() && b.HasUDP()))
  }

  lemma ClashIsSharedSocket(a: Forward, b: Forward)
    ensures Clash(a, b) <==> exists s :: Needs(a, s) && Needs(b, s)
  {
    if Clash(a, b) {
      var s := if a.HasTCP() && b.HasTCP() then TcpSocket(a) else UdpSocket(a);
      assert Needs(a, s) && Needs(b, s);
    }
  }

  predicate DistinctIds(fs: seq<Forward>) {
    forall i, j :: 0 <= i < j < |fs| ==> fs[i].id != fs[j].id
  }

  predicate NoClash(fs: seq<Forward>) {
    forall i, j :: 0 <= i < j < |fs| ==> !Clash(fs[i], fs[j])
  }

  function Ids(fs: seq<Forward>): set<Id> {
    set i | 0 <= i < |fs| :: fs[i].id
  }
}
