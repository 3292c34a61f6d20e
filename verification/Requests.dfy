/** What the requests ask for and when they can be met, in words of their own: field by field
    and character by character, without the functions that compute it. */
module Requests {
  import opened Basics
  import opened Protocols
  import Decimal
  import Grammar
  import opened Rendering
  import opened Text
  import opened Forwards
  import opened Listeners
  import opened Store
  import opened Groups
  import opened Api

  // ----- forwards that can be stored --------------------------------------------------

  ghost predicate Sensible(f: Forward) {
    && GoodName(f.name) && GoodHost(f.targetHost)
    && (f.proto == Tcp || f.proto == Udp || f.proto == Both)
    && 1 <= f.publicPort <= 65535 && 1 <= f.targetPort <= 65535
  }

  ghost predicate OnOwnPort(cfg: Config, f: Forward) {
    f.publicPort == cfg.tunnelPort || f.publicPort == cfg.adminPort
  }

  /** The sockets on which a forward listens while it is enabled. */
  ghost predicate ListensOn(f: Forward, s: Socket) {
    && s.port == f.publicPort
    && if s.transport == TCP then f.proto == Tcp || f.proto == Both else f.proto == Udp || f.proto == Both
  }

  ghost predicate Compete(a: Forward, b: Forward) {
    exists s :: ListensOn(a, s) && ListensOn(b, s)
  }

  /** Another process has a socket on which the forward is to listen. */
  ghost predicate TakenElsewhere(table: map<Socket, Owner>, f: Forward) {
    f.enabled && exists s :: ListensOn(f, s) && s in table && table[s] == Foreign
  }

  lemma SensibleMeaning(f: Forward)
    ensures Valid(f) <==> Sensible(f)
  {
    NameMeaning(f.name);
    HostMeaning(f.targetHost);
  }

  lemma ListensMeaning(f: Forward, s: Socket)
    ensures Needs(f, s) <==> ListensOn(f, s)
  {
  }

  lemma CompeteMeaning(a: Forward, b: Forward)
    ensures Clash(a, b) <==> Compete(a, b)
  {
    ClashIsSharedSocket(a, b);
    if s :| Needs(a, s) && Needs(b, s) {
      assert ListensOn(a, s) && ListensOn(b, s);
    }
    if s :| ListensOn(a, s) && ListensOn(b, s) {
      assert Needs(a, s) && Needs(b, s);
    }
  }

  lemma TakenMeaning(table: map<Socket, Owner>, f: Forward)
    ensures f.enabled && ForeignOn(table, f) <==> TakenElsewhere(table, f)
  {
    if f.enabled && ForeignOn(table, f) {
      var s := if f.HasTCP() && TakenByOthers(table, TcpSocket(f)) then TcpSocket(f) else UdpSocket(f);
      assert ListensOn(f, s);
    }
  }

  // ----- what a request asks for -------------------------------------------------------

  ghost predicate Given<T>(o: Option<T>, was: T, now: T) {
    match o
    case Some(value) => now == value
    case None => now == was
  }

  ghost predicate GivenText(o: Option<string>, was: string, now: string) {
    match o
    case Some(raw) => Trimmed(raw, now)
    case None => now == was
  }

  /** Protocols are named in capital or small letters. */
  ghost predicate GivenProtocol(o: Option<string>, was: string, now: string) {
    match o
    case Some(raw) => exists t :: Trimmed(raw, t) && Grammar.Lowered(t, now)
    case None => now == was
  }

  /** An edit changes the fields that the request has, and the time. */
  ghost predicate Edited(inp: ForwardInput, was: Forward, now: int, f: Forward) {
    && f.id == was.id && f.groupId == was.groupId && f.createdAt == was.createdAt && f.updatedAt == now
    && Given(inp.clientId, was.clientId, f.clientId)
    && GivenText(inp.name, was.name, f.name)
    && (if inp.protocol.Some? then exists text :: GivenProtocol(inp.protocol, "", text) && Named(f.proto, text)
        else f.proto == was.proto)
    && Given(inp.publicPort, was.publicPort, f.publicPort)
    && GivenText(inp.targetHost, was.targetHost, f.targetHost)
    && Given(inp.targetPort, was.targetPort, f.targetPort)
    && Given(inp.enabled, was.enabled, f.enabled)
  }

  /** A new forward is a group of its own. Without a protocol it is tcp, without a host it
      goes to the client itself, without one of the ports this is the other one, and without
      a name it is called by its protocol and port. */
  ghost predicate Created(inp: ForwardInput, id: Id, now: int, f: Forward) {
    && f.id == id && f.groupId == id && f.createdAt == now && f.updatedAt == now
    && Given(inp.clientId, NO_ID, f.clientId)
    && (if inp.protocol.Some? then exists text :: GivenProtocol(inp.protocol, "", text) && Named(f.proto, text)
        else f.proto == Tcp)
    && GivenText(inp.targetHost, "127.0.0.1", f.targetHost)
    && Given(inp.publicPort, if inp.targetPort.Some? then inp.targetPort.value else 0, f.publicPort)
    && Given(inp.targetPort, if inp.publicPort.Some? then inp.publicPort.value else 0, f.targetPort)
    && Given(inp.enabled, true, f.enabled)
    && exists name :: GivenText(inp.name, "", name)
         && if name != "" then f.name == name
            else f.proto != Unknown ==>
                   exists p, n :: Named(f.proto, p) && n == Decimal.Itoa(f.publicPort) && f.name == p + "-" + n
  }

  ghost predicate GroupEdited(inp: GroupInput, was: GroupFields, g: GroupFields) {
    && Given(inp.clientId, was.clientId, g.clientId)
    && GivenText(inp.name, was.name, g.name)
    && GivenProtocol(inp.protocol, was.protocol, g.protocol)
    && Given(inp.ports, was.ports, g.ports)
    && GivenText(inp.targetHost, was.targetHost, g.targetHost)
    && Given(inp.enabled, was.enabled, g.enabled)
  }

  lemma TextMeaning(o: Option<string>, was: string)
    ensures GivenText(o, was, OrTrimmed(o, was))
  {
    if o.Some? { TrimMeaning(o.value, Trim(o.value)); }
  }

  lemma ProtocolMeaning(raw: string)
    ensures GivenProtocol(Some(raw), "", Grammar.Lower(Trim(raw)))
  {
    TrimMeaning(raw, Trim(raw));
    Grammar.LowerMeaning(Trim(raw), Grammar.Lower(Trim(raw)));
  }

  lemma EditMeaning(inp: ForwardInput, was: Forward, now: int)
    ensures Edited(inp, was, now, ApplyForwardInput(inp, was).(updatedAt := now))
  {
    TextMeaning(inp.name, was.name);
    TextMeaning(inp.targetHost, was.targetHost);
    if inp.protocol.Some? {
      var text := Grammar.Lower(Trim(inp.protocol.value));
      ProtocolMeaning(inp.protocol.value);
      ProtoMeaning(ProtoOf(text), text);
    }
  }

  lemma CreateMeaning(inp: ForwardInput, id: Id, now: int)
    ensures Created(inp, id, now, NewForward(inp, id, now))
  {
    var base := Forward(id, NO_ID, id, "", Tcp, 0, "127.0.0.1", 0, true, now, now);
    var f := NewForward(inp, id, now);
    EditMeaning(inp, base, now);
    TextMeaning(inp.name, "");
    if f.proto != Unknown { ProtoMeaning(f.proto, ProtoText(f.proto)); }
  }

  lemma GroupEditMeaning(inp: GroupInput, was: GroupFields)
    ensures GroupEdited(inp, was, ApplyGroupInput(inp, was))
  {
    TextMeaning(inp.name, was.name);
    TextMeaning(inp.targetHost, was.targetHost);
    if inp.protocol.Some? { ProtocolMeaning(inp.protocol.value); }
  }
}
