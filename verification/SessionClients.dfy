/** Shown sessions and stored clients: internal/server/tunnel.go:186-213 and
    internal/server/api.go:506-547. A connection looks its client up in the store before it
    enters the session table; deleting the client disconnects it after leaving the store. */
module SessionClients {
  import opened Forwards
  import opened Sessions

  /** clients: the stored clients; used: all that ever were, as identifiers do not come back;
      found: connections that have found their client and not entered the table yet;
      leaving: deleted clients whose disconnect is still to come; late: sessions entered when
      their client was no longer stored. */
  datatype World = World(sessions: State, clients: set<Id>, used: set<Id>, found: set<Session>, leaving: set<Id>, late: set<Session>)

  const EMPTY_WORLD: World := World(EMPTY, {}, {}, {}, {}, {})

  datatype Event =
    | CreateClient(client: Id)
    | Find(s: Session)              // handleConn, in the store
    | Enter(s: Session)             // handleConn, in the session table
    | DeleteClient(client: Id)      // handleDeleteClient, in the store
    | DisconnectDeleted(client: Id) // handleDeleteClient, in the session table
    | Other(step: Step)             // drops, closes, and disconnects for other reasons

  ghost predicate Possible(w: World, e: Event) {
    match e
    case CreateClient(c) => c !in w.used
    case Find(s) => s.client in w.clients && s !in w.found && s !in w.sessions.registered
    case Enter(s) => s in w.found
    case DeleteClient(c) => c in w.clients
    case DisconnectDeleted(c) => c in w.leaving
    case Other(step) => !step.Register? && Enabled(w.sessions, step)
  }

  function After(w: World, e: Event): World {
    match e
    case CreateClient(c) => w.(clients := w.clients + {c}, used := w.used + {c})
    case Find(s) => w.(found := w.found + {s})
    case Enter(s) =>
      w.(sessions := Take(w.sessions, Register(s)), found := w.found - {s},
         late := w.late + if s.client in w.clients then {} else {s})
    case DeleteClient(c) => w.(clients := w.clients - {c}, leaving := w.leaving + {c})
    case DisconnectDeleted(c) => w.(sessions := Take(w.sessions, Disconnect(c)), leaving := w.leaving - {c})
    case Other(step) => w.(sessions := Take(w.sessions, step))
  }

  /** Outside the moment between a deletion and its disconnect, a session is shown for a
      client that is not stored exactly when it was entered late. */
  ghost predicate ShownIsStored(w: World) {
    forall c :: c in w.sessions.table && c !in w.leaving ==> (c in w.clients <==> w.sessions.table[c] !in w.late)
  }

  ghost predicate Sound(w: World) {
    && Inv(w.sessions) && w.clients <= w.used && w.leaving <= w.used && w.clients !! w.leaving
    && (forall s :: s in w.found ==> s.client in w.used && s !in w.sessions.registered)
    && (forall s :: s in w.late ==> s.client in w.used && s.client !in w.clients)
    && (forall c :: c in w.sessions.table ==> c in w.used && (c in w.clients || c in w.leaving || w.sessions.table[c] in w.late))
  }

  lemma SoundIsShown(w: World)
    requires Sound(w)
    ensures ShownIsStored(w)
  {
    forall c | c in w.sessions.table ensures w.sessions.table[c].client == c {
    }
  }

  /** No step but an entry puts anything into the table. */
  lemma TableOnlyShrinks(st: State, step: Step)
    requires !step.Register?
    ensures forall c :: c in Take(st, step).table ==> c in st.table && Take(st, step).table[c] == st.table[c]
    ensures Take(st, step).registered == st.registered
  {
  }

  lemma EnterKeepsSound(w: World, s: Session)
    requires Sound(w) && s in w.found
    ensures Sound(After(w, Enter(s)))
  {
    TakeKeepsInv(w.sessions, Register(s));
  }

  lemma ShrinkKeepsSound(w: World, step: Step)
    requires Sound(w) && !step.Register? && Enabled(w.sessions, step)
    ensures Sound(w.(sessions := Take(w.sessions, step)))
  {
    TakeKeepsInv(w.sessions, step);
    TableOnlyShrinks(w.sessions, step);
  }

  lemma DisconnectKeepsSound(w: World, c: Id)
    requires Sound(w) && c in w.leaving
    ensures Sound(After(w, DisconnectDeleted(c)))
  {
    ShrinkKeepsSound(w, Disconnect(c));
    TakenOut(w.sessions, c);
  }

  lemma EventKeepsSound(w: World, e: Event)
    requires Sound(w) && Possible(w, e)
    ensures Sound(After(w, e))
  {
    match e
    case Enter(s) => EnterKeepsSound(w, s);
    case DisconnectDeleted(c) => DisconnectKeepsSound(w, c);
    case Other(step) => ShrinkKeepsSound(w, step);
    case _ =>
  }

  ghost predicate IsHistory(worlds: seq<World>, events: seq<Event>) {
    && |worlds| == |events| + 1 && worlds[0] == EMPTY_WORLD
    && forall i :: 0 <= i < |events| ==> Possible(worlds[i], events[i]) && worlds[i + 1] == After(worlds[i], events[i])
  }

  /** Under every interleaving of connections, deletions and disconnects. */
  lemma {:induction false} ShownSessionsBelongToStoredClients(worlds: seq<World>, events: seq<Event>, i: nat)
    requires IsHistory(worlds, events) && i < |worlds|
    ensures Sound(worlds[i]) && ShownIsStored(worlds[i])
  {
    if i > 0 {
      ShownSessionsBelongToStoredClients(worlds, events, i - 1);
      EventKeepsSound(worlds[i - 1], events[i - 1]);
    }
    SoundIsShown(worlds[i]);
  }

  /** A client is deleted and disconnected between the look-up of a connection and its entry:
      the session is shown although its client is gone and nothing will disconnect it. */
  lemma DeletedClientStaysShown(c: Id) returns (worlds: seq<World>, events: seq<Event>)
    ensures IsHistory(worlds, events) && |events| == 5
    ensures c in worlds[5].sessions.table && c !in worlds[5].clients && worlds[5].leaving == {} && worlds[5].sessions.ending == {}
  {
    var s := Session(c, 0);
    events := [CreateClient(c), Find(s), DeleteClient(c), DisconnectDeleted(c), Enter(s)];
    var w1 := After(EMPTY_WORLD, events[0]);
    var w2 := After(w1, events[1]);
    var w3 := After(w2, events[2]);
    var w4 := After(w3, events[3]);
    worlds := [EMPTY_WORLD, w1, w2, w3, w4, After(w4, events[4])];
  }
}
