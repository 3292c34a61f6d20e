/** The table of connected clients when connections come and go at the same time:
    internal/server/tunnel.go:205-213, 248-254, 289-298. Each step is one critical
    section or one close outside it. */
module Sessions {
  import opened Basics
  import opened Forwards

  datatype Session = Session(client: Id, number: nat)

  /** table: Tunnel.sessions; registered: every session ever entered, oldest first;
      open: connections not closed yet; ending: sessions taken out of the table whose
      close is still to come; gone: sessions that were dropped or disconnected. */
  datatype State = State(table: map<Id, Session>, registered: seq<Session>, open: set<Session>,
                         ending: set<Session>, gone: set<Session>)

  const EMPTY: State := State(map[], [], {}, {}, {})

  datatype Step =
    | Register(s: Session)      // handleConn enters the session and closes the one it replaces;
                                // SessionClients adds the look-up of the client before it
    | Drop(s: Session)          // dropSession, under the lock
    | Disconnect(client: Id)    // DisconnectClient, under the lock
    | Close(s: Session)         // the close that follows either of them

  ghost predicate Enabled(st: State, step: Step) {
    match step
    case Register(s) => s !in st.registered
    case Drop(s) => s in st.registered
    case Disconnect(_) => true
    case Close(s) => s in st.ending
  }

  function Take(st: State, step: Step): State {
    match step
    case Register(s) =>
      var closed := if s.client in st.table then {st.table[s.client]} else {};
      State(st.table[s.client := s], st.registered + [s], st.open - closed + {s}, st.ending, st.gone)
    case Drop(s) =>
      var table := if s.client in st.table && st.table[s.client] == s then st.table - {s.client} else st.table;
      State(table, st.registered, st.open, st.ending + {s}, st.gone + {s})
    case Disconnect(c) =>
      if c in st.table then State(st.table - {c}, st.registered, st.open, st.ending + {st.table[c]}, st.gone + {st.table[c]})
      else st
    case Close(s) => st.(open := st.open - {s}, ending := st.ending - {s})
  }

  /** The newest session of a client is the last one registered for it. */
  predicate IsNewest(registered: seq<Session>, s: Session) {
    exists i :: 0 <= i < |registered| && registered[i] == s
                && forall j :: i < j < |registered| ==> registered[j].client != s.client
  }

  /** The table shows a client's newest session until that very session is dropped or
      disconnected, and never another one. */
  ghost predicate ShowsNewest(st: State) {
    && (forall c :: c in st.table ==>
          st.table[c].client == c && IsNewest(st.registered, st.table[c]) && st.table[c] !in st.gone)
    && (forall s :: s in st.registered && IsNewest(st.registered, s) && s !in st.gone ==>
          s.client in st.table && st.table[s.client] == s)
  }

  /** No connection leaks: what is open is shown or about to be closed. */
  ghost predicate NoLeak(st: State) {
    && (forall s :: s in st.open ==> s in st.ending || (s.client in st.table && st.table[s.client] == s))
    && (forall c :: c in st.table ==> st.table[c] in st.open)
    && st.ending <= st.gone
    && (forall s :: s in st.gone || s in st.open ==> s in st.registered)
  }

  ghost predicate DistinctSessions(st: State) {
    forall i, j :: 0 <= i < j < |st.registered| ==> st.registered[i] != st.registered[j]
  }

  ghost predicate Inv(st: State) {
    ShowsNewest(st) && NoLeak(st) && DistinctSessions(st)
  }

  lemma NewestAfter(registered: seq<Session>, s: Session, o: Session)
    requires s !in registered
    ensures IsNewest(registered + [s], s)
    ensures o != s ==> (IsNewest(registered + [s], o) <==> IsNewest(registered, o) && o.client != s.client)
  {
    var more := registered + [s];
    assert more[|registered|] == s;
    if o != s && IsNewest(more, o) {
      var i :| 0 <= i < |more| && more[i] == o && forall j :: i < j < |more| ==> more[j].client != o.client;
      assert i < |registered| && registered[i] == o;
      forall j | i < j < |registered| ensures registered[j].client != o.client {
        assert more[j] == registered[j];
      }
    }
    if o != s && IsNewest(registered, o) && o.client != s.client {
      var i :| 0 <= i < |registered| && registered[i] == o && forall j :: i < j < |registered| ==> registered[j].client != o.client;
      assert more[i] == o;
    }
  }

  /** Two sessions of one client cannot both be the newest. */
  lemma NewestIsUnique(registered: seq<Session>, a: Session, b: Session)
    requires IsNewest(registered, a) && IsNewest(registered, b) && a.client == b.client
    ensures a == b
  {
  }

  lemma RegisterShowsNewest(st: State, s: Session)
    requires ShowsNewest(st) && NoLeak(st) && s !in st.registered
    ensures ShowsNewest(Take(st, Register(s)))
  {
    var after := Take(st, Register(s));
    NewestAfter(st.registered, s, s);
    assert s !in st.gone;
    forall c | c in after.table
      ensures after.table[c].client == c && IsNewest(after.registered, after.table[c]) && after.table[c] !in after.gone
    {
      if c != s.client { NewestAfter(st.registered, s, st.table[c]); }
    }
    forall o | o in after.registered && IsNewest(after.registered, o) && o !in after.gone
      ensures o.client in after.table && after.table[o.client] == o
    {
      NewestAfter(st.registered, s, o);
      assert o != s ==> o in st.registered;
    }
  }

  lemma RegisterKeepsInv(st: State, s: Session)
    requires Inv(st) && s !in st.registered
    ensures Inv(Take(st, Register(s)))
  {
    var after := Take(st, Register(s));
    RegisterShowsNewest(st, s);
    RegisterDoesNotLeak(st, s);
    forall i, j | 0 <= i < j < |after.registered| ensures after.registered[i] != after.registered[j] {
      if j == |st.registered| {
        assert after.registered[i] == st.registered[i];
      }
    }
  }

  lemma RegisterDoesNotLeak(st: State, s: Session)
    requires ShowsNewest(st) && NoLeak(st) && s !in st.registered
    ensures NoLeak(Take(st, Register(s)))
  {
  }

  lemma DropKeepsInv(st: State, s: Session)
    requires Inv(st) && s in st.registered
    ensures Inv(Take(st, Drop(s)))
  {
  }

  lemma DisconnectKeepsInv(st: State, c: Id)
    requires Inv(st)
    ensures Inv(Take(st, Disconnect(c)))
  {
    if c in st.table {
      var s := st.table[c];
      assert s in st.registered;
      forall o | o in st.registered && IsNewest(st.registered, o) && o.client == c ensures o == s {
        NewestIsUnique(st.registered, o, s);
      }
    }
  }

  lemma TakeKeepsInv(st: State, step: Step)
    requires Inv(st) && Enabled(st, step)
    ensures Inv(Take(st, step))
  {
    match step
    case Register(s) => RegisterKeepsInv(st, s);
    case Drop(s) => DropKeepsInv(st, s);
    case Disconnect(c) => DisconnectKeepsInv(st, c);
    case Close(s) =>
  }

  ghost predicate IsRun(states: seq<State>, steps: seq<Step>) {
    && |states| == |steps| + 1 && states[0] == EMPTY
    && forall i :: 0 <= i < |steps| ==> Enabled(states[i], steps[i]) && states[i + 1] == Take(states[i], steps[i])
  }

  /** Under every interleaving of connections, drops, disconnects and late closes: a
      client is shown as connected through its newest session exactly as long as that
      session has been neither dropped nor disconnected. */
  lemma {:induction false} EveryInterleavingShowsNewest(states: seq<State>, steps: seq<Step>, i: nat)
    requires IsRun(states, steps) && i < |states|
    ensures Inv(states[i])
  {
    if i > 0 {
      EveryInterleavingShowsNewest(states, steps, i - 1);
      TakeKeepsInv(states[i - 1], steps[i - 1]);
    }
  }

  /** A late drop of a session that has been replaced does not touch its successor. */
  lemma LateDropIsHarmless(st: State, s: Session)
    requires Inv(st) && s in st.registered && !IsNewest(st.registered, s)
    ensures Take(st, Drop(s)).table == st.table
  {
  }

  lemma LateDropSparesOthers(st: State, s: Session)
    requires Inv(st)
    ensures forall c :: c in st.table && st.table[c] != s ==>
              c in Take(st, Drop(s)).table && Take(st, Drop(s)).table[c] == st.table[c]
  {
  }

  lemma TableHasItsClients(st: State, c: Id)
    requires Inv(st) && c in st.table
    ensures st.table[c].client == c
  {
  }

  lemma TakenOut(st: State, c: Id)
    ensures Take(st, Disconnect(c)).table == st.table - {c}
    ensures c in st.table ==> st.table[c] in Take(st, Disconnect(c)).ending
  {
  }

  /** Tunnel.sessions with its three critical sections; the close of a connection that is
      taken out follows outside the lock. */
  class SessionTable {
    var sessions: map<Id, Session>
    ghost var past: State

    ghost predicate Valid()
      reads this
    {
      past.table == sessions && Inv(past)
    }

    constructor ()
      ensures Valid() && past == EMPTY
    {
      sessions := map[];
      past := EMPTY;
    }

    /** Part of handleConn: enters a session; the one it replaces is closed at once. */
    method Enter(s: Session) returns (replaced: Option<Session>)
      requires Valid() && s !in past.registered
      modifies this
      ensures Valid() && past == Take(old(past), Register(s))
      ensures replaced.None? ==> s.client !in old(sessions)
      ensures replaced.Some? ==> replaced.value.client == s.client && IsNewest(old(past.registered), replaced.value)
                                 && replaced.value !in past.open
    {
      replaced := if s.client in sessions then Some(sessions[s.client]) else None;
      RegisterKeepsInv(past, s);
      sessions := sessions[s.client := s];
      past := Take(past, Register(s));
    }

    /** dropSession: only the session itself is deleted, never a newer one. */
    method DropSession(s: Session)
      requires Valid() && s in past.registered
      modifies this
      ensures Valid() && past == Take(old(past), Drop(s))
      ensures forall c :: c in old(sessions) && old(sessions)[c] != s ==> c in sessions && sessions[c] == old(sessions)[c]
    {
      DropKeepsInv(past, s);
      ghost var was := past;
      if s.client in sessions && sessions[s.client] == s {
        sessions := sessions - {s.client};
      }
      past := Take(was, Drop(s));
      LateDropSparesOthers(was, s);
    }

    /** DisconnectClient: whatever session the client has now. */
    method DisconnectClient(client: Id) returns (taken: Option<Session>)
      requires Valid()
      modifies this
      ensures Valid() && past == Take(old(past), Disconnect(client))
      ensures client !in sessions && (taken.Some? ==> taken.value in past.ending && taken.value.client == client)
      ensures taken.None? <==> client !in old(sessions)
    {
      ghost var was := past;
      DisconnectKeepsInv(was, client);
      if client in sessions { TableHasItsClients(was, client); }
      taken := if client in sessions then Some(sessions[client]) else None;
      past := Take(was, Disconnect(client));
      TakenOut(was, client);
      sessions := sessions - {client};
    }
  }
}
