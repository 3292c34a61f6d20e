/** The record of the last update attempt per client, over time:
    internal/server/update.go:25-48, 101-231. Times are seconds. */
module ClientUpdates {
  import opened Basics
  import opened Forwards

  const UPDATE_TIMEOUT: int := 180
  const AUTO_RETRY_AFTER: int := 3600
  const UPDATE_KEEP_DONE: int := 86400

  type Version = string

  datatype State = Pending | Done | Failed

  datatype Update = Update(state: State, target: Version, requestedAt: int, updatedAt: int, automatic: bool)

  type Slot = Option<Update>

  /** What does not depend on the record: the server's version, whether a binary for the
      client exists and can be read, and whether clients are updated on connect. */
  datatype Setup = Setup(version: Version, hasBinary: bool, readable: bool, autoUpdate: bool)

  /** A session: the version the client reports and whether it accepts updates. */
  datatype Hello = Hello(version: Version, allowUpdate: bool)

  // ----- the critical sections -----------------------------------------------------------

  /** UpdateStatus: expires a stale record. */
  function Expire(u: Slot, now: int): Slot {
    if u.None? then u
    else
      match u.value.state
      case Pending =>
        if now - u.value.updatedAt > UPDATE_TIMEOUT then Some(u.value.(state := Failed, updatedAt := now)) else u
      case Done => if now - u.value.updatedAt > UPDATE_KEEP_DONE then None else u
      case Failed => u
  }

  predicate IsPending(u: Slot) { u.Some? && u.value.state == Pending }

  /** The checks of UpdateAvailability before it looks at the record: on the client's current
      session, not on any particular connection. */
  predicate Eligible(s: Setup, current: Option<Hello>) {
    current.Some? && current.value.version != s.version && current.value.allowUpdate && s.hasBinary
  }

  /** UpdateAvailability: the record is only consulted, and expired, when all else is fine. */
  function Availability(s: Setup, current: Option<Hello>, u: Slot, now: int): (Slot, bool) {
    if !Eligible(s, current) then (u, false) else (Expire(u, now), !IsPending(Expire(u, now)))
  }

  /** The write of PushUpdate. */
  function Requested(s: Setup, automatic: bool, now: int): Slot {
    Some(Update(Pending, s.version, now, now, automatic))
  }

  /** PushUpdate reads the session once more before it writes. */
  function PushUpdate(s: Setup, current: Option<Hello>, u: Slot, automatic: bool, now: int): (Slot, bool) {
    var (u', ok) := Availability(s, current, u, now);
    if !ok || !s.readable then (u', false) else (Requested(s, automatic, now), true)
  }

  /** handleClientMessage for an "update_status". */
  function Message(u: Slot, failed: bool, now: int): Slot {
    if IsPending(u) then Some(u.value.(updatedAt := now, state := if failed then Failed else Pending)) else u
  }

  /** First part of noteReconnect: settles a pending update. */
  function Settle(u: Slot, hello: Hello, now: int): Slot {
    if IsPending(u) then Some(u.value.(updatedAt := now, state := if hello.version == u.value.target then Done else Failed))
    else u
  }

  predicate DevVersion(v: Version) { v == "dev" }

  /** A failure that is less than an hour older than the settling at `start`. */
  predicate FailedLately(u: Slot, start: int) {
    u.Some? && u.value.state == Failed && start - u.value.updatedAt < AUTO_RETRY_AFTER
  }

  /** Second part: the decision to push automatically, the settling having been at `start`. */
  function AutoPush(s: Setup, current: Option<Hello>, u: Slot, start: int, now: int): (Slot, bool) {
    if !s.autoUpdate || DevVersion(s.version) then (u, false)
    else
      var u1 := Expire(u, now);
      if FailedLately(u1, start) then (u1, false)
      else
        var (u2, ok) := Availability(s, current, u1, now);
        if ok then PushUpdate(s, current, u2, true, now) else (u2, false)
  }

  /** noteReconnect for the session that said hello, while `current` is the client's session
      in the table and no other handler gets in between. */
  function NoteReconnect(s: Setup, hello: Hello, current: Option<Hello>, u: Slot, start: int, now: int): (Slot, bool) {
    AutoPush(s, current, Settle(u, hello, start), start, now)
  }

  /** The client is connected with another version, accepts updates, and there is a binary. */
  ghost predicate CanUpdate(s: Setup, current: Option<Hello>) {
    match current
    case None => false
    case Some(hello) => hello.version != s.version && hello.allowUpdate && s.hasBinary
  }

  /** The record after it has been looked at: a push that is pending for more than three
      minutes has failed, and one that was done more than a day ago is forgotten. */
  ghost predicate Aged(u: Slot, now: int, after: Slot) {
    match u
    case None => after == None
    case Some(r) =>
      match r.state
      case Pending =>
        after == Some(if now - r.updatedAt > 180 then Update(Failed, r.target, r.requestedAt, now, r.automatic) else r)
      case Done => after == if now - r.updatedAt > 86400 then None else Some(r)
      case Failed => after == Some(r)
  }

  lemma AgedMeaning(u: Slot, now: int, after: Slot)
    ensures Aged(u, now, after) <==> after == Expire(u, now)
  {
  }

  /** A push is written exactly when the client can be updated, the binary can be read and
      no push is pending, one that has timed out not being counted. */
  lemma WhenPushed(s: Setup, current: Option<Hello>, u: Slot, automatic: bool, now: int)
    ensures
      var (after, pushed) := PushUpdate(s, current, u, automatic, now);
      && (pushed <==> CanUpdate(s, current) && s.readable
                      && !(u.Some? && u.value.state == Pending && now - u.value.updatedAt <= 180))
      && (if pushed then after == Some(Update(Pending, s.version, now, now, automatic))
          else if CanUpdate(s, current) then Aged(u, now, after)
          else after == u)
  {
    AgedMeaning(u, now, Expire(u, now));
  }

  /** When an undisturbed reconnect pushes by itself: updates are automatic, the client is
      behind and can be updated, and neither did this very reconnect show that an update
      failed nor did one fail within the last hour. */
  lemma WhenPushedAutomatically(s: Setup, hello: Hello, current: Option<Hello>, u: Slot, start: int, now: int)
    ensures
      var (after, pushed) := NoteReconnect(s, hello, current, u, start, now);
      && (pushed <==>
            && s.autoUpdate && s.version != "dev" && s.readable && CanUpdate(s, current)
            && !(u.Some? && u.value.state == Pending && hello.version != u.value.target)
            && !(u.Some? && u.value.state == Failed && start - u.value.updatedAt < 3600))
      && (pushed ==> after == Some(Update(Pending, s.version, now, now, true)))
  {
  }

  // ----- the table ------------------------------------------------------------------------------

  /** Tunnel.updates, with every handler run to its end. */
  class UpdateTable {
    var updates: map<Id, Update>

    constructor ()
      ensures updates == map[]
    {
      updates := map[];
    }

    ghost function SlotOf(c: Id): Slot
      reads this
    {
      if c in updates then Some(updates[c]) else None
    }

    ghost predicate OthersKept(was: map<Id, Update>, c: Id)
      reads this
    {
      updates - {c} == was - {c}
    }

    /** UpdateStatus: changes the record in place, or deletes it. */
    method Status(c: Id, now: int) returns (r: Slot)
      modifies this
      ensures r == SlotOf(c) == Expire(old(SlotOf(c)), now) && OthersKept(old(updates), c)
    {
      if c !in updates { return None; }
      var u := updates[c];
      match u.state {
        case Pending =>
          if now - u.updatedAt > UPDATE_TIMEOUT {
            updates := updates[c := u.(state := Failed, updatedAt := now)];
          }
        case Done =>
          if now - u.updatedAt > UPDATE_KEEP_DONE {
            updates := updates - {c};
            return None;
          }
        case Failed =>
      }
      return Some(updates[c]);
    }

    method Available(s: Setup, current: Option<Hello>, c: Id, now: int) returns (ok: bool)
      modifies this
      ensures (SlotOf(c), ok) == Availability(s, current, old(SlotOf(c)), now) && OthersKept(old(updates), c)
    {
      if current.None? { return false; }
      if current.value.version == s.version { return false; }
      if !current.value.allowUpdate { return false; }
      if !s.hasBinary { return false; }
      var u := Status(c, now);
      return !(u.Some? && u.value.state == Pending);
    }

    method Push(s: Setup, current: Option<Hello>, c: Id, automatic: bool, now: int) returns (ok: bool)
      modifies this
      ensures (SlotOf(c), ok) == PushUpdate(s, current, old(SlotOf(c)), automatic, now) && OthersKept(old(updates), c)
    {
      ok := Available(s, current, c, now);
      if !ok { return false; }
      if !s.readable { return false; }
      updates := updates[c := Update(Pending, s.version, now, now, automatic)];
    }

    method ClientMessage(c: Id, failed: bool, now: int)
      modifies this
      ensures SlotOf(c) == Message(old(SlotOf(c)), failed, now) && OthersKept(old(updates), c)
    {
      if c in updates && updates[c].state == Pending {
        var u := updates[c].(updatedAt := now);
        if failed { u := u.(state := Failed); }
        updates := updates[c := u];
      }
    }

    /** First part of noteReconnect. */
    method SettlePending(hello: Hello, c: Id, start: int)
      modifies this
      ensures SlotOf(c) == Settle(old(SlotOf(c)), hello, start) && OthersKept(old(updates), c)
    {
      if c in updates && updates[c].state == Pending {
        var u := updates[c].(updatedAt := start);
        updates := updates[c := u.(state := if hello.version == u.target then Done else Failed)];
      }
    }

    /** Second part of noteReconnect. */
    method PushIfDue(s: Setup, current: Option<Hello>, c: Id, start: int, now: int) returns (pushed: bool)
      modifies this
      ensures (SlotOf(c), pushed) == AutoPush(s, current, old(SlotOf(c)), start, now) && OthersKept(old(updates), c)
    {
      if !s.autoUpdate || s.version == "dev" { return false; }
      var u := Status(c, now);
      if u.Some? && u.value.state == Failed && start - u.value.updatedAt < AUTO_RETRY_AFTER { return false; }
      var ok := Available(s, current, c, now);
      if !ok { return false; }
      pushed := Push(s, current, c, true, now);
    }

    /** noteReconnect with no other handler in between. */
    method Reconnected(s: Setup, hello: Hello, current: Option<Hello>, c: Id, start: int, now: int) returns (pushed: bool)
      modifies this
      ensures (SlotOf(c), pushed) == NoteReconnect(s, hello, current, old(SlotOf(c)), start, now) && OthersKept(old(updates), c)
    {
      SettlePending(hello, c, start);
      pushed := PushIfDue(s, current, c, start, now);
    }
  }
}
