/** Update pushes to one client when its handlers interleave: internal/server/update.go:103-231.
    Every step is one critical section of a handler; between two sections of one handler any
    other may run. Times do not run backwards. */
module ClientPushes {
  import opened Basics
  import opened ClientUpdates

  /** How far a handler is: after the first section of noteReconnect, after its look at the
      record, after its availability check, and after PushUpdate's own check. A manual push
      has only the last. */
  datatype Phase = Settled | Considered | Checked | Ready

  /** `start` is when noteReconnect settled the record. The other fields only record what
      happened since; no step reads them. overlapped: an automatic push was written since
      `start`; disturbed: a manual one was written between `start` and the look at the
      record; raced: any push was written since the last check. */
  datatype Handler = Handler(phase: Phase, auto: bool, start: int, overlapped: bool, disturbed: bool, raced: bool)

  /** The record and the handlers at work; for the statements also when the last automatic
      push was written, and whether the record has been Done since. */
  datatype State = State(slot: Slot, handlers: map<nat, Handler>, lastAuto: Option<int>, doneSince: bool)

  const START: State := State(None, map[], None, false)

  datatype Step =
    | Begin(h: nat, hello: Hello, now: int)
    | Consider(h: nat, setup: Setup, now: int)
    | Check(h: nat, setup: Setup, current: Option<Hello>, now: int)
    | Recheck(h: nat, setup: Setup, current: Option<Hello>, now: int)
    | Manual(h: nat, setup: Setup, current: Option<Hello>, now: int)
    | Write(h: nat, setup: Setup, online: bool, now: int)
    | Progress(failed: bool, now: int)
    | Look(now: int)

  predicate At(st: State, h: nat, phase: Phase) { h in st.handlers && st.handlers[h].phase == phase }

  predicate Enabled(st: State, step: Step) {
    match step
    case Begin(h, _, _) => h !in st.handlers
    case Consider(h, _, _) => At(st, h, Settled)
    case Check(h, _, _, _) => At(st, h, Considered)
    case Recheck(h, _, _, _) => At(st, h, Checked)
    case Manual(h, _, _, _) => h !in st.handlers
    case Write(h, _, _, _) => At(st, h, Ready)
    case Progress(_, _) => true
    case Look(_) => true
  }

  /** Does this step write a push? */
  predicate Pushes(st: State, step: Step)
    requires Enabled(st, step)
  {
    step.Write? && step.online && step.setup.hasBinary && step.setup.readable
  }

  predicate PushesAutomatically(st: State, step: Step)
    requires Enabled(st, step)
  {
    Pushes(st, step) && st.handlers[step.h].auto
  }

  /** A section of handler h leaves the record at `slot`; the handler goes on or ends. */
  function Section(st: State, h: nat, slot: Slot, next: Option<Handler>): State {
    State(slot, if next.Some? then st.handlers[h := next.value] else st.handlers - {h},
          st.lastAuto, st.doneSince || (slot.Some? && slot.value.state == Done))
  }

  /** The others have seen a push written. */
  function Noted(handlers: map<nat, Handler>, auto: bool): map<nat, Handler> {
    map h | h in handlers :: handlers[h].(
      raced := true,
      overlapped := handlers[h].overlapped || auto,
      disturbed := handlers[h].disturbed || (!auto && handlers[h].phase == Settled))
  }

  function Take(st: State, step: Step): State
    requires Enabled(st, step)
  {
    match step
    case Begin(h, hello, now) =>
      Section(st, h, Settle(st.slot, hello, now), Some(Handler(Settled, true, now, false, false, false)))
    case Consider(h, s, now) =>
      var p := st.handlers[h];
      if !s.autoUpdate || DevVersion(s.version) then Section(st, h, st.slot, None)
      else
        var u := Expire(st.slot, now);
        Section(st, h, u, if FailedLately(u, p.start) then None else Some(p.(phase := Considered)))
    case Check(h, s, current, now) =>
      var (u, ok) := Availability(s, current, st.slot, now);
      Section(st, h, u, if ok then Some(st.handlers[h].(phase := Checked, raced := false)) else None)
    case Recheck(h, s, current, now) =>
      var (u, ok) := Availability(s, current, st.slot, now);
      Section(st, h, u, if ok then Some(st.handlers[h].(phase := Ready, raced := false)) else None)
    case Manual(h, s, current, now) =>
      var (u, ok) := Availability(s, current, st.slot, now);
      Section(st, h, u, if ok then Some(Handler(Ready, false, now, false, false, false)) else None)
    case Write(h, s, online, now) =>
      var auto := st.handlers[h].auto;
      if !Pushes(st, step) then Section(st, h, st.slot, None)
      else State(Requested(s, auto, now), Noted(st.handlers - {h}, auto),
                 if auto then Some(now) else st.lastAuto, if auto then false else st.doneSince)
    case Progress(failed, now) => st.(slot := Message(st.slot, failed, now))
    case Look(now) => st.(slot := Expire(st.slot, now))
  }

  // ----- one step ------------------------------------------------------------------------------

  /** The steps that look at the record. */
  ghost predicate Looks(step: Step) {
    match step
    case Look(_) => true
    case Consider(_, s, _) => s.autoUpdate && s.version != "dev"
    case Check(_, s, current, _) => CanUpdate(s, current)
    case Recheck(_, s, current, _) => CanUpdate(s, current)
    case Manual(_, s, current, _) => CanUpdate(s, current)
    case _ => false
  }

  /** Where a pending record can go: a written push replaces it, a reconnect settles it by
      the version that comes back, the client's word keeps it alive or fails it, and a look
      fails it after three minutes; nothing else touches it. */
  lemma PendingMoves(st: State, step: Step)
    requires Enabled(st, step) && IsPending(st.slot)
    ensures
      var u, after := st.slot.value, Take(st, step).slot;
      if Pushes(st, step) then after == Some(Update(Pending, step.setup.version, step.now, step.now, st.handlers[step.h].auto))
      else if step.Begin? then
        after == Some(Update(if step.hello.version == u.target then Done else Failed, u.target, u.requestedAt, step.now, u.automatic))
      else if step.Progress? then
        after == Some(Update(if step.failed then Failed else Pending, u.target, u.requestedAt, step.now, u.automatic))
      else if Looks(step) && step.now - u.updatedAt > 180 then
        after == Some(Update(Failed, u.target, u.requestedAt, step.now, u.automatic))
      else after == st.slot
  {
  }

  /** A settled record changes only by a written push, or by expiry a day after it was Done. */
  lemma SettledStays(st: State, step: Step)
    requires Enabled(st, step) && !IsPending(st.slot)
    ensures
      var after := Take(st, step).slot;
      if Pushes(st, step) then after == Some(Update(Pending, step.setup.version, step.now, step.now, st.handlers[step.h].auto))
      else if Looks(step) && st.slot.Some? && st.slot.value.state == Done && step.now - st.slot.value.updatedAt > 86400 then after == None
      else after == st.slot
  {
  }

  // ----- runs --------------------------------------------------------------------------------------

  /** What is known of one handler. */
  ghost predicate HandlerSound(st: State, clock: int, p: Handler) {
    && p.start <= clock
    && (!p.auto ==> p.phase == Ready)
    && (p.auto && p.overlapped ==> st.lastAuto.Some? && st.lastAuto.value >= p.start)
    && (p.auto && !p.overlapped && st.lastAuto.Some? ==> st.lastAuto.value <= p.start)
    && (p.phase == Settled && !p.overlapped && !p.disturbed ==> !IsPending(st.slot))
    && (p.auto && p.phase != Settled && !p.overlapped && !p.disturbed && st.lastAuto.Some? && !st.doneSince ==>
          p.start - st.lastAuto.value >= AUTO_RETRY_AFTER)
    && (p.phase == Ready && !p.raced ==> !IsPending(st.slot))
  }

  /** Nothing in the record lies in the future; since the last automatic push without a Done
      the record exists, is not Done and is at least as new as that push. */
  ghost predicate Sound(st: State, clock: int) {
    && (st.slot.Some? ==> st.slot.value.updatedAt <= clock)
    && (st.lastAuto.Some? ==> st.lastAuto.value <= clock)
    && (st.lastAuto.Some? && !st.doneSince ==>
          st.slot.Some? && st.slot.value.state != Done && st.slot.value.updatedAt >= st.lastAuto.value)
    && (forall h :: h in st.handlers ==> HandlerSound(st, clock, st.handlers[h]))
  }

  lemma WriteIsSound(st: State, step: Step, clock: int, h: nat)
    requires Sound(st, clock) && Enabled(st, step) && clock <= step.now && step.Write?
    requires h in Take(st, step).handlers && HandlerSound(st, clock, st.handlers[h])
    ensures HandlerSound(Take(st, step), step.now, Take(st, step).handlers[h])
  {
  }

  lemma OtherIsSound(st: State, step: Step, clock: int, h: nat)
    requires Sound(st, clock) && Enabled(st, step) && clock <= step.now && !step.Write?
    requires h in Take(st, step).handlers && (h in st.handlers ==> HandlerSound(st, clock, st.handlers[h]))
    ensures HandlerSound(Take(st, step), step.now, Take(st, step).handlers[h])
  {
  }

  lemma StepIsSound(st: State, step: Step, clock: int)
    requires Sound(st, clock) && Enabled(st, step) && clock <= step.now
    ensures Sound(Take(st, step), step.now)
  {
    var after := Take(st, step);
    forall h | h in after.handlers ensures HandlerSound(after, step.now, after.handlers[h]) {
      if h in st.handlers { assert HandlerSound(st, clock, st.handlers[h]); }
      if step.Write? { WriteIsSound(st, step, clock, h); } else { OtherIsSound(st, step, clock, h); }
    }
  }

  function ClockBefore(steps: seq<Step>, begin: int, i: nat): int
    requires i <= |steps|
  {
    if i == 0 then begin else steps[i - 1].now
  }

  ghost predicate Follows(steps: seq<Step>, states: seq<State>, begin: int, i: nat)
    requires i < |steps| < |states|
  {
    && Enabled(states[i], steps[i]) && ClockBefore(steps, begin, i) <= steps[i].now
    && states[i + 1] == Take(states[i], steps[i])
  }

  /** Any interleaving of any number of handlers. */
  ghost predicate IsRun(steps: seq<Step>, states: seq<State>, begin: int) {
    && |states| == |steps| + 1 && states[0] == START
    && forall i :: 0 <= i < |steps| ==> Follows(steps, states, begin, i)
  }

  lemma {:induction false} RunIsSound(steps: seq<Step>, states: seq<State>, begin: int, i: nat)
    requires IsRun(steps, states, begin) && i <= |steps|
    ensures Sound(states[i], ClockBefore(steps, begin, i))
  {
    if i > 0 {
      RunIsSound(steps, states, begin, i - 1);
      assert Follows(steps, states, begin, i - 1);
      StepIsSound(states[i - 1], steps[i - 1], ClockBefore(steps, begin, i - 1));
    }
  }

  // ----- what the recorded facts mean ----------------------------------------------------------

  predicate PushAt(steps: seq<Step>, states: seq<State>, i: nat)
    requires i < |steps| < |states|
  {
    Enabled(states[i], steps[i]) && Pushes(states[i], steps[i])
  }

  predicate AutoAt(steps: seq<Step>, states: seq<State>, i: nat)
    requires i < |steps| < |states|
  {
    Enabled(states[i], steps[i]) && PushesAutomatically(states[i], steps[i])
  }

  /** A manual push written while reconnect handler h has not looked at the record yet. */
  predicate DisturbedAt(steps: seq<Step>, states: seq<State>, h: nat, i: nat)
    requires i < |steps| < |states|
  {
    PushAt(steps, states, i) && !AutoAt(steps, states, i) && At(states[i], h, Settled)
  }

  predicate DoneAt(states: seq<State>, i: nat)
    requires i < |states|
  {
    states[i].slot.Some? && states[i].slot.value.state == Done
  }

  /** The handler began with step a, and these pushes were written since. */
  ghost predicate BeganAt(steps: seq<Step>, states: seq<State>, n: nat, h: nat, a: nat)
    requires n <= |steps| < |states| && h in states[n].handlers
  {
    var p := states[n].handlers[h];
    && a < n && steps[a].Begin? && steps[a].h == h && p.start == steps[a].now
    && (p.overlapped <==> exists k :: a < k < n && AutoAt(steps, states, k))
    && (p.disturbed <==> exists k :: a < k < n && DisturbedAt(steps, states, h, k))
  }

  /** A handler that is at work on reconnecting was so before, unless it just began. */
  lemma HandlerWasThere(steps: seq<Step>, states: seq<State>, begin: int, n: nat, h: nat)
    requires IsRun(steps, states, begin) && 0 < n <= |steps| && h in states[n].handlers && states[n].handlers[h].auto
    requires !(steps[n - 1].Begin? && steps[n - 1].h == h)
    ensures h in states[n - 1].handlers && states[n - 1].handlers[h].auto
    ensures !(steps[n - 1].Manual? && steps[n - 1].h == h)
  {
    assert Follows(steps, states, begin, n - 1);
  }

  lemma JustBegan(steps: seq<Step>, states: seq<State>, begin: int, n: nat, h: nat)
    requires IsRun(steps, states, begin) && 0 < n <= |steps| && steps[n - 1].Begin? && steps[n - 1].h == h
    ensures h in states[n].handlers && BeganAt(steps, states, n, h, n - 1)
  {
    assert Follows(steps, states, begin, n - 1);
  }

  lemma {:induction false} HandlerBegan(steps: seq<Step>, states: seq<State>, begin: int, n: nat, h: nat) returns (a: nat)
    requires IsRun(steps, states, begin) && n <= |steps| && h in states[n].handlers && states[n].handlers[h].auto
    ensures BeganAt(steps, states, n, h, a)
  {
    assert n > 0;
    if steps[n - 1].Begin? && steps[n - 1].h == h {
      JustBegan(steps, states, begin, n, h);
      a := n - 1;
    } else {
      HandlerWasThere(steps, states, begin, n, h);
      a := HandlerBegan(steps, states, begin, n - 1, h);
      HistoryGrows(steps, states, begin, n - 1, h, a);
    }
  }

  lemma HistoryGrows(steps: seq<Step>, states: seq<State>, begin: int, n: nat, h: nat, a: nat)
    requires IsRun(steps, states, begin) && n < |steps| && h in states[n].handlers && h in states[n + 1].handlers
    requires BeganAt(steps, states, n, h, a) && !(steps[n].Begin? && steps[n].h == h) && !(steps[n].Manual? && steps[n].h == h)
    ensures BeganAt(steps, states, n + 1, h, a)
  {
    assert Follows(steps, states, begin, n);
    var p, q := states[n].handlers[h], states[n + 1].handlers[h];
    assert q.start == p.start;
    assert q.overlapped <==> p.overlapped || AutoAt(steps, states, n);
    assert q.disturbed <==> p.disturbed || DisturbedAt(steps, states, h, n);
  }

  lemma {:induction false} LastAutoIs(steps: seq<Step>, states: seq<State>, begin: int, i: nat, n: nat)
    requires IsRun(steps, states, begin) && i < n <= |steps| && AutoAt(steps, states, i)
    requires forall k :: i < k < n ==> !AutoAt(steps, states, k)
    ensures states[n].lastAuto == Some(steps[i].now)
    ensures states[n].doneSince ==> exists k :: i < k <= n && DoneAt(states, k)
    decreases n
  {
    assert Follows(steps, states, begin, n - 1);
    if n > i + 1 {
      LastAutoIs(steps, states, begin, i, n - 1);
      assert !AutoAt(steps, states, n - 1);
      if states[n].doneSince && !states[n - 1].doneSince {
        assert DoneAt(states, n);
      }
    }
  }

  // ----- the spacing of automatic pushes ---------------------------------------------------------

  /** The push at step j, the one at step i being the automatic one before it. */
  ghost predicate Successive(steps: seq<Step>, states: seq<State>, i: nat, j: nat)
    requires j < |steps| < |states|
  {
    && i < j && AutoAt(steps, states, i) && AutoAt(steps, states, j)
    && forall k :: i < k < j ==> !AutoAt(steps, states, k)
  }

  /** Under every interleaving: two successive automatic pushes to a client are at least an
      hour apart, unless the update was Done in between, when the second push's handler
      settled the record (step a) after the first push and no manual push came between this
      and its look at the record. When it settled the record before the first push, they are
      no further apart than the handler took. */
  lemma AutomaticPushesAreSpaced(steps: seq<Step>, states: seq<State>, begin: int, i: nat, j: nat) returns (a: nat)
    requires IsRun(steps, states, begin) && j < |steps| && Successive(steps, states, i, j)
    ensures a < j && a != i && steps[a].Begin? && steps[a].h == steps[j].h
    ensures a < i ==> steps[j].now - steps[i].now <= steps[j].now - steps[a].now
    ensures i < a && (forall k :: a < k < j ==> !DisturbedAt(steps, states, steps[j].h, k))
            && (forall k :: i < k <= j ==> !DoneAt(states, k)) ==>
              steps[j].now - steps[i].now >= 3600
  {
    assert Follows(steps, states, begin, i) && Follows(steps, states, begin, j);
    RunIsSound(steps, states, begin, j);
    a := HandlerBegan(steps, states, begin, j, steps[j].h);
    LastAutoIs(steps, states, begin, i, j);
    assert HandlerSound(states[j], ClockBefore(steps, begin, j), states[j].handlers[steps[j].h]);
  }

  /** For a handler that takes less than an hour, undisturbed by manual pushes and with no
      Done in between, the hour is kept exactly when no other automatic push is written
      while it is at work. */
  lemma SpacingIsNonOverlap(steps: seq<Step>, states: seq<State>, begin: int, i: nat, j: nat) returns (a: nat)
    requires IsRun(steps, states, begin) && j < |steps| && Successive(steps, states, i, j)
    ensures a < j && steps[a].Begin? && steps[a].h == steps[j].h
    ensures steps[j].now - steps[a].now < 3600
            && (forall k :: a < k < j ==> !DisturbedAt(steps, states, steps[j].h, k))
            && (forall k :: i < k <= j ==> !DoneAt(states, k)) ==>
              (steps[j].now - steps[i].now >= 3600 <==> forall k :: a < k < j ==> !AutoAt(steps, states, k))
  {
    a := AutomaticPushesAreSpaced(steps, states, begin, i, j);
  }

  /** The handler's last check was step c, and these pushes were written since. */
  ghost predicate CheckedAt(steps: seq<Step>, states: seq<State>, n: nat, h: nat, c: nat)
    requires n <= |steps| < |states| && h in states[n].handlers
  {
    && c < n && (steps[c].Recheck? || steps[c].Manual?) && steps[c].h == h
    && (states[n].handlers[h].raced <==> exists k :: c < k < n && PushAt(steps, states, k))
  }

  lemma {:induction false} HandlerChecked(steps: seq<Step>, states: seq<State>, begin: int, n: nat, h: nat) returns (c: nat)
    requires IsRun(steps, states, begin) && n <= |steps| && At(states[n], h, Ready)
    ensures CheckedAt(steps, states, n, h, c)
  {
    assert n > 0;
    assert Follows(steps, states, begin, n - 1);
    if (steps[n - 1].Recheck? || steps[n - 1].Manual?) && steps[n - 1].h == h {
      c := n - 1;
    } else {
      c := HandlerChecked(steps, states, begin, n - 1, h);
      assert states[n].handlers[h].raced <==> states[n - 1].handlers[h].raced || PushAt(steps, states, n - 1);
    }
  }

  /** A push replaces a pending record only when another push was written since its handler
      last checked that none is under way. */
  lemma PendingIsReplacedInARace(steps: seq<Step>, states: seq<State>, begin: int, j: nat) returns (c: nat, k: nat)
    requires IsRun(steps, states, begin) && j < |steps| && PushAt(steps, states, j) && IsPending(states[j].slot)
    ensures c < k < j && PushAt(steps, states, k)
    ensures (steps[c].Recheck? || steps[c].Manual?) && steps[c].h == steps[j].h
  {
    RunIsSound(steps, states, begin, j);
    assert HandlerSound(states[j], ClockBefore(steps, begin, j), states[j].handlers[steps[j].h]);
    c := HandlerChecked(steps, states, begin, j, steps[j].h);
    k :| c < k < j && PushAt(steps, states, k);
  }

  // ----- one handler after the other -----------------------------------------------------------------

  /** The sections of noteReconnect with nothing in between. */
  function Undisturbed(st: State, h: nat, s: Setup, hello: Hello, current: Option<Hello>, start: int, now: int): State
    requires h !in st.handlers
  {
    var s1 := Take(Take(st, Begin(h, hello, start)), Consider(h, s, now));
    if h !in s1.handlers then s1
    else
      var s2 := Take(s1, Check(h, s, current, now));
      if h !in s2.handlers then s2
      else
        var s3 := Take(s2, Recheck(h, s, current, now));
        if h !in s3.handlers then s3 else Take(s3, Write(h, s, current.Some?, now))
  }

  /** The steps of an undisturbed handler are the handler as a whole. */
  lemma UndisturbedIsNoteReconnect(st: State, h: nat, s: Setup, hello: Hello, current: Option<Hello>, start: int, now: int)
    requires h !in st.handlers
    ensures
      var after, whole := Undisturbed(st, h, s, hello, current, start, now), NoteReconnect(s, hello, current, st.slot, start, now);
      && after.slot == whole.0 && h !in after.handlers
      && after.lastAuto == if whole.1 then Some(now) else st.lastAuto
  {
  }

  // ----- two runs ---------------------------------------------------------------------------------

  predicate CanPush(s: Setup, hello: Hello) {
    s.autoUpdate && !DevVersion(s.version) && s.readable && Eligible(s, Some(hello))
  }

  /** A run in which the record is never Done and the automatic pushes are at these steps. */
  ghost predicate Told(steps: seq<Step>, states: seq<State>, begin: int, autos: set<nat>) {
    && IsRun(steps, states, begin)
    && (forall k :: k in autos ==> k < |steps|)
    && (forall k :: 0 <= k < |steps| ==> (AutoAt(steps, states, k) <==> k in autos))
    && (forall k :: 0 <= k < |states| ==> !DoneAt(states, k))
  }

  /** One more step. */
  lemma Extend(steps: seq<Step>, states: seq<State>, begin: int, autos: set<nat>, step: Step)
    requires Told(steps, states, begin, autos)
    requires Enabled(states[|steps|], step) && ClockBefore(steps, begin, |steps|) <= step.now
    requires Take(states[|steps|], step).slot.Some? ==> Take(states[|steps|], step).slot.value.state != Done
    ensures
      Told(steps + [step], states + [Take(states[|steps|], step)], begin,
           autos + if PushesAutomatically(states[|steps|], step) then {|steps|} else {})
  {
    var n, more, after := |steps|, steps + [step], states + [Take(states[|steps|], step)];
    forall k | 0 <= k < n ensures Follows(more, after, begin, k) && (AutoAt(more, after, k) <==> k in autos) {
      assert Follows(steps, states, begin, k);
      assert AutoAt(steps, states, k) <==> AutoAt(more, after, k);
    }
    assert AutoAt(more, after, n) <==> PushesAutomatically(states[n], step);
    forall k | 0 <= k < |after| ensures !DoneAt(after, k) {
      if k <= n {
        assert !DoneAt(states, k);
      }
    }
  }

  /** A reconnect that is not disturbed gets ready to push when no update is under way. */
  lemma GetsReady(st: State, h: nat, s: Setup, hello: Hello, t: int) returns (s1: State, s2: State, s3: State, s4: State)
    requires CanPush(s, hello) && h !in st.handlers && st.slot.None?
    ensures s1 == Take(st, Begin(h, hello, t)) && At(s1, h, Settled) && s1.slot.None?
    ensures s2 == Take(s1, Consider(h, s, t)) && At(s2, h, Considered) && s2.slot.None?
    ensures s3 == Take(s2, Check(h, s, Some(hello), t)) && At(s3, h, Checked) && s3.slot.None?
    ensures s4 == Take(s3, Recheck(h, s, Some(hello), t))
    ensures s4 == st.(handlers := st.handlers[h := Handler(Ready, true, t, false, false, false)])
  {
    s1 := Take(st, Begin(h, hello, t));
    s2 := Take(s1, Consider(h, s, t));
    s3 := Take(s2, Check(h, s, Some(hello), t));
    s4 := Take(s3, Recheck(h, s, Some(hello), t));
    assert s4.handlers == st.handlers[h := Handler(Ready, true, t, false, false, false)];
  }

  lemma Reconnects(steps: seq<Step>, states: seq<State>, begin: int, autos: set<nat>, h: nat, s: Setup, hello: Hello, t: int)
    returns (steps': seq<Step>, states': seq<State>)
    requires Told(steps, states, begin, autos) && CanPush(s, hello)
    requires states[|steps|].slot.None? && h !in states[|steps|].handlers && ClockBefore(steps, begin, |steps|) <= t
    ensures Told(steps', states', begin, autos) && |steps'| == |steps| + 4
    ensures steps'[|steps'| - 1].now == t
    ensures states'[|steps'|] ==
            states[|steps|].(handlers := states[|steps|].handlers[h := Handler(Ready, true, t, false, false, false)])
  {
    var s1, s2, s3, s4 := GetsReady(states[|steps|], h, s, hello, t);
    Extend(steps, states, begin, autos, Begin(h, hello, t));
    steps', states' := steps + [Begin(h, hello, t)], states + [s1];
    Extend(steps', states', begin, autos, Consider(h, s, t));
    steps', states' := steps' + [Consider(h, s, t)], states' + [s2];
    Extend(steps', states', begin, autos, Check(h, s, Some(hello), t));
    steps', states' := steps' + [Check(h, s, Some(hello), t)], states' + [s3];
    Extend(steps', states', begin, autos, Recheck(h, s, Some(hello), t));
    steps', states' := steps' + [Recheck(h, s, Some(hello), t)], states' + [s4];
  }

  lemma Nothing(t: int)
    ensures Told([], [START], t, {})
  {
  }

  /** Two reconnects of one client overlap: both find no update under way, both write, and
      the second push replaces the pending record of the first. */
  lemma OverlappingReconnectsPushTwice(s: Setup, hello: Hello, t: int) returns (steps: seq<Step>, states: seq<State>)
    requires CanPush(s, hello)
    ensures IsRun(steps, states, t) && |steps| == 10 && Successive(steps, states, 8, 9)
    ensures steps[8].now == steps[9].now == t && IsPending(states[9].slot)
  {
    Nothing(t);
    steps, states := Reconnects([], [START], t, {}, 0, s, hello, t);
    steps, states := Reconnects(steps, states, t, {}, 1, s, hello, t);
    Extend(steps, states, t, {}, Write(0, s, true, t));
    steps, states := steps + [Write(0, s, true, t)], states + [Take(states[8], Write(0, s, true, t))];
    Extend(steps, states, t, {8}, Write(1, s, true, t));
    steps, states := steps + [Write(1, s, true, t)], states + [Take(states[9], Write(1, s, true, t))];
  }

  /** One step after the other, none of them an automatic push and none with a Done. */
  ghost predicate Quietly(later: seq<Step>, after: seq<State>) {
    && |after| == |later| + 1
    && (forall k :: 0 <= k < |later| ==> Enabled(after[k], later[k]) && after[k + 1] == Take(after[k], later[k]))
    && (forall k :: 0 <= k < |later| ==> !PushesAutomatically(after[k], later[k]))
    && (forall k :: 0 <= k < |after| ==> after[k].slot.Some? ==> after[k].slot.value.state != Done)
  }

  /** A reconnect settles the pending record, and a manual push follows. */
  lemma Disturbs(s1: State, s: Setup, hello: Hello, t2: int) returns (later: seq<Step>, after: seq<State>)
    requires CanPush(s, hello) && IsPending(s1.slot) && s1.slot.value.target == s.version && s1.handlers == map[]
    ensures later == [Begin(1, hello, t2), Manual(2, s, Some(hello), t2), Write(2, s, true, t2)]
    ensures Quietly(later, after) && after[0] == s1
    ensures Pushes(after[2], later[2]) && At(after[2], 1, Settled)
    ensures after[3].slot == Requested(s, false, t2) && after[3].handlers == map[1 := Handler(Settled, true, t2, false, true, true)]
  {
    later := [Begin(1, hello, t2), Manual(2, s, Some(hello), t2), Write(2, s, true, t2)];
    var a := Take(s1, later[0]);
    assert At(a, 1, Settled) && a.slot.value.state == Failed && 2 !in a.handlers;
    var b := Take(a, later[1]);
    assert b.handlers == map[1 := Handler(Settled, true, t2, false, false, false), 2 := Handler(Ready, false, t2, false, false, false)];
    var c := Take(b, later[2]);
    assert c.handlers == map[1 := Handler(Settled, true, t2, false, true, true)];
    after := [s1, a, b, c];
  }

  /** The reconnect looks at the record, which then fails, and gets ready to push. */
  lemma PassesPending(s1: State, s: Setup, hello: Hello, t2: int) returns (later: seq<Step>, after: seq<State>)
    requires CanPush(s, hello) && s1.slot == Requested(s, false, t2) && At(s1, 1, Settled) && s1.handlers[1].auto
    ensures later == [Consider(1, s, t2), Progress(true, t2), Check(1, s, Some(hello), t2), Recheck(1, s, Some(hello), t2)]
    ensures Quietly(later, after) && after[0] == s1 && At(after[4], 1, Ready) && after[4].handlers[1].auto
  {
    later := [Consider(1, s, t2), Progress(true, t2), Check(1, s, Some(hello), t2), Recheck(1, s, Some(hello), t2)];
    var d := Take(s1, later[0]);
    assert At(d, 1, Considered) && d.slot == s1.slot && d.handlers[1].auto;
    var e := Take(d, later[1]);
    assert At(e, 1, Considered) && e.slot.value.state == Failed && e.handlers[1].auto;
    var f := Take(e, later[2]);
    assert At(f, 1, Checked) && f.slot == e.slot && f.handlers[1].auto;
    after := [s1, d, e, f, Take(f, later[3])];
  }

  lemma ExtendAll(steps: seq<Step>, states: seq<State>, begin: int, autos: set<nat>, later: seq<Step>, after: seq<State>, n: nat)
    requires Told(steps, states, begin, autos) && n <= |later| && Quietly(later, after) && after[0] == states[|steps|]
    requires steps != [] && forall k :: 0 <= k < |later| ==> later[k].now >= steps[|steps| - 1].now
    requires forall k :: 0 <= k < |later| - 1 ==> later[k].now <= later[k + 1].now
    ensures Told(steps + later[..n], states + after[1..n + 1], begin, autos)
  {
    if n == 0 {
      assert steps + later[..0] == steps && states + after[1..1] == states;
    } else {
      ExtendAll(steps, states, begin, autos, later, after, n - 1);
      var ss, xs := steps + later[..n - 1], states + after[1..n];
      assert xs[|ss|] == after[n - 1];
      assert ClockBefore(ss, begin, |ss|) == if n == 1 then steps[|steps| - 1].now else later[n - 2].now;
      Extend(ss, xs, begin, autos, later[n - 1]);
      assert ss + [later[n - 1]] == steps + later[..n] && xs + [after[n]] == states + after[1..n + 1];
    }
  }

  lemma FirstPush(s: Setup, hello: Hello, t: int) returns (steps: seq<Step>, states: seq<State>)
    requires CanPush(s, hello)
    ensures Told(steps, states, t, {4}) && |steps| == 5 && steps[4].now == t
    ensures states[5].slot == Requested(s, true, t) && states[5].handlers == map[]
  {
    Nothing(t);
    steps, states := Reconnects([], [START], t, {}, 0, s, hello, t);
    var w := Write(0, s, true, t);
    Extend(steps, states, t, {}, w);
    steps, states := steps + [w], states + [Take(states[4], w)];
  }

  lemma UntilDisturbed(s: Setup, hello: Hello, t: int, t2: int) returns (steps: seq<Step>, states: seq<State>)
    requires CanPush(s, hello) && t <= t2
    ensures Told(steps, states, t, {4}) && |steps| == 8 && steps[4].now == t && steps[7].now == t2
    ensures steps[5] == Begin(1, hello, t2) && DisturbedAt(steps, states, 1, 7)
    ensures states[8].slot == Requested(s, false, t2) && At(states[8], 1, Settled) && states[8].handlers[1].auto
  {
    steps, states := FirstPush(s, hello, t);
    var later, after := Disturbs(states[5], s, hello, t2);
    ExtendAll(steps, states, t, {4}, later, after, 3);
    assert later[..3] == later;
    steps, states := steps + later, states + after[1..4];
    assert states[8] == after[3] && steps[7] == later[2] && states[7] == after[2];
  }

  lemma UntilReady(s: Setup, hello: Hello, t: int, t2: int) returns (steps: seq<Step>, states: seq<State>)
    requires CanPush(s, hello) && t <= t2
    ensures Told(steps, states, t, {4}) && |steps| == 12 && steps[4].now == t && steps[11].now == t2
    ensures steps[5] == Begin(1, hello, t2) && DisturbedAt(steps, states, 1, 7)
    ensures At(states[12], 1, Ready) && states[12].handlers[1].auto
  {
    var before, firsts := UntilDisturbed(s, hello, t, t2);
    var later, after := PassesPending(firsts[8], s, hello, t2);
    ExtendAll(before, firsts, t, {4}, later, after, 4);
    assert later[..4] == later;
    steps, states := before + later, firsts + after[1..5];
    assert steps[7] == before[7] && states[7] == firsts[7];
  }

  /** A manual push gets between a reconnect's settling and its look at the record, and is
      reported as failed at once: the automatic push follows the one before it by less than
      an hour although its handler began after it and nothing was Done. */
  lemma DisturbedReconnectPushesEarly(s: Setup, hello: Hello, t: int, t2: int) returns (steps: seq<Step>, states: seq<State>)
    requires CanPush(s, hello) && t <= t2 < t + 3600
    ensures IsRun(steps, states, t) && |steps| == 13 && Successive(steps, states, 4, 12)
    ensures steps[12].now - steps[4].now < 3600 && steps[5].Begin? && steps[5].h == steps[12].h
    ensures DisturbedAt(steps, states, steps[12].h, 7) && forall k :: 0 <= k < |states| ==> !DoneAt(states, k)
  {
    var w := Write(1, s, true, t2);
    steps, states := UntilReady(s, hello, t, t2);
    Extend(steps, states, t, {4}, w);
    steps, states := steps + [w], states + [Take(states[12], w)];
  }
}
