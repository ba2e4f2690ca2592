/** When a call of do_io times out before the deadline of its current timer. */
module DoIoTimeouts {
  import opened Codec
  import opened DoIo
  import opened DoIoSafety
  import opened DoIoWatch
  import T = TimerQueue
  import R = TimerRuns
  import E = IoEvents
  import IoSafety

  /** An earlier timer of the call has set its flag, or its callback is still to run. */
  predicate Stale(s: State, c: nat) {
    c in s.callbacks || (c in s.calls && s.calls[c].cancelled)
  }

  /** The call adds its timer although an earlier one is not done with. */
  predicate StaleArm(s: State, a: Action, c: nat) {
    a.Arm? && a.c == c && Stale(s, c)
  }

  /** Whatever may set the flag of the call comes from a timer that is due. */
  predicate OnTime(s: State, c: nat) {
    Stale(s, c) ==> c in s.calls && s.calls[c].deadline <= s.time.clock
  }

  // ---------------------------------------------------------------- no stale timer, no early timeout

  /** Neither the deadline nor what may set the flag changes, and the clock does not step back. */
  lemma OnTimeKept(s: State, s': State, c: nat)
    requires OnTime(s, c) && s.time.clock <= s'.time.clock
    requires Stale(s', c) ==> Stale(s, c)
    requires c in s.calls ==> c in s'.calls && s'.calls[c].deadline == s.calls[c].deadline
    ensures OnTime(s', c)
  {
  }

  lemma OnTimeStep(s: State, a: Action, c: nat)
    requires Inv(s) && Enabled(s, a) && OnTime(s, c) && !StaleArm(s, a, c)
    ensures OnTime(Apply(s, a), c)
  {
    hide Inv, R.Apply, R.Enabled, E.Apply, CallbacksOf, Without, OnTime, IsCall;
    var s' := Apply(s, a);
    ClockStep(s, a);
    TimeOk(s);
    match a
    case Arm(d, _, _) =>
      if d == c {
        NotStale(s', c);
      } else {
        OnTimeKept(s, s', c);
      }
    case Begin(d, _, _, _, _) =>
      CallbacksHaveCalls(s);
      if d == c {
        NotStale(s', c);
      } else {
        OnTimeKept(s, s', c);
      }
    case Expire(now) => OnTimeExpires(s, now, c);
    case RunCallback(i) =>
      WithoutKeeps(s.callbacks, i);
      OnTimeKept(s, s', c);
    case _ => OnTimeKept(s, s', c);
  }

  lemma NotStale(s: State, c: nat)
    requires !Stale(s, c)
    ensures OnTime(s, c)
  {
  }

  lemma CallbacksHaveCalls(s: State)
    requires CallbacksOk(s)
    ensures forall c :: c in s.callbacks ==> c in s.calls
  {
  }

  lemma ClockStep(s: State, a: Action)
    requires Enabled(s, a)
    ensures s.time.clock <= Apply(s, a).time.clock
  {
    hide R.Apply, R.Enabled, E.Apply, CallbacksOf, Without, IsCall;
    match a
    case Arm(c, now, addr) => if s.calls[c].timeout.Some? { ClockAndHanded(s.time, ArmTimer(s, c, now, addr)); }
    case GiveUp(c) => CancelClock(s.time);
    case Disarm(c) => CancelClock(s.time);
    case Expire(now) => ClockAndHanded(s.time, R.Expire(now));
    case OtherTimer(t) => ClockAndHanded(s.time, t);
    case _ =>
  }

  lemma CancelClock(w: R.World)
    ensures forall addr :: R.Apply(w, R.CancelTimer(addr)).clock == w.clock
  {
    hide T.Cancel;
  }

  lemma OnTimeExpires(s: State, now: nat, c: nat)
    requires Inv(s) && Enabled(s, Expire(now)) && OnTime(s, c)
    ensures OnTime(Apply(s, Expire(now)), c)
  {
    hide Inv, R.Inv, R.Enabled, T.ListExpired, CallbacksOf, IsCall;
    TimeOk(s);
    ClockStep(s, Expire(now));
    ExpiredEntries(s.time, now);
    var taken := T.ListExpired(s.time.m, now).1;
    CallbacksMeaning(taken);
    if c in CallbacksOf(taken) {
      var i :| 0 <= i < |taken| && taken[i].cb == c;
      assert taken[i] in taken;
      assert OwnedTimer(s, taken[i]);
    }
  }

  /** No timer of the call is added while an earlier one is not done with. */
  predicate NoStaleArm(s: State, run: seq<Action>, c: nat)
    requires IsRun(s, run)
    decreases |run|
  {
    run == [] || (!StaleArm(s, run[0], c) && NoStaleArm(Apply(s, run[0]), run[1..], c))
  }

  lemma {:induction false} OnTimeRun(s: State, run: seq<Action>, c: nat)
    requires Inv(s) && IsRun(s, run) && OnTime(s, c) && NoStaleArm(s, run, c)
    ensures Inv(After(s, run)) && OnTime(After(s, run), c)
    decreases |run|
  {
    hide Inv, Enabled, Apply, OnTime, StaleArm;
    if run != [] {
      Step(s, run[0]);
      OnTimeStep(s, run[0], c);
      OnTimeRun(Apply(s, run[0]), run[1..], c);
    }
  }

  lemma TimedOutIsDue(s: State, c: nat)
    requires Inv(s) && OnTime(s, c) && At(s, c, Returned(TimedOut))
    ensures s.calls[c].deadline <= s.time.clock
  {
    hide Inv;
    TimeOk(s);
  }

  /** In every run in which the call adds no timer while an earlier one has set its flag or has its callback pending, a
      return by timeout is not before the deadline of the current timer. */
  lemma TimeoutWaits(s: State, run: seq<Action>, c: nat)
    requires Init(s) && IsRun(s, run) && NoStaleArm(s, run, c) && At(After(s, run), c, Returned(TimedOut))
    ensures After(s, run).calls[c].deadline <= After(s, run).time.clock
  {
    hide IsRun, After, Inv, OnTime, NoStaleArm;
    InitOk(s);
    NotStale(s, c);
    OnTimeRun(s, run, c);
    TimedOutIsDue(After(s, run), c);
  }

  // ---------------------------------------------------------------- a stale timer, an early timeout

  predicate NoArm(run: seq<Action>, c: nat) {
    forall i :: 0 <= i < |run| ==> !(run[i].Arm? && run[i].c == c)
  }

  /** The call has returned by timeout, and `deadline` is still to come. */
  predicate Early(s: State, c: nat, deadline: nat) {
    At(s, c, Returned(TimedOut)) && s.time.clock < deadline
  }

  /** `t` can follow `s` without the call adding another timer. */
  ghost predicate Leads(s: State, t: State, c: nat) {
    exists run :: IsRun(s, run) && NoArm(run, c) && After(s, run) == t
  }

  lemma LeadsStep(s: State, a: Action, c: nat)
    requires Enabled(s, a) && !(a.Arm? && a.c == c)
    ensures Leads(s, Apply(s, a), c)
  {
    hide Enabled, Apply;
    var run, t := [a], Apply(s, a);
    assert run[1..] == [];
    assert IsRun(t, []) && After(t, []) == t;
    assert IsRun(s, run) && After(s, run) == t && NoArm(run, c);
  }

  lemma LeadsSelf(s: State, c: nat)
    ensures Leads(s, s, c)
  {
    assert IsRun(s, []) && After(s, []) == s && NoArm([], c);
  }

  lemma LeadsOn(s: State, t: State, u: State, c: nat)
    requires Leads(s, t, c) && Leads(t, u, c)
    ensures Leads(s, u, c)
  {
    hide IsRun, After;
    var first :| IsRun(s, first) && NoArm(first, c) && After(s, first) == t;
    var second :| IsRun(t, second) && NoArm(second, c) && After(t, second) == u;
    RunsJoin(s, first, second);
    assert NoArm(first + second, c);
  }

  lemma {:induction false} RunsJoin(s: State, first: seq<Action>, second: seq<Action>)
    requires IsRun(s, first) && IsRun(After(s, first), second)
    ensures IsRun(s, first + second) && After(s, first + second) == After(After(s, first), second)
    decreases |first|
  {
    hide Enabled, Apply;
    if first == [] {
      assert first + second == second;
    } else {
      RunsJoin(Apply(s, first[0]), first[1..], second);
      assert (first + second)[1..] == first[1..] + second;
    }
  }

  /** What the next steps keep: the invariant, the clock, the deadline and the descriptor of the call. */
  predicate Keeps(s: State, t: State, c: nat) {
    && c in s.calls && c in t.calls && !t.io.failed && t.time.clock == s.time.clock
    && t.calls[c].deadline == s.calls[c].deadline && Key(t.calls[c]) == Key(s.calls[c])
  }

  /** Whoever else waits for the event gives it up. */
  lemma FreeTheEvent(s: State, c: nat) returns (t: State)
    requires Inv(s) && !s.io.failed && At(s, c, Armed) && Stale(s, c)
    ensures Inv(t) && Leads(s, t, c) && Keeps(s, t, c) && At(t, c, Armed) && Stale(t, c)
    ensures !E.Waits(t.io.contexts, t.calls[c].fd, t.calls[c].event)
  {
    hide Inv, Leads, E.Apply, R.Apply;
    var k := s.calls[c];
    if E.Waits(s.io.contexts, k.fd, k.event) {
      var a := OtherEvent(E.Delete(k.fd, k.event, true));
      t := Apply(s, a);
      TimeOk(s);
      DeleteFrees(s.io, k.fd, k.event);
      LeadsStep(s, a, c);
      Step(s, a);
    } else {
      t := s;
      LeadsSelf(s, c);
    }
  }

  lemma DeleteFrees(io: E.State, fd: nat, e: E.Event)
    requires E.Inv(io) && E.Waits(io.contexts, fd, e)
    ensures var io' := E.Apply(io, E.Delete(fd, e, true)); !io'.failed && !E.Waits(io'.contexts, fd, e)
  {
    hide E.CountOk, E.TokensOk, E.ScheduledOk, E.InterestOk, E.ContextsOk;
    var left := io.contexts[fd].events - {e};
    IoSafety.WatchKeeps(io, fd, left);
    IoSafety.DropKeeps(E.Watch(io, fd, left), fd, e);
  }

  /** The call parks. */
  lemma ParkHere(s: State, c: nat) returns (t: State)
    requires Inv(s) && !s.io.failed && At(s, c, Armed) && Stale(s, c)
    requires !E.Waits(s.io.contexts, s.calls[c].fd, s.calls[c].event)
    ensures Inv(t) && Leads(s, t, c) && Keeps(s, t, c) && Stale(t, c)
    ensures t.calls[c].pc.Parked? && Key(t.calls[c]) in t.io.live && t.io.live[Key(t.calls[c])] == t.calls[c].pc.token
  {
    hide Inv, Leads, E.Apply, R.Apply, E.Inv, E.Waits;
    var a := Park(c, 0, true);
    t := Apply(s, a);
    TimeOk(s);
    ParkMakes(s, a);
    LeadsStep(s, a, c);
    Step(s, a);
  }

  /** The pending callback of the earlier timer sets the flag. */
  lemma SetTheFlag(s: State, c: nat) returns (t: State)
    requires Inv(s) && !s.io.failed && c in s.calls && s.calls[c].pc.Parked? && Stale(s, c)
    requires Key(s.calls[c]) in s.io.live && s.io.live[Key(s.calls[c])] == s.calls[c].pc.token
    ensures Inv(t) && Leads(s, t, c) && Keeps(s, t, c) && t.calls[c].cancelled
    ensures t.calls[c].pc.Parked? && Key(t.calls[c]) in t.io.live && t.io.live[Key(t.calls[c])] == t.calls[c].pc.token
  {
    hide Inv, Leads, Without;
    if s.calls[c].cancelled {
      t := s;
      LeadsSelf(s, c);
    } else {
      var i :| 0 <= i < |s.callbacks| && s.callbacks[i] == c;
      t := Apply(s, RunCallback(i));
      LeadsStep(s, RunCallback(i), c);
      Step(s, RunCallback(i));
    }
  }

  /** A cancelEvent wakes the call. */
  lemma WakeIt(s: State, c: nat) returns (t: State)
    requires Inv(s) && !s.io.failed && c in s.calls && s.calls[c].pc.Parked? && s.calls[c].cancelled
    requires Key(s.calls[c]) in s.io.live && s.io.live[Key(s.calls[c])] == s.calls[c].pc.token
    ensures Inv(t) && Leads(s, t, c) && Keeps(s, t, c) && t.calls[c].cancelled
    ensures t.calls[c].pc.Parked? && t.calls[c].pc.token in t.io.woken
  {
    hide Inv, Leads, E.Apply, R.Apply, E.Inv;
    var k := s.calls[c];
    var a := OtherEvent(E.Cancel(k.fd, k.event, true));
    TimeOk(s);
    t := Apply(s, a);
    CancelTriggers(s.io, k.fd, k.event);
    LeadsStep(s, a, c);
    Step(s, a);
  }

  /** It resumes, cancels its timer and sees the flag. */
  lemma ReturnIt(s: State, c: nat) returns (t: State)
    requires !s.io.failed && c in s.calls && s.calls[c].pc.Parked? && s.calls[c].cancelled
    requires s.calls[c].pc.token in s.io.woken
    ensures Leads(s, t, c) && Keeps(s, t, c) && At(t, c, Returned(TimedOut))
  {
    hide Leads, E.Apply, R.Apply;
    var s1 := Apply(s, Resume(c));
    LeadsStep(s, Resume(c), c);
    var s2 := Apply(s1, Disarm(c));
    CancelClock(s1.time);
    LeadsStep(s1, Disarm(c), c);
    t := Apply(s2, Check(c));
    LeadsStep(s2, Check(c), c);
    LeadsOn(s, s1, s2, c);
    LeadsOn(s, s2, t, c);
  }

  lemma StaleReturns(s: State, c: nat)
    requires Inv(s) && !s.io.failed && At(s, c, Armed) && Stale(s, c) && s.time.clock < s.calls[c].deadline
    ensures exists t :: Leads(s, t, c) && Early(t, c, s.calls[c].deadline)
  {
    hide Inv, Leads, Stale, E.Waits;
    var s1 := FreeTheEvent(s, c);
    var s2 := ParkHere(s1, c);
    var s3 := SetTheFlag(s2, c);
    var s4 := WakeIt(s3, c);
    var t := ReturnIt(s4, c);
    LeadsOn(s, s1, s2, c);
    LeadsOn(s, s2, s3, c);
    LeadsOn(s, s3, s4, c);
    LeadsOn(s, s4, t, c);
    assert Early(t, c, s.calls[c].deadline);
  }

  // ---------------------------------------------------------------- both directions

  lemma {:induction false} NoArmKeeps(s: State, run: seq<Action>, c: nat)
    requires IsRun(s, run) && NoArm(run, c) && c in s.calls
    ensures NoStaleArm(s, run, c)
    ensures c in After(s, run).calls && After(s, run).calls[c].deadline == s.calls[c].deadline
    ensures s.time.clock <= After(s, run).time.clock
    decreases |run|
  {
    hide Enabled, Apply, Stale;
    if run != [] {
      DeadlineStays(s, run[0], c);
      ClockStep(s, run[0]);
      NoArmKeeps(Apply(s, run[0]), run[1..], c);
    }
  }

  lemma DeadlineStays(s: State, a: Action, c: nat)
    requires Enabled(s, a) && !(a.Arm? && a.c == c) && c in s.calls
    ensures c in Apply(s, a).calls && Apply(s, a).calls[c].deadline == s.calls[c].deadline
  {
    hide R.Apply, R.Enabled, E.Apply, CallbacksOf, Without, IsCall;
  }

  /** After a call of do_io has added a timer in a state that a run reaches, it can return by timeout before the deadline of
      that timer if and only if that deadline is still to come and an earlier timer of the call has set its flag or has its
      callback pending. */
  lemma EarlyTimeoutIff(s: State, run: seq<Action>, c: nat, now: nat, addr: nat)
    requires Init(s) && IsRun(s, run)
    requires Enabled(After(s, run), Arm(c, now, addr)) && After(s, run).calls[c].timeout.Some?
    ensures var before := After(s, run);
            var armed := Apply(before, Arm(c, now, addr));
            var deadline := now + before.calls[c].timeout.value;
            (exists t :: Leads(armed, t, c) && Early(t, c, deadline)) <==> Stale(before, c) && armed.time.clock < deadline
  {
    hide Init, IsRun, After, Inv, Leads, Early;
    InitOk(s);
    RunKeeps(s, run);
    var before := After(s, run);
    var armed := Apply(before, Arm(c, now, addr));
    var deadline := now + before.calls[c].timeout.value;
    Step(before, Arm(c, now, addr));
    ArmedThere(before, c, now, addr);
    if Stale(before, c) && armed.time.clock < deadline {
      StaleReturns(armed, c);
    }
    if t :| Leads(armed, t, c) && Early(t, c, deadline) {
      EarlyIsStale(armed, t, c);
    }
  }

  lemma ArmedThere(s: State, c: nat, now: nat, addr: nat)
    requires Enabled(s, Arm(c, now, addr)) && s.calls[c].timeout.Some?
    ensures var t := Apply(s, Arm(c, now, addr));
            && At(t, c, Armed) && !t.io.failed && t.calls[c].deadline == now + s.calls[c].timeout.value
            && (Stale(t, c) <==> Stale(s, c))
  {
    hide R.Apply, R.Enabled;
  }

  lemma EarlyIsStale(s: State, t: State, c: nat)
    requires Inv(s) && c in s.calls && Leads(s, t, c) && Early(t, c, s.calls[c].deadline)
    ensures Stale(s, c) && s.time.clock < s.calls[c].deadline
  {
    hide Inv, IsRun, After, Stale;
    var run :| IsRun(s, run) && NoArm(run, c) && After(s, run) == t;
    NoArmKeeps(s, run, c);
    if !Stale(s, c) {
      NotStale(s, c);
      OnTimeRun(s, run, c);
      TimedOutIsDue(t, c);
    }
  }
}
