/** What do_io guarantees over every run: a call that returns leaves nothing behind, and times out no earlier than asked. */
module DoIoSafety {
  import opened Codec
  import opened DoIo
  import T = TimerQueue
  import R = TimerRuns
  import E = IoEvents
  import IoSafety

  // ---------------------------------------------------------------- registrations

  /** A change of calls that leaves parked calls parked, or whose registrations are spent. */
  lemma RegistrationsKept(s: State, s': State)
    requires RegistrationsOk(s)
    requires forall k :: k in s'.io.live ==> k in s.io.live && s'.io.live[k] == s.io.live[k]
    requires forall k, c :: k in s'.io.live && At(s, c, Parked(s'.io.live[k])) ==> At(s', c, Parked(s'.io.live[k]))
    ensures RegistrationsOk(s')
  {
  }

  /** Only a call of addEvent makes a registration. */
  lemma LiveAfter(io: E.State, a: E.Action)
    requires E.Inv(io) && E.Enabled(io, a)
    ensures var io' := E.Apply(io, a);
            forall k :: k in io'.live ==>
              || (k in io.live && io'.live[k] == io.live[k])
              || (a.Add? && a.ok && io'.added != [] && io'.live[k] == io'.added[|io'.added| - 1]
                  && io'.live[k].waiter == a.waiter)
  {
    hide E.Inv, E.Found;
  }

  lemma SpentNotLive(io: E.State, t: E.Token)
    requires E.Inv(io) && t in io.woken
    ensures forall k :: k in io.live ==> io.live[k] != t
  {
  }

  // ---------------------------------------------------------------- timers

  lemma AddedEntries(w: R.World, a: R.Action)
    requires R.Inv(w) && R.Enabled(w, a) && a.Add?
    ensures forall e :: e in R.Apply(w, a).m.entries <==>
                          e in w.m.entries || e == T.NewEntry(a.now, a.ms, a.addr, a.recurring, a.cb)
    ensures forall e :: e in w.m.entries ==> e.addr != a.addr
  {
  }

  /** Refreshing or resetting leaves an entry of the same address, callback and recurrence. */
  lemma MovedEntries(w: R.World, a: R.Action)
    requires R.Inv(w) && R.Enabled(w, a) && (a.RefreshTimer? || a.ResetTimer?)
    ensures forall e :: e in R.Apply(w, a).m.entries ==>
              e in w.m.entries || exists d :: d in w.m.entries && d.addr == e.addr == a.addr && d.cb == e.cb
  {
    hide T.Insert, T.LowerBound, T.EraseAt, R.PromisesOk, T.Sorted, T.DistinctAddresses;
    var es := w.m.entries;
    var i := T.IndexOf(es, a.addr);
    if i < |es| {
      var d := es[i];
      T.ErasedAt(es, i);
      T.ErasedNew(es, i);
      if a.RefreshTimer? {
        T.InsertedMembers(T.EraseAt(es, i), d.(next := (a.now + d.ms) % T.WORD));
      } else if !(a.ms == d.ms && !a.fromNow) {
        T.InsertedMembers(T.EraseAt(es, i), d.(ms := a.ms, next := (T.ResetStart(d, a.fromNow, a.now) + a.ms) % T.WORD));
      }
      assert d in es;
    }
  }

  /** After a foreign step every timer of a call is an old one. */
  lemma ForeignEntries(s: State, t: R.Action)
    requires R.Inv(s.time) && R.Enabled(s.time, t) && ForeignTimer(s, t)
    ensures forall e :: e in R.Apply(s.time, t).m.entries && IsCall(e.cb) ==> e in s.time.m.entries
  {
    hide IsCall, R.Inv, R.Enabled, R.Apply, T.Cancel, T.Sorted, T.DistinctAddresses;
    match t
    case Add(_, _, _, _, _) => AddedEntries(s.time, t);
    case CancelTimer(addr) => CancelWorld(s.time, addr);
    case RefreshTimer(_, _) => MovedEntries(s.time, t);
    case ResetTimer(_, _, _, _) => MovedEntries(s.time, t);
    case GetNext(now) => GetNextEntries(s.time, now);
  }

  lemma GetNextEntries(w: R.World, now: nat)
    ensures R.Apply(w, R.GetNext(now)).m.entries == w.m.entries
  {
  }

  lemma CancelWorld(w: R.World, addr: nat)
    requires R.Inv(w)
    ensures var w' := R.Apply(w, R.CancelTimer(addr));
            && w'.handed == w.handed && w'.clock == w.clock
            && forall e :: e in w'.m.entries <==> e in w.m.entries && e.addr != addr
  {
  }

  /** Only expiry hands anything out, and the clock does not step back. */
  lemma ClockAndHanded(w: R.World, a: R.Action)
    requires R.Enabled(w, a)
    ensures w.clock <= R.Apply(w, a).clock
    ensures R.Apply(w, a).handed == w.handed + if a.Expire? then T.ListExpired(w.m, a.now).1 else []
  {
  }

  lemma ExpiredEntries(w: R.World, now: nat)
    requires R.Inv(w) && R.Enabled(w, R.Expire(now))
    ensures var (m', taken) := T.ListExpired(w.m, now);
            && (forall e :: e in taken ==> e in w.m.entries && e.next <= now)
            && (forall e :: e in m'.entries ==>
                  e in w.m.entries || exists d :: d in w.m.entries && d.recurring && d.cb == e.cb)
  {
    hide T.ListExpired, T.Sorted, T.DistinctAddresses, R.PromisesOk, R.HandedOk, T.Rollover, R.NoWrap;
    R.NotRolled(w, now);
    T.ExpiryExact(w.m, now);
  }

  lemma {:induction false} CallbacksMeaning(taken: seq<T.Entry>)
    ensures forall c :: c in CallbacksOf(taken) <==> IsCall(c) && exists i :: 0 <= i < |taken| && taken[i].cb == c
    decreases |taken|
  {
    if taken != [] {
      var n := |taken| - 1;
      CallbacksMeaning(taken[..n]);
      forall c ensures c in CallbacksOf(taken) <==> IsCall(c) && exists i :: 0 <= i < |taken| && taken[i].cb == c {
        if IsCall(c) && exists i :: 0 <= i < |taken| && taken[i].cb == c {
          var i :| 0 <= i < |taken| && taken[i].cb == c;
          assert i < n ==> taken[..n][i].cb == c;
        }
        if c in CallbacksOf(taken[..n]) {
          var i :| 0 <= i < n && taken[..n][i].cb == c;
          assert taken[i].cb == c;
        }
        assert taken[n].cb == taken[n].cb;
      }
    }
  }

  // ---------------------------------------------------------------- steps of the call itself

  /** A change of one call that has no timer armed afterwards, or keeps its timer armed. */
  lemma TimersKept(s: State, s': State)
    requires TimersOk(s)
    requires forall e :: e in s'.time.m.entries && IsCall(e.cb) ==>
               e in s.time.m.entries && (OwnedTimer(s, e) ==> OwnedTimer(s', e))
    ensures TimersOk(s')
  {
  }

  lemma ExpiredKept(s: State, s': State)
    requires s.time.clock <= s'.time.clock && s.time.handed <= s'.time.handed
    requires forall c :: c in s.calls ==> c in s'.calls && s'.calls[c].timeout == s.calls[c].timeout && s'.calls[c].begun == s.calls[c].begun
    ensures forall c :: Expired(s, c) ==> Expired(s', c)
  {
  }

  /** Nothing about callbacks changes but the place where one call is. */
  lemma CallbacksKept(s: State, s': State)
    requires CallbacksOk(s) && s.time.clock <= s'.time.clock && s.time.handed <= s'.time.handed
    requires forall c :: c in s.calls ==> c in s'.calls && s'.calls[c].timeout == s.calls[c].timeout && s'.calls[c].begun == s.calls[c].begun
    requires forall c :: c in s'.callbacks ==> c in s.callbacks || Expired(s', c)
    requires forall c :: c in s'.calls && s'.calls[c].cancelled ==> (c in s.calls && s.calls[c].cancelled) || Expired(s', c)
    requires forall c :: At(s', c, Returned(TimedOut)) ==> s'.calls[c].cancelled
    ensures CallbacksOk(s')
  {
  }

  lemma BeginStep(s: State, a: Action)
    requires Inv(s) && Enabled(s, a) && a.Begin?
    ensures Inv(Apply(s, a))
  {
    hide E.Inv, R.Inv, Expired, IsCall, MayBeArmed, RegistrationsOk, TimersOk, CallbacksOk;
    var s' := Apply(s, a);
    RegistrationsKept(s, s');
    TimersKept(s, s');
    OthersTimedOut(s, s', a.c);
    CallbacksKept(s, s');
  }

  lemma OthersTimedOut(s: State, s': State, c: nat)
    requires CallbacksOk(s)
    requires forall d :: d in s'.calls && d != c ==> d in s.calls && s'.calls[d] == s.calls[d]
    requires At(s', c, Returned(TimedOut)) ==> s'.calls[c].cancelled
    ensures forall d :: At(s', d, Returned(TimedOut)) ==> s'.calls[d].cancelled
  {
  }

  /** Trying, resuming and checking move one call; the timers stay as they are. */
  lemma MoveStep(s: State, a: Action)
    requires Inv(s) && Enabled(s, a) && (a.Try? || a.Resume? || a.Check?)
    ensures Inv(Apply(s, a))
  {
    hide E.Inv, R.Inv, Expired, IsCall, RegistrationsOk, TimersOk, CallbacksOk;
    var s' := Apply(s, a);
    if a.Resume? {
      SpentNotLive(s.io, s.calls[a.c].pc.token);
    }
    RegistrationsKept(s, s');
    TimersKept(s, s');
    OthersTimedOut(s, s', a.c);
    CallbacksKept(s, s');
  }

  lemma ArmStep(s: State, a: Action)
    requires Inv(s) && Enabled(s, a) && a.Arm?
    ensures Inv(Apply(s, a))
  {
    hide E.Inv, R.Inv, R.Enabled, R.Apply, Expired, RegistrationsOk, TimersOk, CallbacksOk;
    var s' := Apply(s, a);
    RegistrationsKept(s, s');
    if s.calls[a.c].timeout.Some? {
      R.Step(s.time, ArmTimer(s, a.c, a.now, a.addr));
      AddedEntries(s.time, ArmTimer(s, a.c, a.now, a.addr));
      ClockAndHanded(s.time, ArmTimer(s, a.c, a.now, a.addr));
      ArmedTimers(s, a);
    } else {
      TimersKept(s, s');
    }
    OthersTimedOut(s, s', a.c);
    CallbacksKept(s, s');
  }

  lemma ArmedTimers(s: State, a: Action)
    requires Inv(s) && Enabled(s, a) && a.Arm? && s.calls[a.c].timeout.Some?
    ensures TimersOk(Apply(s, a))
  {
    hide E.Inv, R.Inv, R.Apply, RegistrationsOk, CallbacksOk;
    var s' := Apply(s, a);
    AddedEntries(s.time, ArmTimer(s, a.c, a.now, a.addr));
    FitsWord(s, a);
    forall e | e in s'.time.m.entries ensures OwnedTimer(s', e) {
      if e in s.time.m.entries {
        assert OwnedTimer(s, e);
      }
    }
  }

  lemma FitsWord(s: State, a: Action)
    requires Enabled(s, a) && a.Arm? && s.calls[a.c].timeout.Some?
    ensures var to := s.calls[a.c].timeout.value;
            T.NewEntry(a.now, to, a.addr, false, a.c) == T.Entry(a.now + to, a.addr, to, false, a.c)
  {
  }

  lemma ParkStep(s: State, a: Action)
    requires Inv(s) && Enabled(s, a) && a.Park?
    ensures Inv(Apply(s, a))
  {
    hide E.Inv, R.Inv, E.Apply, Expired, RegistrationsOk, TimersOk, CallbacksOk;
    var s' := Apply(s, a);
    var e := ParkEvent(s, a.c, a.scheduler, a.ok);
    EventStep(s.io, e);
    LiveAfter(s.io, e);
    forall k | k in s'.io.live ensures OwnedToken(s', s'.io.live[k]) {
      if k in s.io.live && s'.io.live[k] == s.io.live[k] {
        OldOwner(s, k);
      }
    }
    RegistrationsAre(s');
    TimersKept(s, s');
    OthersTimedOut(s, s', a.c);
    CallbacksKept(s, s');
  }

  lemma OldOwner(s: State, k: (nat, E.Event))
    requires RegistrationsOk(s) && k in s.io.live
    ensures OwnedToken(s, s.io.live[k])
  {
  }

  lemma RegistrationsAre(s: State)
    requires forall k :: k in s.io.live ==> OwnedToken(s, s.io.live[k])
    ensures RegistrationsOk(s)
  {
  }

  lemma EventStep(io: E.State, e: E.Action)
    requires E.Inv(io) && E.Enabled(io, e)
    ensures !E.Apply(io, e).failed ==> E.Inv(E.Apply(io, e))
  {
    hide E.Inv, E.Apply, IoSafety.Fails;
    IoSafety.Step(io, e);
  }

  lemma DisarmStep(s: State, a: Action)
    requires Inv(s) && Enabled(s, a) && (a.GiveUp? || a.Disarm?)
    ensures Inv(Apply(s, a))
  {
    hide E.Inv, R.Inv, R.Apply, Expired, RegistrationsOk, TimersOk, CallbacksOk;
    var s' := Apply(s, a);
    var timer := s.calls[a.c].timer;
    RegistrationsKept(s, s');
    if timer.Some? {
      CancelOk(s.time, timer.value);
      CancelWorld(s.time, timer.value);
    }
    forall e | e in s'.time.m.entries && IsCall(e.cb) ensures OwnedTimer(s, e) ==> OwnedTimer(s', e) {
    }
    TimersKept(s, s');
    OthersTimedOut(s, s', a.c);
    CallbacksKept(s, s');
  }

  lemma CancelOk(w: R.World, addr: nat)
    requires R.Inv(w)
    ensures R.Inv(R.Apply(w, R.CancelTimer(addr)))
  {
    hide R.Inv, R.Apply;
    R.Step(w, R.CancelTimer(addr));
  }

  lemma ExpireStep(s: State, a: Action)
    requires Inv(s) && Enabled(s, a) && a.Expire?
    ensures Inv(Apply(s, a))
  {
    hide E.Inv, R.Inv, R.Enabled, Expired, RegistrationsOk, TimersOk, CallbacksOk, T.ListExpired, CallbacksOf, IsCall;
    var s' := Apply(s, a);
    R.Step(s.time, R.Expire(a.now));
    ExpiredEntries(s.time, a.now);
    ExpiredTimers(s, a);
    RegistrationsKept(s, s');
    ClockAndHanded(s.time, R.Expire(a.now));
    forall c | c in CallbacksOf(T.ListExpired(s.time.m, a.now).1) ensures Expired(s', c) {
      NewlyExpired(s, a, c);
    }
    OldTimedOut(s);
    CallbacksKept(s, s');
  }

  lemma OldTimedOut(s: State)
    requires CallbacksOk(s)
    ensures forall c :: At(s, c, Returned(TimedOut)) ==> s.calls[c].cancelled
  {
  }

  lemma ExpiredTimers(s: State, a: Action)
    requires Inv(s) && Enabled(s, a) && a.Expire?
    ensures TimersOk(Apply(s, a))
  {
    hide E.Inv, R.Inv, R.Enabled, RegistrationsOk, CallbacksOk, T.ListExpired, CallbacksOf, IsCall;
    var s' := Apply(s, a);
    ExpiredEntries(s.time, a.now);
    CallsDoNotRecur(s);
    assert forall e :: e in s'.time.m.entries && IsCall(e.cb) ==> e in s.time.m.entries;
    hide TimersOk;
    TimersKept(s, s');
  }

  lemma CallsDoNotRecur(s: State)
    requires TimersOk(s)
    ensures forall e :: e in s.time.m.entries && e.recurring ==> !IsCall(e.cb)
  {
  }

  lemma NewlyExpired(s: State, a: Action, c: nat)
    requires Inv(s) && Enabled(s, a) && a.Expire? && c in CallbacksOf(T.ListExpired(s.time.m, a.now).1)
    ensures Expired(Apply(s, a), c)
  {
    hide E.Inv, R.Inv, R.Enabled, RegistrationsOk, CallbacksOk, T.ListExpired, CallbacksOf;
    var s', taken := Apply(s, a), T.ListExpired(s.time.m, a.now).1;
    ExpiredEntries(s.time, a.now);
    CallbacksMeaning(taken);
    var i :| 0 <= i < |taken| && taken[i].cb == c;
    assert taken[i] in taken;
    assert OwnedTimer(s, taken[i]);
    assert s'.time.handed[|s.time.handed| + i] == taken[i];
  }

  lemma WithoutKeeps<A>(xs: seq<A>, i: nat)
    requires i < |xs|
    ensures forall x :: x in Without(xs, i) ==> x in xs
    ensures forall x :: x in xs && x != xs[i] ==> x in Without(xs, i)
  {
    assert xs == xs[..i] + [xs[i]] + xs[i + 1..];
  }

  lemma RunCallbackStep(s: State, a: Action)
    requires Inv(s) && Enabled(s, a) && a.RunCallback?
    ensures Inv(Apply(s, a))
  {
    hide E.Inv, R.Inv, Expired, IsCall, RegistrationsOk, TimersOk, Without;
    var s' := Apply(s, a);
    var c := s.callbacks[a.i];
    assert c in s.callbacks && Expired(s, c);
    WithoutKeeps(s.callbacks, a.i);
    ExpiredKept(s, s');
    RegistrationsKept(s, s');
    TimersKept(s, s');
    hide CallbacksOk;
    OldTimedOut(s);
    CallbacksKept(s, s');
  }

  /** Events change; calls and timers do not. */
  lemma EventsStep(s: State, a: Action)
    requires Inv(s) && Enabled(s, a) && (a.CancelEvent? || a.OtherEvent?)
    ensures Inv(Apply(s, a))
  {
    hide E.Inv, R.Inv, E.Apply, Expired, RegistrationsOk, TimersOk, CallbacksOk, Without;
    var s' := Apply(s, a);
    var e := if a.OtherEvent? then a.e else E.Cancel(s.cancelling[a.i].0, s.cancelling[a.i].1, a.ok);
    EventStep(s.io, e);
    LiveAfter(s.io, e);
    forall k | k in s'.io.live ensures OwnedToken(s', s'.io.live[k]) {
      if k in s.io.live && s'.io.live[k] == s.io.live[k] {
        OldOwner(s, k);
      }
    }
    RegistrationsAre(s');
    TimersKept(s, s');
    OldTimedOut(s);
    CallbacksKept(s, s');
  }

  lemma OtherTimerStep(s: State, a: Action)
    requires Inv(s) && Enabled(s, a) && a.OtherTimer?
    ensures Inv(Apply(s, a))
  {
    hide E.Inv, R.Inv, R.Enabled, R.Apply, Expired, RegistrationsOk, TimersOk, CallbacksOk, IsCall;
    var s' := Apply(s, a);
    R.Step(s.time, a.t);
    ForeignEntries(s, a.t);
    ClockAndHanded(s.time, a.t);
    RegistrationsKept(s, s');
    TimersKept(s, s');
    OldTimedOut(s);
    CallbacksKept(s, s');
  }

  lemma Step(s: State, a: Action)
    requires Inv(s) && Enabled(s, a)
    ensures Inv(Apply(s, a))
  {
    hide Inv, Enabled, Apply;
    match a
    case Begin(_, _, _, _, _) => BeginStep(s, a);
    case Try(_, _) => MoveStep(s, a);
    case Arm(_, _, _) => ArmStep(s, a);
    case Park(_, _, _) => ParkStep(s, a);
    case GiveUp(_) => DisarmStep(s, a);
    case Resume(_) => MoveStep(s, a);
    case Disarm(_) => DisarmStep(s, a);
    case Check(_) => MoveStep(s, a);
    case Expire(_) => ExpireStep(s, a);
    case RunCallback(_) => RunCallbackStep(s, a);
    case CancelEvent(_, _) => EventsStep(s, a);
    case OtherEvent(_) => EventsStep(s, a);
    case OtherTimer(_) => OtherTimerStep(s, a);
  }

  // ---------------------------------------------------------------- whole runs

  /** Nothing has happened yet; the manager's constructor read the clock. */
  predicate Init(s: State) {
    R.Init(s.time) && s.io == IoSafety.FreshState() && s.calls == map[] && s.callbacks == [] && s.cancelling == []
  }

  predicate IsRun(s: State, run: seq<Action>)
    decreases |run|
  {
    run == [] || (Enabled(s, run[0]) && IsRun(Apply(s, run[0]), run[1..]))
  }

  function After(s: State, run: seq<Action>): State
    requires IsRun(s, run)
    decreases |run|
  {
    if run == [] then s else After(Apply(s, run[0]), run[1..])
  }

  lemma InitOk(s: State)
    requires Init(s)
    ensures Inv(s)
  {
    hide R.Inv, E.Inv, R.Init;
    R.InitOk(s.time);
    IoSafety.FreshOk();
    NoEntries(s);
  }

  lemma NoEntries(s: State)
    requires Init(s)
    ensures s.time.m.entries == []
  {
  }

  lemma {:induction false} RunKeeps(s: State, run: seq<Action>)
    requires Inv(s) && IsRun(s, run)
    ensures Inv(After(s, run))
    decreases |run|
  {
    hide Inv, Enabled, Apply;
    if run != [] {
      Step(s, run[0]);
      RunKeeps(Apply(s, run[0]), run[1..]);
    }
  }

  /** In every state of every run, a call that has returned has no registration and no armed timer, however often it was
      interrupted, retried or cancelled. */
  lemma NothingLeftBehind(s: State, run: seq<Action>, c: nat)
    requires Init(s) && IsRun(s, run) && HasReturned(After(s, run), c) && IsCall(c)
    ensures var t := After(s, run);
            && (forall k :: k in t.io.live ==> t.io.live[k].waiter != E.FiberWaiter(c))
            && (forall e :: e in t.time.m.entries ==> e.cb != c)
  {
    hide Init, IsRun, After, R.Inv, E.Inv, CallbacksOk, IsCall;
    InitOk(s);
    RunKeeps(s, run);
    var t := After(s, run);
    forall k | k in t.io.live ensures t.io.live[k].waiter != E.FiberWaiter(c) {
      assert OwnedToken(t, t.io.live[k]);
    }
    forall e | e in t.time.m.entries ensures e.cb != c {
      assert OwnedTimer(t, e);
    }
  }

  /** A call that returned by timeout has had its flag set, which only a callback of its own timers does, one of these
      timers was handed out, and its timeout has passed since it began. */
  lemma TimeoutIsDue(s: State, run: seq<Action>, c: nat)
    requires Init(s) && IsRun(s, run) && At(After(s, run), c, Returned(TimedOut))
    ensures var t := After(s, run);
            && t.calls[c].cancelled && t.calls[c].timeout.Some?
            && t.calls[c].begun + t.calls[c].timeout.value <= t.time.clock
            && exists i :: 0 <= i < |t.time.handed| && t.time.handed[i].cb == c
  {
    hide Init, IsRun, After, R.Inv, E.Inv, RegistrationsOk, TimersOk;
    InitOk(s);
    RunKeeps(s, run);
  }
}
