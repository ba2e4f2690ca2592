/** When a parked call of do_io can no longer time out. */
module DoIoWatch {
  import opened Codec
  import opened DoIo
  import opened DoIoSafety
  import T = TimerQueue
  import R = TimerRuns
  import E = IoEvents
  import IoSafety

  predicate HasTimer(s: State, c: nat) {
    exists e :: e in s.time.m.entries && e.cb == c
  }

  function Key(k: Call): (nat, E.Event) {
    (k.fd, k.event)
  }

  /** The call has a timeout and waits for its registration. */
  predicate Waiting(s: State, c: nat) {
    && !s.io.failed && c in s.calls && s.calls[c].timeout.Some? && s.calls[c].pc.Parked?
    && Key(s.calls[c]) in s.io.live && s.io.live[Key(s.calls[c])] == s.calls[c].pc.token
  }

  /** Its timer is armed or its callback pending, and the flag is not yet set; or a cancelEvent is on its way. */
  predicate CanTimeOut(s: State, c: nat)
    requires c in s.calls
  {
    (!s.calls[c].cancelled && (HasTimer(s, c) || c in s.callbacks)) || Key(s.calls[c]) in s.cancelling
  }

  predicate TimeoutLost(s: State, c: nat) {
    Waiting(s, c) && !CanTimeOut(s, c)
  }

  /** The two ways to lose a timeout: to park with the flag already set and its cancelEvent already made, or to have the
      only cancelEvent on its way fail. */
  predicate Loses(s: State, a: Action, c: nat) {
    c in s.calls && s.calls[c].timeout.Some? && s.calls[c].cancelled
    && match a
       case Park(d, _, ok) =>
         d == c && ok && Key(s.calls[c]) !in s.cancelling && !E.Waits(s.io.contexts, s.calls[c].fd, s.calls[c].event)
       case CancelEvent(i, ok) =>
         && !ok && Waiting(s, c) && i < |s.cancelling| && s.cancelling[i] == Key(s.calls[c])
         && Key(s.calls[c]) !in Without(s.cancelling, i)
       case _ => false
  }

  // ---------------------------------------------------------------- invariants

  /** Between adding its timer and being woken, with the flag not set. */
  predicate Needs(k: Call) {
    k.timeout.Some? && !k.cancelled && (k.pc == Armed || k.pc.Parked?)
  }

  /** A call in need of its timer has it armed, or its callback pending. */
  predicate WatchOk(s: State) {
    forall c :: c in s.calls && Needs(s.calls[c]) ==> HasTimer(s, c) || c in s.callbacks
  }

  /** No two calls have the same timer. */
  predicate OwnTimers(s: State) {
    && (forall c :: c in s.calls && s.calls[c].timer.Some? ==> s.calls[c].timer.value in s.time.issued)
    && (forall c, d :: c in s.calls && d in s.calls && c != d && s.calls[c].timer.Some? ==> s.calls[c].timer != s.calls[d].timer)
  }

  /** Calls go by even numbers, and park on registrations of their own. */
  predicate ParkedOk(s: State) {
    forall c :: c in s.calls ==>
      IsCall(c) && (s.calls[c].pc.Parked? && !s.io.failed ==> s.calls[c].pc.token.waiter == E.FiberWaiter(c))
  }

  ghost predicate Inv2(s: State) {
    Inv(s) && WatchOk(s) && OwnTimers(s) && ParkedOk(s)
  }

  // ---------------------------------------------------------------- timers

  /** What changes about timers: nothing is unissued, and timers of calls stay or are handed out, but for one address. */
  lemma IssuedGrows(w: R.World, a: R.Action)
    ensures R.Apply(w, a).issued == w.issued + if a.Add? then {a.addr} else {}
  {
    hide T.Insert, T.ListExpired, T.Cancel, T.Refresh, T.Reset, T.AddEntry;
  }

  /** A foreign step keeps the timers of calls armed. */
  lemma ForeignKeeps(s: State, t: R.Action, e: T.Entry)
    requires R.Inv(s.time) && R.Enabled(s.time, t) && ForeignTimer(s, t) && e in s.time.m.entries && IsCall(e.cb)
    ensures e in R.Apply(s.time, t).m.entries
  {
    hide R.Inv, R.Enabled, R.Apply, IsCall;
    match t
    case Add(_, _, _, _, _) => AddedEntries(s.time, t);
    case CancelTimer(addr) => CancelWorld(s.time, addr);
    case RefreshTimer(_, _) => UnmovedEntries(s.time, t, e);
    case ResetTimer(_, _, _, _) => UnmovedEntries(s.time, t, e);
    case GetNext(now) => GetNextEntries(s.time, now);
  }

  /** Refreshing or resetting one timer leaves the others alone. */
  lemma UnmovedEntries(w: R.World, a: R.Action, e: T.Entry)
    requires R.Inv(w) && R.Enabled(w, a) && (a.RefreshTimer? || a.ResetTimer?) && e in w.m.entries && e.addr != a.addr
    ensures e in R.Apply(w, a).m.entries
  {
    hide T.Insert, T.LowerBound, T.EraseAt, R.PromisesOk, T.Sorted, T.DistinctAddresses;
    var es := w.m.entries;
    var i := T.IndexOf(es, a.addr);
    if i < |es| {
      var d := es[i];
      T.ErasedAt(es, i);
      T.ErasedNew(es, i);
      if a.RefreshTimer? {
        T.InsertedMembers(T.EraseAt(es, i), d.(next := (a.now + d.ms) % T.WORD));
      } else if !(a.ms == d.ms && !a.fromNow) {
        T.InsertedMembers(T.EraseAt(es, i), d.(ms := a.ms, next := (T.ResetStart(d, a.fromNow, a.now) + a.ms) % T.WORD));
      }
    }
  }

  /** An armed timer is handed out or stays. */
  lemma ExpiredOrArmed(w: R.World, now: nat, e: T.Entry)
    requires R.Inv(w) && R.Enabled(w, R.Expire(now)) && e in w.m.entries
    ensures e in T.ListExpired(w.m, now).1 || e in T.ListExpired(w.m, now).0.entries
  {
    hide T.ListExpired, T.Sorted, T.DistinctAddresses, R.PromisesOk, R.HandedOk, T.Rollover, R.NoWrap;
    T.ExpiryExact(w.m, now);
  }

  lemma ExpiryWatches(s: State, now: nat, c: nat)
    requires R.Inv(s.time) && Enabled(s, Expire(now)) && IsCall(c) && HasTimer(s, c)
    ensures var s' := Apply(s, Expire(now)); HasTimer(s', c) || c in s'.callbacks
  {
    hide R.Inv, R.Enabled, T.ListExpired, CallbacksOf, IsCall;
    var e :| e in s.time.m.entries && e.cb == c;
    ExpiredOrArmed(s.time, now, e);
    var taken := T.ListExpired(s.time.m, now).1;
    CallbacksMeaning(taken);
    if e in taken {
      var i :| 0 <= i < |taken| && taken[i] == e;
      assert taken[i].cb == c;
    }
  }

  // ---------------------------------------------------------------- one step

  lemma WatchKept(s: State, s': State)
    requires WatchOk(s)
    requires forall c :: c in s'.calls && Needs(s'.calls[c]) ==>
               && c in s.calls && Needs(s.calls[c])
               && (HasTimer(s, c) ==> HasTimer(s', c) || c in s'.callbacks)
               && (c in s.callbacks ==> c in s'.callbacks)
    ensures WatchOk(s')
  {
    hide HasTimer, Needs;
  }

  /** Steps that move a call where it needs no timer, or leave it where it is. */
  lemma WatchMoves(s: State, a: Action)
    requires Inv2(s) && Enabled(s, a) && (a.Begin? || a.Try? || a.Resume? || a.Check? || a.Park?)
    ensures WatchOk(Apply(s, a))
  {
    hide Inv, OwnTimers, ParkedOk, WatchOk, IsCall, E.Apply, HasTimer;
    var s' := Apply(s, a);
    SameTimers(s, s');
    WatchKept(s, s');
  }

  lemma SameTimers(s: State, s': State)
    requires s'.time == s.time
    ensures forall c :: HasTimer(s', c) == HasTimer(s, c)
  {
  }

  lemma WatchArms(s: State, a: Action)
    requires Inv2(s) && Enabled(s, a) && a.Arm?
    ensures WatchOk(Apply(s, a))
  {
    hide Inv, R.Apply, R.Enabled, OwnTimers, ParkedOk, IsCall;
    var s' := Apply(s, a);
    TimeOk(s);
    if s.calls[a.c].timeout.Some? {
      AddedEntries(s.time, ArmTimer(s, a.c, a.now, a.addr));
      var e := T.NewEntry(a.now, s.calls[a.c].timeout.value, a.addr, false, a.c);
      assert e in s'.time.m.entries && e.cb == a.c;
      assert HasTimer(s', a.c);
    }
  }

  lemma TimeOk(s: State)
    requires Inv(s)
    ensures R.Inv(s.time) && TimersOk(s) && CallbacksOk(s) && (!s.io.failed ==> E.Inv(s.io))
  {
    hide R.Inv, E.Inv, TimersOk, CallbacksOk, RegistrationsOk;
  }

  /** timer->cancel() of one call leaves the timers of the others armed. */
  lemma WatchDisarms(s: State, a: Action)
    requires Inv2(s) && Enabled(s, a) && (a.GiveUp? || a.Disarm?)
    ensures WatchOk(Apply(s, a))
  {
    hide Inv, R.Apply, ParkedOk, IsCall, WatchOk, OwnTimers;
    var s' := Apply(s, a);
    TimeOk(s);
    forall c | c in s'.calls && Needs(s'.calls[c]) && HasTimer(s, c) ensures HasTimer(s', c) {
      OthersArmed(s, a, c);
    }
    WatchKept(s, s');
  }

  lemma OthersArmed(s: State, a: Action, c: nat)
    requires Inv2(s) && Enabled(s, a) && (a.GiveUp? || a.Disarm?) && c in s.calls && c != a.c && HasTimer(s, c)
    ensures HasTimer(Apply(s, a), c)
  {
    hide Inv, R.Apply, IsCall, WatchOk;
    TimeOk(s);
    var e :| e in s.time.m.entries && e.cb == c;
    assert OwnedTimer(s, e) && IsCall(c);
    if s.calls[a.c].timer.Some? {
      CancelWorld(s.time, s.calls[a.c].timer.value);
      assert e in Apply(s, a).time.m.entries;
    }
  }

  lemma WatchExpires(s: State, a: Action)
    requires Inv2(s) && Enabled(s, a) && a.Expire?
    ensures WatchOk(Apply(s, a))
  {
    hide Inv, R.Inv, R.Enabled, R.Apply, T.ListExpired, CallbacksOf, IsCall, HasTimer, OwnTimers, WatchOk;
    var s' := Apply(s, a);
    TimeOk(s);
    forall c | c in s'.calls && HasTimer(s, c) ensures HasTimer(s', c) || c in s'.callbacks {
      ExpiryWatches(s, a.now, c);
    }
    WatchKept(s, s');
  }

  lemma WatchRuns(s: State, a: Action)
    requires Inv2(s) && Enabled(s, a) && a.RunCallback?
    ensures WatchOk(Apply(s, a))
  {
    hide Inv, IsCall, HasTimer, OwnTimers, WatchOk, Without;
    var s' := Apply(s, a);
    SameTimers(s, s');
    WithoutKeeps(s.callbacks, a.i);
    WatchKept(s, s');
  }

  lemma WatchOthers(s: State, a: Action)
    requires Inv2(s) && Enabled(s, a) && (a.CancelEvent? || a.OtherEvent? || a.OtherTimer?)
    ensures WatchOk(Apply(s, a))
  {
    hide Inv, R.Inv, R.Enabled, R.Apply, E.Apply, IsCall, OwnTimers, WatchOk, Without;
    var s' := Apply(s, a);
    TimeOk(s);
    if a.OtherTimer? {
      forall c | c in s'.calls && HasTimer(s, c) ensures HasTimer(s', c) {
        var e :| e in s.time.m.entries && e.cb == c;
        ForeignKeeps(s, a.t, e);
      }
    } else {
      SameTimers(s, s');
    }
    WatchKept(s, s');
  }

  lemma OwnTimersStep(s: State, a: Action)
    requires Inv2(s) && Enabled(s, a)
    ensures OwnTimers(Apply(s, a))
  {
    hide Inv, WatchOk, ParkedOk, E.Apply, R.Apply, CallbacksOf, Without, IsCall;
    match a
    case Arm(_, _, _) => OwnTimersArm(s, a);
    case GiveUp(c) => if s.calls[c].timer.Some? { IssuedGrows(s.time, R.CancelTimer(s.calls[c].timer.value)); }
    case Disarm(c) => if s.calls[c].timer.Some? { IssuedGrows(s.time, R.CancelTimer(s.calls[c].timer.value)); }
    case Expire(now) => IssuedGrows(s.time, R.Expire(now));
    case OtherTimer(t) => IssuedGrows(s.time, t);
    case _ =>
  }

  lemma OwnTimersArm(s: State, a: Action)
    requires Inv2(s) && Enabled(s, a) && a.Arm?
    ensures OwnTimers(Apply(s, a))
  {
    hide Inv, WatchOk, ParkedOk, E.Apply, R.Apply, R.Enabled, IsCall;
    if s.calls[a.c].timeout.Some? {
      var t := ArmTimer(s, a.c, a.now, a.addr);
      IssuedGrows(s.time, t);
      FreshAddress(s.time, t);
    }
  }

  lemma FreshAddress(w: R.World, a: R.Action)
    requires R.Enabled(w, a) && a.Add?
    ensures a.addr !in w.issued
  {
  }

  lemma ParkedStep(s: State, a: Action)
    requires Inv2(s) && Enabled(s, a)
    ensures ParkedOk(Apply(s, a))
  {
    hide Inv2, Enabled, Apply, ParkedOk;
    if a.Park? {
      ParkedParks(s, a);
    } else {
      ParkedOthers(s, a);
    }
  }

  lemma ParkedParks(s: State, a: Action)
    requires Inv2(s) && Enabled(s, a) && a.Park?
    ensures ParkedOk(Apply(s, a))
  {
    hide Inv, WatchOk, OwnTimers, E.Apply, E.Inv, E.Waits, IsCall;
    TimeOk(s);
    ParkMakes(s, a);
  }

  lemma ParkedOthers(s: State, a: Action)
    requires Inv2(s) && Enabled(s, a) && !a.Park?
    ensures ParkedOk(Apply(s, a))
  {
    hide Inv, WatchOk, OwnTimers;
    hide R.Apply, R.Enabled, E.Apply, E.Enabled, CallbacksOf, Without, IsCall;
  }

  /** A successful park waits for the registration it has just made. */
  lemma ParkMakes(s: State, a: Action)
    requires Enabled(s, a) && a.Park? && E.Inv(s.io)
    ensures var s' := Apply(s, a);
            && (s'.io.failed <==> E.Waits(s.io.contexts, s.calls[a.c].fd, s.calls[a.c].event))
            && (!s'.io.failed && a.ok ==>
                  && s'.calls[a.c].pc.Parked? && s'.calls[a.c].pc.token.waiter == E.FiberWaiter(a.c)
                  && Key(s.calls[a.c]) in s'.io.live && s'.io.live[Key(s.calls[a.c])] == s'.calls[a.c].pc.token)
            && (!a.ok ==> s'.calls[a.c].pc == Refused)
  {
    hide E.Inv, E.Found, E.Waits;
    IoSafety.AddStep(s.io, ParkEvent(s, a.c, a.scheduler, a.ok));
  }

  lemma Step2(s: State, a: Action)
    requires Inv2(s) && Enabled(s, a)
    ensures Inv2(Apply(s, a))
  {
    hide Inv, WatchOk, OwnTimers, ParkedOk, Enabled, Apply;
    Step(s, a);
    OwnTimersStep(s, a);
    ParkedStep(s, a);
    match a
    case Begin(_, _, _, _, _) => WatchMoves(s, a);
    case Try(_, _) => WatchMoves(s, a);
    case Park(_, _, _) => WatchMoves(s, a);
    case Resume(_) => WatchMoves(s, a);
    case Check(_) => WatchMoves(s, a);
    case Arm(_, _, _) => WatchArms(s, a);
    case GiveUp(_) => WatchDisarms(s, a);
    case Disarm(_) => WatchDisarms(s, a);
    case Expire(_) => WatchExpires(s, a);
    case RunCallback(_) => WatchRuns(s, a);
    case CancelEvent(_, _) => WatchOthers(s, a);
    case OtherEvent(_) => WatchOthers(s, a);
    case OtherTimer(_) => WatchOthers(s, a);
  }

  // ---------------------------------------------------------------- losing a timeout

  /** A waiting call has lost its timeout exactly when its flag is set and no cancelEvent is on its way. */
  lemma LostMeaning(s: State, c: nat)
    requires Inv2(s) && Waiting(s, c)
    ensures TimeoutLost(s, c) <==> s.calls[c].cancelled && Key(s.calls[c]) !in s.cancelling
  {
    hide Inv, OwnTimers, ParkedOk, HasTimer;
  }

  /** Only parking makes a call wait, and only on a registration of its own. */
  lemma WaitingBegins(s: State, a: Action, c: nat)
    requires Inv2(s) && Enabled(s, a) && c in s.calls && Waiting(Apply(s, a), c)
    ensures Waiting(s, c) || (a.Park? && a.c == c && a.ok && !E.Waits(s.io.contexts, s.calls[c].fd, s.calls[c].event))
  {
    hide Inv2, Enabled, Apply, Waiting, E.Waits;
    if a.Park? {
      WaitingParks(s, a, c);
    } else if a.CancelEvent? || a.OtherEvent? {
      WaitingEvents(s, a, c);
    } else {
      WaitingOthers(s, a, c);
    }
  }

  lemma WaitingParks(s: State, a: Action, c: nat)
    requires Inv2(s) && Enabled(s, a) && a.Park? && c in s.calls && Waiting(Apply(s, a), c)
    ensures Waiting(s, c) || (a.c == c && a.ok && !E.Waits(s.io.contexts, s.calls[c].fd, s.calls[c].event))
  {
    hide Inv, WatchOk, OwnTimers, E.Apply, E.Waits, E.Inv;
    TimeOk(s);
    ParkMakes(s, a);
    LiveAfter(s.io, ParkEvent(s, a.c, a.scheduler, a.ok));
  }

  lemma WaitingEvents(s: State, a: Action, c: nat)
    requires Inv2(s) && Enabled(s, a) && (a.CancelEvent? || a.OtherEvent?) && c in s.calls && Waiting(Apply(s, a), c)
    ensures Waiting(s, c)
  {
    hide Inv, WatchOk, OwnTimers, E.Apply, E.Inv, Without;
    TimeOk(s);
    LiveAfter(s.io, if a.OtherEvent? then a.e else E.Cancel(s.cancelling[a.i].0, s.cancelling[a.i].1, a.ok));
  }

  lemma WaitingOthers(s: State, a: Action, c: nat)
    requires Enabled(s, a) && !a.Park? && !a.CancelEvent? && !a.OtherEvent? && c in s.calls && Waiting(Apply(s, a), c)
    ensures Waiting(s, c)
  {
    hide R.Apply, CallbacksOf, Without, R.Enabled, IsCall;
  }

  /** A cancelEvent that succeeds wakes whoever waits. */
  lemma CancelWakes(s: State, i: nat, c: nat)
    requires Inv(s) && Enabled(s, CancelEvent(i, true)) && c in s.calls && s.cancelling[i] == Key(s.calls[c])
    ensures !Waiting(Apply(s, CancelEvent(i, true)), c)
  {
    hide Inv, E.Inv, E.Trigger;
    TimeOk(s);
    var k := s.calls[c];
    var a := E.Cancel(k.fd, k.event, true);
    if Waiting(s, c) {
      CancelTriggers(s.io, k.fd, k.event);
    } else {
      LiveAfter(s.io, a);
    }
  }

  lemma CancelTriggers(io: E.State, fd: nat, e: E.Event)
    requires E.Inv(io) && (fd, e) in io.live
    ensures var io' := E.Apply(io, E.Cancel(fd, e, true));
            (fd, e) !in io'.live && io'.woken == io.woken + [io.live[(fd, e)]] && !io'.failed
  {
    hide E.Trigger, E.CountOk, E.TokensOk, E.ScheduledOk, E.InterestOk;
    assert E.Waits(io.contexts, fd, e);
    var w := E.Watch(io, fd, io.contexts[fd].events - {e});
    IoSafety.WatchKeeps(io, fd, io.contexts[fd].events - {e});
    IoSafety.TriggerShape(w, fd, e);
  }

  /** One step loses the timeout of a call exactly in the two ways. */
  lemma LostStep(s: State, a: Action, c: nat)
    requires Inv2(s) && Enabled(s, a) && !TimeoutLost(s, c)
    ensures TimeoutLost(Apply(s, a), c) <==> Loses(s, a, c)
  {
    hide Inv2, Enabled, Apply, CanTimeOut, Loses, Waiting, E.Waits;
    Step2(s, a);
    var s' := Apply(s, a);
    if Waiting(s', c) {
      LostMeaning(s', c);
    }
    if Waiting(s, c) {
      LostMeaning(s, c);
    }
    LosesWhenWaiting(s, a, c);
    if Loses(s, a, c) {
      LosesIsLost(s, a, c);
    }
  }

  /** If the flag of a call that waits after the step is set and no cancelEvent is on its way, the step was one of the
      two, or all this was so before. */
  lemma LosesWhenWaiting(s: State, a: Action, c: nat)
    requires Inv2(s) && Enabled(s, a)
    ensures var s' := Apply(s, a);
            Waiting(s', c) && s'.calls[c].cancelled && Key(s'.calls[c]) !in s'.cancelling ==>
              || Loses(s, a, c)
              || (Waiting(s, c) && s.calls[c].cancelled && Key(s.calls[c]) !in s.cancelling)
  {
    hide Inv2, E.Apply, R.Apply, R.Enabled, CallbacksOf, E.Waits, Waiting, IsCall;
    var s' := Apply(s, a);
    WaitingHasCall(s');
    if Waiting(s', c) && s'.calls[c].cancelled && Key(s'.calls[c]) !in s'.cancelling {
      SameCall(s, a, c);
      WaitingBegins(s, a, c);
      if a.CancelEvent? {
        WithoutKeeps(s.cancelling, a.i);
        if a.ok && s.cancelling[a.i] == Key(s.calls[c]) {
          CancelStep(s, a, c);
        }
      }
    }
  }

  lemma CancelStep(s: State, a: Action, c: nat)
    requires Inv2(s) && Enabled(s, a) && a.CancelEvent? && a.ok && c in s.calls && s.cancelling[a.i] == Key(s.calls[c])
    ensures !Waiting(Apply(s, a), c)
  {
    hide Inv, Waiting, E.Apply;
    CancelWakes(s, a.i, c);
  }

  lemma WaitingHasCall(s: State)
    ensures forall c :: Waiting(s, c) ==> c in s.calls && s.calls[c].timeout.Some?
  {
  }

  /** A call that waits after a step was there before, with the same descriptor; its flag is set by a callback, which
      also puts a cancelEvent on its way. */
  lemma SameCall(s: State, a: Action, c: nat)
    requires Inv2(s) && Enabled(s, a) && Waiting(Apply(s, a), c)
    ensures var s' := Apply(s, a);
            && c in s.calls && c in s'.calls && Key(s'.calls[c]) == Key(s.calls[c])
            && s'.calls[c].timeout == s.calls[c].timeout
            && (s'.calls[c].cancelled && !s.calls[c].cancelled ==> Key(s.calls[c]) in s'.cancelling)
            && (!a.CancelEvent? ==> s.cancelling <= s'.cancelling)
  {
    hide Inv2, E.Apply, R.Apply, CallbacksOf, E.Waits, IsCall, Without;
  }

  lemma LosesIsLost(s: State, a: Action, c: nat)
    requires Inv2(s) && Enabled(s, a) && Loses(s, a, c)
    ensures var s' := Apply(s, a);
            Waiting(s', c) && s'.calls[c].cancelled && Key(s'.calls[c]) !in s'.cancelling
  {
    hide Inv, WatchOk, OwnTimers, ParkedOk, Without, E.Waits, E.Found, E.Register, E.Watch;
    TimeOk(s);
    if a.Park? {
      ParkMakes(s, a);
      hide E.Apply;
    } else {
      CancelFails(s.io, s.cancelling[a.i].0, s.cancelling[a.i].1);
    }
  }

  lemma CancelFails(io: E.State, fd: nat, e: E.Event)
    requires E.Enabled(io, E.Cancel(fd, e, false))
    ensures E.Apply(io, E.Cancel(fd, e, false)) == io
  {
  }

  // ---------------------------------------------------------------- whole runs

  lemma InitOk2(s: State)
    requires Init(s)
    ensures Inv2(s)
  {
    hide Inv;
    InitOk(s);
  }

  lemma {:induction false} RunKeeps2(s: State, run: seq<Action>)
    requires Inv2(s) && IsRun(s, run)
    ensures Inv2(After(s, run))
    decreases |run|
  {
    hide Inv2, Enabled, Apply;
    if run != [] {
      Step2(s, run[0]);
      RunKeeps2(Apply(s, run[0]), run[1..]);
    }
  }

  /** In some state of the run the timeout of the call is lost. */
  predicate EverLost(s: State, run: seq<Action>, c: nat)
    requires IsRun(s, run)
    decreases |run|
  {
    TimeoutLost(s, c) || (run != [] && EverLost(Apply(s, run[0]), run[1..], c))
  }

  predicate SomeLoses(s: State, run: seq<Action>, c: nat)
    requires IsRun(s, run)
    decreases |run|
  {
    run != [] && (Loses(s, run[0], c) || SomeLoses(Apply(s, run[0]), run[1..], c))
  }

  lemma {:induction false} LostFrom(s: State, run: seq<Action>, c: nat)
    requires Inv2(s) && IsRun(s, run) && !TimeoutLost(s, c)
    ensures EverLost(s, run, c) ==> SomeLoses(s, run, c)
    decreases |run|
  {
    hide Inv2, Enabled, Apply, TimeoutLost, Loses;
    if run != [] {
      Step2(s, run[0]);
      LostStep(s, run[0], c);
      if !TimeoutLost(Apply(s, run[0]), c) {
        LostFrom(Apply(s, run[0]), run[1..], c);
      }
    }
  }

  lemma {:induction false} LosesShows(s: State, run: seq<Action>, c: nat)
    requires Inv2(s) && IsRun(s, run)
    ensures SomeLoses(s, run, c) ==> EverLost(s, run, c)
    decreases |run|
  {
    hide Inv2, Enabled, Apply, TimeoutLost, Loses;
    if run != [] {
      Step2(s, run[0]);
      if Loses(s, run[0], c) && !TimeoutLost(s, c) {
        LostStep(s, run[0], c);
      }
      LosesShows(Apply(s, run[0]), run[1..], c);
    }
  }

  /** Over every run, a call that is parked on a live registration with a timeout has its timer armed, its callback
      pending or a cancelEvent on its way, in every state, if and only if it never parked with its flag already set and
      its cancelEvent already made, and no cancelEvent it depended on failed. */
  lemma TimeoutLostIff(s: State, run: seq<Action>, c: nat)
    requires Init(s) && IsRun(s, run)
    ensures EverLost(s, run, c) <==> SomeLoses(s, run, c)
  {
    hide Init, IsRun, TimeoutLost, EverLost, SomeLoses;
    InitOk2(s);
    NotYet(s, c);
    LostFrom(s, run, c);
    LosesShows(s, run, c);
  }

  lemma NotYet(s: State, c: nat)
    requires Init(s)
    ensures !TimeoutLost(s, c)
  {
  }
}
