/** The wake-ups of the fibers that do_io parks: each is used up by one resumption before the next can be made. */
module DoIoWakes {
  import opened Codec
  import opened DoIo
  import opened DoIoSafety
  import opened DoIoWatch
  import T = TimerQueue
  import R = TimerRuns
  import E = IoEvents
  import IoSafety

  /** A registration of a fiber that is in a call. */
  predicate ForCall(t: E.Token) {
    t.waiter.FiberWaiter? && IsCall(t.waiter.f)
  }

  /** The registrations on which calls were parked when they resumed, in order. */
  function Resumed(s: State, run: seq<Action>): seq<E.Token>
    requires IsRun(s, run)
    decreases |run|
  {
    if run == [] then []
    else UsedBy(s, run[0]) + Resumed(Apply(s, run[0]), run[1..])
  }

  function UsedBy(s: State, a: Action): seq<E.Token>
    requires Enabled(s, a)
  {
    if a.Resume? then [s.calls[a.c].pc.token] else []
  }

  /** The wake-ups used up are those whose calls are no longer parked on them. */
  ghost predicate WakesOk(s: State, used: seq<E.Token>) {
    && E.Distinct(used)
    && (forall t :: t in used ==> t in s.io.woken && ForCall(t))
    && (forall t :: t in s.io.woken && ForCall(t) ==> (t in used <==> !At(s, t.waiter.f, Parked(t))))
  }

  // ---------------------------------------------------------------- one step

  /** Only what was registered is woken, and what was woken stays so. */
  lemma WokenAfter(io: E.State, a: E.Action)
    requires E.Enabled(io, a)
    ensures var io' := E.Apply(io, a);
            && (forall t :: t in io.woken ==> t in io'.woken)
            && (forall t :: t in io'.woken ==> t in io.woken || exists k :: k in io.live && io.live[k] == t)
            && (a.Add? ==> io'.woken == io.woken)
  {
    hide E.Found, E.GetContext, E.SetContext, E.Emptied, E.WaiterOf, E.RealEvents, E.Registered;
  }

  /** Nothing changes about who is parked, and nothing is woken. */
  lemma WakesKept(s: State, s': State, used: seq<E.Token>)
    requires WakesOk(s, used) && s'.io.woken == s.io.woken
    requires forall t :: t in s.io.woken && ForCall(t) ==> (At(s', t.waiter.f, Parked(t)) <==> At(s, t.waiter.f, Parked(t)))
    ensures WakesOk(s', used)
  {
  }

  lemma WakesMove(s: State, a: Action, used: seq<E.Token>)
    requires Inv2(s) && Enabled(s, a) && WakesOk(s, used)
    requires !a.Park? && !a.Resume? && !a.OtherEvent? && !a.CancelEvent?
    ensures WakesOk(Apply(s, a), used)
  {
    hide Inv2, WakesOk, R.Apply, R.Enabled, T.ListExpired, CallbacksOf, Without, IsCall;
    WakesKept(s, Apply(s, a), used);
  }

  lemma WakesEvents(s: State, a: Action, used: seq<E.Token>)
    requires Inv2(s) && Enabled(s, a) && WakesOk(s, used) && (a.OtherEvent? || a.CancelEvent?)
    ensures WakesOk(Apply(s, a), used)
  {
    hide E.Inv, E.Apply, R.Inv, TimersOk, CallbacksOk, WatchOk, OwnTimers, ParkedOk, Without, IsCall, E.Distinct;
    var s' := Apply(s, a);
    var e := if a.OtherEvent? then a.e else E.Cancel(s.cancelling[a.i].0, s.cancelling[a.i].1, a.ok);
    WokenAfter(s.io, e);
    forall t | t in s'.io.woken && ForCall(t) ensures t in used <==> !At(s', t.waiter.f, Parked(t)) {
      if t !in s.io.woken {
        var k :| k in s.io.live && s.io.live[k] == t;
        assert OwnedToken(s, s.io.live[k]);
      }
    }
  }

  /** The registration made by parking is new. */
  lemma NewToken(io: E.State, a: E.Action)
    requires E.Inv(io) && a.Add? && a.ok && !E.Waits(io.contexts, a.fd, a.event)
    ensures var io' := E.Apply(io, a); !io'.failed ==> io'.added != [] && io'.added[|io'.added| - 1] !in io.woken
  {
    hide E.ContextsOk, E.CountOk, E.ScheduledOk, E.Found;
    if !E.Apply(io, a).failed {
      forall t | t in io.woken ensures t.id < |io.added| {
        assert t in E.Spent(io);
      }
    }
  }

  lemma WakesPark(s: State, a: Action, used: seq<E.Token>)
    requires Inv2(s) && Enabled(s, a) && WakesOk(s, used) && a.Park? && !Apply(s, a).io.failed
    ensures WakesOk(Apply(s, a), used)
  {
    hide E.Inv, E.Apply, R.Inv, TimersOk, CallbacksOk, WatchOk, OwnTimers, RegistrationsOk, ParkedOk, IsCall, E.Distinct, E.Waits;
    var s' := Apply(s, a);
    var e := ParkEvent(s, a.c, a.scheduler, a.ok);
    WokenAfter(s.io, e);
    if a.ok {
      ParkingOnce(s.io, e);
      NewToken(s.io, e);
    }
    WakesKept(s, s', used);
  }

  lemma ParkingOnce(io: E.State, a: E.Action)
    requires E.Inv(io) && a.Add? && !io.failed && !E.Apply(io, a).failed
    ensures !E.Waits(io.contexts, a.fd, a.event)
  {
    hide E.Inv, E.Apply, E.Waits;
    IoSafety.AddStep(io, a);
  }

  lemma WakesResume(s: State, a: Action, used: seq<E.Token>)
    requires Inv2(s) && Enabled(s, a) && WakesOk(s, used) && a.Resume?
    ensures WakesOk(Apply(s, a), used + UsedBy(s, a))
  {
    hide Inv, WatchOk, OwnTimers;
    var t := s.calls[a.c].pc.token;
    assert ForCall(t) && t !in used;
  }

  lemma WakesStep(s: State, a: Action, used: seq<E.Token>)
    requires Inv2(s) && Enabled(s, a) && WakesOk(s, used) && !Apply(s, a).io.failed
    ensures WakesOk(Apply(s, a), used + UsedBy(s, a))
  {
    hide Inv2, Enabled, Apply, WakesOk;
    assert !a.Resume? ==> used + UsedBy(s, a) == used;
    match a
    case Park(_, _, _) => WakesPark(s, a, used);
    case Resume(_) => WakesResume(s, a, used);
    case CancelEvent(_, _) => WakesEvents(s, a, used);
    case OtherEvent(_) => WakesEvents(s, a, used);
    case _ => WakesMove(s, a, used);
  }

  // ---------------------------------------------------------------- whole runs

  lemma {:induction false} WakesRun(s: State, run: seq<Action>, used: seq<E.Token>)
    requires Inv2(s) && IsRun(s, run) && WakesOk(s, used) && !After(s, run).io.failed
    ensures Inv2(After(s, run)) && WakesOk(After(s, run), used + Resumed(s, run))
    decreases |run|
  {
    hide Inv2, Enabled, Apply, WakesOk;
    if run == [] {
      assert used + [] == used;
    } else {
      var s' := Apply(s, run[0]);
      if s'.io.failed {
        StuckOnceFailed(s', run[1..]);
      }
      Step2(s, run[0]);
      WakesStep(s, run[0], used);
      WakesRun(s', run[1..], used + UsedBy(s, run[0]));
      assert used + UsedBy(s, run[0]) + Resumed(s', run[1..]) == used + Resumed(s, run);
    }
  }

  lemma StuckOnceFailed(s: State, run: seq<Action>)
    requires s.io.failed && IsRun(s, run)
    ensures After(s, run) == s
  {
  }

  lemma NothingWoken(s: State)
    requires Init(s)
    ensures WakesOk(s, [])
  {
  }

  /** The schedulers were given fiber `c` at both places. */
  predicate BothWake(io: E.State, i: nat, j: nat, c: nat)
    requires i < |io.scheduled| && j < |io.scheduled|
  {
    io.scheduled[i].1 == E.FiberWaiter(c) && io.scheduled[j].1 == E.FiberWaiter(c)
  }

  /** In every run the schedulers are given the fiber of a call once for every registration that is woken; each of these
      wake-ups is used up by exactly one resumption, and one that is not yet used up belongs to a call that is parked on
      it. So a fiber in do_io never has two wake-ups outstanding, and none when it executes or its call has returned. */
  lemma EachWakeUpResumed(s: State, run: seq<Action>)
    requires Init(s) && IsRun(s, run) && !After(s, run).io.failed
    ensures var t, used := After(s, run), Resumed(s, run);
            && E.Distinct(used) && (forall u :: u in used ==> u in t.io.woken)
            && |t.io.scheduled| == |t.io.woken|
            && (forall i, c :: 0 <= i < |t.io.scheduled| && IsCall(c) && t.io.scheduled[i].1 == E.FiberWaiter(c) ==>
                  t.io.woken[i].waiter == E.FiberWaiter(c) && (t.io.woken[i] in used <==> !At(t, c, Parked(t.io.woken[i]))))
            && (forall i, j, c :: 0 <= i < j < |t.io.scheduled| && IsCall(c) && BothWake(t.io, i, j, c) ==>
                  t.io.woken[i] in used || t.io.woken[j] in used)
  {
    hide Init, IsRun, After, Resumed, Inv2, IsCall;
    InitOk2(s);
    NothingWoken(s);
    WakesRun(s, run, []);
    var t, used := After(s, run), Resumed(s, run);
    assert [] + used == used;
    ScheduledAreWoken(t);
    forall i, j, c | 0 <= i < j < |t.io.scheduled| && IsCall(c) && BothWake(t.io, i, j, c)
      ensures t.io.woken[i] in used || t.io.woken[j] in used
    {
      assert ForCall(t.io.woken[i]) && ForCall(t.io.woken[j]) && t.io.woken[i] != t.io.woken[j];
    }
    forall i, c | 0 <= i < |t.io.scheduled| && IsCall(c) && t.io.scheduled[i].1 == E.FiberWaiter(c)
      ensures t.io.woken[i].waiter == E.FiberWaiter(c) && (t.io.woken[i] in used <==> !At(t, c, Parked(t.io.woken[i])))
    {
      assert ForCall(t.io.woken[i]);
    }
  }

  lemma ScheduledAreWoken(s: State)
    requires Inv2(s) && !s.io.failed
    ensures var io := s.io;
            && |io.scheduled| == |io.woken|
            && (forall i :: 0 <= i < |io.woken| ==> io.scheduled[i] == (io.woken[i].scheduler, io.woken[i].waiter))
            && (forall i, j :: 0 <= i < j < |io.woken| ==> io.woken[i] != io.woken[j])
  {
    hide WatchOk, OwnTimers, ParkedOk, R.Inv, RegistrationsOk, TimersOk, CallbacksOk, E.ContextsOk, E.CountOk, E.InterestOk;
    assert forall i :: 0 <= i < |s.io.woken| ==> E.Spent(s.io)[i] == s.io.woken[i];
  }
}
