/** Runs of do_io: a timeout before the deadline of the current timer, and two timeouts that are lost. */
module DoIoExamples {
  import opened Codec
  import opened DoIo
  import opened DoIoSafety
  import opened DoIoWatch
  import opened DoIoTimeouts
  import T = TimerQueue
  import R = TimerRuns
  import E = IoEvents
  import IoSafety

  ghost predicate Reaches(s: State, t: State) {
    exists run :: IsRun(s, run) && After(s, run) == t
  }

  lemma ReachesStep(s: State, a: Action, t: State)
    requires Enabled(s, a) && Apply(s, a) == t
    ensures Reaches(s, t)
  {
    hide Enabled, Apply;
    var run := [a];
    assert run[1..] == [];
    assert IsRun(t, []) && After(t, []) == t;
    assert IsRun(s, run) && After(s, run) == t;
  }

  lemma ReachesOn(s: State, t: State, u: State)
    requires Reaches(s, t) && Reaches(t, u)
    ensures Reaches(s, u)
  {
    hide IsRun, After;
    var first :| IsRun(s, first) && After(s, first) == t;
    var second :| IsRun(t, second) && After(t, second) == u;
    RunsJoin(s, first, second);
  }

  // ---------------------------------------------------------------- the states

  /** A call on descriptor 5 with a timeout of 10, begun at time 0. */
  function TheCall(pc: Pc, timer: Option<nat>, deadline: nat, cancelled: bool): Call {
    Call(5, E.READ, Some(10), 0, pc, timer, deadline, cancelled)
  }

  const TOKEN := E.Token(0, 5, E.READ, 0, E.FiberWaiter(0))
  const TIMER := T.Entry(10, 1, 10, false, 0)
  const IDLE := R.World(T.Manager([], false, 0, 0), 0, [], {}, [])
  const TICKING := R.World(T.Manager([TIMER], true, 0, 1), 0, [], {1}, [])
  const EXPIRED := R.World(T.Manager([], true, 10, 1), 10, [], {1}, [TIMER])

  function Nobody(): E.State {
    IoSafety.FreshState()
  }

  function Registered(): E.State {
    E.Apply(Nobody(), E.Add(5, E.READ, 0, E.FiberWaiter(0), true))
  }

  function Delivered(): (io: E.State)
    ensures TOKEN in io.woken && !io.failed
  {
    RegisteredIs();
    DeliveredIs();
    E.Apply(Registered(), E.Deliver(5, {E.IN}, true))
  }

  function At0(io: E.State, time: R.World, k: Call, callbacks: seq<nat>, cancelling: seq<(nat, E.Event)>): State {
    State(io, time, map[0 := k], callbacks, cancelling)
  }

  // ---------------------------------------------------------------- events and timers

  lemma RegisteredIs()
    ensures var io := Registered();
            && !io.failed && E.Inv(io) && io.added == [TOKEN] && io.live == map[(5, E.READ) := TOKEN] && |io.contexts| == 32
            && io.contexts[5].events == {E.READ}
  {
    IoSafety.FreshOk();
    IoSafety.AddStep(Nobody(), E.Add(5, E.READ, 0, E.FiberWaiter(0), true));
    hide E.Inv;
  }

  lemma DeliveredIs()
    ensures E.Enabled(Registered(), E.Deliver(5, {E.IN}, true))
    ensures var io := E.Apply(Registered(), E.Deliver(5, {E.IN}, true)); TOKEN in io.woken && !io.failed
  {
    hide E.Inv, E.Trigger, Registered;
    RegisteredIs();
    var io := Registered();
    var w := E.Watch(io, 5, {});
    assert {E.READ} * {E.READ} == {E.READ} && {E.READ} - {E.READ} == {};
    assert E.RealEvents({E.IN}) == {E.READ};
    TriggerWakes(io);
  }

  lemma TriggerWakes(io: E.State)
    requires E.Inv(io) && io.live == map[(5, E.READ) := TOKEN] && |io.contexts| == 32
    ensures var w := E.Trigger(E.Watch(io, 5, {}), 5, E.READ); TOKEN in w.woken && !w.failed
  {
    hide E.CountOk, E.TokensOk, E.ScheduledOk, E.InterestOk;
    assert (5, E.READ) in io.live;
    IoSafety.WatchKeeps(io, 5, {});
    IoSafety.TriggerShape(E.Watch(io, 5, {}), 5, E.READ);
  }

  lemma NobodyToCancel()
    ensures E.Apply(Nobody(), E.Cancel(5, E.READ, true)) == Nobody()
  {
  }

  lemma TimerAdded()
    ensures R.Enabled(IDLE, R.Add(0, 10, 1, false, 0)) && R.Apply(IDLE, R.Add(0, 10, 1, false, 0)) == TICKING
  {
  }

  lemma TimerExpires()
    ensures R.Enabled(TICKING, R.Expire(10)) && R.Apply(TICKING, R.Expire(10)) == EXPIRED
    ensures CallbacksOf(T.ListExpired(TICKING.m, 10).1) == [0]
  {
    assert T.DueCount([TIMER], 10) == 1;
    assert T.ListExpired(TICKING.m, 10).1 == [TIMER];
    assert [TIMER][..0] == [] && T.Reinsert([], [], 10) == [];
    assert CallbacksOf([]) == [];
  }

  lemma NothingToCancel()
    ensures R.Apply(EXPIRED, R.CancelTimer(1)) == EXPIRED
  {
  }

  // ---------------------------------------------------------------- an early timeout

  const BEGIN := State(Nobody(), IDLE, map[], [], [])

  lemma ArmFirst()
    ensures Reaches(BEGIN, At0(Nobody(), TICKING, TheCall(Armed, Some(1), 10, false), [], []))
  {
    hide Reaches, R.Apply, R.Enabled, Nobody;
    var s1 := At0(Nobody(), IDLE, TheCall(Trying, None, 0, false), [], []);
    var s2 := At0(Nobody(), IDLE, TheCall(Blocked, None, 0, false), [], []);
    var s3 := At0(Nobody(), TICKING, TheCall(Armed, Some(1), 10, false), [], []);
    NotFailedYet();
    TimerAdded();
    ReachesStep(BEGIN, Begin(0, 5, E.READ, Some(10), 0), s1);
    ReachesStep(s1, Try(0, WouldBlock), s2);
    ReachesStep(s2, Arm(0, 0, 1), s3);
    ReachesOn(BEGIN, s1, s2);
    ReachesOn(BEGIN, s2, s3);
  }

  lemma NotFailedYet()
    ensures !Nobody().failed
  {
  }

  lemma ParkAndExpire()
    ensures Reaches(At0(Nobody(), TICKING, TheCall(Armed, Some(1), 10, false), [], []),
                    At0(Registered(), EXPIRED, TheCall(Parked(TOKEN), Some(1), 10, false), [0], []))
  {
    hide Reaches, Enabled, Apply, Nobody, Registered, E.Inv;
    var s3 := At0(Nobody(), TICKING, TheCall(Armed, Some(1), 10, false), [], []);
    var s4 := At0(Registered(), TICKING, TheCall(Parked(TOKEN), Some(1), 10, false), [], []);
    var s5 := At0(Registered(), EXPIRED, TheCall(Parked(TOKEN), Some(1), 10, false), [0], []);
    ParkRegisters(s3);
    RegisteredIs();
    Expires(s4);
    ReachesStep(s3, Park(0, 0, true), s4);
    ReachesStep(s4, Expire(10), s5);
    ReachesOn(s3, s4, s5);
  }

  lemma Expires(s: State)
    requires s.time == TICKING && s.callbacks == [] && !s.io.failed
    ensures Enabled(s, Expire(10)) && Apply(s, Expire(10)) == s.(time := EXPIRED, callbacks := [0])
  {
    TimerExpires();
    hide R.Apply, R.Enabled, T.ListExpired, CallbacksOf;
  }

  lemma FlagIsSet(s: State, pc: Pc)
    requires !pc.Returned? && s.calls == map[0 := TheCall(pc, Some(1), 10, false)]
    requires s.callbacks == [0] && s.cancelling == [] && !s.io.failed
    ensures Enabled(s, RunCallback(0))
    ensures Apply(s, RunCallback(0))
            == s.(calls := map[0 := TheCall(pc, Some(1), 10, true)], callbacks := [], cancelling := [(5, E.READ)])
  {
  }

  lemma NothingCancelled(s: State)
    requires s.io == Nobody() && s.cancelling == [(5, E.READ)]
    ensures Enabled(s, CancelEvent(0, true)) && Apply(s, CancelEvent(0, true)) == s.(cancelling := [])
  {
    NobodyToCancel();
    hide E.Apply;
  }

  lemma ParkRegisters(s: State)
    requires s.io == Nobody() && At(s, 0, Armed) && Key(s.calls[0]) == (5, E.READ)
    ensures Enabled(s, Park(0, 0, true))
    ensures Apply(s, Park(0, 0, true)) == SetPc(s, 0, Parked(TOKEN)).(io := Registered())
  {
    RegisteredIs();
    NotFailedYet();
    hide E.Apply, E.Inv, IoSafety.FreshState;
  }

  lemma Wake()
    ensures Reaches(At0(Registered(), EXPIRED, TheCall(Parked(TOKEN), Some(1), 10, false), [0], []),
                    At0(Delivered(), EXPIRED, TheCall(Disarmed, Some(1), 10, false), [0], []))
  {
    hide Reaches, R.Apply, R.Enabled, Registered, Delivered, E.Apply, E.Enabled, CallbacksOf, Without;
    var s5 := At0(Registered(), EXPIRED, TheCall(Parked(TOKEN), Some(1), 10, false), [0], []);
    var s6 := At0(Delivered(), EXPIRED, TheCall(Parked(TOKEN), Some(1), 10, false), [0], []);
    var s7 := At0(Delivered(), EXPIRED, TheCall(Awake, Some(1), 10, false), [0], []);
    var s8 := At0(Delivered(), EXPIRED, TheCall(Disarmed, Some(1), 10, false), [0], []);
    Delivers(s5, s6);
    NothingToCancel();
    ReachesStep(s6, Resume(0), s7);
    ReachesStep(s7, Disarm(0), s8);
    ReachesOn(s5, s6, s7);
    ReachesOn(s5, s7, s8);
  }

  lemma Retry()
    ensures Reaches(At0(Delivered(), EXPIRED, TheCall(Disarmed, Some(1), 10, false), [0], []),
                    At0(Delivered(), EXPIRED, TheCall(Blocked, Some(1), 10, false), [0], []))
  {
    hide Reaches, R.Apply, R.Enabled, Registered, Delivered, E.Apply, E.Enabled, CallbacksOf, Without;
    var s8 := At0(Delivered(), EXPIRED, TheCall(Disarmed, Some(1), 10, false), [0], []);
    var s9 := At0(Delivered(), EXPIRED, TheCall(Trying, Some(1), 10, false), [0], []);
    var s10 := At0(Delivered(), EXPIRED, TheCall(Blocked, Some(1), 10, false), [0], []);
    ReachesStep(s8, Check(0), s9);
    ReachesStep(s9, Try(0, WouldBlock), s10);
    ReachesOn(s8, s9, s10);
  }

  lemma Delivers(s: State, t: State)
    requires s.io == Registered() && t == s.(io := Delivered())
    ensures Reaches(s, t)
  {
    hide Reaches, Registered, E.Apply, E.Inv, R.Enabled, R.Apply;
    RegisteredIs();
    DeliveredIs();
    ReachesStep(s, OtherEvent(E.Deliver(5, {E.IN}, true)), t);
  }

  /** The callback of the first timer is still pending when the call adds its second timer at time 10; the call returns by
      timeout before time 20. */
  lemma TimedOutEarly()
    ensures exists s, run :: Init(s) && IsRun(s, run) && At(After(s, run), 0, Returned(TimedOut))
                             && After(s, run).time.clock < After(s, run).calls[0].deadline
  {
    hide Reaches, Leads, IsRun, After, Init, Early, R.Apply, Nobody, Registered, Delivered, Inv;
    ArmFirst();
    ParkAndExpire();
    Wake();
    Retry();
    var s3 := At0(Nobody(), TICKING, TheCall(Armed, Some(1), 10, false), [], []);
    var s5 := At0(Registered(), EXPIRED, TheCall(Parked(TOKEN), Some(1), 10, false), [0], []);
    var s10 := At0(Delivered(), EXPIRED, TheCall(Blocked, Some(1), 10, false), [0], []);
    ReachesOn(BEGIN, s3, s5);
    var s8 := At0(Delivered(), EXPIRED, TheCall(Disarmed, Some(1), 10, false), [0], []);
    ReachesOn(BEGIN, s5, s8);
    ReachesOn(BEGIN, s8, s10);
    BeginsWell();
    SecondTimer(s10);
    EarlyFrom(s10);
  }

  lemma BeginsWell()
    ensures Init(BEGIN)
  {
  }

  lemma SecondTimer(s: State)
    requires s == At0(Delivered(), EXPIRED, TheCall(Blocked, Some(1), 10, false), [0], [])
    ensures Enabled(s, Arm(0, 10, 2)) && Apply(s, Arm(0, 10, 2)).time.clock == 10 && Stale(s, 0)
  {
    hide Delivered;
  }

  lemma EarlyFrom(s: State)
    requires Init(BEGIN) && Reaches(BEGIN, s) && s == At0(Delivered(), EXPIRED, TheCall(Blocked, Some(1), 10, false), [0], [])
    requires Enabled(s, Arm(0, 10, 2)) && Apply(s, Arm(0, 10, 2)).time.clock == 10 && Stale(s, 0)
    ensures exists run :: IsRun(BEGIN, run) && At(After(BEGIN, run), 0, Returned(TimedOut))
                          && After(BEGIN, run).time.clock < After(BEGIN, run).calls[0].deadline
  {
    hide Leads, Reaches, IsRun, After, Init, Enabled, Stale, R.Apply, Delivered, NoArm, NoStaleArm, BEGIN, Inv;
    RunTo(BEGIN, s);
    var run :| IsRun(BEGIN, run) && After(BEGIN, run) == s;
    EarlyTimeoutIff(BEGIN, run, 0, 10, 2);
    var armed := Apply(s, Arm(0, 10, 2));
    var t :| Leads(armed, t, 0) && Early(t, 0, 20);
    LeadsDeadline(s, armed, t);
    ReachesStep(s, Arm(0, 10, 2), armed);
    ReachesOn(BEGIN, s, armed);
    ReachesOn(BEGIN, armed, t);
    RunTo(BEGIN, t);
  }

  lemma LeadsDeadline(s: State, armed: State, t: State)
    requires Enabled(s, Arm(0, 10, 2)) && s.calls[0].timeout == Some(10) && armed == Apply(s, Arm(0, 10, 2)) && Leads(armed, t, 0)
    ensures 0 in t.calls && t.calls[0].deadline == 20 && Reaches(armed, t)
  {
    hide IsRun, After, NoArm, NoStaleArm, R.Enabled, R.Apply;
    var more :| IsRun(armed, more) && NoArm(more, 0) && After(armed, more) == t;
    NoArmKeeps(armed, more, 0);
  }

  // ---------------------------------------------------------------- a lost timeout

  lemma FlagFirst()
    ensures Reaches(At0(Nobody(), TICKING, TheCall(Armed, Some(1), 10, false), [], []),
                    At0(Registered(), EXPIRED, TheCall(Parked(TOKEN), Some(1), 10, true), [], []))
  {
    hide Reaches, Enabled, Apply, Nobody, Registered;
    var s3 := At0(Nobody(), TICKING, TheCall(Armed, Some(1), 10, false), [], []);
    var s4 := At0(Nobody(), EXPIRED, TheCall(Armed, Some(1), 10, false), [0], []);
    var s5 := At0(Nobody(), EXPIRED, TheCall(Armed, Some(1), 10, true), [], [(5, E.READ)]);
    var s6 := At0(Nobody(), EXPIRED, TheCall(Armed, Some(1), 10, true), [], []);
    var s7 := At0(Registered(), EXPIRED, TheCall(Parked(TOKEN), Some(1), 10, true), [], []);
    NotFailedYet();
    Expires(s3);
    FlagIsSet(s4, Armed);
    NothingCancelled(s5);
    ParkRegisters(s6);
    ReachesStep(s3, Expire(10), s4);
    ReachesStep(s4, RunCallback(0), s5);
    ReachesStep(s5, CancelEvent(0, true), s6);
    ReachesStep(s6, Park(0, 0, true), s7);
    ReachesOn(s3, s4, s5);
    ReachesOn(s3, s5, s6);
    ReachesOn(s3, s6, s7);
  }

  /** The timer expires, and its callback and cancelEvent run, before the call parks: it waits for ever if its event does
      not come. */
  lemma TimeoutNeverComes()
    ensures exists s, run :: Init(s) && IsRun(s, run) && TimeoutLost(After(s, run), 0)
  {
    hide Reaches, IsRun, After, Init, Nobody, Registered, TimeoutLost;
    ArmFirst();
    FlagFirst();
    BeginsWell();
    var s3 := At0(Nobody(), TICKING, TheCall(Armed, Some(1), 10, false), [], []);
    var s7 := At0(Registered(), EXPIRED, TheCall(Parked(TOKEN), Some(1), 10, true), [], []);
    ReachesOn(BEGIN, s3, s7);
    LostHere(s7);
    RunTo(BEGIN, s7);
  }

  lemma CancelRefused(s: State)
    requires !s.io.failed && s.cancelling == [(5, E.READ)]
    ensures Enabled(s, CancelEvent(0, false)) && Apply(s, CancelEvent(0, false)) == s.(cancelling := [])
  {
  }

  lemma FlagOnly()
    ensures Reaches(At0(Registered(), EXPIRED, TheCall(Parked(TOKEN), Some(1), 10, false), [0], []),
                    At0(Registered(), EXPIRED, TheCall(Parked(TOKEN), Some(1), 10, true), [], []))
  {
    hide Reaches, Enabled, Apply, Registered, E.Inv;
    var s5 := At0(Registered(), EXPIRED, TheCall(Parked(TOKEN), Some(1), 10, false), [0], []);
    var s6 := At0(Registered(), EXPIRED, TheCall(Parked(TOKEN), Some(1), 10, true), [], [(5, E.READ)]);
    var s7 := At0(Registered(), EXPIRED, TheCall(Parked(TOKEN), Some(1), 10, true), [], []);
    RegisteredIs();
    FlagIsSet(s5, Parked(TOKEN));
    CancelRefused(s6);
    ReachesStep(s5, RunCallback(0), s6);
    ReachesStep(s6, CancelEvent(0, false), s7);
    ReachesOn(s5, s6, s7);
  }

  /** The call has parked in time, but the only cancelEvent, that of its timer's callback, fails in epoll_ctl. */
  lemma CancelEventFails()
    ensures exists s, t, u :: Init(s) && Reaches(s, t) && Waiting(t, 0) && CanTimeOut(t, 0) && Reaches(t, u) && TimeoutLost(u, 0)
  {
    hide Reaches, Init, Nobody, Registered, TimeoutLost, Waiting, CanTimeOut;
    ArmFirst();
    ParkAndExpire();
    FlagOnly();
    BeginsWell();
    var s3 := At0(Nobody(), TICKING, TheCall(Armed, Some(1), 10, false), [], []);
    var s5 := At0(Registered(), EXPIRED, TheCall(Parked(TOKEN), Some(1), 10, false), [0], []);
    var s7 := At0(Registered(), EXPIRED, TheCall(Parked(TOKEN), Some(1), 10, true), [], []);
    ReachesOn(BEGIN, s3, s5);
    WaitsHere(s5);
    LostHere(s7);
  }

  lemma WaitsHere(s: State)
    requires s == At0(Registered(), EXPIRED, TheCall(Parked(TOKEN), Some(1), 10, false), [0], [])
    ensures Waiting(s, 0) && CanTimeOut(s, 0)
  {
    hide E.Apply, E.Inv, Registered;
    RegisteredIs();
  }

  lemma LostHere(s: State)
    requires s == At0(Registered(), EXPIRED, TheCall(Parked(TOKEN), Some(1), 10, true), [], [])
    ensures TimeoutLost(s, 0)
  {
    hide E.Apply, E.Inv, Registered;
    RegisteredIs();
  }

  lemma RunTo(s: State, t: State)
    requires Reaches(s, t)
    ensures exists run :: IsRun(s, run) && After(s, run) == t
  {
  }
}
