/** Exactly when a task is left behind at shutdown, and exactly when stopping() overlooks a wake-up. */
module SchedulerShutdown {
  import opened Codec
  import opened Scheduler
  import opened SchedulerSafety

  /** There is such a worker and it will still scan. */
  predicate Alive(s: State, w: nat) {
    w < |s.workers| && !Done(s.workers[w])
  }

  /** A pinned callback, or a pinned fiber. */
  predicate Pinned(t: Task, callback: bool) {
    t.thread.Some? && t.work.CbWork? == callback
  }

  /** A queued task whose worker will not scan again. */
  ghost predicate Stranded(s: State, callback: bool) {
    exists t :: t in s.queue && Pinned(t, callback) && !Alive(s, t.thread.value)
  }

  /** A client schedules the pinned task when its worker has made its last scan, or never existed. */
  predicate Late(s: State, a: Action, callback: bool) {
    (a.External? || a.Schedule?) && Pinned(a.task, callback) && !Alive(s, a.task.thread.value)
  }

  /** The last scan of a worker passes over a task pinned to it. */
  ghost predicate Overlooks(s: State, a: Action, callback: bool) {
    && a.Scan? && a.w < |s.workers| && s.workers[a.w].idleTerm && FirstEligible(s, a.w, 0) == |s.queue|
    && exists t :: t in s.queue && Pinned(t, callback) && t.thread.value == a.w
  }

  /** Every pinned callback of the run is scheduled while its worker will still scan. */
  ghost predicate AllInTime(s: State, run: seq<Action>)
    requires IsRun(s, run)
    decreases |run|
  {
    run == [] || (!Late(s, run[0], true) && AllInTime(Apply(s, run[0]), run[1..]))
  }

  /** Every pinned fiber of the run is scheduled while its worker will still scan, and passed over by no last scan. */
  ghost predicate AllNoticed(s: State, run: seq<Action>)
    requires IsRun(s, run)
    decreases |run|
  {
    run == [] || (!Late(s, run[0], false) && !Overlooks(s, run[0], false) && AllNoticed(Apply(s, run[0]), run[1..]))
  }

  ghost predicate SomeoneScans(s: State) {
    exists w :: Alive(s, w)
  }

  /** An unpinned task is queued and no worker will scan again. */
  ghost predicate Abandoned(s: State) {
    (exists t :: t in s.queue && t.thread == None) && !SomeoneScans(s)
  }

  /** A client schedules an unpinned task when every worker has made its last scan. */
  ghost predicate TooLate(s: State, a: Action) {
    (a.External? || a.Schedule?) && a.task.thread == None && !SomeoneScans(s)
  }

  /** Every unpinned task of the run is scheduled while some worker will still scan. */
  ghost predicate SomeoneInTime(s: State, run: seq<Action>)
    requires IsRun(s, run)
    decreases |run|
  {
    run == [] || (!TooLate(s, run[0]) && SomeoneInTime(Apply(s, run[0]), run[1..]))
  }

  /** Nothing is scheduled from outside once stop was called. */
  ghost predicate QuietAfterStop(s: State, run: seq<Action>)
    requires IsRun(s, run)
    decreases |run|
  {
    run == [] || (!(run[0].External? && s.autoStop) && QuietAfterStop(Apply(s, run[0]), run[1..]))
  }

  // ---------------------------------------------------------------- one step

  /** The worker of the step, if it is the step of a worker that changes. */
  function Mover(a: Action): Option<nat> {
    match a
    case EnterRoot(w) => Some(w)
    case Scan(w) => Some(w)
    case SwapIn(w, _) => Some(w)
    case YieldHold(w) => Some(w)
    case YieldReady(w) => Some(w)
    case Finish(w, _) => Some(w)
    case Requeue(w) => Some(w)
    case CheckIdle(w) => Some(w)
    case IdleRound(w, _) => Some(w)
    case _ => None
  }

  lemma OthersStay(s: State, a: Action)
    requires Enabled(s, a)
    ensures var s' := Apply(s, a);
            && |s'.workers| == |s.workers|
            && forall v :: 0 <= v < |s.workers| && Mover(a) != Some(v) ==> s'.workers[v] == s.workers[v]
  {
    hide FirstEligible, Stopping, DoSwapIn;
    if a.SwapIn? {
      SwapInStays(s, a.w, a.newFiber);
    }
  }

  lemma MoverStep(s: State, a: Action, w: nat)
    requires Enabled(s, a) && Mover(a) == Some(w)
    ensures var s' := Apply(s, a);
            && w < |s.workers| == |s'.workers|
            && (Done(s.workers[w]) ==> Done(s'.workers[w]))
            && (!Done(s.workers[w]) && Done(s'.workers[w]) ==>
                  || (a == Scan(w) && s.workers[w].idleTerm && FirstEligible(s, w, 0) == |s.queue|)
                  || (a == EnterRoot(w) && s.queue == []))
            && (a.Scan? && FirstEligible(s, w, 0) == |s.queue| && s.workers[w].idleTerm ==> Done(s'.workers[w]))
  {
    hide FirstEligible, DoSwapIn;
    if a.SwapIn? {
      SwapInStays(s, a.w, a.newFiber);
    }
  }

  /** A worker that has made its last scan stays so; only a scan that finds nothing, or an empty queue at the entry of
      the root thread, brings it there. */
  lemma AliveStep(s: State, a: Action, w: nat)
    requires Enabled(s, a)
    ensures var s' := Apply(s, a);
            && (Alive(s', w) ==> Alive(s, w))
            && (Alive(s, w) && !Alive(s', w) ==>
                  || (a == Scan(w) && s.workers[w].idleTerm && FirstEligible(s, w, 0) == |s.queue|)
                  || (a == EnterRoot(w) && s.queue == []))
            && (a.Scan? && FirstEligible(s, a.w, 0) == |s.queue| && s.workers[a.w].idleTerm ==> !Alive(s', a.w))
  {
    hide Enabled, Apply, Done, FirstEligible;
    OthersStay(s, a);
    if Mover(a).Some? {
      MoverStep(s, a, Mover(a).value);
    }
  }

  /** A step leaves the queue alone, appends a task or takes one that is open to a worker still scanning. */
  lemma QueueStep(s: State, a: Action)
    requires Enabled(s, a)
    ensures var s' := Apply(s, a);
            && (a.External? || a.Schedule? ==> s'.queue == s.queue + [a.task] && s'.workers == s.workers)
            && (a.Requeue? ==> s'.queue == s.queue + [Task(FiberWork(s.workers[a.w].pc.f), None)])
            && (!(a.External? || a.Schedule? || a.Requeue? || a.Scan?) ==> s'.queue == s.queue)
  {
  }

  lemma ScanQueue(s: State, w: nat)
    requires Enabled(s, Scan(w))
    ensures var i, s' := FirstEligible(s, w, 0), Apply(s, Scan(w));
            && Alive(s, w)
            && (i == |s.queue| ==> s'.queue == s.queue)
            && (i < |s.queue| ==>
                  && s.queue[i].thread in {None, Some(w)}
                  && forall t :: t in s'.queue || t == s.queue[i] <==> t in s.queue)
  {
    var i := FirstEligible(s, w, 0);
    if i < |s.queue| {
      assert s.queue == s.queue[..i] + [s.queue[i]] + s.queue[i + 1..];
    }
  }

  lemma ScanStrands(s: State, w: nat, callback: bool)
    requires Enabled(s, Scan(w))
    ensures Stranded(Apply(s, Scan(w)), callback) <==> Stranded(s, callback) || Overlooks(s, Scan(w), callback)
  {
    hide Enabled, Apply, Alive, FirstEligible;
    var s', i := Apply(s, Scan(w)), FirstEligible(s, w, 0);
    ScanQueue(s, w);
    AliveElsewhere(s, Scan(w), w);
    AliveStep(s, Scan(w), w);
    if i == |s.queue| {
      Overlooked(s, w, callback);
    } else {
      forall t | t in s.queue && Pinned(t, callback) && !Alive(s, t.thread.value) ensures t in s'.queue {
      }
      Taking(s, w);
    }
  }

  /** A step of one worker leaves the others as they are. */
  lemma AliveElsewhere(s: State, a: Action, w: nat)
    requires Enabled(s, a) && (a == Scan(w) || a == EnterRoot(w))
    ensures forall v: nat :: v != w ==> Alive(Apply(s, a), v) == Alive(s, v)
  {
    hide Queued;
  }

  lemma Taking(s: State, w: nat)
    requires Enabled(s, Scan(w)) && FirstEligible(s, w, 0) < |s.queue|
    ensures Alive(Apply(s, Scan(w)), w)
  {
  }

  /** A scan that finds nothing strands what is pinned to its worker, if it is the last one. */
  lemma Overlooked(s: State, w: nat, callback: bool)
    requires Enabled(s, Scan(w)) && FirstEligible(s, w, 0) == |s.queue|
    ensures var s' := Apply(s, Scan(w));
            && s'.queue == s.queue && (Alive(s', w) <==> !s.workers[w].idleTerm)
  {
  }

  /** Whoever overlooks a pinned task does so because its fiber executes in another worker; no callback is overlooked. */
  lemma OverlookedExecutes(s: State, a: Action, callback: bool)
    requires ExecOk(s) && Enabled(s, a) && Overlooks(s, a, callback)
    ensures !callback
    ensures exists t, v :: t in s.queue && Pinned(t, callback) && t.thread.value == a.w
                           && 0 <= v < |s.workers| && v != a.w && IsRunning(s.workers[v], t.work.f)
  {
    var t :| t in s.queue && Pinned(t, callback) && t.thread.value == a.w;
    var i :| 0 <= i < |s.queue| && s.queue[i] == t;
    assert !Eligible(s, a.w, s.queue[i]);
    var v :| 0 <= v < |s.workers| && IsRunning(s.workers[v], t.work.f);
    assert s.workers[a.w].pc == LoopHead;
  }

  lemma NoCallbackOverlooked(s: State, a: Action)
    requires Enabled(s, a)
    ensures !Overlooks(s, a, true)
  {
    hide Enabled;
    if a.Scan? && a.w < |s.workers| && FirstEligible(s, a.w, 0) == |s.queue| {
      forall t | t in s.queue && Pinned(t, true) ensures t.thread.value != a.w {
        var i :| 0 <= i < |s.queue| && s.queue[i] == t;
        assert !Eligible(s, a.w, s.queue[i]);
      }
    }
  }

  lemma OtherStrands(s: State, a: Action, callback: bool)
    requires Enabled(s, a) && !a.Scan?
    ensures Stranded(Apply(s, a), callback) <==> Stranded(s, callback) || Late(s, a, callback)
  {
    hide Enabled, Apply, Alive;
    var s' := Apply(s, a);
    QueueStep(s, a);
    if a.EnterRoot? {
      AliveElsewhere(s, a, a.w);
    } else {
      forall w ensures Alive(s', w) == Alive(s, w) {
        AliveStep(s, a, w);
      }
    }
    if a.EnterRoot? && s.queue != [] {
      AliveRoot(s, a);
    }
  }

  lemma AliveRoot(s: State, a: Action)
    requires Enabled(s, a) && a.EnterRoot? && s.queue != []
    ensures Alive(Apply(s, a), a.w) && Alive(s, a.w)
  {
  }

  /** A step strands a task exactly when it schedules one late or overlooks one; and what is stranded stays so. */
  lemma StrandedStep(s: State, a: Action, callback: bool)
    requires Enabled(s, a)
    ensures Stranded(Apply(s, a), callback) <==> Stranded(s, callback) || Late(s, a, callback) || Overlooks(s, a, callback)
  {
    hide Enabled, Apply, Alive;
    var s' := Apply(s, a);
    if a.Scan? {
      ScanStrands(s, a.w, callback);
    } else {
      OtherStrands(s, a, callback);
    }
  }

  /** A last scan leaves an unpinned task only if its fiber executes, and whoever executes it will scan again. */
  lemma LastScan(s: State, w: nat)
    requires ExecOk(s) && Enabled(s, Scan(w)) && FirstEligible(s, w, 0) == |s.queue|
    ensures var s' := Apply(s, Scan(w));
            s'.queue == s.queue && ((exists t :: t in s.queue && t.thread == None) ==> SomeoneScans(s'))
  {
    var s' := Apply(s, Scan(w));
    forall t | t in s.queue && t.thread == None ensures SomeoneScans(s') {
      var i :| 0 <= i < |s.queue| && s.queue[i] == t;
      assert !Eligible(s, w, t);
      var v :| 0 <= v < |s.workers| && IsRunning(s.workers[v], t.work.f);
      assert s'.workers[v] == s.workers[v];
      assert Alive(s', v);
    }
  }

  lemma AbandonedScan(s: State, w: nat)
    requires ExecOk(s) && Enabled(s, Scan(w))
    ensures !Abandoned(Apply(s, Scan(w))) && !Abandoned(s)
  {
    hide Enabled, Apply, Alive, FirstEligible, ExecOk;
    ScanQueue(s, w);
    if FirstEligible(s, w, 0) == |s.queue| {
      LastScan(s, w);
    } else {
      Taking(s, w);
    }
  }

  lemma AbandonedOther(s: State, a: Action)
    requires Enabled(s, a) && !a.Scan?
    ensures Abandoned(Apply(s, a)) <==> Abandoned(s) || TooLate(s, a)
  {
    hide Enabled, Apply, Alive;
    var s' := Apply(s, a);
    QueueStep(s, a);
    if a.EnterRoot? {
      if s.queue != [] {
        AliveRoot(s, a);
      }
    } else {
      forall w ensures Alive(s', w) == Alive(s, w) {
        AliveStep(s, a, w);
      }
      if a.Requeue? {
        RequeuerScans(s, a.w);
      }
      assert SomeoneScans(s') <==> SomeoneScans(s);
    }
  }

  lemma RequeuerScans(s: State, w: nat)
    requires Enabled(s, Requeue(w))
    ensures Alive(s, w)
  {
  }

  /** A step abandons an unpinned task exactly when it schedules one too late; and what is abandoned stays so. */
  lemma AbandonedStep(s: State, a: Action)
    requires ExecOk(s) && Enabled(s, a)
    ensures Abandoned(Apply(s, a)) <==> Abandoned(s) || TooLate(s, a)
  {
    hide Enabled, Apply, Alive, ExecOk, Abandoned, TooLate;
    if a.Scan? {
      AbandonedScan(s, a.w);
      NotTooLate(s, a);
    } else {
      AbandonedOther(s, a);
    }
  }

  lemma NotTooLate(s: State, a: Action)
    requires !a.External? && !a.Schedule?
    ensures !TooLate(s, a)
  {
  }

  /** A worker's idle fiber ends, and a worker leaves, only after stop was called. */
  ghost predicate StopOk(s: State) {
    && |s.workers| > 0
    && forall w :: 0 <= w < |s.workers| && (s.workers[w].idleTerm || s.workers[w].pc == Exited) ==> s.autoStop && s.stopping
  }

  lemma StopStep(s: State, a: Action)
    requires StopOk(s) && Enabled(s, a)
    ensures StopOk(Apply(s, a))
  {
    hide StopOk, Apply, Enabled;
    match a
    case SwapIn(w, g) =>
      AppliesSwapIn(s, w, g);
      SwapInStops(s, w, g);
    case YieldHold(_) => StopTask(s, a);
    case YieldReady(_) => StopTask(s, a);
    case Finish(_, _) => StopTask(s, a);
    case Requeue(_) => StopTask(s, a);
    case Scan(_) => StopTask(s, a);
    case _ => StopOther(s, a);
  }

  lemma AppliesSwapIn(s: State, w: nat, g: FiberId)
    requires Enabled(s, SwapIn(w, g))
    ensures w < |s.workers| && s.workers[w].pc.Took? && Apply(s, SwapIn(w, g)) == DoSwapIn(s, w, g)
  {
    hide DoSwapIn;
  }

  lemma StopTask(s: State, a: Action)
    requires StopOk(s) && Enabled(s, a) && (a.YieldHold? || a.YieldReady? || a.Finish? || a.Requeue? || a.Scan?)
    ensures StopOk(Apply(s, a))
  {
    hide FirstEligible;
  }

  lemma StopOther(s: State, a: Action)
    requires StopOk(s) && Enabled(s, a)
    requires !(a.SwapIn? || a.YieldHold? || a.YieldReady? || a.Finish? || a.Requeue? || a.Scan?)
    ensures StopOk(Apply(s, a))
  {
  }

  lemma SwapInStops(s: State, w: nat, g: FiberId)
    requires StopOk(s) && w < |s.workers| && s.workers[w].pc.Took?
    ensures StopOk(DoSwapIn(s, w, g))
  {
  }

  /** Only from outside, and only after stop, can a task come too late. */
  lemma LateFromOutside(s: State, a: Action)
    requires StopOk(s) && Enabled(s, a) && TooLate(s, a)
    ensures a.External? && s.autoStop
  {
    assert !Alive(s, 0);
    if a.Schedule? {
      assert Alive(s, a.w);
    }
  }

  // ---------------------------------------------------------------- whole runs

  lemma {:induction false} StrandedIff(s: State, run: seq<Action>)
    requires IsRun(s, run)
    ensures Stranded(After(s, run), true) <==> Stranded(s, true) || !AllInTime(s, run)
    ensures Stranded(After(s, run), false) <==> Stranded(s, false) || !AllNoticed(s, run)
    decreases |run|
  {
    hide Enabled, Apply, Stranded, Late, Overlooks;
    if run != [] {
      StrandedStep(s, run[0], true);
      StrandedStep(s, run[0], false);
      NoCallbackOverlooked(s, run[0]);
      StrandedIff(Apply(s, run[0]), run[1..]);
    }
  }

  lemma NobodyLeft(s: State, callback: bool)
    requires forall w :: 0 <= w < |s.workers| ==> s.workers[w].pc == Exited
    ensures Stranded(s, callback) <==> exists t :: t in s.queue && Pinned(t, callback)
  {
  }

  lemma NothingQueued(s: State)
    requires Init(s)
    ensures !Stranded(s, true) && !Stranded(s, false)
  {
  }

  /** Once every worker has left `run`, a pinned callback is left behind if and only if some pinned callback was scheduled
      after the last scan of its worker; and a pinned fiber if and only if one was scheduled that late, or the last scan
      of its worker passed over it while it executed elsewhere. */
  lemma PinnedTaskLostIff(s: State, run: seq<Action>)
    requires Init(s) && IsRun(s, run)
    requires forall w :: 0 <= w < |After(s, run).workers| ==> After(s, run).workers[w].pc == Exited
    ensures (exists t :: t in After(s, run).queue && t.work.CbWork? && t.thread.Some?) <==> !AllInTime(s, run)
    ensures (exists t :: t in After(s, run).queue && t.work.FiberWork? && t.thread.Some?) <==> !AllNoticed(s, run)
  {
    hide Init, IsRun, After, AllInTime, AllNoticed, Stranded;
    NothingQueued(s);
    StrandedIff(s, run);
    NobodyLeft(After(s, run), true);
    NobodyLeft(After(s, run), false);
    ByKind(After(s, run).queue);
  }

  lemma ByKind(queue: seq<Task>)
    ensures (exists t :: t in queue && t.work.CbWork? && t.thread.Some?) <==> exists t :: t in queue && Pinned(t, true)
    ensures (exists t :: t in queue && t.work.FiberWork? && t.thread.Some?) <==> exists t :: t in queue && Pinned(t, false)
  {
    if t :| t in queue && t.work.CbWork? && t.thread.Some? {
      assert Pinned(t, true);
    }
    if t :| t in queue && t.work.FiberWork? && t.thread.Some? {
      assert Pinned(t, false);
    }
  }

  lemma {:induction false} AbandonedIff(s: State, run: seq<Action>)
    requires Inv(s) && IsRun(s, run)
    ensures Abandoned(After(s, run)) <==> Abandoned(s) || !SomeoneInTime(s, run)
    decreases |run|
  {
    hide Enabled, Apply, Abandoned, TooLate, ExecOk, CountersOk, HistoryOk;
    if run != [] {
      AbandonedStep(s, run[0]);
      InvStep(s, run[0]);
      AbandonedIff(Apply(s, run[0]), run[1..]);
    }
  }

  /** Once every worker has left `run`, an unpinned task is left behind if and only if one was scheduled when every worker
      had made its last scan. */
  lemma UnpinnedTaskLostIff(s: State, run: seq<Action>)
    requires Init(s) && IsRun(s, run)
    requires forall w :: 0 <= w < |After(s, run).workers| ==> After(s, run).workers[w].pc == Exited
    ensures (exists t :: t in After(s, run).queue && t.thread == None) <==> !SomeoneInTime(s, run)
  {
    hide IsRun, After, SomeoneInTime, Inv;
    InitInv(s);
    AbandonedIff(s, run);
  }

  lemma {:induction false} QuietInTime(s: State, run: seq<Action>)
    requires StopOk(s) && IsRun(s, run) && QuietAfterStop(s, run)
    ensures SomeoneInTime(s, run)
    decreases |run|
  {
    hide Enabled, Apply, TooLate, StopOk;
    if run != [] {
      if TooLate(s, run[0]) {
        LateFromOutside(s, run[0]);
      }
      StopStep(s, run[0]);
      QuietInTime(Apply(s, run[0]), run[1..]);
    }
  }

  /** If nothing is scheduled from outside after stop, no unpinned task is left behind. */
  lemma NoUnpinnedTaskLost(s: State, run: seq<Action>)
    requires Init(s) && IsRun(s, run) && QuietAfterStop(s, run)
    requires forall w :: 0 <= w < |After(s, run).workers| ==> After(s, run).workers[w].pc == Exited
    ensures forall t :: t in After(s, run).queue ==> t.thread != None
  {
    hide IsRun, After, SomeoneInTime, QuietAfterStop;
    QuietInTime(s, run);
    UnpinnedTaskLostIff(s, run);
  }

  /** Once every worker has left, every task ever scheduled has been taken if and only if none was scheduled too late or
      overlooked. */
  lemma NothingLostIff(s: State, run: seq<Action>)
    requires Init(s) && IsRun(s, run)
    requires forall w :: 0 <= w < |After(s, run).workers| ==> After(s, run).workers[w].pc == Exited
    ensures After(s, run).pushed == Tasks(After(s, run).taken)
            <==> AllInTime(s, run) && AllNoticed(s, run) && SomeoneInTime(s, run)
  {
    hide Init, IsRun, After, AllInTime, AllNoticed, SomeoneInTime, Tasks;
    PinnedTaskLostIff(s, run);
    UnpinnedTaskLostIff(s, run);
    CountsAlways(s, run);
    var q := After(s, run).queue;
    if q == [] {
      assert multiset(q) == multiset{};
    } else {
      assert q[0] in q;
      assert multiset(q)[q[0]] > 0;
    }
  }

  // ---------------------------------------------------------------- stopping()

  /** When stopping() holds, no wake-up of any fiber is under way if and only if no worker is about to queue a ready fiber
      again. */
  lemma StoppingOverlooksIff(s: State, run: seq<Action>)
    requires Init(s) && IsRun(s, run) && Stopping(After(s, run))
    ensures var t := After(s, run);
            (forall f :: !WakeOutstanding(t, f)) <==> forall w :: 0 <= w < |t.workers| ==> !t.workers[w].pc.Requeuing?
  {
    hide Init, IsRun, After;
    StoppingMeansIdle(s, run);
    var t := After(s, run);
    assert Queued(t) == {};
    if w :| 0 <= w < |t.workers| && t.workers[w].pc.Requeuing? {
      assert HoldsWake(t.workers[w], t.workers[w].pc.f);
      assert WakeOutstanding(t, t.workers[w].pc.f);
    } else {
      assert forall w :: 0 <= w < |t.workers| ==> !Holding(t.workers[w]);
    }
  }

  // ---------------------------------------------------------------- leaving

  /** A round of the idle fiber of `w` that sees neither a timer nor an event waiting, while stopping() holds. */
  predicate QuietRound(s: State, a: Action, w: nat) {
    a == IdleRound(w, true) && Stopping(s)
  }

  predicate RootEntry(s: State, a: Action, w: nat) {
    a == EnterRoot(w) && Stopping(s)
  }

  /** The idle fiber of a worker ends in no other round, and a worker leaves through its ended idle fiber or, as the root
      thread, by finding everything stopped when it enters. */
  lemma LeaveStep(s: State, a: Action, w: nat)
    requires Enabled(s, a) && w < |s.workers|
    ensures var s' := Apply(s, a);
            && |s'.workers| == |s.workers|
            && (s'.workers[w].idleTerm <==> s.workers[w].idleTerm || QuietRound(s, a, w))
            && (s'.workers[w].pc == Exited
                <==> s.workers[w].pc == Exited || RootEntry(s, a, w) || (a == CheckIdle(w) && s.workers[w].idleTerm))
  {
    hide Enabled, Apply, QuietRound, RootEntry;
    match a
    case SwapIn(v, g) =>
      AppliesSwapIn(s, v, g);
      SwapInLeaves(s, v, g, w);
      OtherRound(s, a, w);
    case EnterRoot(_) => LeaveIdle(s, a, w);
    case CheckIdle(_) => LeaveIdle(s, a, w);
    case IdleRound(_, _) => LeaveIdle(s, a, w);
    case _ =>
      LeaveNot(s, a, w);
      OtherRound(s, a, w);
  }

  lemma OtherRound(s: State, a: Action, w: nat)
    requires !a.EnterRoot? && !a.IdleRound?
    ensures !QuietRound(s, a, w) && !RootEntry(s, a, w)
  {
  }

  lemma LeaveIdle(s: State, a: Action, w: nat)
    requires Enabled(s, a) && w < |s.workers| && (a.EnterRoot? || a.CheckIdle? || a.IdleRound?)
    ensures var s' := Apply(s, a);
            && |s'.workers| == |s.workers|
            && (s'.workers[w].idleTerm <==> s.workers[w].idleTerm || QuietRound(s, a, w))
            && (s'.workers[w].pc == Exited
                <==> s.workers[w].pc == Exited || RootEntry(s, a, w) || (a == CheckIdle(w) && s.workers[w].idleTerm))
  {
    hide Stopping;
  }

  lemma LeaveNot(s: State, a: Action, w: nat)
    requires Enabled(s, a) && w < |s.workers| && !a.EnterRoot? && !a.CheckIdle? && !a.IdleRound? && !a.SwapIn?
    ensures var s' := Apply(s, a);
            && |s'.workers| == |s.workers| && s'.workers[w].idleTerm == s.workers[w].idleTerm
            && (s'.workers[w].pc == Exited <==> s.workers[w].pc == Exited)
  {
    hide Enabled, Apply;
    if Mover(a).Some? {
      LeaveRunner(s, a, w);
    } else {
      OthersStay(s, a);
    }
  }

  lemma LeaveRunner(s: State, a: Action, w: nat)
    requires Enabled(s, a) && w < |s.workers| && (a.Scan? || a.YieldHold? || a.YieldReady? || a.Finish? || a.Requeue?)
    ensures var s' := Apply(s, a);
            && |s'.workers| == |s.workers| && s'.workers[w].idleTerm == s.workers[w].idleTerm
            && (s'.workers[w].pc == Exited <==> s.workers[w].pc == Exited)
  {
    hide FirstEligible;
    if a.w != w {
      OthersStay(s, a);
    }
  }

  lemma SwapInLeaves(s: State, v: nat, g: FiberId, w: nat)
    requires v < |s.workers| && s.workers[v].pc.Took? && w < |s.workers|
    ensures var s' := DoSwapIn(s, v, g);
            && |s'.workers| == |s.workers| && s'.workers[w].idleTerm == s.workers[w].idleTerm
            && (s'.workers[w].pc == Exited <==> s.workers[w].pc == Exited)
  {
  }

  ghost predicate HasQuietRound(s: State, run: seq<Action>, w: nat)
    requires IsRun(s, run)
    decreases |run|
  {
    run != [] && (QuietRound(s, run[0], w) || HasQuietRound(Apply(s, run[0]), run[1..], w))
  }

  ghost predicate HasRootEntry(s: State, run: seq<Action>, w: nat)
    requires IsRun(s, run)
    decreases |run|
  {
    run != [] && (RootEntry(s, run[0], w) || HasRootEntry(Apply(s, run[0]), run[1..], w))
  }

  lemma {:induction false} LeavesFrom(s: State, run: seq<Action>, w: nat)
    requires IsRun(s, run) && w < |s.workers|
    ensures var t := After(s, run);
            && |t.workers| == |s.workers|
            && (t.workers[w].idleTerm <==> s.workers[w].idleTerm || HasQuietRound(s, run, w))
            && (t.workers[w].pc == Exited ==>
                  s.workers[w].pc == Exited || s.workers[w].idleTerm || HasQuietRound(s, run, w) || HasRootEntry(s, run, w))
    decreases |run|
  {
    hide Enabled, Apply, QuietRound, RootEntry;
    if run != [] {
      LeaveStep(s, run[0], w);
      LeavesFrom(Apply(s, run[0]), run[1..], w);
    }
  }

  /** Over every run: the idle fiber of a worker has ended if and only if one of its rounds saw neither a timer nor an event
      waiting while stopping() held; and no worker has left without that, but the root thread when everything had stopped
      before it entered. */
  lemma LeavesIff(s: State, run: seq<Action>, w: nat)
    requires Init(s) && IsRun(s, run) && w < |s.workers|
    ensures var t := After(s, run);
            && w < |t.workers| && (t.workers[w].idleTerm <==> HasQuietRound(s, run, w))
            && (t.workers[w].pc == Exited ==> HasQuietRound(s, run, w) || HasRootEntry(s, run, w))
  {
    hide IsRun, After, HasQuietRound, HasRootEntry;
    LeavesFrom(s, run, w);
  }
}
