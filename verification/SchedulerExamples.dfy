/** Runs that show where the guarantees of the scheduler end. */
module SchedulerExamples {
  import opened Codec
  import opened Scheduler
  import opened SchedulerSafety
  import opened SchedulerShutdown

  const TASK := Task(FiberWork(0), None)
  const PINNED := Task(CbWork(7), Some(1))

  /** Two workers and one fiber. */
  function At(queue: seq<Task>, f: FiberState, workers: seq<Worker>, active: int, idle: int, autoStop: bool,
              stopping: bool, woken: nat, pinned: nat, taken: seq<(nat, Task)>): State
  {
    State(queue, map[0 := f], workers, active, idle, autoStop, stopping, false,
          multiset{}[TASK := woken][PINNED := pinned], taken)
  }

  /** By careful steps only. */
  ghost predicate Reaches(s: State, t: State) {
    exists run :: IsRun(s, run) && AllCareful(s, run) && After(s, run) == t
  }

  lemma ReachesStep(s: State, a: Action, t: State)
    requires Enabled(s, a) && Careful(s, a) && Apply(s, a) == t
    ensures Reaches(s, t)
  {
    var run := [a];
    assert run[1..] == [];
    assert IsRun(t, []) && After(t, []) == t && AllCareful(t, []);
    assert IsRun(s, run) && After(s, run) == t && AllCareful(s, run);
  }

  lemma ReachesTrans(s: State, t: State, u: State)
    requires Reaches(s, t) && Reaches(t, u)
    ensures Reaches(s, u)
  {
    var first :| IsRun(s, first) && AllCareful(s, first) && After(s, first) == t;
    var second :| IsRun(t, second) && AllCareful(t, second) && After(t, second) == u;
    RunsJoin(s, first, second);
  }

  lemma {:induction false} RunsJoin(s: State, first: seq<Action>, second: seq<Action>)
    requires IsRun(s, first) && AllCareful(s, first) && IsRun(After(s, first), second) && AllCareful(After(s, first), second)
    ensures IsRun(s, first + second) && AllCareful(s, first + second)
    ensures After(s, first + second) == After(After(s, first), second)
    decreases |first|
  {
    hide Enabled, Apply, Careful;
    if first == [] {
      assert first + second == second;
    } else {
      RunsJoin(Apply(s, first[0]), first[1..], second);
      assert (first + second)[1..] == first[1..] + second;
    }
  }

  const START := At([], INIT, [Worker(LoopHead, false, None), Worker(LoopHead, false, None)],
                    0, 0, false, false, 0, 0, [])
  const WOKEN := At([TASK], INIT, [Worker(LoopHead, false, None), Worker(LoopHead, false, None)],
                    0, 0, false, false, 1, 0, [])
  const TAKEN := At([], INIT, [Worker(Took(FiberWork(0)), false, None), Worker(LoopHead, false, None)],
                    1, 0, true, true, 1, 0, [(0, TASK)])
  const FIBER_READY := At([], READY, [Worker(Requeuing(0, false), false, None), Worker(LoopHead, false, None)],
                          0, 0, true, true, 1, 0, [(0, TASK)])
  const ONE_IDLE_OVER := At([], READY, [Worker(Requeuing(0, false), false, None), Worker(LoopHead, true, None)],
                            0, 0, true, true, 1, 0, [(0, TASK)])
  const OTHER_RUNS := At([], READY, [Worker(LoopHead, false, None), Worker(Took(FiberWork(0)), true, None)],
                         1, 0, true, true, 2, 0, [(0, TASK), (1, TASK)])
  const OTHER_READY := At([], READY, [Worker(LoopHead, false, None), Worker(Requeuing(0, false), true, None)],
                          0, 0, true, true, 2, 0, [(0, TASK), (1, TASK)])
  const BOTH_IDLE_OVER := At([TASK], READY, [Worker(LoopHead, true, None), Worker(LoopHead, true, None)],
                             0, 0, true, true, 3, 0, [(0, TASK), (1, TASK)])
  const RUNS_AGAIN := At([], EXEC, [Worker(Running(0, false), true, None), Worker(LoopHead, true, None)],
                         1, 0, true, true, 3, 0, [(0, TASK), (1, TASK), (0, TASK)])
  const ONE_GONE := At([], EXEC, [Worker(Running(0, false), true, None), Worker(Exited, true, None)],
                       1, 0, true, true, 3, 0, [(0, TASK), (1, TASK), (0, TASK)])
  const PINNED_QUEUED := At([PINNED], EXEC, [Worker(Running(0, false), true, None), Worker(Exited, true, None)],
                            1, 0, true, true, 3, 1, [(0, TASK), (1, TASK), (0, TASK)])
  const ALL_GONE := At([PINNED], TERM, [Worker(Exited, true, None), Worker(Exited, true, None)],
                       0, 0, true, true, 3, 1, [(0, TASK), (1, TASK), (0, TASK)])

  lemma WakeFiber()
    ensures Reaches(START, WOKEN)
  {
    hide IsRun, After, AllCareful, Reaches;
    ReachesStep(START, External(TASK), WOKEN);
  }

  lemma StopAndTake()
    ensures Reaches(WOKEN, TAKEN)
  {
    hide IsRun, After, AllCareful, Reaches;
    var s2 := At([TASK], INIT, [Worker(LoopHead, false, None), Worker(LoopHead, false, None)],
                 0, 0, true, false, 1, 0, []);
    ReachesStep(WOKEN, SetAutoStop, s2);
    var s3 := At([TASK], INIT, [Worker(LoopHead, false, None), Worker(LoopHead, false, None)],
                 0, 0, true, true, 1, 0, []);
    ReachesStep(s2, SetStopping, s3);
    ReachesTrans(WOKEN, s2, s3);
    ReachesStep(s3, Scan(0), TAKEN);
    ReachesTrans(WOKEN, s3, TAKEN);
  }

  lemma YieldFirst()
    ensures Reaches(TAKEN, FIBER_READY)
  {
    hide IsRun, After, AllCareful, Reaches;
    var s5 := At([], EXEC, [Worker(Running(0, false), false, None), Worker(LoopHead, false, None)],
                 1, 0, true, true, 1, 0, [(0, TASK)]);
    ReachesStep(TAKEN, SwapIn(0, 1), s5);
    ReachesStep(s5, YieldReady(0), FIBER_READY);
    ReachesTrans(TAKEN, s5, FIBER_READY);
  }

  lemma EndFirstIdle()
    ensures Reaches(FIBER_READY, ONE_IDLE_OVER)
  {
    hide IsRun, After, AllCareful, Reaches;
    var s7 := At([], READY, [Worker(Requeuing(0, false), false, None), Worker(NoTask, false, None)],
                 0, 0, true, true, 1, 0, [(0, TASK)]);
    ReachesStep(FIBER_READY, Scan(1), s7);
    var s8 := At([], READY, [Worker(Requeuing(0, false), false, None), Worker(Idling, false, None)],
                 0, 1, true, true, 1, 0, [(0, TASK)]);
    ReachesStep(s7, CheckIdle(1), s8);
    ReachesTrans(FIBER_READY, s7, s8);
    ReachesStep(s8, IdleRound(1, true), ONE_IDLE_OVER);
    ReachesTrans(FIBER_READY, s8, ONE_IDLE_OVER);
  }

  lemma RunOther()
    ensures Reaches(ONE_IDLE_OVER, OTHER_RUNS)
  {
    hide IsRun, After, AllCareful, Reaches;
    var s10 := At([TASK], READY, [Worker(LoopHead, false, None), Worker(LoopHead, true, None)],
                  0, 0, true, true, 2, 0, [(0, TASK)]);
    ReachesStep(ONE_IDLE_OVER, Requeue(0), s10);
    ReachesStep(s10, Scan(1), OTHER_RUNS);
    ReachesTrans(ONE_IDLE_OVER, s10, OTHER_RUNS);
  }

  lemma YieldSecond()
    ensures Reaches(OTHER_RUNS, OTHER_READY)
  {
    hide IsRun, After, AllCareful, Reaches;
    var s12 := At([], EXEC, [Worker(LoopHead, false, None), Worker(Running(0, false), true, None)],
                  1, 0, true, true, 2, 0, [(0, TASK), (1, TASK)]);
    ReachesStep(OTHER_RUNS, SwapIn(1, 1), s12);
    ReachesStep(s12, YieldReady(1), OTHER_READY);
    ReachesTrans(OTHER_RUNS, s12, OTHER_READY);
  }

  lemma EndSecondIdle()
    ensures Reaches(OTHER_READY, BOTH_IDLE_OVER)
  {
    hide IsRun, After, AllCareful, Reaches;
    var s14 := At([], READY, [Worker(NoTask, false, None), Worker(Requeuing(0, false), true, None)],
                  0, 0, true, true, 2, 0, [(0, TASK), (1, TASK)]);
    ReachesStep(OTHER_READY, Scan(0), s14);
    var s15 := At([], READY, [Worker(Idling, false, None), Worker(Requeuing(0, false), true, None)],
                  0, 1, true, true, 2, 0, [(0, TASK), (1, TASK)]);
    ReachesStep(s14, CheckIdle(0), s15);
    ReachesTrans(OTHER_READY, s14, s15);
    var s16 := At([], READY, [Worker(LoopHead, true, None), Worker(Requeuing(0, false), true, None)],
                  0, 0, true, true, 2, 0, [(0, TASK), (1, TASK)]);
    ReachesStep(s15, IdleRound(0, true), s16);
    ReachesTrans(OTHER_READY, s15, s16);
    ReachesStep(s16, Requeue(1), BOTH_IDLE_OVER);
    ReachesTrans(OTHER_READY, s16, BOTH_IDLE_OVER);
  }

  lemma RunAgain()
    ensures Reaches(BOTH_IDLE_OVER, RUNS_AGAIN)
  {
    hide IsRun, After, AllCareful, Reaches;
    var s18 := At([], READY, [Worker(Took(FiberWork(0)), true, None), Worker(LoopHead, true, None)],
                  1, 0, true, true, 3, 0, [(0, TASK), (1, TASK), (0, TASK)]);
    ReachesStep(BOTH_IDLE_OVER, Scan(0), s18);
    ReachesStep(s18, SwapIn(0, 1), RUNS_AGAIN);
    ReachesTrans(BOTH_IDLE_OVER, s18, RUNS_AGAIN);
  }

  lemma FirstLeaves()
    ensures Reaches(RUNS_AGAIN, ONE_GONE)
  {
    hide IsRun, After, AllCareful, Reaches;
    var s20 := At([], EXEC, [Worker(Running(0, false), true, None), Worker(NoTask, true, None)],
                  1, 0, true, true, 3, 0, [(0, TASK), (1, TASK), (0, TASK)]);
    ReachesStep(RUNS_AGAIN, Scan(1), s20);
    ReachesStep(s20, CheckIdle(1), ONE_GONE);
    ReachesTrans(RUNS_AGAIN, s20, ONE_GONE);
  }

  lemma SchedulePinned()
    ensures Reaches(ONE_GONE, PINNED_QUEUED)
  {
    hide IsRun, After, AllCareful, Reaches;
    ReachesStep(ONE_GONE, Schedule(0, PINNED), PINNED_QUEUED);
  }

  lemma SecondLeaves()
    ensures Reaches(PINNED_QUEUED, ALL_GONE)
  {
    hide IsRun, After, AllCareful, Reaches;
    var s23 := At([PINNED], TERM, [Worker(LoopHead, true, None), Worker(Exited, true, None)],
                  0, 0, true, true, 3, 1, [(0, TASK), (1, TASK), (0, TASK)]);
    ReachesStep(PINNED_QUEUED, Finish(0, true), s23);
    var s24 := At([PINNED], TERM, [Worker(NoTask, true, None), Worker(Exited, true, None)],
                  0, 0, true, true, 3, 1, [(0, TASK), (1, TASK), (0, TASK)]);
    ReachesStep(s23, Scan(0), s24);
    ReachesTrans(PINNED_QUEUED, s23, s24);
    ReachesStep(s24, CheckIdle(0), ALL_GONE);
    ReachesTrans(PINNED_QUEUED, s24, ALL_GONE);
  }

  /** stopping() may hold while a worker is about to put a ready fiber back into the queue. */
  lemma StoppingWithReadyFiber()
    ensures exists s, run :: Init(s) && IsRun(s, run) && AllCareful(s, run) && Stopping(After(s, run))
                             && |After(s, run).workers| == 2 && After(s, run).workers[0].pc == Requeuing(0, false)
  {
    hide IsRun, After, AllCareful;
    WakeFiber();
    StopAndTake();
    YieldFirst();
    ReachesTrans(START, WOKEN, TAKEN);
    ReachesTrans(START, TAKEN, FIBER_READY);
    var run :| IsRun(START, run) && AllCareful(START, run) && After(START, run) == FIBER_READY;
    assert Init(START);
  }

  lemma ReachesRunning()
    ensures Reaches(START, RUNS_AGAIN)
  {
    hide IsRun, After, AllCareful, Reaches;
    WakeFiber();
    StopAndTake();
    YieldFirst();
    EndFirstIdle();
    RunOther();
    YieldSecond();
    EndSecondIdle();
    RunAgain();
    ReachesTrans(START, WOKEN, TAKEN);
    ReachesTrans(START, TAKEN, FIBER_READY);
    ReachesTrans(START, FIBER_READY, ONE_IDLE_OVER);
    ReachesTrans(START, ONE_IDLE_OVER, OTHER_RUNS);
    ReachesTrans(START, OTHER_RUNS, OTHER_READY);
    ReachesTrans(START, OTHER_READY, BOTH_IDLE_OVER);
    ReachesTrans(START, BOTH_IDLE_OVER, RUNS_AGAIN);
  }

  ghost predicate AllExited(s: State) {
    forall w :: 0 <= w < |s.workers| ==> s.workers[w].pc == Exited
  }

  /** A pinned task, unlike an unpinned one, can be left in the queue after every worker has gone. */
  lemma PinnedTaskLost()
    ensures exists s, run :: Init(s) && IsRun(s, run) && AllCareful(s, run)
                             && After(s, run).queue == [PINNED] && AllExited(After(s, run))
  {
    hide IsRun, After, AllCareful;
    ReachesRunning();
    FirstLeaves();
    SchedulePinned();
    SecondLeaves();
    ReachesTrans(START, RUNS_AGAIN, ONE_GONE);
    ReachesTrans(START, ONE_GONE, PINNED_QUEUED);
    ReachesTrans(START, PINNED_QUEUED, ALL_GONE);
    var run :| IsRun(START, run) && AllCareful(START, run) && After(START, run) == ALL_GONE;
    assert Init(START);
  }

  // ---------------------------------------------------------------- an overlooked fiber

  const PINNED_FIBER := Task(FiberWork(0), Some(1))

  /** A fiber wakes itself on the other thread, whose last scan comes while it still executes. */
  const SELF_WOKEN := RUNS_AGAIN.(queue := [PINNED_FIBER], pushed := RUNS_AGAIN.pushed + multiset{PINNED_FIBER})
  const PASSED_OVER := SELF_WOKEN.(workers := [Worker(Running(0, false), true, None), Worker(Exited, true, None)])
  const LEFT_BEHIND := SELF_WOKEN.(fibers := map[0 := HOLD], active := 0,
                                   workers := [Worker(Exited, true, None), Worker(Exited, true, None)])

  lemma WakeItself()
    ensures Reaches(RUNS_AGAIN, SELF_WOKEN)
  {
    hide IsRun, After, AllCareful, Reaches;
    ReachesStep(RUNS_AGAIN, Schedule(0, PINNED_FIBER), SELF_WOKEN);
  }

  lemma PassOver()
    ensures Reaches(SELF_WOKEN, PASSED_OVER)
  {
    hide IsRun, After, AllCareful, Reaches;
    var s1 := SELF_WOKEN.(workers := [Worker(Running(0, false), true, None), Worker(NoTask, true, None)]);
    ReachesStep(SELF_WOKEN, Scan(1), s1);
    ReachesStep(s1, CheckIdle(1), PASSED_OVER);
    ReachesTrans(SELF_WOKEN, s1, PASSED_OVER);
  }

  lemma LeaveBehind()
    ensures Reaches(PASSED_OVER, LEFT_BEHIND)
  {
    hide IsRun, After, AllCareful, Reaches;
    var s3 := LEFT_BEHIND.(workers := [Worker(LoopHead, true, None), Worker(Exited, true, None)]);
    var s4 := LEFT_BEHIND.(workers := [Worker(NoTask, true, None), Worker(Exited, true, None)]);
    ReachesStep(PASSED_OVER, YieldHold(0), s3);
    ReachesStep(s3, Scan(0), s4);
    ReachesTrans(PASSED_OVER, s3, s4);
    ReachesStep(s4, CheckIdle(0), LEFT_BEHIND);
    ReachesTrans(PASSED_OVER, s4, LEFT_BEHIND);
  }

  /** A pinned fiber scheduled in time is left behind, because the last scan of its thread passes over it. */
  lemma PinnedFiberOverlooked()
    ensures exists s, t, u :: Init(s) && Reaches(s, t) && t.queue == [PINNED_FIBER] && Alive(t, 1)
                              && Overlooks(t, Scan(1), false) && Reaches(t, u) && u.queue == [PINNED_FIBER] && AllExited(u)
  {
    hide Reaches;
    ReachesRunning();
    WakeItself();
    PassOver();
    LeaveBehind();
    ReachesTrans(START, RUNS_AGAIN, SELF_WOKEN);
    ReachesTrans(SELF_WOKEN, PASSED_OVER, LEFT_BEHIND);
    assert PINNED_FIBER in SELF_WOKEN.queue;
    assert Init(START) && Alive(SELF_WOKEN, 1) && Overlooks(SELF_WOKEN, Scan(1), false) && AllExited(LEFT_BEHIND);
  }

  // ---------------------------------------------------------------- a fiber that ends while it is queued

  const CALL := Task(CbWork(7), None)
  const AGAIN := Task(FiberWork(5), None)

  function Two(queue: seq<Task>, fibers: map<FiberId, FiberState>, first: Worker, second: Worker, active: int,
               calls: nat, again: nat, taken: seq<(nat, Task)>): State
  {
    State(queue, fibers, [first, second], active, 0, false, false, false,
          multiset{}[CALL := calls][AGAIN := again], taken)
  }

  const FREE := Worker(LoopHead, false, None)
  const NOTHING_YET := Two([], map[], FREE, FREE, 0, 0, 0, [])
  const CALL_RUNS := Two([], map[5 := EXEC], Worker(Running(5, true), false, Some(5)), FREE, 1, 1, 0, [(0, CALL)])
  const CALL_QUEUED := Two([AGAIN], map[5 := EXEC], Worker(Running(5, true), false, Some(5)), FREE, 1, 1, 1, [(0, CALL)])
  const CALL_ENDED := Two([AGAIN], map[5 := INIT], Worker(LoopHead, false, Some(5)), FREE, 0, 1, 1, [(0, CALL)])
  const SHARED := Two([], map[5 := EXEC], Worker(LoopHead, false, Some(5)), Worker(Running(5, false), false, None),
                      1, 1, 1, [(0, CALL), (1, AGAIN)])
  const NEXT_TAKEN := Two([], map[5 := EXEC], Worker(Took(CbWork(7)), false, Some(5)),
                          Worker(Running(5, false), false, None), 2, 2, 1, [(0, CALL), (1, AGAIN), (0, CALL)])

  lemma RunTheCall()
    ensures Reaches(NOTHING_YET, CALL_RUNS)
  {
    hide IsRun, After, AllCareful, Reaches;
    var s1 := Two([CALL], map[], FREE, FREE, 0, 1, 0, []);
    var s2 := Two([], map[], Worker(Took(CbWork(7)), false, None), FREE, 1, 1, 0, [(0, CALL)]);
    ReachesStep(NOTHING_YET, External(CALL), s1);
    ReachesStep(s1, Scan(0), s2);
    ReachesTrans(NOTHING_YET, s1, s2);
    ReachesStep(s2, SwapIn(0, 5), CALL_RUNS);
    ReachesTrans(NOTHING_YET, s2, CALL_RUNS);
  }

  lemma WakeTheCall()
    ensures Reaches(CALL_RUNS, CALL_QUEUED)
  {
    hide IsRun, After, AllCareful, Reaches;
    ReachesStep(CALL_RUNS, Schedule(0, AGAIN), CALL_QUEUED);
  }

  lemma OtherEnters()
    ensures Reaches(CALL_ENDED, SHARED)
  {
    hide IsRun, After, AllCareful, Reaches;
    var s1 := Two([], map[5 := INIT], Worker(LoopHead, false, Some(5)), Worker(Took(FiberWork(5)), false, None),
                  1, 1, 1, [(0, CALL), (1, AGAIN)]);
    ReachesStep(CALL_ENDED, Scan(1), s1);
    ReachesStep(s1, SwapIn(1, 6), SHARED);
    ReachesTrans(CALL_ENDED, s1, SHARED);
  }

  lemma NextCall()
    ensures Reaches(SHARED, NEXT_TAKEN.(crashed := true))
  {
    hide IsRun, After, AllCareful, Reaches;
    var s1 := Two([CALL], map[5 := EXEC], Worker(LoopHead, false, Some(5)), Worker(Running(5, false), false, None),
                  1, 2, 1, [(0, CALL), (1, AGAIN)]);
    ReachesStep(SHARED, External(CALL), s1);
    ReachesStep(s1, Scan(0), NEXT_TAKEN);
    ReachesTrans(SHARED, s1, NEXT_TAKEN);
    ReachesStep(NEXT_TAKEN, SwapIn(0, 6), NEXT_TAKEN.(crashed := true));
    ReachesTrans(SHARED, NEXT_TAKEN, NEXT_TAKEN.(crashed := true));
  }

  /** A callback's fiber has one wake-up outstanding when the callback returns. Every other step is careful; but then two
      workers hold the fiber, and the assertion of its next reset fails. */
  lemma EndsWhileQueued()
    ensures exists s, t, u, v :: Init(s) && Reaches(s, t) && Queued(t) == {5}
                                 && Enabled(t, Finish(0, true)) && !Careful(t, Finish(0, true))
                                 && Reaches(Apply(t, Finish(0, true)), u)
                                 && |u.workers| == 2 && 5 in Claims(u.workers[0]) * Claims(u.workers[1])
                                 && Reaches(u, v) && v.crashed
  {
    hide Reaches;
    RunTheCall();
    WakeTheCall();
    OtherEnters();
    NextCall();
    ReachesTrans(NOTHING_YET, CALL_RUNS, CALL_QUEUED);
    EndsCarelessly();
    assert Init(NOTHING_YET) && 5 in Claims(SHARED.workers[0]) * Claims(SHARED.workers[1]);
  }

  lemma EndsCarelessly()
    ensures Queued(CALL_QUEUED) == {5} && Enabled(CALL_QUEUED, Finish(0, true)) && !Careful(CALL_QUEUED, Finish(0, true))
    ensures Apply(CALL_QUEUED, Finish(0, true)) == CALL_ENDED
  {
    assert CALL_QUEUED.queue == [AGAIN];
  }

  const FIBER_RUNS := At([], EXEC, [Worker(Running(0, false), false, None), FREE], 1, 0, false, false, 1, 0, [(0, TASK)])
  const FIBER_QUEUED := At([TASK], EXEC, [Worker(Running(0, false), false, None), FREE], 1, 0, false, false, 2, 0, [(0, TASK)])
  const FIBER_ENDED := At([TASK], TERM, [FREE, FREE], 0, 0, false, false, 2, 0, [(0, TASK)])
  const ENDED_TAKEN := At([], TERM, [Worker(Took(FiberWork(0)), false, None), FREE], 1, 0, false, false, 2, 0,
                          [(0, TASK), (0, TASK)])

  lemma RunTheFiber()
    ensures Reaches(WOKEN, FIBER_RUNS)
  {
    hide IsRun, After, AllCareful, Reaches;
    var s1 := At([], INIT, [Worker(Took(FiberWork(0)), false, None), FREE], 1, 0, false, false, 1, 0, [(0, TASK)]);
    ReachesStep(WOKEN, Scan(0), s1);
    ReachesStep(s1, SwapIn(0, 1), FIBER_RUNS);
    ReachesTrans(WOKEN, s1, FIBER_RUNS);
  }

  lemma QueueTheFiber()
    ensures Reaches(FIBER_RUNS, FIBER_QUEUED)
  {
    hide IsRun, After, AllCareful, Reaches;
    ReachesStep(FIBER_RUNS, Schedule(0, TASK), FIBER_QUEUED);
  }

  lemma EnterTheEnded()
    ensures Reaches(FIBER_ENDED, ENDED_TAKEN.(crashed := true))
  {
    hide IsRun, After, AllCareful, Reaches;
    ReachesStep(FIBER_ENDED, Scan(0), ENDED_TAKEN);
    ReachesStep(ENDED_TAKEN, SwapIn(0, 1), ENDED_TAKEN.(crashed := true));
    ReachesTrans(FIBER_ENDED, ENDED_TAKEN, ENDED_TAKEN.(crashed := true));
  }

  lemma FiberEnds()
    ensures Enabled(FIBER_QUEUED, Finish(0, true)) && !Careful(FIBER_QUEUED, Finish(0, true))
    ensures Apply(FIBER_QUEUED, Finish(0, true)) == FIBER_ENDED
  {
    assert TASK in FIBER_QUEUED.queue;
  }

  /** The same of a fiber of its own: it ends while its one wake-up is queued, and is entered after its end. */
  lemma EndedIsEntered()
    ensures exists s, t, u :: Init(s) && Reaches(s, t) && Enabled(t, Finish(0, true)) && !Careful(t, Finish(0, true))
                              && Reaches(Apply(t, Finish(0, true)), u) && u.crashed
  {
    hide Reaches;
    WakeFiber();
    RunTheFiber();
    QueueTheFiber();
    FiberEnds();
    EnterTheEnded();
    ReachesTrans(START, WOKEN, FIBER_RUNS);
    ReachesTrans(START, FIBER_RUNS, FIBER_QUEUED);
    assert Init(START);
  }

  // ---------------------------------------------------------------- a task that comes too late

  const ONE_STOPPING := State([], map[], [FREE], 0, 0, true, true, false, multiset{}, [])
  const ONE_OVER := ONE_STOPPING.(workers := [Worker(LoopHead, true, None)])
  const ONE_LEFT := ONE_STOPPING.(workers := [Worker(Exited, true, None)])
  const TOO_LATE := ONE_LEFT.(queue := [CALL], pushed := multiset{CALL})

  lemma StopTheOnly()
    ensures Reaches(ONE_STOPPING.(autoStop := false, stopping := false), ONE_STOPPING)
  {
    hide IsRun, After, AllCareful, Reaches;
    var s0 := ONE_STOPPING.(autoStop := false, stopping := false);
    ReachesStep(s0, SetAutoStop, ONE_STOPPING.(stopping := false));
    ReachesStep(ONE_STOPPING.(stopping := false), SetStopping, ONE_STOPPING);
    ReachesTrans(s0, ONE_STOPPING.(stopping := false), ONE_STOPPING);
  }

  lemma IdleOver()
    ensures Reaches(ONE_STOPPING, ONE_OVER)
  {
    hide IsRun, After, AllCareful, Reaches;
    var s1 := ONE_STOPPING.(workers := [Worker(NoTask, false, None)]);
    var s2 := ONE_STOPPING.(workers := [Worker(Idling, false, None)], idle := 1);
    ReachesStep(ONE_STOPPING, Scan(0), s1);
    ReachesStep(s1, CheckIdle(0), s2);
    ReachesTrans(ONE_STOPPING, s1, s2);
    ReachesStep(s2, IdleRound(0, true), ONE_OVER);
    ReachesTrans(ONE_STOPPING, s2, ONE_OVER);
  }

  lemma TheOnlyLeaves()
    ensures Reaches(ONE_OVER, ONE_LEFT)
  {
    hide IsRun, After, AllCareful, Reaches;
    var s1 := ONE_STOPPING.(workers := [Worker(NoTask, true, None)]);
    ReachesStep(ONE_OVER, Scan(0), s1);
    ReachesStep(s1, CheckIdle(0), ONE_LEFT);
    ReachesTrans(ONE_OVER, s1, ONE_LEFT);
  }

  /** An unpinned task scheduled from outside after the last worker has left stays in the queue. */
  lemma UnpinnedTaskLost()
    ensures exists s, t :: Init(s) && Reaches(s, t) && t.queue == [CALL] && AllExited(t)
  {
    hide Reaches;
    StopTheOnly();
    IdleOver();
    TheOnlyLeaves();
    var s0 := ONE_STOPPING.(autoStop := false, stopping := false);
    ReachesTrans(s0, ONE_STOPPING, ONE_OVER);
    ReachesTrans(s0, ONE_OVER, ONE_LEFT);
    ReachesStep(ONE_LEFT, External(CALL), TOO_LATE);
    ReachesTrans(s0, ONE_LEFT, TOO_LATE);
    assert Init(s0) && AllExited(TOO_LATE);
  }
}
