/** IOManager::stopping(): the three checks taken as one snapshot of timers, events and queue. */
module IoStopping {
  import opened Codec
  import TimerQueue
  import TimerRuns
  import IoEvents
  import IoSafety
  import Scheduler
  import SchedulerSafety
  import SchedulerShutdown

  /** No timer and no event is waited for. */
  predicate Quiet(timers: TimerQueue.Manager, now: nat, events: IoEvents.State) {
    TimerQueue.WaitFor(timers, now) == TimerQueue.MAX_MS && events.pending == 0
  }

  predicate Stopping(timers: TimerQueue.Manager, now: nat, events: IoEvents.State, tasks: Scheduler.State) {
    Quiet(timers, now, events) && Scheduler.Stopping(tasks)
  }

  /** The one deadline that getNextTimer cannot tell from an empty set. */
  predicate LooksEmpty(timers: TimerQueue.Manager, now: nat) {
    now == 0 && timers.entries != [] && timers.entries[0].next == TimerQueue.MAX_MS
  }

  /** In every state of every run, stopping() holds exactly when stop was called and there is no timer, no waiting event,
      no queued task and no worker with a task. */
  lemma StoppingMeansIdle(w: TimerRuns.World, timerRun: seq<TimerRuns.Action>, now: nat, eventRun: seq<IoEvents.Action>,
                          s: Scheduler.State, taskRun: seq<Scheduler.Action>)
    requires TimerRuns.Init(w) && TimerRuns.IsRun(w, timerRun)
    requires IoSafety.IsRun(IoSafety.FreshState(), eventRun) && !IoSafety.After(IoSafety.FreshState(), eventRun).failed
    requires SchedulerSafety.Init(s) && SchedulerSafety.IsRun(s, taskRun)
    ensures var timers, events, tasks :=
              TimerRuns.After(w, timerRun).m, IoSafety.After(IoSafety.FreshState(), eventRun), SchedulerSafety.After(s, taskRun);
            Stopping(timers, now, events, tasks) <==>
              && (timers.entries == [] || LooksEmpty(timers, now))
              && (forall fd: nat :: fd < |events.contexts| ==> events.contexts[fd].events == {})
              && tasks.autoStop && tasks.stopping && tasks.queue == []
              && (forall k :: 0 <= k < |tasks.workers| ==> !Scheduler.Holding(tasks.workers[k]))
  {
    hide TimerRuns.Init, TimerRuns.IsRun, TimerRuns.After, IoSafety.IsRun, IoSafety.After, IoSafety.FreshState;
    hide SchedulerSafety.Init, SchedulerSafety.IsRun, SchedulerSafety.After, Scheduler.Holding;
    var timers, events, tasks :=
      TimerRuns.After(w, timerRun).m, IoSafety.After(IoSafety.FreshState(), eventRun), SchedulerSafety.After(s, taskRun);
    DeadlinesFit(w, timerRun);
    Waiting(timers, now);
    IoSafety.RunsAreSafe(eventRun);
    Pending(events);
    ActiveCount(s, taskRun);
    SchedulerSafety.NoneHolding(tasks.workers);
  }

  lemma DeadlinesFit(w: TimerRuns.World, run: seq<TimerRuns.Action>)
    requires TimerRuns.Init(w) && TimerRuns.IsRun(w, run)
    ensures var m := TimerRuns.After(w, run).m; m.entries != [] ==> m.entries[0].next <= TimerQueue.MAX_MS
  {
    hide TimerRuns.Init, TimerRuns.IsRun, TimerRuns.After, TimerRuns.PromisesOk, TimerRuns.HandedOk;
    hide TimerQueue.Sorted, TimerQueue.DistinctAddresses;
    TimerRuns.InitOk(w);
    TimerRuns.RunKeeps(w, run);
    var m := TimerRuns.After(w, run).m;
    assert m.entries != [] ==> m.entries[0] in m.entries;
  }

  lemma Waiting(m: TimerQueue.Manager, now: nat)
    requires m.entries != [] ==> m.entries[0].next <= TimerQueue.MAX_MS
    ensures TimerQueue.WaitFor(m, now) == TimerQueue.MAX_MS <==> m.entries == [] || LooksEmpty(m, now)
  {
  }

  lemma Pending(s: IoEvents.State)
    requires IoEvents.Inv(s)
    ensures s.pending == 0 <==> forall fd: nat :: fd < |s.contexts| ==> s.contexts[fd].events == {}
  {
    hide IoEvents.ContextsOk, IoEvents.TokensOk, IoEvents.InterestOk, IoEvents.CountBits;
    IoSafety.CountZero(s.contexts);
  }

  lemma ActiveCount(s: Scheduler.State, run: seq<Scheduler.Action>)
    requires SchedulerSafety.Init(s) && SchedulerSafety.IsRun(s, run)
    ensures var t := SchedulerSafety.After(s, run); t.active == Scheduler.CountHolding(t.workers)
  {
    SchedulerSafety.CountsAlways(s, run);
  }

  /** A round of the idle fiber ends it exactly when stopping() holds. */
  lemma IdleEndsIff(timers: TimerQueue.Manager, now: nat, events: IoEvents.State, tasks: Scheduler.State, w: nat)
    requires Scheduler.Enabled(tasks, Scheduler.IdleRound(w, Quiet(timers, now, events))) && !tasks.workers[w].idleTerm
    ensures var tasks' := Scheduler.Apply(tasks, Scheduler.IdleRound(w, Quiet(timers, now, events)));
            w < |tasks'.workers| && (tasks'.workers[w].idleTerm <==> Stopping(timers, now, events, tasks))
  {
    hide Quiet, Scheduler.Apply, Scheduler.Stopping;
    SchedulerShutdown.LeaveStep(tasks, Scheduler.IdleRound(w, Quiet(timers, now, events)), w);
  }
}
