/** The task list of sylar/scheduler.h and the scan of sylar/scheduler.cpp as the program runs them under the lock. */
module TaskQueues {
  import opened Codec
  import opened Scheduler

  class TaskQueue {
    var fibers: seq<Task>
    var activeThreadCount: int

    /** The queue and the counter are those of the transition system's state. */
    ghost predicate Shows(s: State)
      reads this
    {
      fibers == s.queue && activeThreadCount == s.active
    }

    constructor ()
      ensures fibers == [] && activeThreadCount == 0
    {
      fibers, activeThreadCount := [], 0;
    }

    /** scheduleNoLock: the caller tickles when the queue was empty. */
    method ScheduleNoLock(t: Task, ghost s: State) returns (needTickle: bool)
      requires Shows(s)
      modifies this
      ensures Shows(Push(s, t))
      ensures needTickle <==> s.queue == []
    {
      needTickle := fibers == [];
      fibers := fibers + [t];
    }

    /** The scan of worker `w`; `exec` says which fibers execute. It takes the oldest task open to this worker, and asks
        for a tickle exactly when it passed over a task of another thread. */
    method Take(w: nat, exec: set<FiberId>, ghost s: State) returns (ft: Option<Task>, tickleMe: bool)
      requires Shows(s) && w < |s.workers| && s.workers[w].pc == LoopHead
      requires forall f :: f in exec <==> f in s.fibers && s.fibers[f] == EXEC
      modifies this
      ensures Shows(Apply(s, Scan(w)))
      ensures Apply(s, Scan(w)).workers[w].pc == if ft.Some? then Took(ft.value.work) else NoTask
      ensures tickleMe <==> exists j :: 0 <= j < FirstEligible(s, w, 0) && s.queue[j].thread !in {None, Some(w)}
    {
      ft, tickleMe := None, false;
      var it := 0;
      while it < |fibers|
        invariant 0 <= it <= |fibers| && Shows(s) && ft == None
        invariant FirstEligible(s, w, 0) == FirstEligible(s, w, it)
        invariant tickleMe <==> exists j :: 0 <= j < it && s.queue[j].thread !in {None, Some(w)}
      {
        var t := fibers[it];
        if t.thread != None && t.thread != Some(w) {
          tickleMe := true;
        } else if !(t.work.FiberWork? && t.work.f in exec) {
          ft := Some(t);
          fibers := fibers[..it] + fibers[it + 1..];
          activeThreadCount := activeThreadCount + 1;
          return;
        }
        it := it + 1;
      }
    }
  }
}
