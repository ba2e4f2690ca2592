/** The invariants of the scheduler hold in every reachable state, and what follows from them. */
module SchedulerSafety {
  import opened Codec
  import opened Scheduler

  // ---------------------------------------------------------------- fibers

  lemma ClaimedExist(s: State, k: Worker)
    requires WorkerOk(s, k)
    ensures forall f :: f in Claims(k) ==> f in s.fibers
  {
  }

  /** A worker stays well when its fibers keep their states and are not queued behind its back. */
  lemma WorkerKept(s: State, s': State, k: Worker)
    requires WorkerOk(s, k)
    requires forall f :: f in Claims(k) ==> StateOf(s', f) == StateOf(s, f)
    requires forall f :: f in Claims(k) && f in Queued(s') && f !in Queued(s) ==> !HoldsWake(k, f) && !Spare(k, f)
    ensures WorkerOk(s', k)
  {
  }

  /** A step of worker `w` that changes only its own fibers keeps the fiber invariant, once `w` itself and the
      queue are in order again. */
  lemma StepOfWorker(s: State, s': State, w: nat)
    requires FibersOk(s) && w < |s.workers| && |s'.workers| == |s.workers|
    requires s'.workers == s.workers[w := s'.workers[w]] && !s'.crashed
    requires forall v :: 0 <= v < |s.workers| && v != w ==> Claims(s.workers[v]) !! Claims(s'.workers[w])
    requires forall f :: StateOf(s', f) != StateOf(s, f) ==> f in Claims(s.workers[w]) + Claims(s'.workers[w])
    requires forall f :: f in Queued(s') && f !in Queued(s) ==> f in Claims(s.workers[w])
    requires WorkerOk(s', s'.workers[w]) && QueueOk(s')
    requires forall f :: StateOf(s', f) == Some(EXEC) && f in Claims(s.workers[w]) + Claims(s'.workers[w])
                         ==> IsRunning(s'.workers[w], f)
    ensures FibersOk(s')
  {
    hide Queued, Claims, WorkerOk, QueueOk;
    forall v | 0 <= v < |s.workers| ensures WorkerOk(s', s'.workers[v]) {
      if v != w {
        assert s'.workers[v] == s.workers[v];
        Separate(s, w, v);
        WorkerKept(s, s', s.workers[v]);
      }
    }
    DisjointKept(s, s', w);
    ExecKept(s, s', w);
  }

  lemma Separate(s: State, w: nat, v: nat)
    requires Disjoint(s) && w < |s.workers| && v < |s.workers|
    ensures v != w ==> Claims(s.workers[w]) !! Claims(s.workers[v])
  {
  }

  lemma DisjointKept(s: State, s': State, w: nat)
    requires Disjoint(s) && w < |s.workers| == |s'.workers| && s'.workers == s.workers[w := s'.workers[w]]
    requires forall v :: 0 <= v < |s.workers| && v != w ==> Claims(s.workers[v]) !! Claims(s'.workers[w])
    ensures Disjoint(s')
  {
  }

  lemma ExecKept(s: State, s': State, w: nat)
    requires ExecOk(s) && w < |s.workers| == |s'.workers| && s'.workers == s.workers[w := s'.workers[w]]
    requires forall f :: StateOf(s', f) != StateOf(s, f) ==> f in Claims(s.workers[w]) + Claims(s'.workers[w])
    requires forall f :: StateOf(s', f) == Some(EXEC) && f in Claims(s.workers[w]) + Claims(s'.workers[w])
                         ==> IsRunning(s'.workers[w], f)
    ensures ExecOk(s')
  {
    forall f | f in s'.fibers && s'.fibers[f] == EXEC
      ensures exists v :: 0 <= v < |s'.workers| && IsRunning(s'.workers[v], f)
    {
      assert StateOf(s', f) == Some(EXEC);
      if f in Claims(s.workers[w]) + Claims(s'.workers[w]) {
        assert IsRunning(s'.workers[w], f);
      } else {
        assert StateOf(s, f) == Some(EXEC);
        var v :| 0 <= v < |s.workers| && IsRunning(s.workers[v], f);
        assert v != w;
        assert IsRunning(s'.workers[v], f);
      }
    }
  }

  /** Changing the states of unqueued fibers, or to live states, keeps the queue in order. */
  lemma QueueKept(s: State, s': State)
    requires QueueOk(s) && s'.queue == s.queue
    requires forall f :: f in Queued(s) && StateOf(s', f) != StateOf(s, f) ==> Suspended(s', f) || StateOf(s', f) == Some(EXEC)
    ensures QueueOk(s') && Queued(s') == Queued(s)
  {
  }

  // one lemma for each kind of step

  lemma CreateFiber(s: State, f: FiberId)
    requires FibersOk(s) && f !in s.fibers
    ensures FibersOk(Apply(s, Create(f)))
  {
    var s' := Apply(s, Create(f));
    assert Queued(s') == Queued(s);
    forall w | 0 <= w < |s.workers| ensures WorkerOk(s', s'.workers[w]) {
      ClaimedExist(s, s.workers[w]);
      WorkerKept(s, s', s.workers[w]);
    }
    forall g | g in s'.fibers && s'.fibers[g] == EXEC
      ensures exists w :: 0 <= w < |s'.workers| && IsRunning(s'.workers[w], g)
    {
      assert g in s.fibers && s.fibers[g] == EXEC;
    }
  }

  lemma PushTask(s: State, t: Task)
    requires FibersOk(s) && MaySchedule(s, t)
    ensures FibersOk(Push(s, t))
  {
    var s' := Push(s, t);
    PushedQueue(s, t);
    forall w | 0 <= w < |s.workers| ensures WorkerOk(s', s'.workers[w]) {
      assert t.work.FiberWork? ==> !HoldsWake(s.workers[w], t.work.f);
      WorkerKept(s, s', s.workers[w]);
    }
  }

  lemma InQueued(s: State, f: FiberId)
    ensures f in Queued(s) <==> exists i :: 0 <= i < |s.queue| && s.queue[i].work == FiberWork(f)
  {
  }

  lemma PushedQueue(s: State, t: Task)
    requires QueueOk(s) && (t.work.FiberWork? ==> t.work.f !in Queued(s) && (Suspended(s, t.work.f) || StateOf(s, t.work.f) == Some(EXEC)))
    ensures QueueOk(Push(s, t))
    ensures Queued(Push(s, t)) == Queued(s) + (if t.work.FiberWork? then {t.work.f} else {})
  {
    var s' := Push(s, t);
    forall i, j | 0 <= i < j < |s'.queue| && s'.queue[i].work.FiberWork? ensures s'.queue[i].work != s'.queue[j].work {
      if j == |s.queue| {
        assert s.queue[i] in s.queue;
      }
    }
    forall f ensures f in Queued(s') <==> f in Queued(s) || t.work == FiberWork(f) {
      InQueued(s, f);
      InQueued(s', f);
      assert s'.queue[|s.queue|] == t;
      assert forall i :: 0 <= i < |s.queue| ==> s'.queue[i] == s.queue[i];
    }
  }

  /** Claims and queue entries after a step that moves worker `w` and leaves the queue alone. */
  lemma MoveWorker(s: State, s': State, w: nat)
    requires FibersOk(s) && w < |s.workers| == |s'.workers| && s'.workers == s.workers[w := s'.workers[w]]
    requires s'.queue == s.queue && s'.fibers == s.fibers && !s'.crashed
    requires Claims(s'.workers[w]) <= Claims(s.workers[w])
    requires WorkerOk(s', s'.workers[w])
    requires forall f :: IsRunning(s.workers[w], f) ==> IsRunning(s'.workers[w], f)
    ensures FibersOk(s')
  {
    QueueKept(s, s');
    forall v | 0 <= v < |s.workers| && v != w ensures Claims(s.workers[v]) !! Claims(s'.workers[w]) {
      Separate(s, w, v);
    }
    OwnExec(s, w);
    StepOfWorker(s, s', w);
  }

  /** The executing fiber among a worker's own is the one it runs. */
  lemma OwnExec(s: State, w: nat)
    requires FibersOk(s) && w < |s.workers|
    ensures forall f :: f in Claims(s.workers[w]) && StateOf(s, f) == Some(EXEC) ==> IsRunning(s.workers[w], f)
  {
  }

  lemma YieldHoldStep(s: State, w: nat)
    requires FibersOk(s) && Enabled(s, YieldHold(w))
    ensures FibersOk(Apply(s, YieldHold(w)))
  {
    RunnerStops(s, Apply(s, YieldHold(w)), w, HOLD);
  }

  lemma YieldReadyStep(s: State, w: nat)
    requires FibersOk(s) && Enabled(s, YieldReady(w)) && Careful(s, YieldReady(w))
    ensures FibersOk(Apply(s, YieldReady(w)))
  {
    RunnerStops(s, Apply(s, YieldReady(w)), w, READY);
  }

  lemma FinishStep(s: State, w: nat, ok: bool)
    requires FibersOk(s) && Enabled(s, Finish(w, ok)) && Careful(s, Finish(w, ok))
    ensures FibersOk(Apply(s, Finish(w, ok)))
  {
    RunnerStops(s, Apply(s, Finish(w, ok)), w, if s.workers[w].pc.viaCb then INIT else if ok then TERM else EXCEP);
  }

  /** Switching out of the running fiber `f`, which gets the state `st`. */
  lemma RunnerStops(s: State, s': State, w: nat, st: FiberState)
    requires FibersOk(s) && w < |s.workers| && s.workers[w].pc.Running?
    requires |s'.workers| == |s.workers| && s'.workers == s.workers[w := s'.workers[w]]
    requires s'.queue == s.queue && s'.fibers == s.fibers[s.workers[w].pc.f := st] && !s'.crashed
    requires st != EXEC && (st == TERM || st == EXCEP ==> s.workers[w].pc.f !in Queued(s))
    requires Claims(s'.workers[w]) <= Claims(s.workers[w]) && !s'.workers[w].pc.Running?
    requires WorkerOk(s', s'.workers[w])
    ensures FibersOk(s')
  {
    var f := s.workers[w].pc.f;
    assert WorkerOk(s, s.workers[w]);
    QueueKept(s, s');
    forall v | 0 <= v < |s.workers| && v != w ensures Claims(s.workers[v]) !! Claims(s'.workers[w]) {
      Separate(s, w, v);
    }
    OwnExec(s, w);
    StepOfWorker(s, s', w);
  }

  lemma RequeueStep(s: State, w: nat)
    requires FibersOk(s) && Enabled(s, Requeue(w))
    ensures FibersOk(Apply(s, Requeue(w)))
  {
    var s' := Apply(s, Requeue(w));
    var t := Task(FiberWork(s.workers[w].pc.f), None);
    assert WorkerOk(s, s.workers[w]);
    PushedQueue(s, t);
    assert QueueOk(s') && Queued(s') == Queued(Push(s, t));
    forall v | 0 <= v < |s.workers| && v != w ensures Claims(s.workers[v]) !! Claims(s'.workers[w]) {
      Separate(s, w, v);
    }
    OwnExec(s, w);
    StepOfWorker(s, s', w);
  }

  /** Taking entry `i` out of the queue. */
  lemma RemovedQueue(s: State, s': State, i: nat)
    requires QueueOk(s) && i < |s.queue| && s'.queue == s.queue[..i] + s.queue[i + 1..] && s'.fibers == s.fibers
    ensures QueueOk(s') && Queued(s') <= Queued(s)
    ensures s.queue[i].work.FiberWork? ==> s.queue[i].work.f in Queued(s) && s.queue[i].work.f !in Queued(s')
  {
    hide Queued;
    assert forall j :: 0 <= j < |s'.queue| ==> s'.queue[j] == s.queue[if j < i then j else j + 1];
    forall f ensures f in Queued(s') ==> f in Queued(s) {
      InQueued(s, f);
      InQueued(s', f);
    }
    if s.queue[i].work.FiberWork? {
      InQueued(s, s.queue[i].work.f);
      InQueued(s', s.queue[i].work.f);
    }
  }

  lemma ScanStep(s: State, w: nat)
    requires FibersOk(s) && Enabled(s, Scan(w))
    ensures FibersOk(Apply(s, Scan(w)))
  {
    var s' := Apply(s, Scan(w));
    var i := FirstEligible(s, w, 0);
    assert WorkerOk(s, s.workers[w]);
    if i == |s.queue| {
      QueueKept(s, s');
      MoveWorker(s, s', w);
    } else {
      RemovedQueue(s, s', i);
      var t := s.queue[i];
      forall v | 0 <= v < |s.workers| && v != w ensures Claims(s.workers[v]) !! Claims(s'.workers[w]) {
        Separate(s, w, v);
        if t.work.FiberWork? {
          QueuedUnclaimed(s, v, t.work.f);
        }
      }
      if t.work.FiberWork? {
        QueuedUnclaimed(s, w, t.work.f);
      }
      OwnExec(s, w);
      StepOfWorker(s, s', w);
    }
  }

  /** A queued fiber that does not execute belongs to nobody. */
  lemma QueuedUnclaimed(s: State, v: nat, f: FiberId)
    requires FibersOk(s) && v < |s.workers| && f in Queued(s) && StateOf(s, f) != Some(EXEC)
    ensures f !in Claims(s.workers[v])
  {
  }

  /** Entering a fiber changes only its state, to EXEC, and only the worker that enters it. */
  lemma SwapInShape(s: State, w: nat, g: FiberId)
    requires FibersOk(s) && Enabled(s, SwapIn(w, g))
    ensures var s' := Apply(s, SwapIn(w, g));
            var k, k' := s.workers[w], s'.workers[w];
            && !s'.crashed && s'.queue == s.queue
            && s'.workers == s.workers[w := k'] && Claims(k') <= Claims(k) + {g}
            && (forall f :: StateOf(s', f) != StateOf(s, f) ==> f in Claims(k') && StateOf(s', f) == Some(EXEC))
  {
    hide QueueOk, ExecOk, Disjoint, Queued;
    assert WorkerOk(s, s.workers[w]);
  }

  lemma SwapInWorker(s: State, w: nat, g: FiberId)
    requires FibersOk(s) && Enabled(s, SwapIn(w, g))
    ensures var s' := Apply(s, SwapIn(w, g)); WorkerOk(s', s'.workers[w])
  {
    hide QueueOk, ExecOk, Disjoint;
    assert WorkerOk(s, s.workers[w]);
    assert Queued(Apply(s, SwapIn(w, g))) == Queued(s);
    hide Queued;
  }

  lemma SwapInRuns(s: State, w: nat, g: FiberId)
    requires FibersOk(s) && Enabled(s, SwapIn(w, g))
    ensures var s' := Apply(s, SwapIn(w, g));
            forall f :: StateOf(s', f) == Some(EXEC) && f in Claims(s.workers[w]) + Claims(s'.workers[w])
                        ==> IsRunning(s'.workers[w], f)
  {
    hide QueueOk, ExecOk, Disjoint, Queued;
    assert WorkerOk(s, s.workers[w]);
    OwnExec(s, w);
  }

  lemma SwapInStep(s: State, w: nat, g: FiberId)
    requires FibersOk(s) && Enabled(s, SwapIn(w, g))
    ensures FibersOk(Apply(s, SwapIn(w, g)))
  {
    hide Queued, QueueOk, ExecOk, Claims, Apply, WorkerOk;
    var s' := Apply(s, SwapIn(w, g));
    SwapInShape(s, w, g);
    SwapInWorker(s, w, g);
    SwapInRuns(s, w, g);
    QueueKept(s, s');
    forall v | 0 <= v < |s.workers| && v != w ensures Claims(s.workers[v]) !! Claims(s'.workers[w]) {
      Separate(s, w, v);
      ClaimedExist(s, s.workers[v]);
    }
    StepOfWorker(s, s', w);
  }

  /** A careful step keeps the fiber invariant. */
  lemma CarefulStep(s: State, a: Action)
    requires FibersOk(s) && Enabled(s, a) && Careful(s, a)
    ensures FibersOk(Apply(s, a))
  {
    hide FibersOk, FirstEligible;
    match a
    case Create(f) => CreateFiber(s, f);
    case External(t) => PushTask(s, t);
    case SetAutoStop => FlagStep(s, Apply(s, a));
    case SetStopping => FlagStep(s, Apply(s, a));
    case EnterRoot(w) => PlainStep(s, Apply(s, a), w);
    case Scan(w) => ScanStep(s, w);
    case SwapIn(w, g) => SwapInStep(s, w, g);
    case Schedule(_, t) => PushTask(s, t);
    case YieldHold(w) => YieldHoldStep(s, w);
    case YieldReady(w) => YieldReadyStep(s, w);
    case Finish(w, ok) => FinishStep(s, w, ok);
    case Requeue(w) => RequeueStep(s, w);
    case CheckIdle(w) => PlainStep(s, Apply(s, a), w);
    case IdleRound(w, _) => PlainStep(s, Apply(s, a), w);
  }

  /** A careless step breaks it. */
  lemma CarelessStep(s: State, a: Action)
    requires FibersOk(s) && Enabled(s, a) && !Careful(s, a)
    ensures !FibersOk(Apply(s, a))
  {
    hide Careful, MaySchedule, Enabled, Apply, FibersOk;
    match a
    case YieldReady(w) => CarelessEnd(s, a);
    case Finish(w, _) => CarelessEnd(s, a);
    case _ => CarelessPush(s, a);
  }

  lemma CarelessEnd(s: State, a: Action)
    requires FibersOk(s) && Enabled(s, a) && !Careful(s, a) && (a.YieldReady? || a.Finish?)
    ensures !FibersOk(Apply(s, a))
  {
    hide Disjoint, ExecOk;
    var s' := Apply(s, a);
    assert Queued(s') == Queued(s);
    hide Queued;
    assert WorkerOk(s, s.workers[a.w]);
    assert !WorkerOk(s', s'.workers[a.w]) || !QueueOk(s');
  }

  /** A queued task, twice queued, held, spare, or of a fiber that has ended. */
  lemma CarelessPush(s: State, a: Action)
    requires FibersOk(s) && Enabled(s, a) && !Careful(s, a) && !a.YieldReady? && !a.Finish?
    ensures !FibersOk(Apply(s, a))
  {
    BadPush(s, a.task);
  }

  lemma BadPush(s: State, t: Task)
    requires Exists(s, t) && !MaySchedule(s, t)
    ensures !FibersOk(Push(s, t))
  {
    hide Disjoint, ExecOk, Queued;
    var f, s' := t.work.f, Push(s, t);
    assert s'.queue[|s.queue|] == t;
    InQueued(s', f);
    InQueued(s, f);
    if f in Queued(s) {
      var i :| 0 <= i < |s.queue| && s.queue[i].work == FiberWork(f);
      assert s'.queue[i] == s.queue[i];
      assert !QueueOk(s');
    } else if w :| 0 <= w < |s.workers| && (HoldsWake(s.workers[w], f) || Spare(s.workers[w], f)) {
      assert !WorkerOk(s', s'.workers[w]);
    } else {
      assert !QueueOk(s');
    }
  }

  /** From a state in which every fiber has its place, a step leads to such a state if and only if it is careful. */
  lemma FibersStep(s: State, a: Action)
    requires FibersOk(s) && Enabled(s, a)
    ensures FibersOk(Apply(s, a)) <==> Careful(s, a)
  {
    hide FibersOk, Careful, Apply, Enabled;
    if Careful(s, a) {
      CarefulStep(s, a);
    } else {
      CarelessStep(s, a);
    }
  }

  lemma FlagStep(s: State, s': State)
    requires FibersOk(s) && s'.workers == s.workers && s'.queue == s.queue && s'.fibers == s.fibers && s'.crashed == s.crashed
    ensures FibersOk(s')
  {
    QueueKept(s, s');
    forall w | 0 <= w < |s.workers| ensures WorkerOk(s', s'.workers[w]) {
      WorkerKept(s, s', s.workers[w]);
    }
  }

  predicate Idle(pc: Pc) {
    pc in {NotStarted, LoopHead, NoTask, Idling, Exited}
  }

  /** Moving a worker between places where it holds no fiber but its spare one. */
  lemma PlainStep(s: State, s': State, w: nat)
    requires FibersOk(s) && w < |s.workers| == |s'.workers| && s'.workers == s.workers[w := s'.workers[w]]
    requires s'.queue == s.queue && s'.fibers == s.fibers && s'.crashed == s.crashed
    requires Idle(s.workers[w].pc) && Idle(s'.workers[w].pc) && s'.workers[w].cbFiber == s.workers[w].cbFiber
    ensures FibersOk(s')
  {
    QueueKept(s, s');
    assert WorkerOk(s, s.workers[w]);
    MoveWorker(s, s', w);
  }

  // ---------------------------------------------------------------- executing fibers

  /** Whatever the clients do, a fiber that executes is inside a worker. */
  lemma ExecStep(s: State, a: Action)
    requires ExecOk(s) && Enabled(s, a)
    ensures ExecOk(Apply(s, a))
  {
    hide ExecOk, Enabled, Apply;
    match a
    case SwapIn(w, g) => ExecSwapIn(s, w, g);
    case YieldHold(_) => ExecRunner(s, a);
    case YieldReady(_) => ExecRunner(s, a);
    case Finish(_, _) => ExecRunner(s, a);
    case Scan(_) => ExecIdle(s, a);
    case Requeue(_) => ExecIdle(s, a);
    case EnterRoot(_) => ExecIdle(s, a);
    case CheckIdle(_) => ExecIdle(s, a);
    case IdleRound(_, _) => ExecIdle(s, a);
    case _ => ExecClient(s, a);
  }

  lemma ExecClient(s: State, a: Action)
    requires ExecOk(s) && Enabled(s, a)
    requires a.Create? || a.External? || a.SetAutoStop? || a.SetStopping? || a.Schedule?
    ensures ExecOk(Apply(s, a))
  {
    hide ExecOk;
    ExecSame(s, Apply(s, a));
  }

  lemma ExecRunner(s: State, a: Action)
    requires ExecOk(s) && Enabled(s, a) && (a.YieldHold? || a.YieldReady? || a.Finish?)
    ensures ExecOk(Apply(s, a))
  {
    hide ExecOk;
    ExecMoves(s, Apply(s, a), a.w);
  }

  lemma ExecIdle(s: State, a: Action)
    requires ExecOk(s) && Enabled(s, a)
    requires a.Scan? || a.Requeue? || a.EnterRoot? || a.CheckIdle? || a.IdleRound?
    ensures ExecOk(Apply(s, a))
  {
    hide ExecOk, FirstEligible, Stopping;
    ExecMoves(s, Apply(s, a), a.w);
  }

  lemma ExecSame(s: State, s': State)
    requires ExecOk(s) && s'.workers == s.workers
    requires forall f :: StateOf(s', f) == Some(EXEC) ==> StateOf(s, f) == Some(EXEC)
    ensures ExecOk(s')
  {
    forall f | f in s'.fibers && s'.fibers[f] == EXEC
      ensures exists v :: 0 <= v < |s'.workers| && IsRunning(s'.workers[v], f)
    {
      assert StateOf(s', f) == Some(EXEC);
    }
  }

  lemma ExecMoves(s: State, s': State, w: nat)
    requires ExecOk(s) && w < |s.workers| == |s'.workers| && s'.workers == s.workers[w := s'.workers[w]]
    requires forall f :: StateOf(s', f) == Some(EXEC) ==>
               IsRunning(s'.workers[w], f) || (StateOf(s, f) == Some(EXEC) && !IsRunning(s.workers[w], f))
    ensures ExecOk(s')
  {
    forall f | f in s'.fibers && s'.fibers[f] == EXEC
      ensures exists v :: 0 <= v < |s'.workers| && IsRunning(s'.workers[v], f)
    {
      assert StateOf(s', f) == Some(EXEC);
      if !IsRunning(s'.workers[w], f) {
        var v :| 0 <= v < |s.workers| && IsRunning(s.workers[v], f);
        assert s'.workers[v] == s.workers[v];
      }
    }
  }

  lemma ExecSwapIn(s: State, w: nat, g: FiberId)
    requires ExecOk(s) && Enabled(s, SwapIn(w, g))
    ensures ExecOk(Apply(s, SwapIn(w, g)))
  {
    hide ExecOk;
    ExecMoves(s, Apply(s, SwapIn(w, g)), w);
  }

  // ---------------------------------------------------------------- counters

  lemma {:induction false} CountUpdate(ks: seq<Worker>, w: nat, k: Worker)
    requires w < |ks|
    ensures CountHolding(ks[w := k]) == CountHolding(ks) - (if Holding(ks[w]) then 1 else 0) + (if Holding(k) then 1 else 0)
    ensures CountIdling(ks[w := k]) == CountIdling(ks) - (if ks[w].pc == Idling then 1 else 0) + (if k.pc == Idling then 1 else 0)
  {
    if w == 0 {
      assert ks[0 := k][1..] == ks[1..];
    } else {
      assert ks[w := k][1..] == ks[1..][w - 1 := k];
      CountUpdate(ks[1..], w - 1, k);
    }
  }

  lemma CountersStep(s: State, a: Action)
    requires CountersOk(s) && |s.workers| > 0 && Enabled(s, a)
    ensures CountersOk(Apply(s, a))
  {
    hide CountersOk, Apply, Enabled;
    match a
    case SwapIn(_, _) => CountTask(s, a);
    case Scan(_) => CountTask(s, a);
    case YieldHold(_) => CountTask(s, a);
    case YieldReady(_) => CountTask(s, a);
    case Finish(_, _) => CountTask(s, a);
    case Requeue(_) => CountIdle(s, a);
    case EnterRoot(_) => CountIdle(s, a);
    case CheckIdle(_) => CountIdle(s, a);
    case IdleRound(_, _) => CountIdle(s, a);
    case _ => CountSame(s, a);
  }

  lemma CountTask(s: State, a: Action)
    requires CountersOk(s) && Enabled(s, a)
    requires a.SwapIn? || a.Scan? || a.YieldHold? || a.YieldReady? || a.Finish?
    ensures CountersOk(Apply(s, a))
  {
    hide CountersOk, Enabled, Apply;
    if a.SwapIn? {
      CountSwapIn(s, a);
    } else if a.Scan? {
      CountScan(s, a);
    } else {
      CountRunner(s, a);
    }
  }

  lemma CountSwapIn(s: State, a: Action)
    requires CountersOk(s) && Enabled(s, a) && a.SwapIn?
    ensures CountersOk(Apply(s, a))
  {
    hide CountersOk, CountHolding, CountIdling;
    CountWorker(s, Apply(s, a), a.w);
  }

  lemma CountScan(s: State, a: Action)
    requires CountersOk(s) && Enabled(s, a) && a.Scan?
    ensures CountersOk(Apply(s, a))
  {
    hide CountersOk, CountHolding, CountIdling, FirstEligible;
    CountWorker(s, Apply(s, a), a.w);
  }

  lemma CountRunner(s: State, a: Action)
    requires CountersOk(s) && Enabled(s, a) && (a.YieldHold? || a.YieldReady? || a.Finish?)
    ensures CountersOk(Apply(s, a))
  {
    hide CountersOk, CountHolding, CountIdling, Queued;
    CountWorker(s, Apply(s, a), a.w);
  }

  lemma CountIdle(s: State, a: Action)
    requires CountersOk(s) && Enabled(s, a)
    requires a.Requeue? || a.EnterRoot? || a.CheckIdle? || a.IdleRound?
    ensures CountersOk(Apply(s, a))
  {
    hide CountersOk;
    CountWorker(s, Apply(s, a), a.w);
  }

  lemma CountSame(s: State, a: Action)
    requires CountersOk(s) && Enabled(s, a)
    requires a.Create? || a.External? || a.SetAutoStop? || a.SetStopping? || a.Schedule?
    ensures CountersOk(Apply(s, a))
  {
  }

  lemma CountWorker(s: State, s': State, w: nat)
    requires CountersOk(s) && w < |s.workers| == |s'.workers| && s'.workers == s.workers[w := s'.workers[w]]
    requires s'.active - s.active == (if Holding(s'.workers[w]) then 1 else 0) - (if Holding(s.workers[w]) then 1 else 0)
    requires s'.idle - s.idle == (if s'.workers[w].pc == Idling then 1 else 0) - (if s.workers[w].pc == Idling then 1 else 0)
    ensures CountersOk(s')
  {
    hide CountHolding, CountIdling;
    CountUpdate(s.workers, w, s'.workers[w]);
  }

  /** No worker counted, no task held. */
  lemma {:induction false} NoneHolding(ks: seq<Worker>)
    ensures CountHolding(ks) == 0 <==> forall w :: 0 <= w < |ks| ==> !Holding(ks[w])
  {
    if ks != [] {
      NoneHolding(ks[1..]);
      assert forall w :: 0 < w < |ks| ==> ks[w] == ks[1..][w - 1];
    }
  }

  // ---------------------------------------------------------------- history

  lemma HistoryStep(s: State, a: Action)
    requires HistoryOk(s) && Enabled(s, a)
    ensures HistoryOk(Apply(s, a))
  {
    hide HistoryOk, FirstEligible, Queued, MaySchedule, DoSwapIn;
    match a
    case SwapIn(w, g) => SwapInHistory(s, w, g); HistorySame(s, Apply(s, a));
    case Scan(w) => HistoryScan(s, w);
    case External(t) => HistoryPush(s, Apply(s, a), t);
    case Schedule(_, t) => HistoryPush(s, Apply(s, a), t);
    case Requeue(w) => HistoryPush(s, Apply(s, a), Task(FiberWork(s.workers[w].pc.f), None));
    case _ => HistorySame(s, Apply(s, a));
  }

  lemma SwapInHistory(s: State, w: nat, g: FiberId)
    requires w < |s.workers| && s.workers[w].pc.Took?
    ensures var s' := DoSwapIn(s, w, g); s'.queue == s.queue && s'.pushed == s.pushed && s'.taken == s.taken
  {
  }

  lemma HistorySame(s: State, s': State)
    requires HistoryOk(s) && s'.queue == s.queue && s'.pushed == s.pushed && s'.taken == s.taken
    ensures HistoryOk(s')
  {
  }

  lemma HistoryPush(s: State, s': State, t: Task)
    requires HistoryOk(s) && s'.queue == s.queue + [t] && s'.pushed == s.pushed + multiset{t} && s'.taken == s.taken
    ensures HistoryOk(s')
  {
  }

  lemma HistoryScan(s: State, w: nat)
    requires HistoryOk(s) && Enabled(s, Scan(w))
    ensures HistoryOk(Apply(s, Scan(w)))
  {
    hide HistoryOk, Tasks;
    var i := FirstEligible(s, w, 0);
    if i < |s.queue| {
      HistoryTake(s, Apply(s, Scan(w)), w, i);
    } else {
      HistorySame(s, Apply(s, Scan(w)));
    }
  }

  lemma HistoryTake(s: State, s': State, w: nat, i: nat)
    requires HistoryOk(s) && i < |s.queue| && Eligible(s, w, s.queue[i])
    requires s'.queue == s.queue[..i] + s.queue[i + 1..] && s'.pushed == s.pushed && s'.taken == s.taken + [(w, s.queue[i])]
    ensures HistoryOk(s')
  {
    TakeOut(s.queue, i);
    assert s'.taken[..|s.taken|] == s.taken;
  }

  lemma TakeOut(q: seq<Task>, i: nat)
    requires i < |q|
    ensures multiset(q) == multiset(q[..i] + q[i + 1..]) + multiset{q[i]}
  {
    assert q == q[..i] + [q[i]] + q[i + 1..];
  }

  // ---------------------------------------------------------------- runs

  ghost predicate Init(s: State) {
    && |s.workers| > 0 && s.active == 0 && s.idle == 0 && !s.autoStop && !s.stopping && !s.crashed
    && (forall w :: 0 <= w < |s.workers| ==> s.workers[w].pc in {NotStarted, LoopHead} && !s.workers[w].idleTerm && s.workers[w].cbFiber == None)
    && (forall f :: f in s.fibers ==> s.fibers[f] == INIT)
    && s.queue == [] && s.pushed == multiset{} && s.taken == []
  }

  ghost predicate IsRun(s: State, run: seq<Action>)
    decreases |run|
  {
    run == [] || (Enabled(s, run[0]) && IsRun(Apply(s, run[0]), run[1..]))
  }

  ghost function After(s: State, run: seq<Action>): State
    requires IsRun(s, run)
    decreases |run|
  {
    if run == [] then s else After(Apply(s, run[0]), run[1..])
  }

  lemma InitOk(s: State)
    requires Init(s)
    ensures FibersOk(s)
  {
  }

  lemma InitInv(s: State)
    requires Init(s)
    ensures Inv(s)
  {
    NoneHolding(s.workers);
    NoneIdling(s.workers);
  }

  lemma {:induction false} NoneIdling(ks: seq<Worker>)
    requires forall w :: 0 <= w < |ks| ==> ks[w].pc != Idling
    ensures CountIdling(ks) == 0
  {
    if ks != [] {
      NoneIdling(ks[1..]);
    }
  }

  lemma InvStep(s: State, a: Action)
    requires Inv(s) && Enabled(s, a)
    ensures Inv(Apply(s, a))
  {
    hide ExecOk, CountersOk, HistoryOk, Apply, Enabled;
    ExecStep(s, a);
    CountersStep(s, a);
    HistoryStep(s, a);
    WorkersStay(s, a);
  }

  lemma WorkersStay(s: State, a: Action)
    requires Enabled(s, a)
    ensures |Apply(s, a).workers| == |s.workers|
  {
    hide FirstEligible, Stopping, DoSwapIn;
    if a.SwapIn? {
      SwapInStays(s, a.w, a.newFiber);
    }
  }

  lemma SwapInStays(s: State, w: nat, g: FiberId)
    requires w < |s.workers| && s.workers[w].pc.Took?
    ensures var s' := DoSwapIn(s, w, g);
            && |s'.workers| == |s.workers|
            && (forall v :: 0 <= v < |s.workers| && v != w ==> s'.workers[v] == s.workers[v])
            && s'.queue == s.queue && !Done(s'.workers[w]) && !Done(s.workers[w])
  {
  }

  lemma {:induction false} InvRun(s: State, run: seq<Action>)
    requires Inv(s) && IsRun(s, run)
    ensures Inv(After(s, run))
    decreases |run|
  {
    hide Inv, Apply, Enabled;
    if run != [] {
      InvStep(s, run[0]);
      InvRun(Apply(s, run[0]), run[1..]);
    }
  }

  /** Every step of the run is careful. */
  ghost predicate AllCareful(s: State, run: seq<Action>)
    requires IsRun(s, run)
    decreases |run|
  {
    run == [] || (Careful(s, run[0]) && AllCareful(Apply(s, run[0]), run[1..]))
  }

  /** Every fiber has its place in every state of the run. */
  ghost predicate AlwaysOk(s: State, run: seq<Action>)
    requires IsRun(s, run)
    decreases |run|
  {
    FibersOk(s) && (run == [] || AlwaysOk(Apply(s, run[0]), run[1..]))
  }

  lemma {:induction false} AlwaysIff(s: State, run: seq<Action>)
    requires FibersOk(s) && IsRun(s, run)
    ensures AlwaysOk(s, run) <==> AllCareful(s, run)
    ensures AllCareful(s, run) ==> FibersOk(After(s, run))
    decreases |run|
  {
    hide FibersOk, Careful, Apply, Enabled;
    if run != [] {
      FibersStep(s, run[0]);
      if Careful(s, run[0]) {
        AlwaysIff(Apply(s, run[0]), run[1..]);
      }
    }
  }

  /** Over every run: all fibers have their place in every state - no assertion has failed, no fiber is held by two workers,
      is queued twice, or is queued or taken after its end - if and only if every step of the run is careful. */
  lemma SafeIff(s: State, run: seq<Action>)
    requires Init(s) && IsRun(s, run)
    ensures AlwaysOk(s, run) <==> AllCareful(s, run)
  {
    hide FibersOk, IsRun, AlwaysOk, AllCareful;
    InitOk(s);
    AlwaysIff(s, run);
  }

  /** In every state of every run whose steps are careful: no assertion has failed, no fiber is held by two workers, and
      the reusable callback fiber of a worker at the loop head is in its initial state. */
  lemma SafeAlways(s: State, run: seq<Action>)
    requires Init(s) && IsRun(s, run) && AllCareful(s, run)
    ensures var t := After(s, run);
            && !t.crashed
            && (forall v, w :: 0 <= v < w < |t.workers| ==> Claims(t.workers[v]) !! Claims(t.workers[w]))
            && (forall w :: 0 <= w < |t.workers| && t.workers[w].pc == LoopHead && t.workers[w].cbFiber.Some?
                  ==> StateOf(t, t.workers[w].cbFiber.value) == Some(INIT))
  {
    hide IsRun, AlwaysOk, AllCareful, Queued;
    InitOk(s);
    AlwaysIff(s, run);
    var t := After(s, run);
    assert forall w :: 0 <= w < |t.workers| ==> WorkerOk(t, t.workers[w]);
  }

  /** Which steps fail an assertion: entering a fiber that executes or has ended, and resetting a callback fiber that
      executes or is suspended. */
  lemma CrashStep(s: State, a: Action)
    requires Enabled(s, a)
    ensures Apply(s, a).crashed <==> s.crashed || (a.SwapIn? && MayNotEnter(s, s.workers[a.w]))
  {
    hide FirstEligible, Stopping, DoSwapIn, MayNotEnter;
    if a.SwapIn? {
      SwapInCrashes(s, a.w, a.newFiber);
    }
  }

  predicate MayNotEnter(s: State, k: Worker)
    requires k.pc.Took?
  {
    match k.pc.work
    case FiberWork(f) => StateOf(s, f) !in {Some(INIT), Some(HOLD), Some(READY)}
    case CbWork(_) => k.cbFiber.Some? && StateOf(s, k.cbFiber.value) !in {Some(INIT), Some(TERM), Some(EXCEP)}
  }

  lemma SwapInCrashes(s: State, w: nat, g: FiberId)
    requires w < |s.workers| && s.workers[w].pc.Took?
    ensures DoSwapIn(s, w, g).crashed <==> s.crashed || MayNotEnter(s, s.workers[w])
  {
  }

  /** The fiber that a worker enters. */
  function Entered(k: Worker, newFiber: FiberId): FiberId
    requires k.pc.Took?
  {
    match k.pc.work
    case FiberWork(f) => f
    case CbWork(_) => if k.cbFiber.Some? then k.cbFiber.value else newFiber
  }

  /** Fiber::State over one step: a new fiber is INIT, an entered one EXEC, one that yields HOLD or READY, one that has ended
      TERM or EXCEP but for a callback fiber, which is reset; no other fiber changes. */
  lemma StateMoves(s: State, a: Action, f: FiberId)
    requires Enabled(s, a) && !Apply(s, a).crashed
    ensures StateOf(Apply(s, a), f)
            == match a
               case Create(g) => if g == f then Some(INIT) else StateOf(s, f)
               case SwapIn(w, g) => if Entered(s.workers[w], g) == f then Some(EXEC) else StateOf(s, f)
               case YieldHold(w) => if s.workers[w].pc.f == f then Some(HOLD) else StateOf(s, f)
               case YieldReady(w) => if s.workers[w].pc.f == f then Some(READY) else StateOf(s, f)
               case Finish(w, ok) =>
                 if s.workers[w].pc.f != f then StateOf(s, f)
                 else if s.workers[w].pc.viaCb then Some(INIT) else if ok then Some(TERM) else Some(EXCEP)
               case _ => StateOf(s, f)
  {
    hide FirstEligible, Stopping, DoSwapIn;
    if a.SwapIn? {
      SwapInMoves(s, a.w, a.newFiber, f);
    }
  }

  lemma SwapInMoves(s: State, w: nat, g: FiberId, f: FiberId)
    requires w < |s.workers| && s.workers[w].pc.Took? && !DoSwapIn(s, w, g).crashed
    ensures StateOf(DoSwapIn(s, w, g), f) == if Entered(s.workers[w], g) == f then Some(EXEC) else StateOf(s, f)
  {
  }

  /** The step ends fiber `f`: a worker other than by its reusable callback fiber has run it to its end, or to an
      exception. */
  predicate Ends(s: State, a: Action, f: FiberId, ok: bool) {
    a.Finish? && a.ok == ok && a.w < |s.workers| && s.workers[a.w].pc == Running(f, false)
  }

  /** A fiber is terminated, or has failed, exactly from the step on that ends it so. */
  lemma EndStep(s: State, a: Action, f: FiberId)
    requires FibersOk(s) && Enabled(s, a)
    ensures StateOf(Apply(s, a), f) == Some(TERM) <==> StateOf(s, f) == Some(TERM) || Ends(s, a, f, true)
    ensures StateOf(Apply(s, a), f) == Some(EXCEP) <==> StateOf(s, f) == Some(EXCEP) || Ends(s, a, f, false)
  {
    hide FibersOk, Enabled, Apply;
    if a.SwapIn? {
      SwapsIn(s, a.w, a.newFiber);
      EndSwapIn(s, a.w, a.newFiber, f);
    } else {
      CrashStep(s, a);
      NotCrashed(s);
      StateMoves(s, a, f);
      if a.YieldHold? || a.YieldReady? || a.Finish? {
        RunnerExecutes(s, a);
      } else if a.Create? {
        NewFiber(s, a.f);
      }
    }
  }

  lemma NewFiber(s: State, f: FiberId)
    requires Enabled(s, Create(f))
    ensures StateOf(s, f) == None
  {
  }

  lemma SwapsIn(s: State, w: nat, g: FiberId)
    requires Enabled(s, SwapIn(w, g))
    ensures w < |s.workers| && s.workers[w].pc.Took? && Apply(s, SwapIn(w, g)) == DoSwapIn(s, w, g)
  {
    hide DoSwapIn;
  }

  lemma NotCrashed(s: State)
    requires FibersOk(s)
    ensures !s.crashed
  {
  }

  lemma RunnerExecutes(s: State, a: Action)
    requires FibersOk(s) && Enabled(s, a) && (a.YieldHold? || a.YieldReady? || a.Finish?)
    ensures a.w < |s.workers| && s.workers[a.w].pc.Running? && StateOf(s, s.workers[a.w].pc.f) == Some(EXEC)
  {
    hide Disjoint, QueueOk, ExecOk, Queued;
    assert WorkerOk(s, s.workers[a.w]);
  }

  lemma EndSwapIn(s: State, w: nat, g: FiberId, f: FiberId)
    requires FibersOk(s) && Enabled(s, SwapIn(w, g))
    ensures StateOf(DoSwapIn(s, w, g), f) in {Some(TERM), Some(EXCEP)} || StateOf(s, f) in {Some(TERM), Some(EXCEP)} ==>
              StateOf(DoSwapIn(s, w, g), f) == StateOf(s, f)
  {
    hide Disjoint, QueueOk, ExecOk, Queued;
    assert WorkerOk(s, s.workers[w]);
  }

  ghost predicate SomeEnds(s: State, run: seq<Action>, f: FiberId, ok: bool)
    requires IsRun(s, run)
    decreases |run|
  {
    run != [] && (Ends(s, run[0], f, ok) || SomeEnds(Apply(s, run[0]), run[1..], f, ok))
  }

  lemma {:induction false} EndsFrom(s: State, run: seq<Action>, f: FiberId)
    requires FibersOk(s) && IsRun(s, run) && AllCareful(s, run)
    ensures StateOf(After(s, run), f) == Some(TERM) <==> StateOf(s, f) == Some(TERM) || SomeEnds(s, run, f, true)
    ensures StateOf(After(s, run), f) == Some(EXCEP) <==> StateOf(s, f) == Some(EXCEP) || SomeEnds(s, run, f, false)
    decreases |run|
  {
    hide FibersOk, Careful, Apply, Enabled, Ends;
    if run != [] {
      EndStep(s, run[0], f);
      FibersStep(s, run[0]);
      EndsFrom(Apply(s, run[0]), run[1..], f);
    }
  }

  /** In every run of careful steps a fiber is terminated if and only if some step ran it to its end, and has failed if and
      only if some step ran it to an exception: once so, it is never entered again. */
  lemma EndsIff(s: State, run: seq<Action>, f: FiberId)
    requires Init(s) && IsRun(s, run) && AllCareful(s, run)
    ensures StateOf(After(s, run), f) == Some(TERM) <==> SomeEnds(s, run, f, true)
    ensures StateOf(After(s, run), f) == Some(EXCEP) <==> SomeEnds(s, run, f, false)
  {
    hide FibersOk, IsRun, After, AllCareful, SomeEnds;
    InitOk(s);
    EndsFrom(s, run, f);
  }

  /** In every state of every run, whatever the clients do: a fiber that executes is inside a worker, both counters count,
      and every task ever queued is still queued or was taken once, by a thread it was open to. */
  lemma CountsAlways(s: State, run: seq<Action>)
    requires Init(s) && IsRun(s, run)
    ensures var t := After(s, run);
            && (forall f :: f in t.fibers && t.fibers[f] == EXEC ==> exists w :: 0 <= w < |t.workers| && IsRunning(t.workers[w], f))
            && t.active == CountHolding(t.workers) && t.idle == CountIdling(t.workers)
            && t.pushed == multiset(t.queue) + Tasks(t.taken)
            && (forall i :: 0 <= i < |t.taken| ==> t.taken[i].1.thread in {None, Some(t.taken[i].0)})
  {
    hide IsRun, After, CountHolding, CountIdling, Tasks;
    InitInv(s);
    InvRun(s, run);
  }

  /** When stopping() holds, nothing is queued and no worker holds a task at that instant. */
  lemma StoppingMeansIdle(s: State, run: seq<Action>)
    requires Init(s) && IsRun(s, run) && Stopping(After(s, run))
    ensures var t := After(s, run);
            t.queue == [] && (forall w :: 0 <= w < |t.workers| ==> !Holding(t.workers[w])) && t.pushed == Tasks(t.taken)
  {
    hide IsRun, After, CountHolding, CountIdling, Tasks;
    InitInv(s);
    InvRun(s, run);
    NoneHolding(After(s, run).workers);
  }
}
