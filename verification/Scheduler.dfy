/** sylar/scheduler.cpp and sylar/fiber.cpp as a transition system: workers scan a shared queue, run fibers and
    callbacks, re-queue the ready ones and leave through the idle fiber. */
module Scheduler {
  import opened Codec

  type FiberId = nat

  /** Fiber::State */
  datatype FiberState = INIT | HOLD | EXEC | TERM | READY | EXCEP

  datatype Work = FiberWork(f: FiberId) | CbWork(cb: nat)

  /** FiberAndThread; no thread stands for -1. A worker's number is its thread id. */
  datatype Task = Task(work: Work, thread: Option<nat>)

  /** Where a worker is in `run`: before its loop (the caller's thread, until stop), at the loop head, with a task
      taken, switched into fiber `f` (the reusable callback fiber when `viaCb`), about to re-queue the ready `f`,
      past a scan that found nothing, in the idle fiber, or out of `run`. */
  datatype Pc =
    | NotStarted
    | LoopHead
    | Took(work: Work)
    | Running(f: FiberId, viaCb: bool)
    | Requeuing(f: FiberId, viaCb: bool)
    | NoTask
    | Idling
    | Exited

  datatype Worker = Worker(pc: Pc, idleTerm: bool, cbFiber: Option<FiberId>)

  /** `crashed` is set when an assertion of the program fails. `pushed` and `taken` are history: every task ever
      queued, and who took what. */
  datatype State = State(
    queue: seq<Task>,
    fibers: map<FiberId, FiberState>,
    workers: seq<Worker>,
    active: int,
    idle: int,
    autoStop: bool,
    stopping: bool,
    crashed: bool,
    pushed: multiset<Task>,
    taken: seq<(nat, Task)>)

  datatype Action =
    | Create(f: FiberId)
    | External(task: Task)
    | SetAutoStop
    | SetStopping
    | EnterRoot(w: nat)
    | Scan(w: nat)
    | SwapIn(w: nat, newFiber: FiberId)
    | Schedule(w: nat, task: Task)
    | YieldHold(w: nat)
    | YieldReady(w: nat)
    | Finish(w: nat, ok: bool)
    | Requeue(w: nat)
    | CheckIdle(w: nat)
    | IdleRound(w: nat, quiet: bool)

  // ---------------------------------------------------------------- the steps

  /** Scheduler::stopping() */
  predicate Stopping(s: State) {
    s.autoStop && s.stopping && s.queue == [] && s.active == 0
  }

  /** The scan passes over tasks of other threads and over fibers still executing. */
  predicate Eligible(s: State, w: nat, t: Task) {
    && (t.thread == None || t.thread == Some(w))
    && !(t.work.FiberWork? && t.work.f in s.fibers && s.fibers[t.work.f] == EXEC)
  }

  /** Index of the first task the scan takes, or the length of the queue. */
  function FirstEligible(s: State, w: nat, i: nat): (r: nat)
    requires i <= |s.queue|
    ensures i <= r <= |s.queue|
    ensures forall j :: i <= j < r ==> !Eligible(s, w, s.queue[j])
    ensures r < |s.queue| ==> Eligible(s, w, s.queue[r])
    decreases |s.queue| - i
  {
    if i == |s.queue| || Eligible(s, w, s.queue[i]) then i else FirstEligible(s, w, i + 1)
  }

  function Queued(s: State): set<FiberId> {
    set t | t in s.queue && t.work.FiberWork? :: t.work.f
  }

  /** A wake-up of `f` is under way: queued, taken but not yet run, or about to be re-queued. */
  ghost predicate WakeOutstanding(s: State, f: FiberId) {
    || f in Queued(s)
    || exists w :: 0 <= w < |s.workers| && HoldsWake(s.workers[w], f)
  }

  predicate HoldsWake(k: Worker, f: FiberId) {
    k.pc == Took(FiberWork(f)) || (k.pc.Requeuing? && k.pc.f == f)
  }

  /** `f` is the idle callback fiber of a worker, which no client has a pointer to. */
  predicate Spare(k: Worker, f: FiberId) {
    k.cbFiber == Some(f) && !(k.pc.Running? && k.pc.viaCb) && !(k.pc.Requeuing? && k.pc.viaCb)
  }

  /** A task of a fiber is about a fiber there is. */
  predicate Exists(s: State, t: Task) {
    t.work.FiberWork? ==> t.work.f in s.fibers
  }

  /** What a client should schedule: callbacks, and fibers that are alive, have no wake-up outstanding and are no idle
      callback fiber. */
  ghost predicate MaySchedule(s: State, t: Task) {
    t.work.FiberWork? ==>
      && StateOf(s, t.work.f) in {Some(INIT), Some(HOLD), Some(READY), Some(EXEC)}
      && !WakeOutstanding(s, t.work.f)
      && forall w :: 0 <= w < |s.workers| ==> !Spare(s.workers[w], t.work.f)
  }

  /** The program makes these steps whatever its clients do. */
  predicate Enabled(s: State, a: Action) {
    match a
    case Create(f) => f !in s.fibers
    case External(t) => Exists(s, t)
    case SetAutoStop => true
    case SetStopping => s.autoStop
    case EnterRoot(w) => w < |s.workers| && s.workers[w].pc == NotStarted && s.autoStop && s.stopping
    case Scan(w) => w < |s.workers| && s.workers[w].pc == LoopHead
    case SwapIn(w, g) => w < |s.workers| && s.workers[w].pc.Took? && g !in s.fibers
    case Schedule(w, t) => w < |s.workers| && (s.workers[w].pc.Running? || s.workers[w].pc == Idling) && Exists(s, t)
    case YieldHold(w) => w < |s.workers| && s.workers[w].pc.Running?
    case YieldReady(w) => w < |s.workers| && s.workers[w].pc.Running?
    case Finish(w, _) => w < |s.workers| && s.workers[w].pc.Running?
    case Requeue(w) => w < |s.workers| && s.workers[w].pc.Requeuing?
    case CheckIdle(w) => w < |s.workers| && s.workers[w].pc == NoTask
    case IdleRound(w, _) => w < |s.workers| && s.workers[w].pc == Idling
  }

  /** What the clients should see to: they schedule only what they may, and no fiber yields as ready or ends while a
      wake-up of it is queued. */
  ghost predicate Careful(s: State, a: Action)
    requires Enabled(s, a)
  {
    match a
    case External(t) => MaySchedule(s, t)
    case Schedule(_, t) => MaySchedule(s, t)
    case YieldReady(w) => s.workers[w].pc.f !in Queued(s)
    case Finish(w, _) => s.workers[w].pc.f !in Queued(s)
    case _ => true
  }

  function SetPc(s: State, w: nat, pc: Pc): State
    requires w < |s.workers|
  {
    s.(workers := s.workers[w := s.workers[w].(pc := pc)])
  }

  function Push(s: State, t: Task): State {
    s.(queue := s.queue + [t], pushed := s.pushed + multiset{t})
  }

  /** Switch into the taken fiber, or into the callback fiber after resetting or creating it. Entering a fiber that
      executes or has ended, or resetting one that has not, fails an assertion. */
  function DoSwapIn(s: State, w: nat, newFiber: FiberId): State
    requires w < |s.workers| && s.workers[w].pc.Took?
  {
    var k := s.workers[w];
    match k.pc.work
    case FiberWork(f) =>
      if f in s.fibers && s.fibers[f] in {INIT, HOLD, READY} then
        SetPc(s, w, Running(f, false)).(fibers := s.fibers[f := EXEC])
      else s.(crashed := true)
    case CbWork(_) =>
      match k.cbFiber
      case Some(g) =>
        if g in s.fibers && s.fibers[g] in {TERM, EXCEP, INIT} then
          SetPc(s, w, Running(g, true)).(fibers := s.fibers[g := EXEC])
        else s.(crashed := true)
      case None =>
        s.(fibers := s.fibers[newFiber := EXEC],
           workers := s.workers[w := k.(pc := Running(newFiber, true), cbFiber := Some(newFiber))])
  }

  function Apply(s: State, a: Action): State
    requires Enabled(s, a)
  {
    match a
    case Create(f) => s.(fibers := s.fibers[f := INIT])
    case External(t) => Push(s, t)
    case SetAutoStop => s.(autoStop := true)
    case SetStopping => s.(stopping := true)
    case EnterRoot(w) => SetPc(s, w, if Stopping(s) then Exited else LoopHead)
    case Scan(w) =>
      var i := FirstEligible(s, w, 0);
      if i == |s.queue| then SetPc(s, w, NoTask)
      else
        SetPc(s, w, Took(s.queue[i].work)).(queue := s.queue[..i] + s.queue[i + 1..],
                                       active := s.active + 1,
                                       taken := s.taken + [(w, s.queue[i])])
    case SwapIn(w, g) => DoSwapIn(s, w, g)
    case Schedule(_, t) => Push(s, t)
    case YieldHold(w) =>
      var k := s.workers[w];
      s.(fibers := s.fibers[k.pc.f := HOLD], active := s.active - 1,
         workers := s.workers[w := k.(pc := LoopHead, cbFiber := if k.pc.viaCb then None else k.cbFiber)])
    case YieldReady(w) =>
      var k := s.workers[w];
      SetPc(s, w, Requeuing(k.pc.f, k.pc.viaCb)).(fibers := s.fibers[k.pc.f := READY], active := s.active - 1)
    case Finish(w, ok) =>
      var k := s.workers[w];
      SetPc(s, w, LoopHead).(active := s.active - 1,
                             fibers := s.fibers[k.pc.f := if k.pc.viaCb then INIT else if ok then TERM else EXCEP])
    case Requeue(w) =>
      var k := s.workers[w];
      Push(s, Task(FiberWork(k.pc.f), None))
        .(workers := s.workers[w := k.(pc := LoopHead, cbFiber := if k.pc.viaCb then None else k.cbFiber)])
    case CheckIdle(w) =>
      if s.workers[w].idleTerm then SetPc(s, w, Exited) else SetPc(s, w, Idling).(idle := s.idle + 1)
    case IdleRound(w, quiet) =>
      s.(idle := s.idle - 1,
         workers := s.workers[w := s.workers[w].(pc := LoopHead, idleTerm := s.workers[w].idleTerm || (quiet && Stopping(s)))])
  }

  // ---------------------------------------------------------------- invariants

  /** The fibers only this worker may touch. */
  function Claims(k: Worker): set<FiberId> {
    (match k.pc
     case Took(FiberWork(f)) => {f}
     case Running(f, _) => {f}
     case Requeuing(f, _) => {f}
     case _ => {})
    + (if k.cbFiber.Some? then {k.cbFiber.value} else {})
  }

  function StateOf(s: State, f: FiberId): Option<FiberState> {
    if f in s.fibers then Some(s.fibers[f]) else None
  }

  predicate Suspended(s: State, f: FiberId) {
    StateOf(s, f) in {Some(INIT), Some(HOLD), Some(READY)}
  }

  ghost predicate WorkerOk(s: State, k: Worker) {
    && (match k.pc
        case Took(FiberWork(f)) => Suspended(s, f) && f !in Queued(s) && k.cbFiber != Some(f)
        case Running(f, viaCb) => StateOf(s, f) == Some(EXEC) && viaCb == (k.cbFiber == Some(f))
        case Requeuing(f, viaCb) => StateOf(s, f) == Some(READY) && f !in Queued(s) && viaCb == (k.cbFiber == Some(f))
        case _ => true)
    && (k.cbFiber.Some? && Spare(k, k.cbFiber.value) ==> StateOf(s, k.cbFiber.value) == Some(INIT) && k.cbFiber.value !in Queued(s))
  }

  /** No fiber belongs to two workers. */
  ghost predicate Disjoint(s: State) {
    forall i, j :: 0 <= i < j < |s.workers| ==> Claims(s.workers[i]) !! Claims(s.workers[j])
  }

  /** A fiber is queued once, and is alive. */
  ghost predicate QueueOk(s: State) {
    && (forall i, j :: 0 <= i < j < |s.queue| && s.queue[i].work.FiberWork? ==> s.queue[i].work != s.queue[j].work)
    && (forall f :: f in Queued(s) ==> Suspended(s, f) || StateOf(s, f) == Some(EXEC))
  }

  /** An executing fiber is inside some worker. */
  ghost predicate ExecOk(s: State) {
    forall f :: f in s.fibers && s.fibers[f] == EXEC ==> exists w :: 0 <= w < |s.workers| && IsRunning(s.workers[w], f)
  }

  predicate IsRunning(k: Worker, f: FiberId) {
    k.pc.Running? && k.pc.f == f
  }

  ghost predicate FibersOk(s: State) {
    && !s.crashed
    && (forall w :: 0 <= w < |s.workers| ==> WorkerOk(s, s.workers[w]))
    && Disjoint(s)
    && QueueOk(s)
    && ExecOk(s)
  }

  /** The worker has made its last scan, or never will make one. */
  predicate Done(k: Worker) {
    k.pc == Exited || (k.pc == NoTask && k.idleTerm)
  }

  predicate Holding(k: Worker) {
    k.pc.Took? || k.pc.Running?
  }

  function CountHolding(ks: seq<Worker>): nat {
    if ks == [] then 0 else (if Holding(ks[0]) then 1 else 0) + CountHolding(ks[1..])
  }

  function CountIdling(ks: seq<Worker>): nat {
    if ks == [] then 0 else (if ks[0].pc == Idling then 1 else 0) + CountIdling(ks[1..])
  }

  /** The two counters count the workers they are meant to count. */
  ghost predicate CountersOk(s: State) {
    s.active == CountHolding(s.workers) && s.idle == CountIdling(s.workers)
  }

  function Tasks(taken: seq<(nat, Task)>): multiset<Task> {
    if taken == [] then multiset{} else Tasks(taken[..|taken| - 1]) + multiset{taken[|taken| - 1].1}
  }

  /** Every task ever queued is either still queued or was taken once, by a worker it was open to. */
  ghost predicate HistoryOk(s: State) {
    && s.pushed == multiset(s.queue) + Tasks(s.taken)
    && forall i :: 0 <= i < |s.taken| ==> s.taken[i].1.thread in {None, Some(s.taken[i].0)}
  }

  /** What holds whatever the clients do. */
  ghost predicate Inv(s: State) {
    |s.workers| > 0 && ExecOk(s) && CountersOk(s) && HistoryOk(s)
  }
}
