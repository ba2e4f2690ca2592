/** do_io of sylar/hook.cpp: calls that wait for a descriptor with a timeout, over the event registry and the timers,
    interleaved with everything else that may happen to either. */
module DoIo {
  import opened Codec
  import T = TimerQueue
  import R = TimerRuns
  import E = IoEvents

  /** What the system call did. */
  datatype Outcome = Done | Interrupted | WouldBlock

  datatype Exit = Plain | AddFailed | TimedOut

  /** Where a call is: before the system call, told that it would block, with its timer added, waiting for its
      registration, after addEvent failed, awake again, with its timer cancelled, or returned. */
  datatype Pc =
    | Trying
    | Blocked
    | Armed
    | Parked(token: E.Token)
    | Refused
    | Awake
    | Disarmed
    | Returned(exit: Exit)

  /** `timeout` None stands for no timeout. `begun` is the clock at the start, `deadline` when the timer added last is due,
      and `cancelled` the flag of timer_info. */
  datatype Call = Call(
    fd: nat,
    event: E.Event,
    timeout: Option<nat>,
    begun: nat,
    pc: Pc,
    timer: Option<nat>,
    deadline: nat,
    cancelled: bool)

  /** `callbacks` are the callbacks of call timers that were handed out and have not run, `cancelling` those that have
      set the flag and have not yet called cancelEvent. */
  datatype State = State(
    io: E.State,
    time: R.World,
    calls: map<nat, Call>,
    callbacks: seq<nat>,
    cancelling: seq<(nat, E.Event)>)

  /** A fiber is in one call at a time and goes by the number of that call, and so does the callback of its timers. Even
      numbers name calls, odd numbers all other fibers and callbacks. */
  predicate IsCall(n: nat) {
    n % 2 == 0
  }

  datatype Action =
    | Begin(c: nat, fd: nat, event: E.Event, timeout: Option<nat>, begun: nat)
    | Try(c: nat, outcome: Outcome)
    | Arm(c: nat, now: nat, addr: nat)
    | Park(c: nat, scheduler: nat, ok: bool)
    | GiveUp(c: nat)
    | Resume(c: nat)
    | Disarm(c: nat)
    | Check(c: nat)
    | Expire(now: nat)
    | RunCallback(i: nat)
    | CancelEvent(i: nat, ok: bool)
    | OtherEvent(e: E.Action)
    | OtherTimer(t: R.Action)

  predicate At(s: State, c: nat, pc: Pc) {
    c in s.calls && s.calls[c].pc == pc
  }

  predicate HasReturned(s: State, c: nat) {
    c in s.calls && s.calls[c].pc.Returned?
  }

  /** What the rest of the program may do to events: nobody else waits as a fiber that is in a call. */
  predicate Foreign(e: E.Action) {
    e.Add? && e.waiter.FiberWaiter? ==> !IsCall(e.waiter.f)
  }

  /** What the rest of the program may do to timers: it has no pointer to the timer of a call. */
  predicate ForeignTimer(s: State, t: R.Action) {
    match t
    case Add(_, _, _, _, cb) => !IsCall(cb)
    case CancelTimer(addr) => OthersOnly(s, addr)
    case RefreshTimer(addr, _) => OthersOnly(s, addr)
    case ResetTimer(addr, _, _, _) => OthersOnly(s, addr)
    case GetNext(_) => true
    case Expire(_) => false
  }

  predicate OthersOnly(s: State, addr: nat) {
    forall e :: e in s.time.m.entries && e.addr == addr ==> !IsCall(e.cb)
  }

  /** Nothing follows a failed assertion. A fiber resumes when its registration has been scheduled. */
  predicate Enabled(s: State, a: Action) {
    && !s.io.failed
    && match a
       case Begin(c, _, _, _, begun) => c !in s.calls && IsCall(c)
       case Try(c, _) => At(s, c, Trying)
       case Arm(c, now, addr) =>
         At(s, c, Blocked) && s.calls[c].begun <= now
         && (s.calls[c].timeout.Some? ==> R.Enabled(s.time, ArmTimer(s, c, now, addr)))
       case Park(c, scheduler, ok) => At(s, c, Armed)
       case GiveUp(c) => At(s, c, Refused)
       case Resume(c) => c in s.calls && s.calls[c].pc.Parked? && s.calls[c].pc.token in s.io.woken
       case Disarm(c) => At(s, c, Awake)
       case Check(c) => At(s, c, Disarmed)
       case Expire(now) => R.Enabled(s.time, R.Expire(now))
       case RunCallback(i) => i < |s.callbacks|
       case CancelEvent(i, _) => i < |s.cancelling|
       case OtherEvent(e) => E.Enabled(s.io, e) && Foreign(e)
       case OtherTimer(t) => R.Enabled(s.time, t) && ForeignTimer(s, t)
  }

  /** The one-shot timer a call with a timeout adds. */
  function ArmTimer(s: State, c: nat, now: nat, addr: nat): R.Action
    requires c in s.calls && s.calls[c].timeout.Some?
  {
    R.Add(now, s.calls[c].timeout.value, addr, false, c)
  }

  function ParkEvent(s: State, c: nat, scheduler: nat, ok: bool): E.Action
    requires c in s.calls
  {
    E.Add(s.calls[c].fd, s.calls[c].event, scheduler, E.FiberWaiter(c), ok)
  }

  function SetPc(s: State, c: nat, pc: Pc): State
    requires c in s.calls
  {
    s.(calls := s.calls[c := s.calls[c].(pc := pc)])
  }

  /** timer->cancel(), when there is a timer. */
  function CancelTimer(s: State, c: nat): State
    requires c in s.calls
  {
    if s.calls[c].timer.Some? then s.(time := R.Apply(s.time, R.CancelTimer(s.calls[c].timer.value))) else s
  }

  function CallbacksOf(taken: seq<T.Entry>): seq<nat> {
    if taken == [] then []
    else CallbacksOf(taken[..|taken| - 1]) + (if IsCall(taken[|taken| - 1].cb) then [taken[|taken| - 1].cb] else [])
  }

  function Without<A>(xs: seq<A>, i: nat): seq<A>
    requires i < |xs|
  {
    xs[..i] + xs[i + 1..]
  }

  /** The timer's callback: nothing if the call is over or already cancelled. */
  function DoCallback(s: State, i: nat): State
    requires i < |s.callbacks|
  {
    var c, s' := s.callbacks[i], s.(callbacks := Without(s.callbacks, i));
    if c !in s.calls || s.calls[c].pc.Returned? || s.calls[c].cancelled then s'
    else s'.(calls := s.calls[c := s.calls[c].(cancelled := true)],
             cancelling := s.cancelling + [(s.calls[c].fd, s.calls[c].event)])
  }

  function DoPark(s: State, c: nat, scheduler: nat, ok: bool): State
    requires c in s.calls && E.Enabled(s.io, ParkEvent(s, c, scheduler, ok))
  {
    var io := E.Apply(s.io, ParkEvent(s, c, scheduler, ok));
    var pc := if ok && io.added != [] then Parked(io.added[|io.added| - 1]) else Refused;
    SetPc(s, c, pc).(io := io)
  }

  function Apply(s: State, a: Action): State
    requires Enabled(s, a)
  {
    match a
    case Begin(c, fd, event, timeout, begun) =>
      s.(calls := s.calls[c := Call(fd, event, timeout, begun, Trying, None, 0, false)])
    case Try(c, outcome) =>
      SetPc(s, c, match outcome case Done => Returned(Plain) case Interrupted => Trying case WouldBlock => Blocked)
    case Arm(c, now, addr) =>
      if s.calls[c].timeout.None? then s.(calls := s.calls[c := s.calls[c].(pc := Armed, timer := None)])
      else s.(calls := s.calls[c := s.calls[c].(pc := Armed, timer := Some(addr), deadline := now + s.calls[c].timeout.value)],
              time := R.Apply(s.time, ArmTimer(s, c, now, addr)))
    case Park(c, scheduler, ok) => DoPark(s, c, scheduler, ok)
    case GiveUp(c) => SetPc(CancelTimer(s, c), c, Returned(AddFailed))
    case Resume(c) => SetPc(s, c, Awake)
    case Disarm(c) => SetPc(CancelTimer(s, c), c, Disarmed)
    case Check(c) => SetPc(s, c, if s.calls[c].cancelled then Returned(TimedOut) else Trying)
    case Expire(now) =>
      s.(time := R.Apply(s.time, R.Expire(now)), callbacks := s.callbacks + CallbacksOf(T.ListExpired(s.time.m, now).1))
    case RunCallback(i) => DoCallback(s, i)
    case CancelEvent(i, ok) =>
      var (fd, event) := s.cancelling[i];
      s.(io := E.Apply(s.io, E.Cancel(fd, event, ok)), cancelling := Without(s.cancelling, i))
    case OtherEvent(e) => s.(io := E.Apply(s.io, e))
    case OtherTimer(t) => s.(time := R.Apply(s.time, t))
  }

  // ---------------------------------------------------------------- invariants

  /** The registration belongs to a call that is parked on it. */
  predicate OwnedToken(s: State, t: E.Token) {
    t.waiter.FiberWaiter? && IsCall(t.waiter.f) ==> At(s, t.waiter.f, Parked(t))
  }

  ghost predicate RegistrationsOk(s: State) {
    forall k :: k in s.io.live ==> OwnedToken(s, s.io.live[k])
  }

  /** A call may have a timer armed only between adding it and cancelling it. */
  predicate MayBeArmed(pc: Pc) {
    pc == Armed || pc.Parked? || pc == Refused || pc == Awake
  }

  /** The timer belongs to a call, is its only one, fires once and not before the call's timeout has passed. */
  predicate OwnedTimer(s: State, e: T.Entry) {
    IsCall(e.cb) ==>
      && e.cb in s.calls && !e.recurring && s.calls[e.cb].timer == Some(e.addr) && MayBeArmed(s.calls[e.cb].pc)
      && s.calls[e.cb].timeout.Some? && s.calls[e.cb].begun + s.calls[e.cb].timeout.value <= e.next
      && s.calls[e.cb].deadline == e.next
  }

  ghost predicate TimersOk(s: State) {
    forall e :: e in s.time.m.entries ==> OwnedTimer(s, e)
  }

  /** A timer of call `c` has expired, so its timeout has passed. */
  predicate Expired(s: State, c: nat) {
    && c in s.calls && s.calls[c].timeout.Some? && s.calls[c].begun + s.calls[c].timeout.value <= s.time.clock
    && exists i :: 0 <= i < |s.time.handed| && s.time.handed[i].cb == c
  }

  ghost predicate CallbacksOk(s: State) {
    && (forall c :: c in s.callbacks ==> Expired(s, c))
    && (forall c :: c in s.calls && s.calls[c].cancelled ==> Expired(s, c))
    && (forall c :: At(s, c, Returned(TimedOut)) ==> s.calls[c].cancelled)
  }

  ghost predicate Inv(s: State) {
    && (!s.io.failed ==> E.Inv(s.io)) && R.Inv(s.time)
    && RegistrationsOk(s) && TimersOk(s) && CallbacksOk(s)
  }
}
