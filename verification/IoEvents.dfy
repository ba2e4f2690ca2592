/** sylar/iomanager.cpp as a transition system: which events wait on which descriptors, what epoll watches, and which
    waiters were scheduled. One step is one call under the descriptor's lock. */
module IoEvents {
  import opened Codec

  datatype Event = READ | WRITE

  /** What epoll_wait may report. */
  datatype Flag = IN | OUT | ERR | HUP

  datatype Op = ADD | MOD | DEL

  datatype Waiter = FiberWaiter(f: nat) | CbWaiter(cb: nat)

  /** EventContext; null pointers and empty functions are None. */
  datatype EventContext = EventContext(scheduler: Option<nat>, fiber: Option<nat>, cb: Option<nat>)

  datatype FdContext = FdContext(events: set<Event>, read: EventContext, write: EventContext)

  /** One successful addEvent. */
  datatype Token = Token(id: nat, fd: nat, event: Event, scheduler: nat, waiter: Waiter)

  /** `interest` is what epoll watches. `failed` is set when an assertion of the program fails. `added`, `live`, `woken`
      and `dropped` are history; `scheduled` is what reached the schedulers. */
  datatype State = State(
    contexts: seq<FdContext>,
    pending: int,
    interest: map<nat, set<Event>>,
    failed: bool,
    scheduled: seq<(nat, Waiter)>,
    added: seq<Token>,
    live: map<(nat, Event), Token>,
    woken: seq<Token>,
    dropped: seq<Token>)

  /** `ok` is whether epoll_ctl succeeds. The caller of addEvent runs in `scheduler` and waits as `waiter`. */
  datatype Action =
    | Add(fd: nat, event: Event, scheduler: nat, waiter: Waiter, ok: bool)
    | Delete(fd: nat, event: Event, ok: bool)
    | Cancel(fd: nat, event: Event, ok: bool)
    | CancelAll(fd: nat, ok: bool)
    | Deliver(fd: nat, flags: set<Flag>, ok: bool)

  // ---------------------------------------------------------------- contexts

  const NOBODY := EventContext(None, None, None)
  const UNUSED := FdContext({}, NOBODY, NOBODY)

  function GetContext(c: FdContext, e: Event): EventContext {
    match e case READ => c.read case WRITE => c.write
  }

  function SetContext(c: FdContext, e: Event, x: EventContext): FdContext {
    match e case READ => c.(read := x) case WRITE => c.(write := x)
  }

  /** vector::resize, then a new context in every empty place. */
  function Resized(cs: seq<FdContext>, size: nat): seq<FdContext> {
    if size <= |cs| then cs[..size] else cs + seq(size - |cs|, i => UNUSED)
  }

  function Found(cs: seq<FdContext>, fd: nat): seq<FdContext> {
    if fd < |cs| then cs else Resized(cs, fd * 3 / 2)
  }

  function Registered(scheduler: nat, w: Waiter): EventContext {
    match w
    case CbWaiter(cb) => EventContext(Some(scheduler), None, Some(cb))
    case FiberWaiter(f) => EventContext(Some(scheduler), Some(f), None)
  }

  /** schedule() swaps the callback or the fiber out of the context. */
  function Emptied(x: EventContext): EventContext {
    if x.cb.Some? then x.(cb := None, scheduler := None) else x.(fiber := None, scheduler := None)
  }

  function WaiterOf(x: EventContext): Option<Waiter> {
    if x.cb.Some? then Some(CbWaiter(x.cb.value)) else if x.fiber.Some? then Some(FiberWaiter(x.fiber.value)) else None
  }

  // ---------------------------------------------------------------- the steps

  /** Whether the operation chosen fits what epoll watches; epoll_ctl is called with no other. */
  predicate Fits(s: State, fd: nat, op: Op) {
    (op == ADD) == (fd !in s.interest)
  }

  function Watch(s: State, fd: nat, events: set<Event>): State {
    s.(interest := if events == {} then s.interest - {fd} else s.interest[fd := events])
  }

  function AddOp(c: FdContext): Op {
    if c.events != {} then MOD else ADD
  }

  function RemoveOp(left: set<Event>): Op {
    if left != {} then MOD else DEL
  }

  /** FdContext::triggerEvent, and the decrement of the pending count that goes with it. */
  function Trigger(s: State, fd: nat, e: Event): State
    requires fd < |s.contexts|
  {
    var c := s.contexts[fd];
    var x := GetContext(c, e);
    if e !in c.events || x.scheduler == None then s.(failed := true)
    else
      var w := WaiterOf(x);
      s.(contexts := s.contexts[fd := SetContext(c.(events := c.events - {e}), e, Emptied(x))],
         pending := s.pending - 1,
         scheduled := if w.Some? then s.scheduled + [(x.scheduler.value, w.value)] else s.scheduled,
         live := s.live - {(fd, e)},
         woken := if (fd, e) in s.live then s.woken + [s.live[(fd, e)]] else s.woken)
  }

  /** The end of delEvent. */
  function Drop(s: State, fd: nat, e: Event): State
    requires fd < |s.contexts|
  {
    var c := s.contexts[fd];
    s.(contexts := s.contexts[fd := SetContext(c.(events := c.events - {e}), e, NOBODY)],
       pending := s.pending - 1,
       live := s.live - {(fd, e)},
       dropped := if (fd, e) in s.live then s.dropped + [s.live[(fd, e)]] else s.dropped)
  }

  /** The end of addEvent. A context that is not empty fails an assertion. */
  function Register(s: State, fd: nat, e: Event, scheduler: nat, w: Waiter): State
    requires fd < |s.contexts|
  {
    var c := s.contexts[fd];
    var t := Token(|s.added|, fd, e, scheduler, w);
    s.(contexts := s.contexts[fd := SetContext(c.(events := c.events + {e}), e, Registered(scheduler, w))],
       pending := s.pending + 1,
       failed := s.failed || GetContext(c, e) != NOBODY,
       added := s.added + [t],
       live := s.live[(fd, e) := t])
  }

  /** addEvent: a table still too small is an access out of range, waiting twice for one event fails an assertion. */
  function DoAdd(s: State, fd: nat, e: Event, scheduler: nat, w: Waiter, ok: bool): State {
    var s' := s.(contexts := Found(s.contexts, fd));
    if |s'.contexts| <= fd || e in s'.contexts[fd].events then s'.(failed := true)
    else if !ok then s'
    else Register(Watch(s', fd, s'.contexts[fd].events + {e}), fd, e, scheduler, w)
  }

  function DoDelete(s: State, fd: nat, e: Event, ok: bool): State {
    if |s.contexts| <= fd || e !in s.contexts[fd].events || !ok then s
    else Drop(Watch(s, fd, s.contexts[fd].events - {e}), fd, e)
  }

  function DoCancel(s: State, fd: nat, e: Event, ok: bool): State {
    if |s.contexts| <= fd || e !in s.contexts[fd].events || !ok then s
    else Trigger(Watch(s, fd, s.contexts[fd].events - {e}), fd, e)
  }

  function DoCancelAll(s: State, fd: nat, ok: bool): State {
    if |s.contexts| <= fd || s.contexts[fd].events == {} || !ok then s
    else TriggerAll(Watch(s, fd, {}), fd, s.contexts[fd].events)
  }

  /** triggerEvent(READ) and triggerEvent(WRITE), as far as asked for. */
  function TriggerAll(s: State, fd: nat, which: set<Event>): State
    requires fd < |s.contexts|
  {
    var s1 := if READ in which then Trigger(s, fd, READ) else s;
    if WRITE in which && !s1.failed then Trigger(s1, fd, WRITE) else s1
  }

  /** An error or a hang-up stands for both events. */
  function RealEvents(flags: set<Flag>): set<Event> {
    var both := ERR in flags || HUP in flags;
    (if IN in flags || both then {READ} else {}) + (if OUT in flags || both then {WRITE} else {})
  }

  /** The body of the loop over the events epoll_wait reported. */
  function DoDeliver(s: State, fd: nat, flags: set<Flag>, ok: bool): State
    requires fd < |s.contexts|
  {
    var actual := RealEvents(flags);
    if s.contexts[fd].events * actual == {} || !ok then s
    else TriggerAll(Watch(s, fd, s.contexts[fd].events - actual), fd, actual)
  }

  /** epoll reports descriptors that have been added, so their context exists. Nothing follows a failed assertion. */
  predicate Enabled(s: State, a: Action) {
    !s.failed && (a.Deliver? ==> a.fd < |s.contexts|)
  }

  function Apply(s: State, a: Action): State
    requires Enabled(s, a)
  {
    match a
    case Add(fd, e, scheduler, w, ok) => DoAdd(s, fd, e, scheduler, w, ok)
    case Delete(fd, e, ok) => DoDelete(s, fd, e, ok)
    case Cancel(fd, e, ok) => DoCancel(s, fd, e, ok)
    case CancelAll(fd, ok) => DoCancelAll(s, fd, ok)
    case Deliver(fd, flags, ok) => DoDeliver(s, fd, flags, ok)
  }

  // ---------------------------------------------------------------- invariants

  predicate Waits(cs: seq<FdContext>, fd: nat, e: Event) {
    fd < |cs| && e in cs[fd].events
  }

  /** A bit is set exactly when a registration is live; then the context holds its scheduler and exactly its fiber or
      callback, and otherwise nothing. */
  ghost predicate ContextsOk(s: State) {
    && 32 <= |s.contexts|
    && (forall fd: nat, e :: (fd, e) in s.live <==> Waits(s.contexts, fd, e))
    && (forall fd: nat, e :: (fd, e) in s.live ==>
          && s.live[(fd, e)].fd == fd && s.live[(fd, e)].event == e
          && GetContext(s.contexts[fd], e) == Registered(s.live[(fd, e)].scheduler, s.live[(fd, e)].waiter))
    && (forall fd: nat, e :: fd < |s.contexts| && !Waits(s.contexts, fd, e) ==> GetContext(s.contexts[fd], e) == NOBODY)
  }

  /** What epoll watches is the events field, and nothing where that is empty. */
  ghost predicate InterestOk(s: State) {
    && (forall fd: nat :: fd in s.interest <==> fd < |s.contexts| && s.contexts[fd].events != {})
    && (forall fd: nat :: fd in s.interest ==> s.interest[fd] == s.contexts[fd].events)
  }

  function CountBits(cs: seq<FdContext>): nat {
    if cs == [] then 0 else |cs[0].events| + CountBits(cs[1..])
  }

  ghost predicate CountOk(s: State) {
    s.pending == CountBits(s.contexts)
  }

  function Spent(s: State): seq<Token> {
    s.woken + s.dropped
  }

  predicate Distinct(ts: seq<Token>) {
    forall i, j :: 0 <= i < j < |ts| ==> ts[i] != ts[j]
  }

  predicate IsLive(s: State, t: Token) {
    (t.fd, t.event) in s.live && s.live[(t.fd, t.event)] == t
  }

  /** Every registration is live, was scheduled once or was deleted once, and only one of these. */
  ghost predicate TokensOk(s: State) {
    && (forall i :: 0 <= i < |s.added| ==> s.added[i].id == i)
    && (forall k :: k in s.live ==> s.live[k] in s.added && s.live[k] !in Spent(s))
    && (forall t :: t in Spent(s) ==> t in s.added)
    && (forall t :: t in s.added ==> t in Spent(s) || IsLive(s, t))
    && Distinct(Spent(s))
    && |s.added| == |s.woken| + |s.dropped| + s.pending
  }

  /** What was scheduled is what was registered. */
  ghost predicate ScheduledOk(s: State) {
    && |s.scheduled| == |s.woken|
    && forall i :: 0 <= i < |s.woken| ==> s.scheduled[i] == (s.woken[i].scheduler, s.woken[i].waiter)
  }

  ghost predicate InvButInterest(s: State) {
    !s.failed && ContextsOk(s) && CountOk(s) && TokensOk(s) && ScheduledOk(s)
  }

  ghost predicate Inv(s: State) {
    InvButInterest(s) && InterestOk(s)
  }
}
