/** The invariants of the event registry hold in every reachable state, until an assertion fails; and exactly when one
    does. */
module IoSafety {
  import opened Codec
  import opened IoEvents

  // ---------------------------------------------------------------- counting bits

  lemma {:induction false} CountSet(cs: seq<FdContext>, fd: nat, c: FdContext)
    requires fd < |cs|
    ensures CountBits(cs[fd := c]) == CountBits(cs) - |cs[fd].events| + |c.events|
  {
    if fd == 0 {
      assert cs[0 := c][1..] == cs[1..];
    } else {
      assert cs[fd := c][1..] == cs[1..][fd - 1 := c];
      CountSet(cs[1..], fd - 1, c);
    }
  }

  lemma {:induction false} CountJoined(cs: seq<FdContext>, ds: seq<FdContext>)
    ensures CountBits(cs + ds) == CountBits(cs) + CountBits(ds)
  {
    if cs == [] {
      assert cs + ds == ds;
    } else {
      assert (cs + ds)[1..] == cs[1..] + ds;
      CountJoined(cs[1..], ds);
    }
  }

  /** No bit counted means none set. */
  lemma {:induction false} CountZero(cs: seq<FdContext>)
    ensures CountBits(cs) == 0 <==> forall fd: nat :: fd < |cs| ==> cs[fd].events == {}
  {
    if cs != [] {
      CountZero(cs[1..]);
      assert forall fd: nat :: 0 < fd < |cs| ==> cs[fd] == cs[1..][fd - 1];
      assert forall fd: nat :: fd < |cs[1..]| ==> cs[1..][fd] == cs[fd + 1];
    }
  }

  // ---------------------------------------------------------------- removing one waiter

  /** The context that is left when `e` no longer waits. */
  function Without(c: FdContext, e: Event): FdContext {
    SetContext(c.(events := c.events - {e}), e, NOBODY)
  }

  /** What both ways of removing a waiter do to contexts, count and live registrations. */
  predicate Removed(s: State, s': State, fd: nat, e: Event) {
    && fd < |s.contexts| && (fd, e) in s.live && !s'.failed
    && s'.contexts == s.contexts[fd := Without(s.contexts[fd], e)]
    && s'.pending == s.pending - 1 && s'.live == s.live - {(fd, e)} && s'.added == s.added
    && s'.interest == s.interest
  }

  lemma RemovedContexts(s: State, s': State, fd: nat, e: Event)
    requires ContextsOk(s) && Removed(s, s', fd, e)
    ensures ContextsOk(s')
  {
  }

  lemma RemovedCount(s: State, s': State, fd: nat, e: Event)
    requires ContextsOk(s) && CountOk(s) && Removed(s, s', fd, e)
    ensures CountOk(s')
  {
    assert Waits(s.contexts, fd, e);
    CountSet(s.contexts, fd, Without(s.contexts[fd], e));
  }

  lemma TriggerShape(s: State, fd: nat, e: Event)
    requires InvButInterest(s) && Waits(s.contexts, fd, e)
    ensures var t, s' := s.live[(fd, e)], Trigger(s, fd, e);
            && (fd, e) in s.live && Removed(s, s', fd, e)
            && s'.scheduled == s.scheduled + [(t.scheduler, t.waiter)]
            && s'.woken == s.woken + [t] && s'.dropped == s.dropped
  {
    hide CountOk, TokensOk, ScheduledOk;
    assert (fd, e) in s.live;
  }

  lemma Inserted(before: seq<Token>, t: Token, after: seq<Token>)
    requires Distinct(before + after) && t !in before + after
    ensures Distinct(before + [t] + after)
    ensures forall x :: x in before + [t] + after <==> x in before + after || x == t
  {
    var n, old', new' := |before|, before + after, before + [t] + after;
    assert forall i :: 0 <= i < |new'| ==> new'[i] == if i < n then old'[i] else if i == n then t else old'[i - 1];
    assert forall i :: 0 <= i < |old'| ==> old'[i] in old';
    forall i, j | 0 <= i < j < |new'| ensures new'[i] != new'[j] {
      var i', j' := if i < n then i else i - 1, if j < n then j else j - 1;
      assert i != n && j != n ==> old'[i'] != old'[j'];
    }
  }

  ghost predicate KeyedOk(s: State) {
    forall fd: nat, e :: (fd, e) in s.live ==> s.live[(fd, e)].fd == fd && s.live[(fd, e)].event == e
  }

  /** One live token more is spent. */
  lemma SpentTokens(s: State, s': State, fd: nat, e: Event, before: seq<Token>, after: seq<Token>)
    requires TokensOk(s) && KeyedOk(s) && Removed(s, s', fd, e)
    requires Spent(s) == before + after && Spent(s') == before + [s.live[(fd, e)]] + after
    ensures TokensOk(s')
  {
    var t := s.live[(fd, e)];
    Inserted(before, t, after);
    hide Distinct, Spent;
    assert t in s.added;
    assert |Spent(s')| == |Spent(s)| + 1;
    SpentLength(s);
    SpentLength(s');
    forall k | k in s'.live ensures s'.live[k] in s'.added && s'.live[k] !in Spent(s') {
      assert k == (k.0, k.1) && (s.live[k].fd, s.live[k].event) == k;
    }
  }

  lemma SpentLength(s: State)
    ensures |Spent(s)| == |s.woken| + |s.dropped|
  {
  }

  /** triggerEvent on a waiting event schedules its waiter and keeps the registry in order. */
  lemma TriggerKeeps(s: State, fd: nat, e: Event)
    requires InvButInterest(s) && Waits(s.contexts, fd, e)
    ensures var s' := Trigger(s, fd, e);
            && InvButInterest(s') && s'.interest == s.interest && |s'.contexts| == |s.contexts|
            && s'.contexts == s.contexts[fd := Without(s.contexts[fd], e)]
  {
    hide CountOk, TokensOk, Trigger;
    var s' := Trigger(s, fd, e);
    TriggerShape(s, fd, e);
    RemovedContexts(s, s', fd, e);
    RemovedCount(s, s', fd, e);
    SpentTokens(s, s', fd, e, s.woken, s.dropped);
  }

  lemma DropKeeps(s: State, fd: nat, e: Event)
    requires InvButInterest(s) && Waits(s.contexts, fd, e)
    ensures var s' := Drop(s, fd, e);
            && InvButInterest(s') && s'.interest == s.interest
            && s'.contexts == s.contexts[fd := Without(s.contexts[fd], e)]
            && s'.scheduled == s.scheduled && s'.dropped == s.dropped + [s.live[(fd, e)]]
  {
    hide CountOk, TokensOk;
    var s' := Drop(s, fd, e);
    assert (fd, e) in s.live;
    RemovedContexts(s, s', fd, e);
    RemovedCount(s, s', fd, e);
    SpentTokens(s, s', fd, e, s.woken + s.dropped, []);
  }

  // ---------------------------------------------------------------- adding one waiter

  lemma RegisterContexts(s: State, fd: nat, e: Event, scheduler: nat, w: Waiter)
    requires ContextsOk(s) && fd < |s.contexts| && !Waits(s.contexts, fd, e)
    ensures ContextsOk(Register(s, fd, e, scheduler, w))
  {
  }

  lemma RegisterTokens(s: State, fd: nat, e: Event, scheduler: nat, w: Waiter)
    requires TokensOk(s) && fd < |s.contexts| && (fd, e) !in s.live
    ensures TokensOk(Register(s, fd, e, scheduler, w))
  {
    hide Distinct;
    var s' := Register(s, fd, e, scheduler, w);
    var t := s'.live[(fd, e)];
    assert Spent(s') == Spent(s);
    assert t !in s.added && t == s'.added[|s.added|];
    forall k | k in s'.live ensures s'.live[k] in s'.added && s'.live[k] !in Spent(s') {
      assert k != (fd, e) ==> s'.live[k] == s.live[k];
    }
  }

  lemma RegisterKeeps(s: State, fd: nat, e: Event, scheduler: nat, w: Waiter)
    requires InvButInterest(s) && fd < |s.contexts| && !Waits(s.contexts, fd, e)
    ensures var s' := Register(s, fd, e, scheduler, w);
            && InvButInterest(s') && s'.interest == s.interest && |s'.contexts| == |s.contexts|
            && (forall g: nat :: g < |s.contexts| && g != fd ==> s'.contexts[g] == s.contexts[g])
            && s'.contexts[fd].events == s.contexts[fd].events + {e}
  {
    var s' := Register(s, fd, e, scheduler, w);
    RegisterContexts(s, fd, e, scheduler, w);
    RegisterTokens(s, fd, e, scheduler, w);
    CountSet(s.contexts, fd, s'.contexts[fd]);
    hide ContextsOk, TokensOk, CountBits;
    EmptyUnlessWaiting(s, fd, e);
  }

  lemma EmptyUnlessWaiting(s: State, fd: nat, e: Event)
    requires ContextsOk(s) && fd < |s.contexts| && !Waits(s.contexts, fd, e)
    ensures GetContext(s.contexts[fd], e) == NOBODY
  {
  }

  // ---------------------------------------------------------------- growing the table

  lemma FoundShape(s: State, fd: nat)
    requires 32 <= |s.contexts|
    ensures var cs := Found(s.contexts, fd);
            && fd < |cs| && CountBits(cs) == CountBits(s.contexts)
            && (forall g: nat :: g < |s.contexts| ==> cs[g] == s.contexts[g])
            && (forall g: nat :: |s.contexts| <= g < |cs| ==> cs[g] == UNUSED)
            && |s.contexts| <= |cs|
  {
    var extra := seq(if fd < |s.contexts| then 0 else fd * 3 / 2 - |s.contexts|, i => UNUSED);
    assert Found(s.contexts, fd) == s.contexts + extra;
    CountJoined(s.contexts, extra);
    CountZero(extra);
  }

  lemma FoundKeeps(s: State, fd: nat)
    requires Inv(s)
    ensures var s' := s.(contexts := Found(s.contexts, fd));
            Inv(s') && fd < |s'.contexts| && forall g: nat, e :: Waits(s'.contexts, g, e) <==> Waits(s.contexts, g, e)
  {
    hide Found, CountBits, TokensOk, ScheduledOk;
    var s' := s.(contexts := Found(s.contexts, fd));
    FoundShape(s, fd);
    GrownHistory(s, s');
    GrownContexts(s, s');
  }

  lemma GrownHistory(s: State, s': State)
    requires s' == s.(contexts := s'.contexts)
    ensures TokensOk(s) ==> TokensOk(s')
    ensures ScheduledOk(s) ==> ScheduledOk(s')
  {
  }

  lemma GrownContexts(s: State, s': State)
    requires s' == s.(contexts := s'.contexts) && |s.contexts| <= |s'.contexts| && ContextsOk(s) && InterestOk(s)
    requires forall g: nat :: g < |s.contexts| ==> s'.contexts[g] == s.contexts[g]
    requires forall g: nat :: |s.contexts| <= g < |s'.contexts| ==> s'.contexts[g] == UNUSED
    ensures ContextsOk(s') && InterestOk(s')
    ensures forall g: nat, e :: Waits(s'.contexts, g, e) <==> Waits(s.contexts, g, e)
  {
  }

  // ---------------------------------------------------------------- what epoll watches

  /** After an operation on `fd` that succeeded, epoll watches `fd` for exactly what its context says. */
  lemma Watched(s: State, s': State, fd: nat)
    requires InterestOk(s) && fd < |s.contexts| == |s'.contexts|
    requires forall g: nat :: g < |s.contexts| && g != fd ==> s'.contexts[g] == s.contexts[g]
    requires s'.interest == Watch(s, fd, s'.contexts[fd].events).interest
    ensures InterestOk(s')
  {
  }

  lemma WatchKeeps(s: State, fd: nat, events: set<Event>)
    requires InvButInterest(s)
    ensures InvButInterest(Watch(s, fd, events))
  {
  }

  /** No operation is issued that does not fit: ADD only for descriptors epoll does not watch, MOD and DEL only for
      those it does. */
  lemma OperationsFit(s: State, fd: nat, e: Event, actual: set<Event>)
    requires Inv(s)
    ensures var s' := s.(contexts := Found(s.contexts, fd));
            fd < |s'.contexts| && Fits(s', fd, AddOp(s'.contexts[fd]))
    ensures Waits(s.contexts, fd, e) ==> Fits(s, fd, RemoveOp(s.contexts[fd].events - {e})) && Fits(s, fd, DEL)
    ensures fd < |s.contexts| && s.contexts[fd].events * actual != {} ==> Fits(s, fd, RemoveOp(s.contexts[fd].events - actual))
  {
  }

  // ---------------------------------------------------------------- the steps

  lemma AddStep(s: State, a: Action)
    requires Inv(s) && Enabled(s, a) && a.Add?
    ensures Apply(s, a).failed <==> Waits(s.contexts, a.fd, a.event)
    ensures !Apply(s, a).failed ==> Inv(Apply(s, a))
  {
    hide InvButInterest, InterestOk, Found, Register, Watch;
    FoundKeeps(s, a.fd);
    var s0 := s.(contexts := Found(s.contexts, a.fd));
    NotFailed(s0);
    if !Waits(s0.contexts, a.fd, a.event) && a.ok {
      AddReady(s0, a.fd, a.event, a.scheduler, a.waiter);
      NotFailed(Apply(s, a));
    }
  }

  lemma NotFailed(s: State)
    ensures InvButInterest(s) ==> !s.failed
  {
  }

  lemma AddReady(s: State, fd: nat, e: Event, scheduler: nat, w: Waiter)
    requires Inv(s) && fd < |s.contexts| && !Waits(s.contexts, fd, e)
    ensures Inv(Register(Watch(s, fd, s.contexts[fd].events + {e}), fd, e, scheduler, w))
  {
    hide InvButInterest, InterestOk, Register;
    var s1 := Watch(s, fd, s.contexts[fd].events + {e});
    WatchKeeps(s, fd, s.contexts[fd].events + {e});
    RegisterKeeps(s1, fd, e, scheduler, w);
    Watched(s, Register(s1, fd, e, scheduler, w), fd);
  }

  lemma DeleteStep(s: State, a: Action)
    requires Inv(s) && Enabled(s, a) && a.Delete?
    ensures Inv(Apply(s, a)) && Apply(s, a).scheduled == s.scheduled
  {
    hide InvButInterest, InterestOk, Drop;
    if Waits(s.contexts, a.fd, a.event) && a.ok {
      var left := s.contexts[a.fd].events - {a.event};
      var s1 := Watch(s, a.fd, left);
      WatchKeeps(s, a.fd, left);
      DropKeeps(s1, a.fd, a.event);
      Watched(s, Drop(s1, a.fd, a.event), a.fd);
    }
  }

  lemma CancelStep(s: State, a: Action)
    requires Inv(s) && Enabled(s, a) && a.Cancel?
    ensures Inv(Apply(s, a))
  {
    hide InvButInterest, InterestOk, Trigger;
    if Waits(s.contexts, a.fd, a.event) && a.ok {
      var left := s.contexts[a.fd].events - {a.event};
      var s1 := Watch(s, a.fd, left);
      WatchKeeps(s, a.fd, left);
      TriggerKeeps(s1, a.fd, a.event);
      Watched(s, Trigger(s1, a.fd, a.event), a.fd);
    }
  }

  /** Triggering several events succeeds exactly when all of them wait. */
  lemma TriggerAllKeeps(s: State, fd: nat, which: set<Event>)
    requires InvButInterest(s) && fd < |s.contexts|
    ensures var s' := TriggerAll(s, fd, which);
            && (s'.failed <==> !(which <= s.contexts[fd].events))
            && (!s'.failed ==>
                  && InvButInterest(s') && s'.interest == s.interest && |s'.contexts| == |s.contexts|
                  && s'.contexts[fd].events == s.contexts[fd].events - which
                  && forall g: nat :: g < |s.contexts| && g != fd ==> s'.contexts[g] == s.contexts[g])
  {
    hide InvButInterest, Trigger;
    NotFailed(s);
    if !Waits(s.contexts, fd, READ) {
      TriggerFails(s, fd, READ);
    }
    var s1 := if READ in which then Trigger(s, fd, READ) else s;
    if READ in which && Waits(s.contexts, fd, READ) {
      TriggerKeeps(s, fd, READ);
      NotFailed(s1);
    }
    if !s1.failed {
      NotFailed(s1);
      if !Waits(s1.contexts, fd, WRITE) {
        TriggerFails(s1, fd, WRITE);
      }
      if WRITE in which && Waits(s1.contexts, fd, WRITE) {
        TriggerKeeps(s1, fd, WRITE);
        NotFailed(Trigger(s1, fd, WRITE));
      }
    }
    assert which <= s.contexts[fd].events <==> forall e :: e in which ==> e in s.contexts[fd].events;
    OnlyTwo(which, s.contexts[fd].events);
  }

  lemma OnlyTwo(which: set<Event>, events: set<Event>)
    ensures which <= events <==> (READ in which ==> READ in events) && (WRITE in which ==> WRITE in events)
    ensures events - which == events - (if READ in which then {READ} else {}) - (if WRITE in which then {WRITE} else {})
  {
    forall e | e in which ensures e == READ || e == WRITE {
    }
  }

  lemma TriggerFails(s: State, fd: nat, e: Event)
    requires fd < |s.contexts| && !Waits(s.contexts, fd, e)
    ensures Trigger(s, fd, e).failed
  {
  }

  lemma CancelAllStep(s: State, a: Action)
    requires Inv(s) && Enabled(s, a) && a.CancelAll?
    ensures Inv(Apply(s, a))
  {
    hide InvButInterest, InterestOk, TriggerAll;
    if a.fd < |s.contexts| && s.contexts[a.fd].events != {} && a.ok {
      AllTriggered(s, a.fd, s.contexts[a.fd].events);
      assert s.contexts[a.fd].events - s.contexts[a.fd].events == {};
    }
  }

  lemma AllTriggered(s: State, fd: nat, which: set<Event>)
    requires Inv(s) && fd < |s.contexts|
    ensures var s' := TriggerAll(Watch(s, fd, s.contexts[fd].events - which), fd, which);
            && (s'.failed <==> !(which <= s.contexts[fd].events))
            && (!s'.failed ==> Inv(s'))
  {
    hide InvButInterest, InterestOk, TriggerAll;
    var left := s.contexts[fd].events - which;
    var s1 := Watch(s, fd, left);
    WatchKeeps(s, fd, left);
    TriggerAllKeeps(s1, fd, which);
    if which <= s.contexts[fd].events {
      Watched(s, TriggerAll(s1, fd, which), fd);
    }
  }

  /** A delivery fails an assertion exactly when epoll reports, besides an event that waits, one that does not. */
  lemma DeliverStep(s: State, a: Action)
    requires Inv(s) && Enabled(s, a) && a.Deliver?
    ensures var events, actual := s.contexts[a.fd].events, RealEvents(a.flags);
            Apply(s, a).failed <==> a.ok && events * actual != {} && !(actual <= events)
    ensures !Apply(s, a).failed ==> Inv(Apply(s, a))
  {
    hide InvButInterest, InterestOk, TriggerAll, RealEvents;
    NotFailed(s);
    AllTriggered(s, a.fd, RealEvents(a.flags));
  }

  /** The action that fails an assertion. */
  predicate Fails(s: State, a: Action) {
    || (a.Add? && Waits(s.contexts, a.fd, a.event))
    || (a.Deliver? && a.fd < |s.contexts| && a.ok
        && s.contexts[a.fd].events * RealEvents(a.flags) != {} && !(RealEvents(a.flags) <= s.contexts[a.fd].events))
  }

  lemma Step(s: State, a: Action)
    requires Inv(s) && Enabled(s, a)
    ensures Apply(s, a).failed <==> Fails(s, a)
    ensures !Fails(s, a) ==> Inv(Apply(s, a))
  {
    hide Inv, Apply, RealEvents;
    match a
    case Add(_, _, _, _, _) => AddStep(s, a);
    case Delete(_, _, _) => DeleteStep(s, a); InvNotFailed(Apply(s, a));
    case Cancel(_, _, _) => CancelStep(s, a); InvNotFailed(Apply(s, a));
    case CancelAll(_, _) => CancelAllStep(s, a); InvNotFailed(Apply(s, a));
    case Deliver(_, _, _) => DeliverStep(s, a);
  }

  lemma InvNotFailed(s: State)
    requires Inv(s)
    ensures !s.failed
  {
  }

  // ---------------------------------------------------------------- whole runs

  /** The constructor resized the table to 32. */
  function FreshState(): State {
    State(Resized([], 32), 0, map[], false, [], [], map[], [], [])
  }

  predicate IsRun(s: State, run: seq<Action>)
    decreases |run|
  {
    run == [] || (Enabled(s, run[0]) && IsRun(Apply(s, run[0]), run[1..]))
  }

  function After(s: State, run: seq<Action>): State
    requires IsRun(s, run)
    decreases |run|
  {
    if run == [] then s else After(Apply(s, run[0]), run[1..])
  }

  lemma {:induction false} RunSnoc(s: State, run: seq<Action>, a: Action)
    requires IsRun(s, run) && Enabled(After(s, run), a)
    ensures IsRun(s, run + [a]) && After(s, run + [a]) == Apply(After(s, run), a)
    decreases |run|
  {
    hide Apply, Enabled;
    if run != [] {
      assert (run + [a])[1..] == run[1..] + [a];
      RunSnoc(Apply(s, run[0]), run[1..], a);
    }
  }

  /** Some action of the run fails an assertion in the state it finds. */
  predicate SomeFails(s: State, run: seq<Action>)
    requires IsRun(s, run)
    decreases |run|
  {
    run != [] && (Fails(s, run[0]) || SomeFails(Apply(s, run[0]), run[1..]))
  }

  lemma FreshOk()
    ensures Inv(FreshState())
  {
    CountZero(FreshState().contexts);
    hide CountBits;
  }

  lemma {:induction false} RunKeeps(s: State, run: seq<Action>)
    requires Inv(s) && IsRun(s, run)
    ensures After(s, run).failed <==> SomeFails(s, run)
    ensures !SomeFails(s, run) ==> Inv(After(s, run))
    decreases |run|
  {
    hide Inv, Apply, Fails;
    InvNotFailed(s);
    if run != [] {
      Step(s, run[0]);
      if Fails(s, run[0]) {
        StuckOnceFailed(Apply(s, run[0]), run[1..]);
      } else {
        RunKeeps(Apply(s, run[0]), run[1..]);
      }
    }
  }

  lemma StuckOnceFailed(s: State, run: seq<Action>)
    requires s.failed && IsRun(s, run)
    ensures After(s, run) == s
  {
  }

  /** Over every run the program's assertions hold unless a caller waits twice for one event or epoll reports an event
      that does not wait together with one that does; until then every invariant of the registry holds. */
  lemma RunsAreSafe(run: seq<Action>)
    requires IsRun(FreshState(), run)
    ensures After(FreshState(), run).failed <==> SomeFails(FreshState(), run)
    ensures !After(FreshState(), run).failed ==> Inv(After(FreshState(), run))
  {
    hide Inv, Apply, Fails, FreshState;
    FreshOk();
    RunKeeps(FreshState(), run);
  }

  /** Wake-ups are conserved: of the registrations made over a run each is live, was scheduled exactly once as it was
      registered, or was deleted exactly once. */
  lemma WakeUpsConserved(run: seq<Action>)
    requires IsRun(FreshState(), run) && !After(FreshState(), run).failed
    ensures var s := After(FreshState(), run);
            && |s.added| == |s.scheduled| + |s.dropped| + CountBits(s.contexts)
            && |s.scheduled| == |s.woken|
            && (forall i :: 0 <= i < |s.scheduled| ==> s.scheduled[i] == (s.woken[i].scheduler, s.woken[i].waiter))
            && Distinct(s.woken + s.dropped)
            && (forall t :: t in s.added ==> t in s.woken + s.dropped || IsLive(s, t))
            && (forall t :: t in s.woken + s.dropped ==> t in s.added)
            && (forall k :: k in s.live ==> s.live[k] in s.added && s.live[k] !in s.woken + s.dropped)
  {
    hide IsRun, After, FreshState, Distinct, ContextsOk, InterestOk;
    RunsAreSafe(run);
  }

  // ---------------------------------------------------------------- the table shrinks

  /** addEvent lets go of the table's lock between finding it too small and resizing it, so it may resize a table that
      another call has made larger meanwhile. That is harmless exactly when nothing waits in the contexts cut off. */
  lemma LateResize(s: State, size: nat)
    requires Inv(s) && 32 <= size
    ensures Inv(s.(contexts := Resized(s.contexts, size)))
            <==> forall fd: nat :: size <= fd < |s.contexts| ==> s.contexts[fd].events == {}
  {
    hide CountBits, ContextsOk, InterestOk, TokensOk, ScheduledOk, Resized;
    var s' := s.(contexts := Resized(s.contexts, size));
    GrownHistory(s, s');
    if size <= |s.contexts| {
      CutCount(s.contexts, size);
      if forall fd: nat :: size <= fd < |s.contexts| ==> s.contexts[fd].events == {} {
        ShrunkContexts(s, s');
      }
    } else {
      LongerTable(s.contexts, size);
      GrownContexts(s, s');
    }
  }

  lemma CutCount(cs: seq<FdContext>, size: nat)
    requires size <= |cs|
    ensures Resized(cs, size) == cs[..size]
    ensures CountBits(cs[..size]) == CountBits(cs) <==> forall fd: nat :: size <= fd < |cs| ==> cs[fd].events == {}
  {
    hide CountBits;
    var cut := cs[size..];
    assert cs == cs[..size] + cut;
    CountJoined(cs[..size], cut);
    CountZero(cut);
    assert forall fd: nat :: size <= fd < |cs| ==> cs[fd] == cut[fd - size];
    assert forall fd: nat :: fd < |cut| ==> cut[fd] == cs[size + fd];
  }

  lemma LongerTable(cs: seq<FdContext>, size: nat)
    requires |cs| < size
    ensures var cs' := Resized(cs, size);
            && |cs'| == size && CountBits(cs') == CountBits(cs)
            && (forall g: nat :: g < |cs| ==> cs'[g] == cs[g])
            && (forall g: nat :: |cs| <= g < size ==> cs'[g] == UNUSED)
  {
    var extra := seq(size - |cs|, i => UNUSED);
    CountJoined(cs, extra);
    CountZero(extra);
    hide CountBits;
  }

  lemma ShrunkContexts(s: State, s': State)
    requires ContextsOk(s) && InterestOk(s) && s' == s.(contexts := s'.contexts)
    requires 32 <= |s'.contexts| <= |s.contexts| && s'.contexts == s.contexts[..|s'.contexts|]
    requires forall fd: nat :: |s'.contexts| <= fd < |s.contexts| ==> s.contexts[fd].events == {}
    ensures ContextsOk(s') && InterestOk(s')
  {
  }
}
