/** What each call of the event registry does to a plain table of registrations, in the program's own inputs. */
module IoMeaning {
  import opened Codec
  import opened IoEvents
  import opened IoSafety

  /** The registration of an event that waits, or nothing. */
  function TokenOf(s: State, fd: nat, e: Event): seq<Token> {
    if (fd, e) in s.live then [s.live[(fd, e)]] else []
  }

  /** Nothing changes about registrations. */
  predicate SameTable(s: State, s': State) {
    s'.live == s.live && s'.added == s.added && s'.woken == s.woken && s'.dropped == s.dropped && s'.scheduled == s.scheduled
  }

  lemma LiveWaits(s: State, fd: nat, e: Event)
    requires ContextsOk(s)
    ensures (fd, e) in s.live <==> Waits(s.contexts, fd, e)
  {
  }

  /** addEvent: fails exactly when the event is registered already; otherwise, if epoll_ctl succeeds, one registration of
      this caller is added. */
  lemma AddMeaning(s: State, a: Action)
    requires Inv(s) && Enabled(s, a) && a.Add?
    ensures var s' := Apply(s, a);
            && (s'.failed <==> (a.fd, a.event) in s.live)
            && (!s'.failed && !a.ok ==> SameTable(s, s'))
            && (!s'.failed && a.ok ==>
                  var t := Token(|s.added|, a.fd, a.event, a.scheduler, a.waiter);
                  && s'.live == s.live[(a.fd, a.event) := t] && s'.added == s.added + [t]
                  && s'.woken == s.woken && s'.dropped == s.dropped && s'.scheduled == s.scheduled)
  {
    hide InterestOk, CountOk, TokensOk, ScheduledOk, ContextsOk, Found;
    AddStep(s, a);
    LiveWaits(s, a.fd, a.event);
    TableCovers(s, a.fd);
  }

  lemma TableCovers(s: State, fd: nat)
    requires Inv(s)
    ensures fd < |Found(s.contexts, fd)|
  {
    hide InterestOk, CountOk, TokensOk, ScheduledOk, Found;
    FoundShape(s, fd);
  }

  /** delEvent: a registration is dropped without waking anybody, exactly when there is one and epoll_ctl succeeds. */
  lemma DeleteMeaning(s: State, a: Action)
    requires Inv(s) && Enabled(s, a) && a.Delete?
    ensures var s' := Apply(s, a);
            if a.ok && (a.fd, a.event) in s.live then
              && s'.live == s.live - {(a.fd, a.event)} && s'.dropped == s.dropped + [s.live[(a.fd, a.event)]]
              && s'.added == s.added && s'.woken == s.woken && s'.scheduled == s.scheduled
            else SameTable(s, s')
  {
    hide InterestOk, CountOk, TokensOk, ScheduledOk, ContextsOk;
    LiveWaits(s, a.fd, a.event);
  }

  /** triggerEvent on a registered event wakes its waiter, through the scheduler it was registered in. */
  lemma TriggerMeaning(s: State, fd: nat, e: Event)
    requires InvButInterest(s) && (fd, e) in s.live
    ensures var s', t := Trigger(s, fd, e), s.live[(fd, e)];
            && InvButInterest(s') && !s'.failed && |s'.contexts| == |s.contexts|
            && s'.live == s.live - {(fd, e)} && s'.woken == s.woken + [t]
            && s'.scheduled == s.scheduled + [(t.scheduler, t.waiter)]
            && s'.added == s.added && s'.dropped == s.dropped
  {
    hide CountOk, TokensOk, ScheduledOk, ContextsOk, Trigger, InvButInterest;
    InOrder(s);
    LiveWaits(s, fd, e);
    TriggerKeeps(s, fd, e);
    TriggerShape(s, fd, e);
    InOrder(Trigger(s, fd, e));
  }

  lemma InOrder(s: State)
    requires InvButInterest(s)
    ensures ContextsOk(s) && !s.failed
  {
  }

  /** Whom the registrations belong to, with the schedulers they were registered in. */
  function Wakes(ts: seq<Token>): (ws: seq<(nat, Waiter)>)
    ensures |ws| == |ts| && forall i :: 0 <= i < |ts| ==> ws[i] == (ts[i].scheduler, ts[i].waiter)
  {
    seq(|ts|, i requires 0 <= i < |ts| => (ts[i].scheduler, ts[i].waiter))
  }

  /** The registrations `ts` on descriptor `fd` are woken; nothing else changes. */
  predicate Woken(s: State, s': State, ts: seq<Token>, keys: set<(nat, Event)>) {
    && s'.woken == s.woken + ts && s'.scheduled == s.scheduled + Wakes(ts) && s'.live == s.live - keys
    && s'.added == s.added && s'.dropped == s.dropped
  }

  lemma TriggerAllMeaning(s: State, fd: nat, read: bool, write: bool)
    requires InvButInterest(s) && fd < |s.contexts|
    requires (read ==> (fd, READ) in s.live) && (write ==> (fd, WRITE) in s.live)
    ensures var which := (if read then {READ} else {}) + (if write then {WRITE} else {});
            Woken(s, TriggerAll(s, fd, which),
                  (if read then TokenOf(s, fd, READ) else []) + (if write then TokenOf(s, fd, WRITE) else []),
                  set e | e in which :: (fd, e))
  {
    hide InvButInterest, Trigger;
    var which := (if read then {READ} else {}) + (if write then {WRITE} else {});
    InOrder(s);
    if read {
      TriggerMeaning(s, fd, READ);
    }
    var s1 := if read then Trigger(s, fd, READ) else s;
    InOrder(s1);
    if write {
      TriggerMeaning(s1, fd, WRITE);
    }
  }

  /** cancelEvent: the registration's waiter is woken, exactly when there is one and epoll_ctl succeeds. */
  lemma CancelMeaning(s: State, a: Action)
    requires Inv(s) && Enabled(s, a) && a.Cancel?
    ensures var s' := Apply(s, a);
            if a.ok && (a.fd, a.event) in s.live then Woken(s, s', [s.live[(a.fd, a.event)]], {(a.fd, a.event)})
            else SameTable(s, s')
  {
    hide InvButInterest, InterestOk, Trigger;
    InOrder(s);
    LiveWaits(s, a.fd, a.event);
    if a.ok && (a.fd, a.event) in s.live {
      WatchKeeps(s, a.fd, s.contexts[a.fd].events - {a.event});
      TriggerMeaning(Watch(s, a.fd, s.contexts[a.fd].events - {a.event}), a.fd, a.event);
    }
  }

  /** cancelAll: whoever waits on the descriptor is woken, if epoll_ctl succeeds. */
  lemma CancelAllMeaning(s: State, a: Action)
    requires Inv(s) && Enabled(s, a) && a.CancelAll?
    ensures var s' := Apply(s, a);
            if a.ok then Woken(s, s', TokenOf(s, a.fd, READ) + TokenOf(s, a.fd, WRITE), {(a.fd, READ), (a.fd, WRITE)})
            else SameTable(s, s')
  {
    hide InvButInterest, InterestOk, TriggerAll;
    InOrder(s);
    LiveWaits(s, a.fd, READ);
    LiveWaits(s, a.fd, WRITE);
    if a.fd < |s.contexts| && s.contexts[a.fd].events != {} && a.ok {
      var read, write := READ in s.contexts[a.fd].events, WRITE in s.contexts[a.fd].events;
      OnlyThese(s.contexts[a.fd].events);
      WatchKeeps(s, a.fd, {});
      TriggerAllMeaning(Watch(s, a.fd, {}), a.fd, read, write);
    }
  }

  lemma OnlyThese(events: set<Event>)
    ensures events == (if READ in events then {READ} else {}) + (if WRITE in events then {WRITE} else {})
  {
    forall e | e in events ensures e == READ || e == WRITE {
    }
  }

  /** A delivery whose epoll_ctl succeeds fails an assertion exactly when it is for one waiter and stands for another event
      besides, which has none. Otherwise a waiting reader is woken exactly when the descriptor is reported readable, in error
      or hung up, a waiting writer exactly when it is reported writable, in error or hung up, and nobody else. */
  lemma DeliverMeaning(s: State, a: Action)
    requires Inv(s) && Enabled(s, a) && a.Deliver?
    ensures var s', read, write := Apply(s, a), (a.fd, READ) in s.live, (a.fd, WRITE) in s.live;
            var r, w := IN in a.flags || ERR in a.flags || HUP in a.flags, OUT in a.flags || ERR in a.flags || HUP in a.flags;
            && (s'.failed <==> a.ok && ((r && read) || (w && write)) && ((r && !read) || (w && !write)))
            && (!s'.failed && !a.ok ==> SameTable(s, s'))
            && (!s'.failed && a.ok ==>
                  Woken(s, s', (if r then TokenOf(s, a.fd, READ) else []) + (if w then TokenOf(s, a.fd, WRITE) else []),
                        (if r then {(a.fd, READ)} else {}) + (if w then {(a.fd, WRITE)} else {})))
  {
    hide InvButInterest, InterestOk, TriggerAll, RealEvents, Inv;
    Parts(s);
    DeliverStep(s, a);
    RealMeaning(a.flags);
    LiveWaits(s, a.fd, READ);
    LiveWaits(s, a.fd, WRITE);
    var events, actual := s.contexts[a.fd].events, RealEvents(a.flags);
    OnlyTwo(actual, events);
    Meets(events, actual);
    if !Apply(s, a).failed && a.ok && events * actual != {} {
      WatchKeeps(s, a.fd, events - actual);
      TriggerAllMeaning(Watch(s, a.fd, events - actual), a.fd, READ in actual, WRITE in actual);
    }
  }

  lemma Parts(s: State)
    requires Inv(s)
    ensures InvButInterest(s) && ContextsOk(s) && !s.failed
  {
  }

  lemma RealMeaning(flags: set<Flag>)
    ensures var actual := RealEvents(flags);
            && (READ in actual <==> IN in flags || ERR in flags || HUP in flags)
            && (WRITE in actual <==> OUT in flags || ERR in flags || HUP in flags)
            && actual == (if READ in actual then {READ} else {}) + (if WRITE in actual then {WRITE} else {})
  {
  }

  lemma Meets(events: set<Event>, actual: set<Event>)
    ensures events * actual != {} <==> (READ in events && READ in actual) || (WRITE in events && WRITE in actual)
  {
    if e :| e in events * actual {
      assert e == READ || e == WRITE;
    } else {
      assert READ in events && READ in actual ==> READ in events * actual;
      assert WRITE in events && WRITE in actual ==> WRITE in events * actual;
    }
  }
}
