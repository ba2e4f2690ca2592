/** When a call of do_io returns, and how; and that it is tried again otherwise. */
module DoIoReturns {
  import opened Codec
  import opened DoIo
  import opened DoIoSafety
  import opened DoIoWatch
  import T = TimerQueue
  import R = TimerRuns
  import E = IoEvents
  import M = IoMeaning

  /** A step of the call itself. */
  predicate Own(a: Action, c: nat) {
    (a.Begin? || a.Try? || a.Arm? || a.Park? || a.GiveUp? || a.Resume? || a.Disarm? || a.Check?) && a.c == c
  }

  // ---------------------------------------------------------------- one step

  /** Where a step of the call leads. */
  lemma OwnMoves(s: State, a: Action, c: nat)
    requires Enabled(s, a) && Own(a, c)
    ensures var s' := Apply(s, a);
            && (a.Begin? ==> At(s', c, Trying))
            && (a.Try? ==> At(s, c, Trying) && At(s', c, match a.outcome
                                                         case Done => Returned(Plain)
                                                         case Interrupted => Trying
                                                         case WouldBlock => Blocked))
            && (a.Arm? ==> At(s, c, Blocked) && At(s', c, Armed))
            && (a.Park? ==> At(s, c, Armed) && c in s'.calls && (s'.calls[c].pc.Parked? || s'.calls[c].pc == Refused))
            && (a.GiveUp? ==> At(s, c, Refused) && At(s', c, Returned(AddFailed)))
            && (a.Resume? ==> c in s.calls && s.calls[c].pc.Parked? && At(s', c, Awake))
            && (a.Disarm? ==> At(s, c, Awake) && At(s', c, Disarmed))
            && (a.Check? ==> At(s, c, Disarmed) && At(s', c, if s.calls[c].cancelled then Returned(TimedOut) else Trying))
  {
    hide R.Apply, R.Enabled, E.Apply;
  }

  /** No other step moves the call. */
  lemma OthersStay(s: State, a: Action, c: nat)
    requires Enabled(s, a) && !Own(a, c)
    ensures var s' := Apply(s, a);
            && (c in s'.calls <==> c in s.calls)
            && (c in s.calls ==> s'.calls[c].pc == s.calls[c].pc)
  {
    hide R.Apply, R.Enabled, E.Apply, T.ListExpired, CallbacksOf, Without, IsCall;
  }

  /** addEvent refuses the call exactly when epoll_ctl fails, and makes it wait otherwise. */
  lemma ParkMeaning(s: State, a: Action)
    requires Inv(s) && Enabled(s, a) && a.Park? && !Apply(s, a).io.failed
    ensures var s' := Apply(s, a);
            if a.ok then
              && s'.calls[a.c].pc.Parked? && s'.calls[a.c].pc.token.waiter == E.FiberWaiter(a.c)
              && Key(s.calls[a.c]) in s'.io.live && s'.io.live[Key(s.calls[a.c])] == s'.calls[a.c].pc.token
            else At(s', a.c, Refused) && s'.io.live == s.io.live
  {
    hide E.Inv, E.Apply, R.Inv, RegistrationsOk, TimersOk, CallbacksOk, E.Waits;
    M.AddMeaning(s.io, ParkEvent(s, a.c, a.scheduler, a.ok));
  }

  /** A callback sets the flag of its call, and asks for its cancelEvent, exactly when the call has not returned and its flag
      is not set. */
  lemma CallbackMeaning(s: State, a: Action)
    requires Inv(s) && Enabled(s, a) && a.RunCallback?
    ensures var s', c := Apply(s, a), s.callbacks[a.i];
            && c in s.calls && s'.io == s.io && s'.time == s.time
            && if s.calls[c].pc.Returned? || s.calls[c].cancelled then s'.calls == s.calls && s'.cancelling == s.cancelling
               else
                 && s'.calls == s.calls[c := s.calls[c].(cancelled := true)]
                 && s'.cancelling == s.cancelling + [(s.calls[c].fd, s.calls[c].event)]
  {
    hide E.Inv, R.Inv, RegistrationsOk, TimersOk, Without;
    assert s.callbacks[a.i] in s.callbacks;
  }

  // ---------------------------------------------------------------- whole runs

  predicate Does(run: seq<Action>, a: Action) {
    exists i :: 0 <= i < |run| && run[i] == a
  }

  lemma DoesNext(run: seq<Action>, a: Action)
    requires run != []
    ensures Does(run, a) <==> run[0] == a || Does(run[1..], a)
  {
    if i :| 0 < i < |run| && run[i] == a {
      assert run[1..][i - 1] == a;
    }
    if i :| 0 <= i < |run| - 1 && run[1..][i] == a {
      assert run[i + 1] == a;
    }
  }

  lemma PlainStep(s: State, a: Action, c: nat)
    requires Enabled(s, a)
    ensures At(Apply(s, a), c, Returned(Plain)) <==> At(s, c, Returned(Plain)) || a == Try(c, Done)
    ensures At(Apply(s, a), c, Returned(AddFailed)) <==> At(s, c, Returned(AddFailed)) || a == GiveUp(c)
  {
    hide Apply;
    if Own(a, c) {
      NoneFollows(s, a, c);
      OwnMoves(s, a, c);
    } else {
      OthersStay(s, a, c);
    }
  }

  /** A call that has returned makes no step. */
  lemma NoneFollows(s: State, a: Action, c: nat)
    requires Enabled(s, a) && Own(a, c)
    ensures !HasReturned(s, c)
  {
    hide R.Enabled, E.Enabled;
  }

  /** Over every run, a call has returned what its system call gave if and only if the run has a system call of it that was
      neither interrupted nor told to wait; and it has failed in addEvent if and only if the run has it give up. */
  lemma {:induction false} ReturnsFrom(s: State, run: seq<Action>, c: nat)
    requires IsRun(s, run)
    ensures At(After(s, run), c, Returned(Plain)) <==> At(s, c, Returned(Plain)) || Does(run, Try(c, Done))
    ensures At(After(s, run), c, Returned(AddFailed)) <==> At(s, c, Returned(AddFailed)) || Does(run, GiveUp(c))
    decreases |run|
  {
    hide Enabled, Apply, At, Does;
    if run != [] {
      PlainStep(s, run[0], c);
      DoesNext(run, Try(c, Done));
      DoesNext(run, GiveUp(c));
      ReturnsFrom(Apply(s, run[0]), run[1..], c);
    } else {
      NothingDone(Try(c, Done));
      NothingDone(GiveUp(c));
    }
  }

  lemma NothingDone(a: Action)
    ensures !Does([], a)
  {
  }

  /** Some Check of the call in the run finds its flag set. */
  predicate ChecksFlag(s: State, run: seq<Action>, c: nat)
    requires IsRun(s, run)
    decreases |run|
  {
    run != [] && ((run[0] == Check(c) && c in s.calls && s.calls[c].cancelled) || ChecksFlag(Apply(s, run[0]), run[1..], c))
  }

  lemma TimedOutStep(s: State, a: Action, c: nat)
    requires Enabled(s, a)
    ensures At(Apply(s, a), c, Returned(TimedOut))
            <==> At(s, c, Returned(TimedOut)) || (a == Check(c) && c in s.calls && s.calls[c].cancelled)
  {
    hide Apply;
    if Own(a, c) {
      NoneFollows(s, a, c);
      OwnMoves(s, a, c);
    } else {
      OthersStay(s, a, c);
    }
  }

  lemma {:induction false} TimesOutFrom(s: State, run: seq<Action>, c: nat)
    requires IsRun(s, run)
    ensures At(After(s, run), c, Returned(TimedOut)) <==> At(s, c, Returned(TimedOut)) || ChecksFlag(s, run, c)
    decreases |run|
  {
    hide Enabled, Apply, At;
    if run != [] {
      TimedOutStep(s, run[0], c);
      TimesOutFrom(Apply(s, run[0]), run[1..], c);
    }
  }

  /** In every run from a start without calls, these are the only ways to return: a call stands at a plain return if and only
      if a system call of it was done, at a failure of addEvent if and only if it gave up, and at a timeout if and only if a
      check after a wake-up found its flag set. */
  lemma ReturnsIff(s: State, run: seq<Action>, c: nat)
    requires Init(s) && IsRun(s, run)
    ensures At(After(s, run), c, Returned(Plain)) <==> exists i :: 0 <= i < |run| && run[i] == Try(c, Done)
    ensures At(After(s, run), c, Returned(AddFailed)) <==> exists i :: 0 <= i < |run| && run[i] == GiveUp(c)
    ensures At(After(s, run), c, Returned(TimedOut)) <==> ChecksFlag(s, run, c)
  {
    hide IsRun, After, ChecksFlag;
    ReturnsFrom(s, run, c);
    TimesOutFrom(s, run, c);
  }

  /** The next step of the call, if the run has one, is its system call. */
  predicate TriesNext(run: seq<Action>, c: nat)
    decreases |run|
  {
    run != [] ==> if Own(run[0], c) then run[0].Try? else TriesNext(run[1..], c)
  }

  lemma {:induction false} TryingTries(s: State, run: seq<Action>, c: nat)
    requires IsRun(s, run) && At(s, c, Trying)
    ensures TriesNext(run, c)
    decreases |run|
  {
    hide Apply;
    if run != [] {
      if Own(run[0], c) {
        OwnMoves(s, run[0], c);
        OnlyTries(s, run[0], c);
      } else {
        OthersStay(s, run[0], c);
        TryingTries(Apply(s, run[0]), run[1..], c);
      }
    }
  }

  lemma OnlyTries(s: State, a: Action, c: nat)
    requires Enabled(s, a) && Own(a, c) && At(s, c, Trying)
    ensures a.Try?
  {
    hide R.Enabled, E.Enabled;
  }

  /** In every run the system call is made again after each interruption, and after each wake-up whose check does not find
      the flag set, before the call makes any other step. */
  lemma TriedAgain(s: State, before: seq<Action>, a: Action, more: seq<Action>, c: nat)
    requires IsRun(s, before) && Enabled(After(s, before), a) && IsRun(Apply(After(s, before), a), more)
    requires a == Try(c, Interrupted) || (a == Check(c) && c in After(s, before).calls && !After(s, before).calls[c].cancelled)
    ensures At(Apply(After(s, before), a), c, Trying) && TriesNext(more, c)
  {
    hide IsRun, After, Apply, Enabled;
    OwnMoves(After(s, before), a, c);
    TryingTries(Apply(After(s, before), a), more, c);
  }
}
