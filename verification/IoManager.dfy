/** sylar/iomanager.cpp as its classes, each method proved to make the step of the transition system. */
module IoManagers {
  import opened Codec
  import opened IoEvents
  import IoSafety

  class FdContextNode {
    const fd: nat
    var events: set<Event>
    var read: EventContext
    var write: EventContext

    constructor (fd: nat)
      ensures this.fd == fd && Shows(UNUSED)
    {
      this.fd, events, read, write := fd, {}, NOBODY, NOBODY;
    }

    ghost predicate Shows(c: FdContext)
      reads this
    {
      c == FdContext(events, read, write)
    }

    function GetEventContext(e: Event): EventContext
      reads this
    {
      match e case READ => read case WRITE => write
    }

    method SetEventContext(e: Event, x: EventContext)
      modifies this
      ensures FdContext(events, read, write) == SetContext(old(FdContext(events, read, write)), e, x)
    {
      match e
      case READ => read := x;
      case WRITE => write := x;
    }

    /** resetContext */
    method ResetContext(e: Event)
      modifies this
      ensures FdContext(events, read, write) == SetContext(old(FdContext(events, read, write)), e, NOBODY)
    {
      SetEventContext(e, EventContext(None, None, None));
    }
  }

  class IOManager {
    var fdContexts: seq<FdContextNode>
    var pendingEventCount: int
    /** What epoll watches, the calls of schedule, and whether an assertion has failed. */
    var interest: map<nat, set<Event>>
    var scheduled: seq<(nat, Waiter)>
    var aborted: bool
    ghost var model: State

    ghost predicate Shows()
      reads this, fdContexts
    {
      && |fdContexts| == |model.contexts|
      && (forall i :: 0 <= i < |fdContexts| ==> fdContexts[i].fd == i && fdContexts[i].Shows(model.contexts[i]))
      && pendingEventCount == model.pending && interest == model.interest
      && scheduled == model.scheduled && aborted == model.failed
    }

    ghost predicate Valid()
      reads this, fdContexts
    {
      Shows() && Inv(model)
    }

    constructor ()
      ensures Valid() && model == IoSafety.FreshState()
    {
      fdContexts, pendingEventCount, interest, scheduled, aborted := [], 0, map[], [], false;
      model := State([], 0, map[], false, [], [], map[], [], []);
      new;
      ContextResize(32);
      model := IoSafety.FreshState();
      IoSafety.FreshOk();
    }

    /** contextResize */
    method ContextResize(size: nat)
      requires Shows()
      modifies this
      ensures Shows() && model == old(model).(contexts := Resized(old(model.contexts), size))
      ensures forall c :: c in fdContexts ==> c in old(fdContexts) || fresh(c)
    {
      if size <= |fdContexts| {
        fdContexts := fdContexts[..size];
      } else {
        var i := |fdContexts|;
        while i < size
          invariant |old(fdContexts)| <= i <= size && i == |fdContexts|
          invariant fdContexts[..|old(fdContexts)|] == old(fdContexts)
          invariant forall k :: |old(fdContexts)| <= k < i ==>
            fdContexts[k].fd == k && fdContexts[k].Shows(UNUSED) && fresh(fdContexts[k])
          invariant model == old(model) && pendingEventCount == old(pendingEventCount) && interest == old(interest)
          invariant scheduled == old(scheduled) && aborted == old(aborted)
          invariant forall c :: c in old(fdContexts) ==> c.events == old(c.events) && c.read == old(c.read) && c.write == old(c.write)
        {
          var c := new FdContextNode(i);
          fdContexts := fdContexts + [c];
          i := i + 1;
        }
      }
      model := model.(contexts := Resized(model.contexts, size));
    }

    /** epoll_ctl, called only with an operation that fits. */
    method EpollCtl(op: Op, fd: nat, events: set<Event>, ok: bool)
      requires Shows() && Fits(model, fd, op) && (op == DEL <==> events == {})
      modifies this`interest, this`model
      ensures Shows() && model == if ok then Watch(old(model), fd, events) else old(model)
    {
      if ok {
        interest := if op == DEL then interest - {fd} else interest[fd := events];
        model := Watch(model, fd, events);
      }
    }

    /** The fd's context is where the model has it, and is the only one of its number. */
    lemma ContextAt(fd: nat)
      requires Shows() && fd < |fdContexts|
      ensures fdContexts[fd].Shows(model.contexts[fd])
      ensures forall i :: 0 <= i < |fdContexts| && i != fd ==> fdContexts[i] != fdContexts[fd]
    {
    }

    /** triggerEvent, then the decrement of the count. */
    method TriggerEvent(fd: nat, e: Event)
      requires Shows() && fd < |fdContexts| && !aborted
      modifies this, fdContexts[fd]
      ensures Shows() && model == Trigger(old(model), fd, e) && fdContexts == old(fdContexts)
    {
      var c := fdContexts[fd];
      ContextAt(fd);
      ghost var next := Trigger(model, fd, e);
      var x := c.GetEventContext(e);
      if e !in c.events || x.scheduler == None {
        aborted := true;
      } else {
        c.events := c.events - {e};
        if x.cb.Some? {
          scheduled := scheduled + [(x.scheduler.value, CbWaiter(x.cb.value))];
          c.SetEventContext(e, x.(cb := None, scheduler := None));
        } else {
          if x.fiber.Some? {
            scheduled := scheduled + [(x.scheduler.value, FiberWaiter(x.fiber.value))];
          }
          c.SetEventContext(e, x.(fiber := None, scheduler := None));
        }
        pendingEventCount := pendingEventCount - 1;
      }
      model := next;
    }

    /** addEvent: 0 or -1. */
    method AddEvent(fd: nat, e: Event, scheduler: nat, w: Waiter, ok: bool) returns (rt: int)
      requires Valid()
      modifies this, fdContexts
      ensures Shows() && model == Apply(old(model), Add(fd, e, scheduler, w, ok))
      ensures aborted <==> Waits(old(model.contexts), fd, e)
      ensures !aborted ==> Valid() && rt == (if ok then 0 else -1)
    {
      hide Inv, InvButInterest, Registered;
      IoSafety.InvNotFailed(model);
      IoSafety.Step(model, Add(fd, e, scheduler, w, ok));
      IoSafety.OperationsFit(model, fd, e, {});
      if fd >= |fdContexts| {
        ContextResize(fd * 3 / 2);
      }
      var c := fdContexts[fd];
      assert c in fdContexts;
      ContextAt(fd);
      if e in c.events {
        aborted := true;
        model := model.(failed := true);
        return -1;
      }
      EpollCtl(if c.events != {} then MOD else ADD, fd, c.events + {e}, ok);
      if !ok {
        return -1;
      }
      FinishAdd(fd, e, scheduler, w);
      rt := 0;
    }

    method FinishAdd(fd: nat, e: Event, scheduler: nat, w: Waiter)
      requires Shows() && fd < |fdContexts| && !aborted
      modifies this, fdContexts[fd]
      ensures Shows() && model == Register(old(model), fd, e, scheduler, w) && fdContexts == old(fdContexts)
    {
      var c := fdContexts[fd];
      ContextAt(fd);
      ghost var next := Register(model, fd, e, scheduler, w);
      pendingEventCount := pendingEventCount + 1;
      c.events := c.events + {e};
      var x := c.GetEventContext(e);
      assert x == GetContext(model.contexts[fd], e);
      if x.scheduler != None || x.fiber != None || x.cb != None {
        aborted := true;
      }
      match w {
        case CbWaiter(cb) => c.SetEventContext(e, EventContext(Some(scheduler), None, Some(cb)));
        case FiberWaiter(f) => c.SetEventContext(e, EventContext(Some(scheduler), Some(f), None));
      }
      model := next;
    }

    method DelEvent(fd: nat, e: Event, ok: bool) returns (done: bool)
      requires Valid()
      modifies this, fdContexts
      ensures Valid() && model == Apply(old(model), Delete(fd, e, ok))
      ensures done <==> ok && Waits(old(model.contexts), fd, e)
    {
      hide Inv, InvButInterest;
      IoSafety.InvNotFailed(model);
      IoSafety.Step(model, Delete(fd, e, ok));
      IoSafety.OperationsFit(model, fd, e, {});
      if |fdContexts| <= fd {
        return false;
      }
      var c := fdContexts[fd];
      ContextAt(fd);
      if e !in c.events {
        return false;
      }
      var newEvents := c.events - {e};
      EpollCtl(if newEvents != {} then MOD else DEL, fd, newEvents, ok);
      if !ok {
        return false;
      }
      ghost var next := Drop(model, fd, e);
      pendingEventCount := pendingEventCount - 1;
      c.events := newEvents;
      c.ResetContext(e);
      model := next;
      done := true;
    }

    method CancelEvent(fd: nat, e: Event, ok: bool) returns (done: bool)
      requires Valid()
      modifies this, fdContexts
      ensures Valid() && model == Apply(old(model), Cancel(fd, e, ok))
      ensures done <==> ok && Waits(old(model.contexts), fd, e)
    {
      hide Inv, InvButInterest, Trigger;
      IoSafety.InvNotFailed(model);
      IoSafety.Step(model, Cancel(fd, e, ok));
      IoSafety.OperationsFit(model, fd, e, {});
      if |fdContexts| <= fd {
        return false;
      }
      var c := fdContexts[fd];
      ContextAt(fd);
      if e !in c.events {
        return false;
      }
      var newEvents := c.events - {e};
      EpollCtl(if newEvents != {} then MOD else DEL, fd, newEvents, ok);
      if !ok {
        return false;
      }
      TriggerEvent(fd, e);
      done := true;
    }

    /** triggerEvent(READ), triggerEvent(WRITE), as far as asked for. */
    method TriggerEvents(fd: nat, which: set<Event>)
      requires Shows() && fd < |fdContexts| && !aborted
      modifies this, fdContexts[fd]
      ensures Shows() && model == TriggerAll(old(model), fd, which) && fdContexts == old(fdContexts)
    {
      hide Trigger;
      if READ in which {
        TriggerEvent(fd, READ);
      }
      if WRITE in which && !aborted {
        TriggerEvent(fd, WRITE);
      }
    }

    method CancelAllEvents(fd: nat, ok: bool) returns (done: bool)
      requires Valid()
      modifies this, fdContexts
      ensures Valid() && model == Apply(old(model), CancelAll(fd, ok))
      ensures done <==> ok && exists e :: Waits(old(model.contexts), fd, e)
    {
      hide Inv, InvButInterest, TriggerAll;
      IoSafety.InvNotFailed(model);
      IoSafety.Step(model, CancelAll(fd, ok));
      if |fdContexts| <= fd {
        return false;
      }
      var c := fdContexts[fd];
      ContextAt(fd);
      if c.events == {} {
        return false;
      }
      ghost var e :| e in c.events;
      IoSafety.OperationsFit(model, fd, e, {});
      var events := c.events;
      EpollCtl(DEL, fd, {}, ok);
      if !ok {
        return false;
      }
      assert Waits(old(model.contexts), fd, e);
      TriggerEvents(fd, events);
      done := true;
    }

    /** The body of the loop over reported events in idle(). */
    method HandleEvent(fd: nat, flags: set<Flag>, ok: bool)
      requires Valid() && fd < |fdContexts|
      modifies this, fdContexts
      ensures Shows() && model == Apply(old(model), Deliver(fd, flags, ok)) && fdContexts == old(fdContexts)
      ensures aborted <==> IoSafety.Fails(old(model), Deliver(fd, flags, ok))
      ensures !aborted ==> Valid()
    {
      hide Inv, InvButInterest, TriggerAll;
      IoSafety.InvNotFailed(model);
      IoSafety.Step(model, Deliver(fd, flags, ok));
      var c := fdContexts[fd];
      ContextAt(fd);
      var reported := flags;
      if ERR in reported || HUP in reported {
        reported := reported + {IN, OUT};
      }
      var actual: set<Event> := {};
      if IN in reported {
        actual := actual + {READ};
      }
      if OUT in reported {
        actual := actual + {WRITE};
      }
      assert actual == RealEvents(flags);
      if c.events * actual == {} {
        return;
      }
      IoSafety.OperationsFit(model, fd, READ, actual);
      var left := c.events - actual;
      EpollCtl(if left != {} then MOD else DEL, fd, left, ok);
      if ok {
        TriggerEvents(fd, actual);
      }
    }

    /** The loop over reported events in idle(), up to a failed assertion. */
    method HandleEvents(reported: seq<(nat, set<Flag>)>, oks: seq<bool>) returns (ghost run: seq<Action>)
      requires Valid() && |oks| == |reported|
      requires forall i :: 0 <= i < |reported| ==> reported[i].0 < |fdContexts|
      modifies this, fdContexts
      ensures Shows() && IoSafety.IsRun(old(model), run) && model == IoSafety.After(old(model), run)
      ensures |run| <= |reported| && (!aborted ==> Valid() && |run| == |reported|)
      ensures forall i :: 0 <= i < |run| ==> run[i] == Deliver(reported[i].0, reported[i].1, oks[i])
    {
      hide Inv, Apply;
      run := [];
      var i := 0;
      while i < |reported| && !aborted
        invariant 0 <= i == |run| <= |reported| && fdContexts == old(fdContexts) && Shows() && (!aborted ==> Valid())
        invariant IoSafety.IsRun(old(model), run) && model == IoSafety.After(old(model), run)
        invariant forall k :: 0 <= k < i ==> run[k] == Deliver(reported[k].0, reported[k].1, oks[k])
      {
        ghost var a := Deliver(reported[i].0, reported[i].1, oks[i]);
        IoSafety.RunSnoc(old(model), run, a);
        HandleEvent(reported[i].0, reported[i].1, oks[i]);
        run := run + [a];
        i := i + 1;
      }
    }
  }
}
