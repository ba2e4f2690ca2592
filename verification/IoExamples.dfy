/** Runs of the event registry: a hang-up that fails an assertion, and a resize that loses a waiter. */
module IoExamples {
  import opened Codec
  import opened IoEvents
  import opened IoSafety
  import opened IoResizes

  lemma OneAction(a: Action)
    requires Enabled(FreshState(), a)
    ensures IsRun(FreshState(), [a]) && After(FreshState(), [a]) == Apply(FreshState(), a)
  {
    hide Apply, Enabled;
    var s := Apply(FreshState(), a);
    assert [a][1..] == [];
    assert IsRun(s, []) && After(s, []) == s;
  }

  /** Somebody waits to read from descriptor 5, and the peer hangs up. */
  lemma HangUpAborts()
    ensures var run := [Add(5, READ, 0, FiberWaiter(1), true), Deliver(5, {HUP}, true)];
            IsRun(FreshState(), run) && After(FreshState(), run).failed
  {
    hide Apply, Enabled, FreshState, IsRun, After;
    var add, hup := Add(5, READ, 0, FiberWaiter(1), true), Deliver(5, {HUP}, true);
    Waiter(5, READ);
    HangUp();
    OneAction(add);
    assert [add] + [hup] == [add, hup];
    RunSnoc(FreshState(), [add], hup);
  }

  lemma HangUp()
    ensures var add := Add(5, READ, 0, FiberWaiter(1), true);
            && Enabled(FreshState(), add) && Enabled(Apply(FreshState(), add), Deliver(5, {HUP}, true))
            && Apply(Apply(FreshState(), add), Deliver(5, {HUP}, true)).failed
  {
    hide Apply, FreshState, Inv;
    var add, hup := Add(5, READ, 0, FiberWaiter(1), true), Deliver(5, {HUP}, true);
    FreshOk();
    Waiter(5, READ);
    AddStep(FreshState(), add);
    var s := Apply(FreshState(), add);
    DeliverStep(s, hup);
    assert READ in s.contexts[5].events * RealEvents({HUP}) && WRITE in RealEvents({HUP});
  }

  /** The first waiter of a new registry. */
  lemma Waiter(fd: nat, e: Event)
    ensures var s := Apply(FreshState(), Add(fd, e, 0, FiberWaiter(1), true));
            && fd < |s.contexts| && s.contexts[fd].events == {e} && !s.failed && Enabled(FreshState(), Add(fd, e, 0, FiberWaiter(1), true))
  {
    FreshOk();
    FoundShape(FreshState(), fd);
    assert Found(FreshState().contexts, fd)[fd] == UNUSED;
    hide Found;
  }

  lemma OthersUnused(fd: nat, e: Event)
    ensures var s := Apply(FreshState(), Add(fd, e, 0, FiberWaiter(1), true));
            forall g: nat :: g < |s.contexts| && g != fd ==> s.contexts[g] == UNUSED
  {
    FreshTable();
    FoundShape(FreshState(), fd);
    assert forall g: nat :: g < 32 ==> FreshState().contexts[g] == UNUSED;
    hide Found, FreshState, CountBits;
  }

  /** One call measures the table at 32 for descriptor 40 and is overtaken by another one, which makes room for descriptor
      100 and waits there; the first then resizes the table to 60 and cuts the waiter off. */
  lemma LateResizeLosesWaiter()
    ensures var w := World(FreshState(), multiset{});
            var calls := [Measure(40), Whole(Add(100, READ, 0, FiberWaiter(1), true)), Resume(Add(40, READ, 0, FiberWaiter(2), true))];
            && AreCalls(w, calls) && SomeBreaks(w, calls)
            && !AfterCalls(w, calls).io.failed && |AfterCalls(w, calls).io.contexts| == 60
  {
    hide Apply, FreshState, Inv, Enabled, Found;
    var w := World(FreshState(), multiset{});
    var first, second := Add(100, READ, 0, FiberWaiter(1), true), Add(40, READ, 0, FiberWaiter(2), true);
    var calls := [Measure(40), Whole(first), Resume(second)];
    FreshTable();
    Waiter(100, READ);
    OthersUnused(100, READ);
    var w1 := Make(w, calls[0]);
    var w2 := Make(w1, calls[1]);
    CutOff(w2.io, second);
    var w3 := Make(w2, calls[2]);
    assert AreCalls(w3, []) && AfterCalls(w3, []) == w3;
    assert calls[1..] == [Whole(first), Resume(second)] && calls[1..][1..] == [Resume(second)] && [Resume(second)][1..] == [];
    assert AreCalls(w2, [Resume(second)]) && AfterCalls(w2, [Resume(second)]) == w3 && SomeBreaks(w2, [Resume(second)]);
    assert AreCalls(w1, calls[1..]) && AfterCalls(w1, calls[1..]) == w3 && SomeBreaks(w1, calls[1..]);
  }

  lemma FreshTable()
    ensures |FreshState().contexts| == 32 && !FreshState().failed
  {
  }

  lemma CutOff(io: State, a: Action)
    requires a == Add(40, READ, 0, FiberWaiter(2), true) && !io.failed && |io.contexts| > 100 && io.contexts[100].events == {READ}
    requires !Waits(io.contexts, 40, READ) && GetContext(io.contexts[40], READ) == NOBODY
    ensures Cuts(io, 40) && !Apply(Resizing(io, 40), a).failed && |Apply(Resizing(io, 40), a).contexts| == 60
  {
  }
}
