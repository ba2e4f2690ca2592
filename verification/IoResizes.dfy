/** Runs in which an addEvent lets other calls in between its look at the table of contexts and its resize of it. */
module IoResizes {
  import opened Codec
  import opened IoEvents
  import opened IoSafety

  /** `late` are the descriptors of the calls that have found the table too small and have not yet resized it. */
  datatype World = World(io: State, late: multiset<nat>)

  /** A call that is overtaken takes two steps, its measuring and the rest of it; any other call takes one. */
  datatype Call =
    | Measure(fd: nat)
    | Resume(add: Action)
    | Whole(a: Action)

  predicate MayMake(w: World, c: Call) {
    && !w.io.failed
    && match c
       case Measure(fd) => |w.io.contexts| <= fd
       case Resume(add) => add.Add? && add.fd in w.late
       case Whole(a) => Enabled(w.io, a)
  }

  /** contextResize(fd * 1.5), whatever has become of the table meanwhile. */
  function Resizing(io: State, fd: nat): State {
    io.(contexts := Resized(io.contexts, fd * 3 / 2))
  }

  function Make(w: World, c: Call): World
    requires MayMake(w, c)
  {
    match c
    case Measure(fd) => w.(late := w.late + multiset{fd})
    case Resume(add) => World(Apply(Resizing(w.io, add.fd), add), w.late - multiset{add.fd})
    case Whole(a) => w.(io := Apply(w.io, a))
  }

  /** The resize cuts off a context in which somebody waits. */
  predicate Cuts(io: State, fd: nat) {
    exists g: nat :: fd * 3 / 2 <= g < |io.contexts| && io.contexts[g].events != {}
  }

  /** A resize that cuts off a waiter, or one of the calls that fail an assertion. */
  predicate Breaks(w: World, c: Call)
    requires MayMake(w, c)
  {
    match c
    case Measure(_) => false
    case Resume(add) => Cuts(w.io, add.fd) || Waits(w.io.contexts, add.fd, add.event)
    case Whole(a) => Fails(w.io, a)
  }

  predicate LateOk(w: World) {
    forall fd :: fd in w.late ==> 32 <= fd
  }

  // ---------------------------------------------------------------- one step

  lemma ResizedOk(io: State, fd: nat, e: Event)
    requires Inv(io) && 32 <= fd
    ensures Inv(Resizing(io, fd)) <==> !Cuts(io, fd)
    ensures fd < |Resizing(io, fd).contexts| && (Waits(Resizing(io, fd).contexts, fd, e) <==> Waits(io.contexts, fd, e))
  {
    hide Inv;
    LateResize(io, fd * 3 / 2);
  }

  /** A count that is wrong stays wrong when an event is added. */
  lemma StaysWrong(io: State, a: Action)
    requires a.Add? && Enabled(io, a) && a.fd < |io.contexts| && io.pending != CountBits(io.contexts)
    ensures !Inv(Apply(io, a))
  {
    hide ContextsOk, TokensOk, ScheduledOk, InterestOk, CountBits;
    var c := io.contexts[a.fd];
    CountSet(io.contexts, a.fd, SetContext(c.(events := c.events + {a.event}), a.event, Registered(a.scheduler, a.waiter)));
  }

  lemma CutMiscounts(io: State, fd: nat)
    requires Inv(io) && Cuts(io, fd)
    ensures var s := Resizing(io, fd); s.pending != CountBits(s.contexts)
  {
    hide ContextsOk, TokensOk, ScheduledOk, InterestOk, CountBits;
    CutCount(io.contexts, fd * 3 / 2);
  }

  lemma ResumeStep(w: World, c: Call)
    requires Inv(w.io) && LateOk(w) && MayMake(w, c) && c.Resume?
    ensures Inv(Make(w, c).io) <==> !Breaks(w, c)
  {
    hide Inv, Apply, Resized, Cuts, Waits;
    var fd, s := c.add.fd, Resizing(w.io, c.add.fd);
    ResizedOk(w.io, fd, c.add.event);
    if Cuts(w.io, fd) {
      CutMiscounts(w.io, fd);
      StaysWrong(s, c.add);
    } else {
      AddStep(s, c.add);
      NotInv(Apply(s, c.add));
    }
  }

  lemma NotInv(s: State)
    ensures s.failed ==> !Inv(s)
  {
  }

  /** One step keeps the registry in order if and only if it is none of the three. */
  lemma MakeStep(w: World, c: Call)
    requires Inv(w.io) && LateOk(w) && MayMake(w, c)
    ensures Inv(Make(w, c).io) <==> !Breaks(w, c)
    ensures LateOk(Make(w, c))
  {
    hide Inv, Apply, Fails, Resized, Cuts, Waits;
    TableSize(w.io);
    match c
    case Measure(_) =>
    case Resume(_) => ResumeStep(w, c);
    case Whole(a) =>
      Step(w.io, a);
      NotInv(Apply(w.io, a));
  }

  lemma TableSize(s: State)
    requires Inv(s)
    ensures 32 <= |s.contexts|
  {
  }

  // ---------------------------------------------------------------- whole runs

  predicate AreCalls(w: World, calls: seq<Call>)
    decreases |calls|
  {
    calls == [] || (MayMake(w, calls[0]) && AreCalls(Make(w, calls[0]), calls[1..]))
  }

  function AfterCalls(w: World, calls: seq<Call>): World
    requires AreCalls(w, calls)
    decreases |calls|
  {
    if calls == [] then w else AfterCalls(Make(w, calls[0]), calls[1..])
  }

  predicate SomeBreaks(w: World, calls: seq<Call>)
    requires AreCalls(w, calls)
    decreases |calls|
  {
    calls != [] && (Breaks(w, calls[0]) || SomeBreaks(Make(w, calls[0]), calls[1..]))
  }

  /** The registry is in order in every state. */
  ghost predicate AlwaysInv(w: World, calls: seq<Call>)
    requires AreCalls(w, calls)
    decreases |calls|
  {
    Inv(w.io) && (calls == [] || AlwaysInv(Make(w, calls[0]), calls[1..]))
  }

  lemma {:induction false} CallsKeep(w: World, calls: seq<Call>)
    requires Inv(w.io) && LateOk(w) && AreCalls(w, calls)
    ensures AlwaysInv(w, calls) <==> !SomeBreaks(w, calls)
    ensures !SomeBreaks(w, calls) ==> Inv(AfterCalls(w, calls).io)
    decreases |calls|
  {
    hide Inv, Make, MayMake, Breaks, LateOk;
    if calls != [] {
      MakeStep(w, calls[0]);
      if !Breaks(w, calls[0]) {
        CallsKeep(Make(w, calls[0]), calls[1..]);
      }
    }
  }

  /** Over every run, whoever overtakes whom: the registry is in order in every state if and only if no resize cuts off a
      waiter and no call fails an assertion; and then no wake-up is lost. */
  lemma OvertakenIff(calls: seq<Call>)
    requires AreCalls(World(FreshState(), multiset{}), calls)
    ensures var w := World(FreshState(), multiset{});
            AlwaysInv(w, calls) <==> !SomeBreaks(w, calls)
    ensures var w := World(FreshState(), multiset{});
            !SomeBreaks(w, calls) ==>
              var s := AfterCalls(w, calls).io;
              && |s.added| == |s.scheduled| + |s.dropped| + CountBits(s.contexts)
              && (forall t :: t in s.added ==> t in s.woken + s.dropped || IsLive(s, t))
              && (forall k :: k in s.live ==> Waits(s.contexts, k.0, k.1))
  {
    hide FreshState, AreCalls, AfterCalls, SomeBreaks, AlwaysInv, Distinct, InterestOk, CountBits;
    FreshOk();
    CallsKeep(World(FreshState(), multiset{}), calls);
  }
}
