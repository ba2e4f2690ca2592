/** Runs of the timer manager under a clock that never steps back: no wake-up is missed and no one-shot timer
    fires twice. */
module TimerRuns {
  import opened Codec
  import opened TimerQueue

  /** One critical section each. `now` is what GetCurrentMS returned. */
  datatype Action =
    | Add(now: nat, ms: nat, addr: nat, recurring: bool, cb: nat)
    | CancelTimer(addr: nat)
    | RefreshTimer(addr: nat, now: nat)
    | ResetTimer(addr: nat, ms: nat, fromNow: bool, now: nat)
    | GetNext(now: nat)
    | Expire(now: nat)

  /** A deadline reported by getNextTimer, with the number of front insertions called so far. */
  datatype Promise = Promise(deadline: nat, calls: nat)

  /** `promises`, `issued` and `handed` are history: what getNextTimer reported, the addresses ever used, and the
      timers whose callbacks listExpiredCb handed out. */
  datatype World = World(m: Manager, clock: nat, promises: seq<Promise>, issued: set<nat>, handed: seq<Entry>)

  predicate NoWrap(m: Manager, now: nat) {
    forall e :: e in m.entries ==> now + e.ms < WORD
  }

  /** The clock never steps back and deadlines stay below 2^64. A new timer reads the clock before it takes the lock, so
      its reading may be an old one. */
  predicate Enabled(w: World, a: Action) {
    match a
    case Add(now, ms, addr, _, _) => now + ms < WORD && addr !in w.issued
    case CancelTimer(_) => true
    case RefreshTimer(_, now) => w.clock <= now && NoWrap(w.m, now)
    case ResetTimer(_, ms, _, now) => w.clock <= now && now + ms < WORD
    case GetNext(now) => w.clock <= now
    case Expire(now) => w.clock <= now && NoWrap(w.m, now)
  }

  function Earliest(m: Manager): nat {
    if m.entries == [] then MAX_MS else m.entries[0].next
  }

  function Apply(w: World, a: Action): World {
    match a
    case Add(now, ms, addr, recurring, cb) =>
      w.(m := AddEntry(w.m, NewEntry(now, ms, addr, recurring, cb)), issued := w.issued + {addr},
         clock := if w.clock < now then now else w.clock)
    case CancelTimer(addr) => w.(m := Cancel(w.m, addr))
    case RefreshTimer(addr, now) => w.(m := Refresh(w.m, addr, now), clock := now)
    case ResetTimer(addr, ms, fromNow, now) => w.(m := Reset(w.m, addr, ms, fromNow, now), clock := now)
    case GetNext(now) =>
      w.(m := w.m.(tickled := false), clock := now, promises := w.promises + [Promise(Earliest(w.m), w.m.calls)])
    case Expire(now) =>
      var (m', taken) := ListExpired(w.m, now);
      w.(m := m', clock := now, handed := w.handed + taken)
  }

  // ---------------------------------------------------------------- invariants

  ghost predicate EntriesOk(w: World) {
    && Sorted(w.m.entries) && DistinctAddresses(w.m.entries)
    && (forall e :: e in w.m.entries ==> e.addr in w.issued && e.ms <= e.next < WORD && e.next - e.ms <= w.clock)
    && w.m.previous <= w.clock
  }

  /** onTimerInsertAtFront has been called since the promise, or no timer is due before its deadline. */
  predicate Kept(p: Promise, m: Manager) {
    m.calls > p.calls || forall e :: e in m.entries ==> e.next >= p.deadline
  }

  ghost predicate PromisesOk(w: World) {
    forall p :: p in w.promises ==>
      p.calls <= w.m.calls && (w.m.tickled ==> w.m.calls > p.calls) && Kept(p, w.m)
  }

  ghost predicate HandedOk(w: World) {
    && (forall i :: 0 <= i < |w.handed| ==> w.handed[i].addr in w.issued)
    && (forall i, e :: 0 <= i < |w.handed| && !w.handed[i].recurring && e in w.m.entries ==> e.addr != w.handed[i].addr)
    && (forall i, j :: 0 <= i < j < |w.handed| && !w.handed[i].recurring ==> w.handed[i].addr != w.handed[j].addr)
  }

  ghost predicate Inv(w: World) {
    EntriesOk(w) && PromisesOk(w) && HandedOk(w)
  }

  // ---------------------------------------------------------------- promises

  /** Promises survive a change that calls nothing and lets no deadline come before the earliest one. */
  lemma PromisesSurvive(w: World, w': World)
    requires PromisesOk(w) && w'.promises == w.promises && w'.m.calls == w.m.calls && w'.m.tickled == w.m.tickled
    requires forall e :: e in w'.m.entries ==> exists d :: d in w.m.entries && d.next <= e.next
    ensures PromisesOk(w')
  {
  }

  /** Adding an entry either leaves the earliest deadline alone or calls, unless a call is already pending. */
  lemma PromisesAdd(w: World, m: Manager, e: Entry, w': World)
    requires PromisesOk(w) && w'.promises == w.promises && w'.m == AddEntry(m, e)
    requires m.calls == w.m.calls && m.tickled == w.m.tickled && Sorted(m.entries) && NewAddress(m.entries, e.addr)
    requires forall x :: x in m.entries ==> x in w.m.entries
    ensures PromisesOk(w')
  {
  }

  // ---------------------------------------------------------------- one step

  lemma AddStep(w: World, a: Action)
    requires Inv(w) && Enabled(w, a) && a.Add?
    ensures Inv(Apply(w, a))
  {
    hide Insert, LowerBound, Sorted, DistinctAddresses, PromisesOk;
    var e := NewEntry(a.now, a.ms, a.addr, a.recurring, a.cb);
    forall i | 0 <= i < |w.m.entries| ensures w.m.entries[i].addr != e.addr {
      assert w.m.entries[i] in w.m.entries;
    }
    InsertedFresh(w.m.entries, e);
    PromisesAdd(w, w.m, e, Apply(w, a));
  }

  lemma CancelStep(w: World, a: Action)
    requires Inv(w) && Enabled(w, a) && a.CancelTimer?
    ensures Inv(Apply(w, a))
  {
    hide Sorted, DistinctAddresses, PromisesOk, EraseAt;
    var i := IndexOf(w.m.entries, a.addr);
    if i < |w.m.entries| {
      ErasedAt(w.m.entries, i);
    }
    PromisesSurvive(w, Apply(w, a));
  }

  /** Taking an armed timer out of the set, changing its key and putting it back. */
  lemma Moved(w: World, w': World, i: nat, e: Entry)
    requires EntriesOk(w) && HandedOk(w) && i < |w.m.entries| && e.addr == w.m.entries[i].addr
    requires e.ms <= e.next < WORD && e.next - e.ms <= w'.clock && w.clock <= w'.clock
    requires w'.m.entries == Insert(EraseAt(w.m.entries, i), e) && w'.m.previous == w.m.previous
    requires w'.issued == w.issued && w'.handed == w.handed
    ensures EntriesOk(w') && HandedOk(w')
    ensures forall x :: x in w'.m.entries ==> x == e || x in w.m.entries
  {
    hide Sorted, DistinctAddresses, EraseAt, Insert, Less, NewAddress;
    var es := w.m.entries;
    assert es[i] in es;
    ErasedAt(es, i);
    ErasedNew(es, i);
    InsertedFresh(EraseAt(es, i), e);
  }

  lemma RefreshStep(w: World, a: Action)
    requires Inv(w) && Enabled(w, a) && a.RefreshTimer?
    ensures Inv(Apply(w, a))
  {
    hide Sorted, DistinctAddresses, PromisesOk, EntriesOk, HandedOk, EraseAt, Insert;
    var es, w' := w.m.entries, Apply(w, a);
    var i := IndexOf(es, a.addr);
    Started(w);
    if i < |es| {
      Moved(w, w', i, es[i].(next := (a.now + es[i].ms) % WORD));
    } else {
      ClockMoves(w, w');
    }
    PromisesSurvive(w, w');
  }

  lemma ResetStep(w: World, a: Action)
    requires Inv(w) && Enabled(w, a) && a.ResetTimer?
    ensures Inv(Apply(w, a))
  {
    hide Sorted, DistinctAddresses, PromisesOk, EntriesOk, HandedOk, EraseAt, Insert, LowerBound;
    var es, w' := w.m.entries, Apply(w, a);
    var i := IndexOf(es, a.addr);
    Started(w);
    if i == |es| || (a.ms == es[i].ms && !a.fromNow) {
      ClockMoves(w, w');
      PromisesSurvive(w, w');
    } else {
      var start := ResetStart(es[i], a.fromNow, a.now);
      assert start <= a.now;
      var e := es[i].(ms := a.ms, next := (start + a.ms) % WORD);
      Moved(w, w', i, e);
      ErasedForPromises(w, i);
      PromisesAdd(w, w.m.(entries := EraseAt(es, i)), e, w');
    }
  }

  /** Every armed timer was started at a time the clock has reached. */
  lemma Started(w: World)
    requires EntriesOk(w)
    ensures forall i :: 0 <= i < |w.m.entries| ==>
              var e := w.m.entries[i]; e.ms <= e.next < WORD && e.next - e.ms <= w.clock
  {
    hide Sorted, DistinctAddresses;
    assert forall i :: 0 <= i < |w.m.entries| ==> w.m.entries[i] in w.m.entries;
  }

  lemma ClockMoves(w: World, w': World)
    requires w' == w.(clock := w'.clock) && w.clock <= w'.clock
    ensures EntriesOk(w) ==> EntriesOk(w')
    ensures HandedOk(w) ==> HandedOk(w')
  {
    hide Sorted, DistinctAddresses;
  }

  lemma ErasedForPromises(w: World, i: nat)
    requires EntriesOk(w) && i < |w.m.entries|
    ensures var es := EraseAt(w.m.entries, i);
            Sorted(es) && NewAddress(es, w.m.entries[i].addr) && forall x :: x in es ==> x in w.m.entries
  {
    hide Sorted, DistinctAddresses, EraseAt, NewAddress;
    ErasedAt(w.m.entries, i);
    ErasedNew(w.m.entries, i);
  }

  lemma GetNextStep(w: World, a: Action)
    requires Inv(w) && Enabled(w, a) && a.GetNext?
    ensures Inv(Apply(w, a))
  {
  }

  lemma ExpireEntries(w: World, a: Action)
    requires Inv(w) && Enabled(w, a) && a.Expire?
    ensures EntriesOk(Apply(w, a))
  {
    hide Sorted, DistinctAddresses, PromisesOk, HandedOk, ListExpired, Rollover, Less;
    NotRolled(w, a.now);
    ExpiryExact(w.m, a.now);
    ExpiryFlags(w.m, a.now);
  }

  lemma ExpirePromises(w: World, a: Action)
    requires Inv(w) && Enabled(w, a) && a.Expire?
    ensures PromisesOk(Apply(w, a))
  {
    hide Sorted, DistinctAddresses, PromisesOk, HandedOk, ListExpired, Less;
    ExpiryFlags(w.m, a.now);
    var w' := Apply(w, a);
    forall x | x in w'.m.entries ensures exists d :: d in w.m.entries && d.next <= x.next {
      NoEarlierAfterExpiry(w, a.now, x);
    }
    PromisesSurvive(w, w');
  }

  lemma NoEarlierAfterExpiry(w: World, now: nat, x: Entry)
    requires EntriesOk(w) && w.clock <= now && NoWrap(w.m, now) && x in ListExpired(w.m, now).0.entries
    ensures exists d :: d in w.m.entries && d.next <= x.next
  {
    hide Sorted, DistinctAddresses, ListExpired, Less, Rollover;
    NotRolled(w, now);
    ExpiryExact(w.m, now);
    if x !in w.m.entries {
      var e :| e in ListExpired(w.m, now).1 && e.recurring && Rearmed(e, now) == x;
      assert e in w.m.entries && e.next <= x.next;
    }
  }

  lemma NotRolled(w: World, now: nat)
    requires EntriesOk(w) && w.clock <= now
    ensures !Rollover(w.m.previous, now)
  {
  }

  lemma ExpiryFlags(m: Manager, now: nat)
    ensures var (m', taken) := ListExpired(m, now);
            m'.calls == m.calls && m'.tickled == m.tickled && (m'.previous == now || m'.previous == m.previous)
  {
  }

  /** Two entries of the same address are the same entry. */
  lemma SameAddress(es: seq<Entry>, a: Entry, b: Entry)
    requires DistinctAddresses(es) && a in es && b in es && a.addr == b.addr
    ensures a == b
  {
  }

  lemma TakenDistinct(m: Manager, now: nat)
    requires DistinctAddresses(m.entries)
    ensures DistinctAddresses(ListExpired(m, now).1)
  {
  }

  /** A one-shot timer taken now is not put back. */
  lemma TakenStaysAway(w: World, now: nat, t: Entry, x: Entry)
    requires EntriesOk(w) && w.clock <= now && t in ListExpired(w.m, now).1 && !t.recurring && x in ListExpired(w.m, now).0.entries
    ensures x.addr != t.addr
  {
    hide Sorted, DistinctAddresses, ListExpired, Rollover;
    NotRolled(w, now);
    ExpiryExact(w.m, now);
    var es := w.m.entries;
    if x in es && x.next > now {
      if x.addr == t.addr {
        SameAddress(es, x, t);
      }
    } else {
      var e :| e in ListExpired(w.m, now).1 && e.recurring && Rearmed(e, now) == x;
      if e.addr == t.addr {
        SameAddress(es, e, t);
      }
    }
  }

  /** Every entry left by the expiry has the address of an entry from before. */
  lemma ExpiredAddresses(m: Manager, now: nat, x: Entry)
    requires Sorted(m.entries) && DistinctAddresses(m.entries)
    requires x in ListExpired(m, now).0.entries || x in ListExpired(m, now).1
    ensures exists d :: d in m.entries && d.addr == x.addr
  {
    hide Sorted, DistinctAddresses, ListExpired, Rollover;
    ExpiryExact(m, now);
    if x !in m.entries {
      var e :| e in ListExpired(m, now).1 && e.recurring && Rearmed(e, now) == x;
    }
  }

  lemma ExpireHanded(w: World, a: Action)
    requires Inv(w) && Enabled(w, a) && a.Expire?
    ensures HandedOk(Apply(w, a))
  {
    hide Sorted, ListExpired, Rollover, PromisesOk, Less;
    var taken := ListExpired(w.m, a.now).1;
    var w' := Apply(w, a);
    TakenDistinct(w.m, a.now);
    forall i | 0 <= i < |w'.handed| ensures w'.handed[i].addr in w'.issued {
      if i >= |w.handed| {
        ExpiredAddresses(w.m, a.now, taken[i - |w.handed|]);
      }
    }
    forall i, e | 0 <= i < |w'.handed| && !w'.handed[i].recurring && e in w'.m.entries
      ensures e.addr != w'.handed[i].addr
    {
      if i < |w.handed| {
        ExpiredAddresses(w.m, a.now, e);
      } else {
        TakenStaysAway(w, a.now, taken[i - |w.handed|], e);
      }
    }
    forall i, j | 0 <= i < j < |w'.handed| && !w'.handed[i].recurring ensures w'.handed[i].addr != w'.handed[j].addr {
      if j >= |w.handed| && i < |w.handed| {
        ExpiredAddresses(w.m, a.now, taken[j - |w.handed|]);
      }
    }
  }

  lemma Step(w: World, a: Action)
    requires Inv(w) && Enabled(w, a)
    ensures Inv(Apply(w, a))
  {
    hide Inv, Apply, Enabled;
    match a
    case Add(_, _, _, _, _) => AddStep(w, a);
    case CancelTimer(_) => CancelStep(w, a);
    case RefreshTimer(_, _) => RefreshStep(w, a);
    case ResetTimer(_, _, _, _) => ResetStep(w, a);
    case GetNext(_) => GetNextStep(w, a);
    case Expire(_) => ExpireStep(w, a);
  }

  lemma ExpireStep(w: World, a: Action)
    requires Inv(w) && Enabled(w, a) && a.Expire?
    ensures Inv(Apply(w, a))
  {
    hide Apply, EntriesOk, PromisesOk, HandedOk;
    ExpireEntries(w, a);
    ExpirePromises(w, a);
    ExpireHanded(w, a);
  }

  // ---------------------------------------------------------------- whole runs

  /** A new manager; its constructor read the clock. */
  predicate Init(w: World) {
    w == World(Manager([], false, w.clock, 0), w.clock, [], {}, [])
  }

  predicate IsRun(w: World, run: seq<Action>)
    decreases |run|
  {
    run == [] || (Enabled(w, run[0]) && IsRun(Apply(w, run[0]), run[1..]))
  }

  function After(w: World, run: seq<Action>): World
    decreases |run|
  {
    if run == [] then w else After(Apply(w, run[0]), run[1..])
  }

  lemma {:induction false} RunKeeps(w: World, run: seq<Action>)
    requires Inv(w) && IsRun(w, run)
    ensures Inv(After(w, run))
    decreases |run|
  {
    hide Inv, Apply, Enabled;
    if run != [] {
      Step(w, run[0]);
      RunKeeps(Apply(w, run[0]), run[1..]);
    }
  }

  lemma InitOk(w: World)
    requires Init(w)
    ensures Inv(w)
  {
  }

  /** In every state of every run, for every deadline getNextTimer has reported: either onTimerInsertAtFront was called
      since, or no armed timer is due before that deadline. */
  lemma NoMissedWakeUp(w: World, run: seq<Action>)
    requires Init(w) && IsRun(w, run)
    ensures forall p :: p in After(w, run).promises ==> Kept(p, After(w, run).m)
  {
    hide Init, IsRun, After, EntriesOk, HandedOk, Kept;
    InitOk(w);
    RunKeeps(w, run);
  }

  /** In every run a one-shot timer's callback is handed out at most once, and the timer is not in the set afterwards.
      The set stays sorted by its comparator and holds no timer twice. */
  lemma OneShotOnce(w: World, run: seq<Action>)
    requires Init(w) && IsRun(w, run)
    ensures var e := After(w, run);
            && Sorted(e.m.entries) && DistinctAddresses(e.m.entries)
            && (forall i, j :: 0 <= i < j < |e.handed| && !e.handed[i].recurring ==> e.handed[i].addr != e.handed[j].addr)
            && (forall i, x :: 0 <= i < |e.handed| && !e.handed[i].recurring && x in e.m.entries ==> x.addr != e.handed[i].addr)
  {
    hide Init, IsRun, After, Sorted, DistinctAddresses, PromisesOk;
    InitOk(w);
    RunKeeps(w, run);
  }

  /** What getNextTimer returns, against the deadline it promises. */
  lemma WaitMeaning(m: Manager, now: nat)
    requires Sorted(m.entries)
    ensures var t := WaitFor(m, now);
            && (m.entries != [] ==> now + t >= Earliest(m) && (t > 0 ==> now + t == Earliest(m)))
            && (m.entries != [] ==> (t == 0 <==> exists e :: e in m.entries && e.next <= now))
            && (m.entries == [] ==> t == MAX_MS)
  {
  }
}
