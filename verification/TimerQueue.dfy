/** The ordered set of timers of sylar/timer.cpp as a sequence of entries, and its operations as functions. */
module TimerQueue {
  import opened Codec

  const WORD := 0x1_0000_0000_0000_0000
  const MAX_MS := 0xffff_ffff_ffff_ffff
  const HOUR_MS := 60 * 60 * 1000

  /** One armed timer: its deadline, its address, period, recurrence and callback. */
  datatype Entry = Entry(next: nat, addr: nat, ms: nat, recurring: bool, cb: nat)

  /** Timer::Comparator on two live timers. */
  predicate Less(a: Entry, b: Entry) {
    a.next < b.next || (a.next == b.next && a.addr < b.addr)
  }

  predicate Sorted(es: seq<Entry>) {
    forall i, j :: 0 <= i < j < |es| ==> Less(es[i], es[j])
  }

  predicate DistinctAddresses(es: seq<Entry>) {
    forall i, j :: 0 <= i < j < |es| ==> es[i].addr != es[j].addr
  }

  /** std::set::lower_bound */
  function LowerBound(es: seq<Entry>, e: Entry): (k: nat)
    ensures k <= |es|
    ensures forall i :: 0 <= i < k ==> Less(es[i], e)
    ensures k < |es| ==> !Less(es[k], e)
  {
    if es == [] || !Less(es[0], e) then 0 else 1 + LowerBound(es[1..], e)
  }

  /** std::set::insert: an entry of the same key stays. */
  function Insert(es: seq<Entry>, e: Entry): seq<Entry> {
    var k := LowerBound(es, e);
    if k < |es| && !Less(e, es[k]) then es else es[..k] + [e] + es[k..]
  }

  function EraseAt(es: seq<Entry>, i: nat): seq<Entry>
    requires i < |es|
  {
    es[..i] + es[i + 1..]
  }

  /** Index of the entry of address `addr`, or the length. */
  function IndexOf(es: seq<Entry>, addr: nat): (i: nat)
    ensures i <= |es|
    ensures i < |es| ==> es[i].addr == addr
    ensures i == |es| ==> forall j :: 0 <= j < |es| ==> es[j].addr != addr
  {
    if es == [] || es[0].addr == addr then 0 else 1 + IndexOf(es[1..], addr)
  }

  /** How many leading entries are due at `now`. */
  function DueCount(es: seq<Entry>, now: nat): (k: nat)
    ensures k <= |es|
    ensures forall i :: 0 <= i < k ==> es[i].next <= now
    ensures k < |es| ==> es[k].next > now
  {
    if es == [] || es[0].next > now then 0 else 1 + DueCount(es[1..], now)
  }

  // ---------------------------------------------------------------- insertion and erasure

  predicate NewAddress(es: seq<Entry>, addr: nat) {
    forall i :: 0 <= i < |es| ==> es[i].addr != addr
  }

  lemma InsertedFresh(es: seq<Entry>, e: Entry)
    requires Sorted(es) && NewAddress(es, e.addr)
    ensures Sorted(Insert(es, e))
    ensures forall x :: x in Insert(es, e) <==> x in es || x == e
    ensures DistinctAddresses(es) ==> DistinctAddresses(Insert(es, e))
  {
    hide Sorted, Less, DistinctAddresses, LowerBound, Insert;
    InsertShape(es, e);
    InsertedSorted(es, e);
    InsertedMembers(es, e);
    InsertedDistinct(es, e);
  }

  lemma InsertShape(es: seq<Entry>, e: Entry)
    requires NewAddress(es, e.addr)
    ensures var k := LowerBound(es, e);
            Insert(es, e) == es[..k] + [e] + es[k..] && (k < |es| ==> Less(e, es[k]))
  {
  }

  lemma InsertedSorted(es: seq<Entry>, e: Entry)
    requires Sorted(es) && NewAddress(es, e.addr)
    ensures Sorted(Insert(es, e))
  {
  }

  lemma InsertedMembers(es: seq<Entry>, e: Entry)
    requires NewAddress(es, e.addr)
    ensures forall x :: x in Insert(es, e) <==> x in es || x == e
  {
  }

  lemma InsertedDistinct(es: seq<Entry>, e: Entry)
    requires NewAddress(es, e.addr)
    ensures DistinctAddresses(es) ==> DistinctAddresses(Insert(es, e))
  {
  }

  lemma ErasedAt(es: seq<Entry>, i: nat)
    requires Sorted(es) && DistinctAddresses(es) && i < |es|
    ensures Sorted(EraseAt(es, i)) && DistinctAddresses(EraseAt(es, i))
    ensures forall x :: x in EraseAt(es, i) <==> x in es && x.addr != es[i].addr
  {
  }

  // ---------------------------------------------------------------- the manager

  /** What the manager holds. `calls` counts the calls of onTimerInsertAtFront. */
  datatype Manager = Manager(entries: seq<Entry>, tickled: bool, previous: nat, calls: nat)

  /** addTimer(val, lock) */
  function AddEntry(m: Manager, e: Entry): Manager {
    var es := Insert(m.entries, e);
    var atFront := LowerBound(m.entries, e) == 0 && !m.tickled;
    m.(entries := es, tickled := m.tickled || atFront, calls := if atFront then m.calls + 1 else m.calls)
  }

  function NewEntry(now: nat, ms: nat, addr: nat, recurring: bool, cb: nat): Entry {
    Entry((now + ms) % WORD, addr, ms, recurring, cb)
  }

  function Cancel(m: Manager, addr: nat): Manager {
    var i := IndexOf(m.entries, addr);
    if i == |m.entries| then m else m.(entries := EraseAt(m.entries, i))
  }

  function Refresh(m: Manager, addr: nat, now: nat): Manager {
    var i := IndexOf(m.entries, addr);
    if i == |m.entries| then m
    else
      var e := m.entries[i];
      m.(entries := Insert(EraseAt(m.entries, i), e.(next := (now + e.ms) % WORD)))
  }

  function ResetStart(e: Entry, fromNow: bool, now: nat): nat {
    if fromNow then now else (e.next - e.ms) % WORD
  }

  function Reset(m: Manager, addr: nat, ms: nat, fromNow: bool, now: nat): Manager {
    var i := IndexOf(m.entries, addr);
    if i == |m.entries| then m
    else
      var e := m.entries[i];
      if ms == e.ms && !fromNow then m
      else AddEntry(m.(entries := EraseAt(m.entries, i)), e.(ms := ms, next := (ResetStart(e, fromNow, now) + ms) % WORD))
  }

  /** getNextTimer: the milliseconds to wait. */
  function WaitFor(m: Manager, now: nat): nat {
    if m.entries == [] then MAX_MS
    else if now >= m.entries[0].next then 0
    else m.entries[0].next - now
  }

  /** detectClockRollover; the subtraction wraps around. */
  predicate Rollover(previous: nat, now: nat) {
    now < previous && now < (previous - HOUR_MS) % WORD
  }

  /** A clock that steps back counts as rolled over when it loses more than an hour, and in the first hour of the
      clock by any step back at all. */
  lemma RolloverMeaning(previous: nat, now: nat)
    requires previous < WORD
    ensures Rollover(previous, now) <==> now < previous && (previous < 3_600_000 || now + 3_600_000 < previous)
  {
  }

  /** How many leading entries listExpiredCb takes. */
  function ExpiredCount(m: Manager, now: nat): nat {
    if Rollover(m.previous, now) then |m.entries| else DueCount(m.entries, now)
  }

  function Rearmed(e: Entry, now: nat): Entry {
    e.(next := (now + e.ms) % WORD)
  }

  /** Put the recurring ones among the expired back in. */
  function Reinsert(es: seq<Entry>, expired: seq<Entry>, now: nat): seq<Entry>
    decreases |expired|
  {
    if expired == [] then es
    else
      var n := |expired| - 1;
      var before := Reinsert(es, expired[..n], now);
      if expired[n].recurring then Insert(before, Rearmed(expired[n], now)) else before
  }

  function Callbacks(es: seq<Entry>): seq<nat> {
    seq(|es|, i requires 0 <= i < |es| => es[i].cb)
  }

  /** listExpiredCb on an empty set returns before it looks at the clock's past. */
  function ListExpired(m: Manager, now: nat): (Manager, seq<Entry>) {
    if m.entries == [] then (m, [])
    else
      var k := ExpiredCount(m, now);
      (m.(entries := Reinsert(m.entries[k..], m.entries[..k], now), previous := now), m.entries[..k])
  }

  // ---------------------------------------------------------------- what expiry does

  /** `x` is one of the recurring timers of `taken`, armed again. */
  ghost predicate RearmedFrom(x: Entry, taken: seq<Entry>, now: nat) {
    exists e :: e in taken && e.recurring && Rearmed(e, now) == x
  }

  lemma {:induction false} Reinserted(es: seq<Entry>, expired: seq<Entry>, now: nat)
    requires Sorted(es) && DistinctAddresses(es + expired)
    ensures var r := Reinsert(es, expired, now);
            && Sorted(r) && DistinctAddresses(r)
            && (forall x :: x in r <==> x in es || RearmedFrom(x, expired, now))
    decreases |expired|
  {
    hide Sorted, DistinctAddresses, Insert;
    if expired == [] {
      assert es + expired == es;
    } else {
      var n := |expired| - 1;
      var init, last := expired[..n], expired[n];
      AllButLast(es, expired);
      Reinserted(es, init, now);
      var before := Reinsert(es, init, now);
      RearmedSnoc(expired, now);
      if last.recurring {
        forall i | 0 <= i < |before| ensures before[i].addr != last.addr {
          assert before[i] in before;
          LastIsNew(es, expired, now, before[i]);
        }
        InsertedFresh(before, Rearmed(last, now));
      }
    }
  }

  lemma AllButLast(es: seq<Entry>, expired: seq<Entry>)
    requires expired != [] && DistinctAddresses(es + expired)
    ensures DistinctAddresses(es + expired[..|expired| - 1])
  {
    var part := es + expired[..|expired| - 1];
    assert forall i :: 0 <= i < |part| ==> part[i] == (es + expired)[i];
  }

  lemma RearmedSnoc(expired: seq<Entry>, now: nat)
    requires expired != []
    ensures var n := |expired| - 1;
            forall x :: RearmedFrom(x, expired, now)
                        <==> RearmedFrom(x, expired[..n], now) || (expired[n].recurring && x == Rearmed(expired[n], now))
  {
  }

  lemma LastIsNew(es: seq<Entry>, expired: seq<Entry>, now: nat, x: Entry)
    requires expired != [] && DistinctAddresses(es + expired)
    requires x in es || RearmedFrom(x, expired[..|expired| - 1], now)
    ensures x.addr != expired[|expired| - 1].addr
  {
    var all, n := es + expired, |expired| - 1;
    assert all[|es| + n] == expired[n];
    if x in es {
      var j :| 0 <= j < |es| && es[j] == x;
      assert all[j] == x;
    } else {
      var e :| e in expired[..n] && e.recurring && Rearmed(e, now) == x;
      var i :| 0 <= i < n && expired[..n][i] == e;
      assert all[|es| + i] == e;
    }
  }

  /** In a sorted set the due entries are exactly the leading ones. */
  lemma DueIsPrefix(es: seq<Entry>, now: nat)
    requires Sorted(es)
    ensures forall x :: x in es[..DueCount(es, now)] <==> x in es && x.next <= now
    ensures forall x :: x in es[DueCount(es, now)..] <==> x in es && x.next > now
  {
  }

  /** listExpiredCb takes exactly the timers due now, or all of them after a rollover, in deadline order; afterwards
      the set holds exactly the others and the recurring ones with the deadline now + ms. */
  lemma ExpiryExact(m: Manager, now: nat)
    requires Sorted(m.entries) && DistinctAddresses(m.entries)
    ensures var (m', taken) := ListExpired(m, now);
            var all := Rollover(m.previous, now);
            && Sorted(taken) && Sorted(m'.entries) && DistinctAddresses(m'.entries)
            && (forall x :: x in taken <==> x in m.entries && (all || x.next <= now))
            && (forall x :: x in m'.entries <==> (x in m.entries && !all && x.next > now) || RearmedFrom(x, taken, now))
  {
    hide Rollover, Reinsert, RearmedFrom, DueCount, DistinctAddresses;
    var k, es := ExpiredCount(m, now), m.entries;
    TakenIsPrefix(m, now);
    RotatedDistinct(es, k);
    Reinserted(es[k..], es[..k], now);
    if es == [] {
      NothingRearmed(now);
    }
  }

  lemma NothingRearmed(now: nat)
    ensures forall x :: !RearmedFrom(x, [], now)
  {
  }

  lemma TakenIsPrefix(m: Manager, now: nat)
    requires Sorted(m.entries)
    ensures var k, es, all := ExpiredCount(m, now), m.entries, Rollover(m.previous, now);
            k <= |es| && Sorted(es[..k]) && Sorted(es[k..])
            && (forall x :: x in es[..k] <==> x in es && (all || x.next <= now))
            && (forall x :: x in es[k..] <==> x in es && !all && x.next > now)
  {
  }

  lemma RotatedDistinct(es: seq<Entry>, k: nat)
    requires DistinctAddresses(es) && k <= |es|
    ensures DistinctAddresses(es[k..] + es[..k])
  {
  }

  // ---------------------------------------------------------------- the operations in plain terms

  /** What an operation leaves: the old entries but those of `addr`, and `e`. */
  ghost predicate Replaced(es: seq<Entry>, addr: nat, e: Entry, es': seq<Entry>) {
    Sorted(es') && DistinctAddresses(es') && forall x :: x in es' <==> (x in es && x.addr != addr) || x == e
  }

  /** Before every entry in the order of deadlines, and of addresses for equal ones. */
  predicate ComesFirst(e: Entry, es: seq<Entry>) {
    forall x :: x in es ==> e.next < x.next || (e.next == x.next && e.addr < x.addr)
  }

  lemma FrontMeaning(es: seq<Entry>, e: Entry)
    requires Sorted(es) && NewAddress(es, e.addr)
    ensures LowerBound(es, e) == 0 <==> ComesFirst(e, es)
  {
    if LowerBound(es, e) == 0 {
      forall x | x in es ensures Less(e, x) {
        var i :| 0 <= i < |es| && es[i] == x;
        assert Less(e, es[0]);
      }
    } else {
      assert es[0] in es && Less(es[0], e);
    }
  }

  /** addTimer: the new timer is due at now + ms, and onTimerInsertAtFront is called exactly when it is the earliest and no
      call is pending. */
  lemma AddMeaning(m: Manager, now: nat, ms: nat, addr: nat, recurring: bool, cb: nat)
    requires Sorted(m.entries) && DistinctAddresses(m.entries) && NewAddress(m.entries, addr)
    ensures var e, m' := Entry((now + ms) % WORD, addr, ms, recurring, cb), AddEntry(m, NewEntry(now, ms, addr, recurring, cb));
            && Replaced(m.entries, addr, e, m'.entries) && m'.previous == m.previous
            && m'.calls == m.calls + (if ComesFirst(e, m.entries) && !m.tickled then 1 else 0)
            && m'.tickled == (m.tickled || ComesFirst(e, m.entries))
  {
    hide Sorted, DistinctAddresses, LowerBound, Insert, Less, ComesFirst;
    var e := NewEntry(now, ms, addr, recurring, cb);
    InsertedFresh(m.entries, e);
    FrontMeaning(m.entries, e);
    forall x | x in m.entries ensures x.addr != addr {
      var i :| 0 <= i < |m.entries| && m.entries[i] == x;
    }
  }

  lemma IndexMeaning(es: seq<Entry>, e: Entry)
    requires DistinctAddresses(es) && e in es
    ensures IndexOf(es, e.addr) < |es| && es[IndexOf(es, e.addr)] == e
  {
  }

  lemma ErasedNew(es: seq<Entry>, i: nat)
    requires Sorted(es) && DistinctAddresses(es) && i < |es|
    ensures NewAddress(EraseAt(es, i), es[i].addr)
  {
  }

  /** Taking an entry out and putting one of the same address in. */
  lemma ReplacedMeaning(es: seq<Entry>, i: nat, e: Entry)
    requires Sorted(es) && DistinctAddresses(es) && i < |es| && e.addr == es[i].addr
    ensures Replaced(es, e.addr, e, Insert(EraseAt(es, i), e))
  {
    hide Sorted, DistinctAddresses, Insert, EraseAt, Less, NewAddress;
    ErasedAt(es, i);
    ErasedNew(es, i);
    InsertedFresh(EraseAt(es, i), e);
  }

  /** cancel: the timer leaves the set, and nothing else changes. */
  lemma CancelMeaning(m: Manager, e: Entry)
    requires Sorted(m.entries) && DistinctAddresses(m.entries) && e in m.entries
    ensures var m' := Cancel(m, e.addr);
            && m' == m.(entries := m'.entries) && Sorted(m'.entries)
            && forall x :: x in m'.entries <==> x in m.entries && x.addr != e.addr
  {
    hide Sorted, DistinctAddresses, IndexOf, EraseAt;
    IndexMeaning(m.entries, e);
    ErasedAt(m.entries, IndexOf(m.entries, e.addr));
  }

  /** refresh: the timer is due its period from now, and nothing else changes. */
  lemma RefreshMeaning(m: Manager, e: Entry, now: nat)
    requires Sorted(m.entries) && DistinctAddresses(m.entries) && e in m.entries
    ensures var m' := Refresh(m, e.addr, now);
            && m' == m.(entries := m'.entries)
            && Replaced(m.entries, e.addr, Entry((now + e.ms) % WORD, e.addr, e.ms, e.recurring, e.cb), m'.entries)
  {
    hide Sorted, DistinctAddresses, IndexOf, EraseAt, Insert, Replaced;
    IndexMeaning(m.entries, e);
    ReplacedMeaning(m.entries, IndexOf(m.entries, e.addr), e.(next := (now + e.ms) % WORD));
  }

  /** reset: the timer has the new period, counted from now or from when it was last started; the same period again, not
      from now, changes nothing. */
  lemma ResetMeaning(m: Manager, e: Entry, ms: nat, fromNow: bool, now: nat)
    requires Sorted(m.entries) && DistinctAddresses(m.entries) && e in m.entries && e.ms <= e.next
    ensures var m' := Reset(m, e.addr, ms, fromNow, now);
            var next := if fromNow then (now + ms) % WORD else (e.next - e.ms + ms) % WORD;
            if ms == e.ms && !fromNow then m' == m
            else
              && Replaced(m.entries, e.addr, Entry(next, e.addr, ms, e.recurring, e.cb), m'.entries)
              && m'.previous == m.previous
  {
    hide Sorted, DistinctAddresses, IndexOf, EraseAt, Insert, LowerBound, Replaced;
    IndexMeaning(m.entries, e);
    if !(ms == e.ms && !fromNow) {
      var next := (ResetStart(e, fromNow, now) + ms) % WORD;
      SameStart(e, ms);
      ReplacedMeaning(m.entries, IndexOf(m.entries, e.addr), e.(ms := ms, next := next));
    }
  }

  lemma SameStart(e: Entry, ms: nat)
    requires e.ms <= e.next
    ensures ((e.next - e.ms) % WORD + ms) % WORD == (e.next - e.ms + ms) % WORD
  {
  }

  /** listExpiredCb: a recurring timer it took is put back with the deadline now + ms and is otherwise as it was; a one-shot
      timer it took is not put back. The clock is remembered when there was a timer. */
  lemma ExpiryMeaning(m: Manager, now: nat)
    requires Sorted(m.entries) && DistinctAddresses(m.entries)
    ensures var (m', taken) := ListExpired(m, now);
            var all := Rollover(m.previous, now);
            && (forall x :: x in m'.entries <==>
                  || (x in m.entries && !all && x.next > now)
                  || (exists e :: e in taken && e.recurring && x == Entry((now + e.ms) % WORD, e.addr, e.ms, true, e.cb)))
            && m'.previous == (if m.entries == [] then m.previous else now)
            && m'.tickled == m.tickled && m'.calls == m.calls
  {
    hide Rollover, ListExpired, Sorted, DistinctAddresses, RearmedFrom;
    ExpiryExact(m, now);
    ExpiryFields(m, now);
    RearmedMeaning(ListExpired(m, now).1, now);
  }

  /** Afterwards no timer with a period is due, unless the clock has rolled over or a deadline wraps around. */
  lemma NoneDueAfter(m: Manager, now: nat)
    requires Sorted(m.entries) && DistinctAddresses(m.entries)
    requires !Rollover(m.previous, now) && forall e :: e in m.entries ==> now + e.ms < WORD
    ensures forall x :: x in ListExpired(m, now).0.entries && x.ms > 0 ==> x.next > now
  {
    hide Rollover, ListExpired, Sorted, DistinctAddresses;
    ExpiryMeaning(m, now);
    TakenWereThere(m, now);
  }

  lemma TakenWereThere(m: Manager, now: nat)
    ensures forall e :: e in ListExpired(m, now).1 ==> e in m.entries
  {
  }

  lemma ExpiryFields(m: Manager, now: nat)
    ensures var m' := ListExpired(m, now).0;
            && m'.previous == (if m.entries == [] then m.previous else now)
            && m'.tickled == m.tickled && m'.calls == m.calls
  {
  }

  lemma RearmedMeaning(taken: seq<Entry>, now: nat)
    ensures forall x :: RearmedFrom(x, taken, now)
                        <==> exists e :: e in taken && e.recurring && x == Entry((now + e.ms) % WORD, e.addr, e.ms, true, e.cb)
  {
    forall x ensures RearmedFrom(x, taken, now)
                     <==> exists e :: e in taken && e.recurring && x == Entry((now + e.ms) % WORD, e.addr, e.ms, true, e.cb)
    {
      if e :| e in taken && e.recurring && x == Entry((now + e.ms) % WORD, e.addr, e.ms, true, e.cb) {
        assert Rearmed(e, now) == x;
      }
    }
  }
}
