/** sylar/timer.cpp as its classes: timers whose fields change in place, held in a set ordered by those fields. */
module Timers {
  import opened Codec
  import opened TimerQueue

  class Timer {
    const addr: nat
    const recurring: bool
    var next: nat
    var ms: nat
    var cb: Option<nat>

    constructor (addr: nat, next: nat, ms: nat, recurring: bool, cb: Option<nat>)
      ensures this.addr == addr && this.next == next && this.ms == ms && this.recurring == recurring && this.cb == cb
    {
      this.addr, this.next, this.ms, this.recurring, this.cb := addr, next, ms, recurring, cb;
    }

    ghost predicate Shows(e: Entry)
      reads this
    {
      e.addr == addr && e.recurring == recurring && e.next == next && e.ms == ms && cb == Some(e.cb)
    }

    /** Comparator */
    predicate Before(that: Timer)
      reads this, that
    {
      next < that.next || (next == that.next && addr < that.addr)
    }
  }

  class TimerManager {
    var timers: seq<Timer>
    var tickled: bool
    var previousTime: nat
    /** How often onTimerInsertAtFront was called. */
    var frontInsertions: nat
    /** Every timer this manager ever made, and the state of the set as entries. */
    ghost var all: set<Timer>
    ghost var model: Manager

    /** The set in memory is the set of entries. */
    ghost predicate InStep()
      reads this, all
    {
      && |timers| == |model.entries|
      && (forall i :: 0 <= i < |timers| ==> timers[i] in all && timers[i].Shows(model.entries[i]))
      && Sorted(model.entries) && DistinctAddresses(model.entries)
      && model == Manager(model.entries, tickled, previousTime, frontInsertions)
    }

    /** A timer has a callback exactly when it is in the set. */
    ghost predicate Armed()
      reads this, all
    {
      forall t :: t in all ==> (t.cb.Some? <==> t in timers)
    }

    ghost predicate Valid()
      reads this, all
    {
      InStep() && Armed()
    }

    constructor (now: nat)
      ensures Valid() && all == {} && model == Manager([], false, now, 0)
    {
      timers, tickled, previousTime, frontInsertions := [], false, now, 0;
      all, model := {}, Manager([], false, now, 0);
    }

    // -------------------------------------------------------------- the ordered set

    /** std::set::lower_bound */
    method FirstNotBefore(t: Timer) returns (it: nat)
      requires InStep()
      ensures forall e: Entry :: e.next == t.next && e.addr == t.addr ==> it == LowerBound(model.entries, e)
    {
      hide Sorted, DistinctAddresses;
      it := 0;
      while it < |timers| && timers[it].Before(t)
        invariant 0 <= it <= |timers|
        invariant forall i :: 0 <= i < it ==> timers[i].Before(t)
      {
        it := it + 1;
      }
      forall e: Entry | e.next == t.next && e.addr == t.addr ensures it == LowerBound(model.entries, e) {
        LowerBoundAt(model.entries, e, it);
      }
    }

    /** std::set::find on a timer of the set succeeds, and at the timer itself. */
    method Find(t: Timer) returns (it: nat)
      requires InStep() && t in timers
      ensures it < |timers| && timers[it] == t && it == IndexOf(model.entries, t.addr)
    {
      hide Sorted, DistinctAddresses;
      ghost var k :| 0 <= k < |timers| && timers[k] == t;
      it := FirstNotBefore(t);
      FoundAt(model.entries, k);
      IndexAt(model.entries, k);
    }

    /** std::set::insert of a timer that is not in the set. */
    method InsertTimer(t: Timer, ghost e: Entry) returns (it: nat)
      requires InStep() && t in all && t.Shows(e) && NewAddress(model.entries, e.addr)
      modifies this
      ensures InStep() && model == old(model).(entries := Insert(old(model.entries), e))
      ensures it == LowerBound(old(model.entries), e) && all == old(all)
      ensures forall x :: x in timers <==> x in old(timers) || x == t
    {
      hide Sorted, DistinctAddresses, LowerBound, Insert;
      it := FirstNotBefore(t);
      InsertShape(model.entries, e);
      InsertedFresh(model.entries, e);
      ghost var es := model.entries;
      Member(timers, it);
      timers := timers[..it] + [t] + timers[it..];
      model := model.(entries := Insert(es, e));
    }

    method EraseTimer(it: nat)
      requires InStep() && it < |timers|
      modifies this
      ensures InStep() && model == old(model).(entries := EraseAt(old(model.entries), it)) && all == old(all)
      ensures forall x :: x in timers <==> x in old(timers) && x != old(timers)[it]
      ensures NewAddress(model.entries, old(timers)[it].addr)
    {
      hide Sorted, DistinctAddresses, NewAddress, Less, EraseAt;
      ErasedAt(model.entries, it);
      ErasedNew(model.entries, it);
      ErasedShape(model.entries, it);
      Distinct();
      ErasedMembers(timers, it);
      timers := timers[..it] + timers[it + 1..];
      model := model.(entries := EraseAt(model.entries, it));
    }

    lemma Distinct()
      requires InStep()
      ensures forall i, j :: 0 <= i < j < |timers| ==> timers[i] != timers[j]
    {
    }

    lemma SamePeriod(t: Timer, now: nat)
      requires Valid() && t in all
      ensures t.cb.Some? ==> Reset(model, t.addr, t.ms, false, now) == model
    {
    }

    /** find, then erase. */
    method Detach(t: Timer) returns (ghost e: Entry)
      requires InStep() && t in timers
      modifies this
      ensures InStep() && all == old(all) && t !in timers
      ensures forall x :: x in timers <==> x in old(timers) && x != t
      ensures var i := IndexOf(old(model).entries, t.addr);
              i < |old(model).entries| && e == old(model).entries[i]
              && model == old(model).(entries := EraseAt(old(model).entries, i))
      ensures t.Shows(e) && NewAddress(model.entries, e.addr)
    {
      hide Sorted, DistinctAddresses, EraseAt, Less, NewAddress;
      var it := Find(t);
      e := model.entries[it];
      EraseTimer(it);
    }

    /** The one place where a timer's key changes: while it is out of the set. */
    method Rekey(t: Timer, next: nat, ms: nat)
      requires InStep() && t !in timers
      modifies t`next, t`ms
      ensures InStep() && t.next == next && t.ms == ms
    {
      t.next, t.ms := next, ms;
    }

    // -------------------------------------------------------------- operations

    /** addTimer(val, lock) */
    method AddLocked(t: Timer, ghost e: Entry)
      requires InStep() && t in all && t.Shows(e) && NewAddress(model.entries, e.addr)
      modifies this
      ensures InStep() && model == AddEntry(old(model), e) && all == old(all)
      ensures forall x :: x in timers <==> x in old(timers) || x == t
    {
      hide Sorted, DistinctAddresses, LowerBound, Insert;
      var it := InsertTimer(t, e);
      var atFront := it == 0 && !tickled;
      if atFront {
        tickled := true;
        frontInsertions := frontInsertions + 1;
      }
      model := model.(tickled := tickled, calls := frontInsertions);
    }

    /** addTimer; the new timer read the clock as `now` and lies at `addr`. */
    method AddTimer(ms: nat, cb: nat, recurring: bool, now: nat, addr: nat) returns (t: Timer)
      requires Valid() && NewAddress(model.entries, addr)
      modifies this
      ensures Valid() && fresh(t) && all == old(all) + {t}
      ensures t.next == (now + ms) % WORD && t.ms == ms && t.addr == addr && t.recurring == recurring && t.cb == Some(cb)
      ensures model == AddEntry(old(model), NewEntry(now, ms, addr, recurring, cb))
    {
      hide Sorted, DistinctAddresses, LowerBound, Insert, AddEntry;
      t := new Timer(addr, (now + ms) % WORD, ms, recurring, Some(cb));
      all := all + {t};
      AddLocked(t, NewEntry(now, ms, addr, recurring, cb));
    }

    method CancelTimer(t: Timer) returns (ok: bool)
      requires Valid() && t in all
      modifies this, t
      ensures Valid() && all == old(all) && t.cb == None
      ensures ok <==> old(t.cb).Some?
      ensures model == if ok then Cancel(old(model), t.addr) else old(model)
    {
      hide Sorted, DistinctAddresses;
      if t.cb.None? {
        return false;
      }
      ghost var e := Detach(t);
      t.cb := None;
      ok := true;
    }

    method RefreshTimer(t: Timer, now: nat) returns (ok: bool)
      requires Valid() && t in all
      modifies this, t
      ensures Valid() && all == old(all)
      ensures ok <==> old(t.cb).Some?
      ensures model == if ok then Refresh(old(model), t.addr, now) else old(model)
      ensures t.ms == old(t.ms) && t.cb == old(t.cb) && t.next == if ok then (now + t.ms) % WORD else old(t.next)
    {
      hide Sorted, DistinctAddresses, Insert, LowerBound, EraseAt, Less, NewAddress;
      if t.cb.None? {
        return false;
      }
      ghost var e := Detach(t);
      Rekey(t, (now + t.ms) % WORD, t.ms);
      var _ := InsertTimer(t, e.(next := t.next));
      ok := true;
    }

    /** The early return comes before the look at the callback. */
    method ResetTimer(t: Timer, ms: nat, fromNow: bool, now: nat) returns (ok: bool)
      requires Valid() && t in all
      modifies this, t
      ensures Valid() && all == old(all)
      ensures ok <==> old(t.cb).Some? || (ms == old(t.ms) && !fromNow)
      ensures model == if old(t.cb).Some? then Reset(old(model), t.addr, ms, fromNow, now) else old(model)
      ensures t.cb == old(t.cb) && (old(t.cb).Some? ==> t.ms == ms)
      ensures t.next == if old(t.cb).None? || (ms == old(t.ms) && !fromNow) then old(t.next)
                        else ((if fromNow then now else (old(t.next) - old(t.ms)) % WORD) + ms) % WORD
    {
      hide Sorted, DistinctAddresses, Insert, LowerBound, AddEntry, EraseAt, Less, NewAddress, Reset, IndexOf;
      if ms == t.ms && !fromNow {
        SamePeriod(t, now);
        return true;
      }
      if t.cb.None? {
        return false;
      }
      ghost var e := Detach(t);
      ResetMoves(old(model), t.addr, ms, fromNow, now);
      var start := if fromNow then now else (t.next - t.ms) % WORD;
      Rekey(t, (start + ms) % WORD, ms);
      AddLocked(t, e.(ms := ms, next := t.next));
      ok := true;
    }

    method GetNextTimer(now: nat) returns (wait: nat)
      requires Valid()
      modifies this
      ensures Valid() && all == old(all) && model == old(model).(tickled := false)
      ensures wait == WaitFor(old(model), now)
    {
      hide Sorted, DistinctAddresses;
      tickled := false;
      model := model.(tickled := false);
      if timers == [] {
        return MAX_MS;
      }
      var first := timers[0];
      if now >= first.next {
        return 0;
      }
      wait := first.next - now;
    }

    method HasTimer() returns (has: bool)
      requires Valid()
      ensures has <==> model.entries != []
    {
      has := timers != [];
    }

    method DetectClockRollover(now: nat) returns (rollover: bool)
      requires Valid()
      modifies this
      ensures Valid() && all == old(all) && model == old(model).(previous := now) && timers == old(timers)
      ensures rollover <==> Rollover(old(model).previous, now)
    {
      hide Sorted, DistinctAddresses;
      rollover := now < previousTime && now < (previousTime - 60 * 60 * 1000) % WORD;
      previousTime := now;
      model := model.(previous := now);
    }

    /** The iterator at which the due timers end. `probe` is the address of the probe timer made for the search. */
    method EndOfDue(now: nat, probe: nat) returns (it: nat)
      requires InStep()
      ensures it == DueCount(model.entries, now)
    {
      hide Sorted, DistinctAddresses;
      var nowTimer := new Timer(probe, now, 0, false, None);
      it := FirstNotBefore(nowTimer);
      ghost var start := it;
      ProbeStart(model.entries, Entry(now, probe, 0, false, 0));
      while it < |timers| && timers[it].next == now
        invariant start <= it <= |timers|
        invariant forall i :: 0 <= i < it ==> model.entries[i].next <= now
      {
        it := it + 1;
      }
      DueAt(model.entries, now, start, it);
    }

    /** listExpiredCb */
    method ListExpiredCb(now: nat, probe: nat) returns (cbs: seq<nat>)
      requires Valid()
      modifies this, all
      ensures Valid() && all == old(all)
      ensures model == ListExpired(old(model), now).0
      ensures cbs == Callbacks(ListExpired(old(model), now).1)
    {
      hide Sorted, DistinctAddresses, Rollover, DueCount, Callbacks, Reinsert, Pending, NewAddress;
      cbs := [];
      if timers == [] {
        NoCallbacks();
        return;
      }
      ghost var es := model.entries;
      var rollover := DetectClockRollover(now);
      if !rollover && timers[0].next > now {
        NothingDue(es, now);
        NoCallbacks();
        return;
      }
      var it;
      if rollover {
        it := |timers|;
      } else {
        it := EndOfDue(now, probe);
      }
      var expired := TakeFirst(it);
      cbs := HandOut(expired, es[it..], es[..it], now);
    }

    /** Takes the first `it` timers out of the set. */
    method TakeFirst(it: nat) returns (expired: seq<Timer>)
      requires Valid() && it <= |timers|
      modifies this
      ensures InStep() && all == old(all)
      ensures model == old(model).(entries := old(model.entries)[it..])
      ensures Pending(expired, old(model.entries)[..it], 0)
      ensures DistinctAddresses(old(model.entries)[it..] + old(model.entries)[..it])
    {
      hide Sorted, DistinctAddresses;
      RotatedDistinct(model.entries, it);
      Parts(model.entries, it);
      assert timers == timers[..it] + timers[it..];
      expired := timers[..it];
      timers := timers[it..];
      model := model.(entries := model.entries[it..]);
    }

    /** The loop over the expired timers. */
    method HandOut(expired: seq<Timer>, ghost rest: seq<Entry>, ghost es: seq<Entry>, now: nat)
      returns (cbs: seq<nat>)
      requires InStep() && model.entries == rest && Pending(expired, es, 0) && DistinctAddresses(rest + es)
      modifies this, all
      ensures Valid() && all == old(all)
      ensures model == old(model).(entries := Reinsert(rest, es, now)) && cbs == Callbacks(es)
    {
      hide Sorted, DistinctAddresses, Insert, Reinsert, Callbacks;
      cbs := [];
      var j := 0;
      StartsEmpty(rest, es, now);
      while j < |expired|
        invariant 0 <= j <= |expired| && all == old(all) && InStep() && Pending(expired, es, j)
        invariant model == old(model).(entries := Reinsert(rest, es[..j], now))
        invariant cbs == Callbacks(es[..j])
      {
        var t := expired[j];
        ReinsertSnoc(rest, es, j, now);
        cbs := cbs + [t.cb.value];
        Rearm(expired, es, j, now);
        j := j + 1;
      }
    }

    lemma Absent(t: Timer)
      requires InStep() && NewAddress(model.entries, t.addr)
      ensures t !in timers
    {
    }

    /** A recurring timer goes back into the set with a new deadline, a one-shot timer loses its callback. */
    method Rearm(expired: seq<Timer>, ghost es: seq<Entry>, j: nat, now: nat)
      requires InStep() && Pending(expired, es, j) && j < |expired|
      modifies this, all
      ensures InStep() && Pending(expired, es, j + 1) && all == old(all)
      ensures model == if es[j].recurring then old(model).(entries := Insert(old(model.entries), Rearmed(es[j], now)))
                       else old(model)
    {
      hide Sorted, DistinctAddresses, Insert, LowerBound, NewAddress;
      var t := expired[j];
      assert expired[j..] == [t] + expired[j + 1..];
      Absent(t);
      if t.recurring {
        Rekey(t, (now + t.ms) % WORD, t.ms);
        forall i | j < i < |es| ensures NewAddress(Insert(model.entries, Rearmed(es[j], now)), es[i].addr) {
          InsertedElsewhere(model.entries, Rearmed(es[j], now), es[i].addr);
        }
        var _ := InsertTimer(t, Rearmed(es[j], now));
      } else {
        t.cb := None;
      }
    }

    /** From the j-th on, the expired timers are as they were taken and not in the set; all others are in order. */
    ghost predicate Pending(expired: seq<Timer>, es: seq<Entry>, j: nat)
      reads this, all
    {
      && |expired| == |es| && j <= |es|
      && (forall i :: j <= i < |es| ==> expired[i] in all && expired[i].Shows(es[i]) && NewAddress(model.entries, es[i].addr))
      && (forall i, k :: j <= i < k < |es| ==> es[i].addr != es[k].addr)
      && forall t :: t in all ==> (t.cb.Some? <==> t in timers || t in expired[j..])
    }
  }

  // ---------------------------------------------------------------- facts about the ordered set

  lemma LowerBoundAt(es: seq<Entry>, e: Entry, k: nat)
    requires k <= |es| && (forall i :: 0 <= i < k ==> Less(es[i], e)) && (k < |es| ==> !Less(es[k], e))
    ensures LowerBound(es, e) == k
  {
  }

  lemma FoundAt(es: seq<Entry>, k: nat)
    requires Sorted(es) && k < |es|
    ensures LowerBound(es, es[k]) == k
  {
  }

  lemma IndexAt(es: seq<Entry>, k: nat)
    requires DistinctAddresses(es) && k < |es|
    ensures IndexOf(es, es[k].addr) == k
  {
  }

  lemma Member<T>(ts: seq<T>, it: nat)
    requires it <= |ts|
    ensures forall x, t :: x in ts[..it] + [t] + ts[it..] <==> x in ts || x == t
  {
  }

  lemma ErasedMembers<T>(ts: seq<T>, it: nat)
    requires it < |ts| && forall i, j :: 0 <= i < j < |ts| ==> ts[i] != ts[j]
    ensures forall x :: x in ts[..it] + ts[it + 1..] <==> x in ts && x != ts[it]
  {
  }

  /** A reset that changes the key takes the entry out and puts it in again. */
  lemma ResetMoves(m: Manager, addr: nat, ms: nat, fromNow: bool, now: nat)
    requires var i := IndexOf(m.entries, addr); i < |m.entries| && (ms != m.entries[i].ms || fromNow)
    ensures var i := IndexOf(m.entries, addr);
            var e := m.entries[i];
            var start := if fromNow then now else (e.next - e.ms) % WORD;
            Reset(m, addr, ms, fromNow, now)
            == AddEntry(m.(entries := EraseAt(m.entries, i)), e.(ms := ms, next := (start + ms) % WORD))
  {
  }

  lemma ErasedShape(es: seq<Entry>, it: nat)
    requires it < |es|
    ensures |EraseAt(es, it)| == |es| - 1
    ensures forall i :: 0 <= i < |es| - 1 ==> EraseAt(es, it)[i] == es[if i < it then i else i + 1]
  {
  }

  // ---------------------------------------------------------------- facts about expiry

  lemma ProbeStart(es: seq<Entry>, probe: Entry)
    ensures forall i :: 0 <= i < LowerBound(es, probe) ==> es[i].next <= probe.next
  {
  }

  /** Whatever the probe's address, its lower bound followed by a walk over equal deadlines ends after the last due one. */
  lemma DueAt(es: seq<Entry>, now: nat, start: nat, it: nat)
    requires Sorted(es) && start <= it <= |es| && (start < |es| ==> es[start].next >= now)
    requires forall i :: 0 <= i < it ==> es[i].next <= now
    requires it < |es| ==> es[it].next != now
    ensures it == DueCount(es, now)
  {
  }

  lemma NothingDue(es: seq<Entry>, now: nat)
    requires es != [] && es[0].next > now
    ensures DueCount(es, now) == 0 && Reinsert(es[0..], es[..0], now) == es
  {
  }

  lemma ReinsertSnoc(rest: seq<Entry>, es: seq<Entry>, j: nat, now: nat)
    requires j < |es|
    ensures var before := Reinsert(rest, es[..j], now);
            Reinsert(rest, es[..j + 1], now) == if es[j].recurring then Insert(before, Rearmed(es[j], now)) else before
    ensures Callbacks(es[..j + 1]) == Callbacks(es[..j]) + [es[j].cb]
  {
    assert es[..j + 1][..j] == es[..j];
  }

  lemma StartsEmpty(rest: seq<Entry>, es: seq<Entry>, now: nat)
    ensures Reinsert(rest, es[..0], now) == rest && Callbacks(es[..0]) == []
    ensures es[..|es|] == es
  {
  }

  lemma InsertedElsewhere(es: seq<Entry>, e: Entry, addr: nat)
    requires NewAddress(es, e.addr) && NewAddress(es, addr) && e.addr != addr
    ensures NewAddress(Insert(es, e), addr)
  {
  }

  lemma Parts(es: seq<Entry>, it: nat)
    requires Sorted(es) && DistinctAddresses(es) && it <= |es|
    ensures Sorted(es[it..]) && DistinctAddresses(es[it..])
    ensures forall i :: 0 <= i < it ==> NewAddress(es[it..], es[..it][i].addr)
    ensures forall i, k :: 0 <= i < k < it ==> es[..it][i].addr != es[..it][k].addr
  {
  }

  lemma NoCallbacks()
    ensures Callbacks([]) == []
  {
  }
}
