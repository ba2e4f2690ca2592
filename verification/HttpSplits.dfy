/** When a head that comes in several executions is read like the same head in one. */
module HttpSplits {
  import opened Codec
  import HttpHeaders
  import opened HttpRequests
  import opened HttpAutomaton
  import opened HttpParsing
  import opened HttpRequestParsers
  import opened HttpHeads

  // ---------------------------------------------------------------- the same slices in a longer text

  /** The call's slice lies in the text, and a method's is followed by its space there. */
  predicate Closed(c: Call, s: string) {
    && Inside(c, |s|)
    && (c.OnMethod? ==> c.at + c.length < |s| && s[c.at + c.length] == ' ')
  }

  predicate AllClosed(calls: seq<Call>, s: string) {
    forall i :: 0 <= i < |calls| ==> Closed(calls[i], s)
  }

  lemma StepCloses(m: Machine, s: string, p: nat, relaxed: bool)
    requires p < |s|
    ensures var m' := Step(m, s[p], p, relaxed);
            forall i :: |m.calls| <= i < |m'.calls| && m'.calls[i].OnMethod? ==>
              m'.calls[i].at + m'.calls[i].length == p && s[p] == ' '
  {
    hide Next, Between, PathChar, QueryChar, RootlessChar, FieldChar, HexChar, BadInValue, Relaxed, VERSION_TEXT;
  }

  lemma {:induction false} RunCloses(m: Machine, s: string, p: nat, relaxed: bool)
    requires p <= |s| && MarksOk(m, p) && QueryOk(m, p)
    requires AllClosed(m.calls, s)
    ensures AllClosed(Run(m, s, p, relaxed).0.calls, s)
    decreases |s| - p
  {
    hide Step, Inside, MarksOk, QueryOk;
    if p < |s| {
      var m' := Step(m, s[p], p, relaxed);
      StepMarks(m, s[p], p, relaxed);
      StepInside(m, s[p], p, relaxed);
      StepCloses(m, s, p, relaxed);
      forall i | 0 <= i < |m'.calls| ensures Closed(m'.calls[i], s) {
        if i < |m.calls| {
          assert m'.calls[i] == m.calls[i];
        } else {
          Wider(m'.calls[i], p + 1, |s|);
        }
      }
      if !Stops(m'.control) {
        RunCloses(m', s, p + 1, relaxed);
      }
    }
  }

  lemma CallsClosed(m: Machine, s: string, relaxed: bool)
    requires !InQuery(m.control) || m.queryStart <= Lead(m.control)
    ensures AllClosed(Execute(m, s, relaxed).0.calls, s)
  {
    hide Closed, Run;
    if s != "" && !m.control.Error? {
      RunCloses(m.(mark := 0, fieldStart := 0, fieldLen := 0, calls := []), s, 0, relaxed);
    }
  }

  /** No method name goes on past a space. */
  lemma MatchJoined(u: string, x: string)
    requires ' ' in u
    ensures CharsToHttpMethod(u + x) == CharsToHttpMethod(u)
  {
    hide NAMES;
    var k :| 0 <= k < |u| && u[k] == ' ';
    assert u == u[..k] + " " + u[k + 1..];
    assert u + x == u[..k] + " " + (u[k + 1..] + x);
    MatchBefore(u[..k], u[k + 1..], 0);
    MatchBefore(u[..k], u[k + 1..] + x, 0);
  }

  lemma CallJoined(b: Built, a: string, x: string, c: Call)
    requires Closed(c, a)
    ensures AfterCall(b, a + x, c) == AfterCall(b, a, c)
  {
    hide FirstMatch, HttpHeaders.SetHeader;
    match c
    case OnMethod(at, length) =>
      assert From(a + x, at) == From(a, at) + x && From(a, at)[length] == ' ';
      MatchJoined(From(a, at), x);
    case OnVersion(at, length) =>
      assert From(a + x, at) == From(a, at) + x;
    case OnField(field, flen, at, length) =>
      assert (a + x)[field..field + flen] == a[field..field + flen] && (a + x)[at..at + length] == a[at..at + length];
    case OnHeaderDone(_) =>
    case _ =>
      assert (a + x)[c.at..c.at + c.length] == a[c.at..c.at + c.length];
  }

  lemma {:induction false} HandleJoined(b: Built, a: string, x: string, calls: seq<Call>)
    requires AllClosed(calls, a)
    ensures HandleAll(b, a + x, calls) == HandleAll(b, a, calls)
    decreases |calls|
  {
    hide AfterCall, Closed;
    if calls != [] {
      HandleJoined(b, a, x, calls[..|calls| - 1]);
      CallJoined(HandleAll(b, a, calls[..|calls| - 1]), a, x, calls[|calls| - 1]);
    }
  }

  // ---------------------------------------------------------------- the same run further on

  /** The mark is still to be used. */
  predicate NeedsMark(s: Control) {
    || s.Method? || (s.Version? && s.n > 0) || s.Rootless? || s.RootlessHex? || s.Path? || s.PathHex? || s.Slash?
    || s.Fragment? || s.FragmentHex? || s.Value?
  }

  /** So is the start of a field's name. */
  predicate NeedsField(s: Control) {
    s.Field? || s.BeforeValue? || s.Value? || s.LastLine?
  }

  /** An empty line comes to its end. */
  predicate EndsLine(s: Control, rest: string) {
    s.LastLine? && rest != "" && rest[0] == '\n'
  }

  /** A text may be split here: no mark is between being set and being used. */
  predicate CleanSplit(s: Control, rest: string) {
    !NeedsMark(s) && !InQuery(s) && (NeedsField(s) ==> EndsLine(s, rest))
  }

  /** What `s` does `k` characters further on. */
  predicate Shifted(w: Machine, s: Machine, k: nat, rest: string) {
    && w.control == s.control
    && (NeedsMark(s.control) ==> w.mark == s.mark + k)
    && (InQuery(s.control) ==> w.queryStart == s.queryStart + k)
    && (NeedsField(s.control) && !EndsLine(s.control, rest) ==> w.fieldStart == s.fieldStart + k)
    && (InValue(s.control) ==> w.fieldLen == s.fieldLen)
  }

  /** The same call further on; the request parser makes nothing of the whole target. */
  predicate SameCall(c: Call, d: Call, k: nat) {
    match d
    case OnUri(_, _) => c.OnUri?
    case OnField(field, flen, at, length) => c == OnField(field + k, flen, at + k, length)
    case OnHeaderDone(at) => c == OnHeaderDone(at + k)
    case OnMethod(at, length) => c == OnMethod(at + k, length)
    case OnFragment(at, length) => c == OnFragment(at + k, length)
    case OnPath(at, length) => c == OnPath(at + k, length)
    case OnQuery(at, length) => c == OnQuery(at + k, length)
    case OnVersion(at, length) => c == OnVersion(at + k, length)
  }

  /** Behind `base` come the calls of `s`. */
  predicate SameCalls(calls: seq<Call>, base: seq<Call>, others: seq<Call>, k: nat) {
    && base <= calls && |calls| == |base| + |others|
    && forall i :: 0 <= i < |others| ==> SameCall(calls[|base| + i], others[i], k)
  }

  lemma MarkShifted(w: Machine, s: Machine, k: nat, c: char, q: nat, rest: string, relaxed: bool)
    requires Shifted(w, s, k, [c] + rest) && !Stops(s.control)
    ensures var w', s' := Step(w, c, q + k, relaxed), Step(s, c, q, relaxed);
            NeedsMark(s'.control) ==> w'.mark == s'.mark + k
  {
    hide Between, PathChar, QueryChar, RootlessChar, FieldChar, HexChar, BadInValue, Relaxed, VERSION_TEXT;
  }

  lemma QueryShifted(w: Machine, s: Machine, k: nat, c: char, q: nat, rest: string, relaxed: bool)
    requires Shifted(w, s, k, [c] + rest) && !Stops(s.control)
    ensures var w', s' := Step(w, c, q + k, relaxed), Step(s, c, q, relaxed);
            InQuery(s'.control) ==> w'.queryStart == s'.queryStart + k
  {
    hide Between, PathChar, QueryChar, RootlessChar, FieldChar, HexChar, BadInValue, Relaxed, VERSION_TEXT;
  }

  lemma FieldShifted(w: Machine, s: Machine, k: nat, c: char, q: nat, rest: string, relaxed: bool)
    requires Shifted(w, s, k, [c] + rest) && !Stops(s.control)
    ensures var w', s' := Step(w, c, q + k, relaxed), Step(s, c, q, relaxed);
            (NeedsField(s'.control) ==> w'.fieldStart == s'.fieldStart + k) && (InValue(s'.control) ==> w'.fieldLen == s'.fieldLen)
  {
    hide Between, PathChar, QueryChar, RootlessChar, FieldChar, HexChar, BadInValue, Relaxed, VERSION_TEXT;
  }

  lemma StepShifted(w: Machine, s: Machine, k: nat, c: char, q: nat, rest: string, relaxed: bool)
    requires Shifted(w, s, k, [c] + rest) && !Stops(s.control)
    ensures Shifted(Step(w, c, q + k, relaxed), Step(s, c, q, relaxed), k, rest)
  {
    hide Next, Effects, NeedsMark, InQuery, NeedsField, InValue, EndsLine;
    MarkShifted(w, s, k, c, q, rest, relaxed);
    QueryShifted(w, s, k, c, q, rest, relaxed);
    FieldShifted(w, s, k, c, q, rest, relaxed);
  }

  lemma CallsShifted(w: Machine, s: Machine, k: nat, c: char, q: nat, rest: string, base: seq<Call>, relaxed: bool)
    requires Shifted(w, s, k, [c] + rest) && !Stops(s.control) && SameCalls(w.calls, base, s.calls, k)
    ensures SameCalls(Step(w, c, q + k, relaxed).calls, base, Step(s, c, q, relaxed).calls, k)
  {
    hide Next, Between, PathChar, QueryChar, RootlessChar, FieldChar, HexChar, BadInValue, Relaxed, VERSION_TEXT;
  }

  /** A run on the second part of a text is the run on the whole text from there on. */
  lemma {:induction false} RunShifted(w: Machine, s: Machine, a: string, b: string, q: nat, base: seq<Call>, relaxed: bool)
    requires q <= |b| && Shifted(w, s, |a|, b[q..]) && SameCalls(w.calls, base, s.calls, |a|) && !Stops(s.control)
    ensures var (rw, nw) := Run(w, a + b, |a| + q, relaxed);
            var (rs, ns) := Run(s, b, q, relaxed);
            rw.control == rs.control && nw == |a| + ns && SameCalls(rw.calls, base, rs.calls, |a|)
    decreases |b| - q
  {
    hide Step, Shifted, SameCalls, Stops;
    ControlShifted(w, s, |a|, b[q..]);
    if q < |b| {
      var c := b[q];
      assert (a + b)[|a| + q] == c && b[q..] == [c] + b[q + 1..];
      var w', s' := Step(w, c, |a| + q, relaxed), Step(s, c, q, relaxed);
      StepShifted(w, s, |a|, c, q, b[q + 1..], relaxed);
      CallsShifted(w, s, |a|, c, q, b[q + 1..], base, relaxed);
      ControlShifted(w', s', |a|, b[q + 1..]);
      if !s'.control.Error? && !Stops(s'.control) {
        RunShifted(w', s', a, b, q + 1, base, relaxed);
      }
    }
  }

  lemma ControlShifted(w: Machine, s: Machine, k: nat, rest: string)
    requires Shifted(w, s, k, rest)
    ensures w.control == s.control
  {
  }

  /** After a clean split it does not matter which marks were reset. */
  lemma CleanStart(w: Machine, s: Machine, k: nat, rest: string)
    requires w.control == s.control && CleanSplit(s.control, rest)
    ensures Shifted(w, s.(mark := 0, fieldStart := 0, fieldLen := 0, calls := []), k, rest)
  {
  }

  // ---------------------------------------------------------------- what is built

  lemma AfterShifted(b: Built, a: string, t: string, c: Call, d: Call)
    requires SameCall(c, d, |a|)
    ensures AfterCall(b, a + t, c) == AfterCall(b, t, d)
  {
    hide FirstMatch, HttpHeaders.SetHeader, AgreesFor;
    match d
    case OnUri(_, _) =>
    case OnHeaderDone(_) =>
    case OnMethod(at, length) => FromShifted(a, t, at);
    case OnVersion(at, length) => FromShifted(a, t, at);
    case OnField(field, flen, at, length) =>
      SliceShifted(a, t, field, flen);
      SliceShifted(a, t, at, length);
    case _ => SliceShifted(a, t, d.at, d.length);
  }

  lemma FromShifted(a: string, t: string, at: nat)
    ensures From(a + t, at + |a|) == From(t, at)
  {
  }

  lemma SliceShifted(a: string, t: string, at: nat, length: int)
    ensures Slice(a + t, at + |a|, length) == Slice(t, at, length)
  {
  }

  /** The calls of the first part, and then those of the second. */
  lemma {:induction false} HandleShifted(b: Built, a: string, t: string, calls: seq<Call>, base: seq<Call>, others: seq<Call>)
    requires AllClosed(base, a) && SameCalls(calls, base, others, |a|)
    ensures HandleAll(b, a + t, calls) == HandleAll(HandleAll(b, a, base), t, others)
    decreases |others|
  {
    hide AfterCall, SameCall, AllClosed;
    if others == [] {
      assert calls == base;
      HandleJoined(b, a, t, base);
    } else {
      var n, k := |calls| - 1, |others| - 1;
      assert SameCall(calls[|base| + k], others[k], |a|);
      HandleShifted(b, a, t, calls[..n], base, others[..k]);
      AfterShifted(HandleAll(b, a + t, calls[..n]), a, t, calls[n], others[k]);
    }
  }

  lemma FreshRuns(garbage: nat, s: string, relaxed: bool)
    ensures Execute(Fresh(garbage), s, relaxed) == Run(Fresh(garbage), s, 0, relaxed)
  {
  }

  /** The parser stands after several executions as after one on the whole text, but for its marks. */
  ghost predicate LikeWhole(p: Parser, pending: string, read: string, garbage: nat, relaxed: bool) {
    var (w, n) := ExecuteRequest(NewParser(garbage), read, relaxed);
    p.built == w.built && p.machine.control == w.machine.control && |pending| == |read| - n
  }

  lemma OneMore(p: Parser, read: string, t: string, garbage: nat, relaxed: bool)
    requires LikeWhole(p, "", read, garbage, relaxed) && !Stops(p.machine.control)
    requires t != "" ==> CleanSplit(p.machine.control, t)
    ensures var (q, n) := ExecuteRequest(p, t, relaxed); LikeWhole(q, t[n..], read + t, garbage, relaxed)
  {
    hide Run, HandleAll, CleanSplit, Shifted, AllClosed, Execute, Stops;
    if t == "" {
      assert read + t == read;
      EmptyExecution(p.machine, relaxed);
      NoCalls(p.built, t);
    } else {
      FreshRuns(garbage, read, relaxed);
      FreshRuns(garbage, read + t, relaxed);
      RunJoined(Fresh(garbage), read, t, 0, relaxed);
      var w := Run(Fresh(garbage), read, 0, relaxed).0;
      var s := p.machine.(mark := 0, fieldStart := 0, fieldLen := 0, calls := []);
      CleanStart(w, p.machine, |read|, t);
      ExecuteIsRun(p.machine, t, relaxed);
      assert t[0..] == t;
      RunShifted(w, s, read, t, 0, w.calls, relaxed);
      CallsClosed(Fresh(garbage), read, relaxed);
      HandleShifted(NewParser(garbage).built, read, t, Run(Fresh(garbage), read + t, 0, relaxed).0.calls, w.calls,
                    Run(s, t, 0, relaxed).0.calls);
    }
  }

  lemma NoCalls(b: Built, s: string)
    ensures HandleAll(b, s, []) == b
  {
  }

  lemma ExecuteIsRun(m: Machine, s: string, relaxed: bool)
    requires s != "" && !Stops(m.control)
    ensures Execute(m, s, relaxed) == Run(m.(mark := 0, fieldStart := 0, fieldLen := 0, calls := []), s, 0, relaxed)
  {
  }

  // ---------------------------------------------------------------- an unclean split

  /** Split inside its path, a target loses what came of the path in the first part. */
  lemma PathLost(p: Parser, relaxed: bool)
    requires p.machine.control == Path
    ensures ExecuteRequest(p, "b ", relaxed).0.built.request.path == "b"
  {
    hide Run, Step;
    var m := p.machine.(mark := 0, fieldStart := 0, fieldLen := 0, calls := []);
    var last := m.(control := Version(0), calls := [OnPath(0, 1), OnUri(0, 1)]);
    PathSteps(m, relaxed);
    StepsOn(m, "b ", 0, relaxed);
    StepsOn(m, "b ", 1, relaxed);
    AtEnd(last, "b ", relaxed);
    ExecuteIsRun(p.machine, "b ", relaxed);
    assert Execute(p.machine, "b ", relaxed) == (last, 2);
    TwoCalls(p.built);
  }

  lemma TwoCalls(b: Built)
    ensures HandleAll(b, "b ", [OnPath(0, 1), OnUri(0, 1)]).request.path == "b"
  {
    assert "b "[0..1] == "b";
    assert [OnPath(0, 1), OnUri(0, 1)][..1] == [OnPath(0, 1)] && [OnPath(0, 1)][..0] == [];
  }

  lemma PathSteps(m: Machine, relaxed: bool)
    requires m.control == Path && m.mark == 0 && m.calls == []
    ensures Step(m, 'b', 0, relaxed) == m
    ensures Step(m, ' ', 1, relaxed) == m.(control := Version(0), calls := [OnPath(0, 1), OnUri(0, 1)])
  {
  }

  /** Split behind its colon, a header line is an error: its name is gone. */
  lemma NameLost(p: Parser, relaxed: bool)
    requires p.machine.control in {BeforeValue, Value}
    ensures ExecuteRequest(p, "b\n", relaxed).0.built.error == 1002
  {
    hide Run, Step;
    var m := p.machine.(mark := 0, fieldStart := 0, fieldLen := 0, calls := []);
    var last := m.(control := LineStart, calls := [OnField(0, 0, 0, 1)]);
    ValueRuns(m, relaxed);
    StepsOn(m, "b\n", 0, relaxed);
    StepsOn(m.(control := Value), "b\n", 1, relaxed);
    AtEnd(last, "b\n", relaxed);
    ExecuteIsRun(p.machine, "b\n", relaxed);
    assert Execute(p.machine, "b\n", relaxed) == (last, 2);
    assert [OnField(0, 0, 0, 1)][..0] == [];
  }

  lemma ValueRuns(m: Machine, relaxed: bool)
    requires m.control in {BeforeValue, Value} && m.mark == m.fieldStart == m.fieldLen == 0 && m.calls == []
    ensures var v := m.(control := Value);
            Step(m, 'b', 0, relaxed) == v && Step(v, '\n', 1, relaxed) == m.(control := LineStart, calls := [OnField(0, 0, 0, 1)])
  {
  }

  /** Split right behind its version, a head is read as HTTP/1.1, whatever the version was. */
  lemma VersionLost(p: Parser, relaxed: bool)
    requires p.machine.control == Version(8)
    ensures ExecuteRequest(p, "\n", relaxed).0.built == p.built.(request := p.built.request.(version := 0x11))
  {
    hide Run, Step;
    var m := p.machine.(mark := 0, fieldStart := 0, fieldLen := 0, calls := []);
    var last := m.(control := LineStart, calls := [OnVersion(0, 0)]);
    LineEndsVersion(m, relaxed);
    StepsOn(m, "\n", 0, relaxed);
    AtEnd(last, "\n", relaxed);
    ExecuteIsRun(p.machine, "\n", relaxed);
    assert Execute(p.machine, "\n", relaxed) == (last, 1);
    VersionCall(p.built);
  }

  lemma LineEndsVersion(m: Machine, relaxed: bool)
    requires m.control == Version(8) && m.mark == 0 && m.calls == []
    ensures Step(m, '\n', 0, relaxed) == m.(control := LineStart, calls := [OnVersion(0, 0)])
  {
  }

  lemma VersionCall(b: Built)
    ensures HandleAll(b, "\n", [OnVersion(0, 0)]) == b.(request := b.request.(version := 0x11))
  {
    hide HandleVersion, HandleAll;
    assert [] + [OnVersion(0, 0)] == [OnVersion(0, 0)];
    HandleSnoc(b, "\n", [], OnVersion(0, 0));
    NoCalls(b, "\n");
    VersionMeaning(b, "\n", 0, 0);
  }
}
