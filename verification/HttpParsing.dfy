/** What every execution of the request automaton guarantees, and the automaton as the program runs it. */
module HttpParsing {
  import opened Codec
  import opened HttpAutomaton

  // ---------------------------------------------------------------- slices

  /** The call gets a slice of the first `q` characters that begins before their end. */
  predicate Inside(c: Call, q: nat) {
    match c
    case OnField(field, flen, at, length) => flen >= 0 && field + flen <= q && length >= 0 && at + length <= q && at < q
    case OnHeaderDone(at) => at <= q
    case _ => c.length >= 0 && c.at + c.length <= q && c.at < q
  }

  predicate InQuery(s: Control) {
    s.Query? || s.QueryHex?
  }

  predicate InValue(s: Control) {
    s.BeforeValue? || s.Value?
  }

  /** How many characters of an escape are still to come before the query can end. */
  function Lead(s: Control): nat {
    match s
    case QueryHex(n) => if n == 0 then 2 else 1
    case _ => 0
  }

  /** No mark of the path, a fragment or a field lies ahead of the position. */
  predicate MarksOk(m: Machine, p: nat) {
    && m.mark <= p && m.fieldStart <= p && 0 <= m.fieldLen <= p
    && (InValue(m.control) ==> m.fieldStart + m.fieldLen <= p)
  }

  /** Inside a query its mark will be reached before the query can end. */
  predicate QueryOk(m: Machine, p: nat) {
    InQuery(m.control) ==> m.queryStart <= p + Lead(m.control)
  }

  lemma StepInside(m: Machine, c: char, p: nat, relaxed: bool)
    requires MarksOk(m, p) && QueryOk(m, p)
    ensures var m' := Step(m, c, p, relaxed);
            && QueryOk(m', p + 1) && m.calls <= m'.calls
            && (forall i :: |m.calls| <= i < |m'.calls| ==> Inside(m'.calls[i], p + 1))
  {
    hide Between, PathChar, QueryChar, RootlessChar, FieldChar, HexChar, BadInValue, Relaxed, VERSION_TEXT, MarksOk, Inside;
    EffectsInside(m, c, p);
    EntersQuery(m, c, p, relaxed);
  }

  /** The marks, whatever the query's. */
  lemma StepMarks(m: Machine, c: char, p: nat, relaxed: bool)
    requires MarksOk(m, p)
    ensures var m' := Step(m, c, p, relaxed);
            MarksOk(m', p + 1) && m'.mark <= p && m'.fieldStart <= p
  {
    hide Between, PathChar, QueryChar, RootlessChar, FieldChar, HexChar, BadInValue, Relaxed, VERSION_TEXT;
    EffectsMarks(m, c, p);
    EntersValue(m, c, p, relaxed);
  }

  lemma EffectsMarks(m: Machine, c: char, p: nat)
    requires MarksOk(m, p)
    ensures var m' := Effects(m, c, p);
            m'.mark <= p && m'.fieldStart <= p && 0 <= m'.fieldLen <= p
  {
  }

  lemma EffectsInside(m: Machine, c: char, p: nat)
    requires MarksOk(m, p) && QueryOk(m, p)
    ensures var m' := Effects(m, c, p);
            && m.calls <= m'.calls
            && (forall i :: |m.calls| <= i < |m'.calls| ==> Inside(m'.calls[i], p + 1))
  {
    hide AfterPath, AfterQuery, AfterFragment, AfterField, AfterValue, Done, InQuery, InValue;
    QueryMark(m, p);
    match m.control
    case Rootless => PathInside(m, c, p);
    case Path => PathInside(m, c, p);
    case Slash => PathInside(m, c, p);
    case QueryStart => QueryInside(m.(queryStart := p), c, p);
    case Query => QueryInside(m, c, p);
    case FragmentStart => FragmentInside(m.(mark := p), c, p);
    case Fragment => FragmentInside(m, c, p);
    case LineStart => DoneInside(m.(fieldStart := p), p);
    case Field => FieldInside(m, c, p);
    case LastLine => DoneInside(m, p); FieldInside(m, c, p);
    case Finished => FieldInside(m, c, p);
    case BeforeValue => ValueInside(m.(mark := p), c, p);
    case Value => ValueInside(m, c, p);
    case _ =>
  }

  lemma QueryMark(m: Machine, p: nat)
    requires MarksOk(m, p) && QueryOk(m, p)
    ensures m.control.Query? ==> m.queryStart <= p
    ensures m.control.BeforeValue? || m.control.Value? ==> m.fieldStart + m.fieldLen <= p
  {
  }

  /** Only calls of slices that end here are added. */
  predicate Adds(m: Machine, m': Machine, p: nat) {
    && m' == m.(calls := m'.calls, bodyStart := m'.bodyStart) && m.calls <= m'.calls
    && (m'.bodyStart == m.bodyStart || m'.bodyStart == p + 1)
    && forall i :: |m.calls| <= i < |m'.calls| ==> Inside(m'.calls[i], p + 1)
  }

  lemma PathInside(m: Machine, c: char, p: nat)
    requires m.mark <= p
    ensures Adds(m, AfterPath(m, c, p), p)
  {
  }

  lemma QueryInside(m: Machine, c: char, p: nat)
    requires m.mark <= p && m.queryStart <= p
    ensures Adds(m, AfterQuery(m, c, p), p)
  {
  }

  lemma FragmentInside(m: Machine, c: char, p: nat)
    requires m.mark <= p
    ensures Adds(m, AfterFragment(m, c, p), p)
  {
  }

  lemma ValueInside(m: Machine, c: char, p: nat)
    requires m.mark <= p && 0 <= m.fieldLen && m.fieldStart + m.fieldLen <= p
    ensures Adds(m, AfterValue(m, c, p), p)
  {
  }

  lemma DoneInside(m: Machine, p: nat)
    ensures Adds(m, Done(m, p), p)
  {
  }

  lemma FieldInside(m: Machine, c: char, p: nat)
    ensures var m' := AfterField(m, c, p); m' == m.(fieldLen := m'.fieldLen)
  {
  }

  /** The mark of a query is set on the way in. */
  lemma EntersQuery(m: Machine, c: char, p: nat, relaxed: bool)
    requires QueryOk(m, p)
    ensures InQuery(Next(m.control, c, relaxed)) ==> Effects(m, c, p).queryStart <= p + 1 + Lead(Next(m.control, c, relaxed))
  {
    hide Between, PathChar, QueryChar, RootlessChar, FieldChar, HexChar, BadInValue, Relaxed, VERSION_TEXT;
  }

  /** The length of a field's name is set on the way to its value. */
  lemma EntersValue(m: Machine, c: char, p: nat, relaxed: bool)
    requires MarksOk(m, p)
    ensures InValue(Next(m.control, c, relaxed)) ==> Effects(m, c, p).fieldStart + Effects(m, c, p).fieldLen <= p
  {
    hide Between, PathChar, QueryChar, RootlessChar, FieldChar, HexChar, BadInValue, Relaxed, VERSION_TEXT;
  }

  lemma {:induction false} RunInside(m: Machine, s: string, p: nat, relaxed: bool)
    requires p <= |s| && MarksOk(m, p) && QueryOk(m, p)
    ensures var (r, n) := Run(m, s, p, relaxed);
            m.calls <= r.calls && forall i :: |m.calls| <= i < |r.calls| ==> Inside(r.calls[i], n)
    decreases |s| - p
  {
    hide Step, Inside, MarksOk, QueryOk;
    if p < |s| {
      var m' := Step(m, s[p], p, relaxed);
      StepMarks(m, s[p], p, relaxed);
      StepInside(m, s[p], p, relaxed);
      if m'.control.Error? {
        ErrorCalls(m, s[p], p, relaxed);
      } else if !Stops(m'.control) {
        RunInside(m', s, p + 1, relaxed);
        var (r, n) := Run(m', s, p + 1, relaxed);
        forall i | |m.calls| <= i < |r.calls| ensures Inside(r.calls[i], n) {
          if i < |m'.calls| {
            Wider(m'.calls[i], p + 1, n);
          }
        }
      }
    }
  }

  lemma {:induction false} RunMarks(m: Machine, s: string, p: nat, relaxed: bool)
    requires p <= |s| && MarksOk(m, p) && m.mark < |s| && m.fieldStart < |s|
    ensures var (r, n) := Run(m, s, p, relaxed);
            r.mark < |s| && r.fieldStart < |s| && 0 <= r.fieldLen <= |s|
    decreases |s| - p
  {
    hide Step;
    if p < |s| {
      StepMarks(m, s[p], p, relaxed);
      if !Stops(Step(m, s[p], p, relaxed).control) {
        RunMarks(Step(m, s[p], p, relaxed), s, p + 1, relaxed);
      }
    }
  }

  lemma Wider(c: Call, q: nat, n: nat)
    requires Inside(c, q) && q <= n
    ensures Inside(c, n)
  {
  }

  lemma ErrorCalls(m: Machine, c: char, p: nat, relaxed: bool)
    requires Step(m, c, p, relaxed).control.Error?
    ensures Step(m, c, p, relaxed) == m.(control := Error)
  {
  }

  lemma StepBody(m: Machine, c: char, p: nat, relaxed: bool)
    ensures var m' := Step(m, c, p, relaxed); m'.bodyStart == if m'.control.Finished? then p + 1 else m.bodyStart
  {
    hide Between, PathChar, QueryChar, RootlessChar, FieldChar, HexChar, BadInValue, Relaxed, VERSION_TEXT;
  }

  /** The mark of the body moves exactly when the automaton finishes. */
  lemma {:induction false} RunBody(m: Machine, s: string, p: nat, relaxed: bool)
    requires p < |s|
    ensures var (r, n) := Run(m, s, p, relaxed); r.bodyStart == if r.control.Finished? then n else m.bodyStart
    decreases |s| - p
  {
    hide Step;
    var m' := Step(m, s[p], p, relaxed);
    StepBody(m, s[p], p, relaxed);
    if !Stops(m'.control) {
      if p + 1 < |s| {
        RunBody(m', s, p + 1, relaxed);
      } else {
        AtEnd(m', s, relaxed);
      }
    }
  }

  /** Of the program's closing assertions those on the marks hold after every execution. The one on the start of the body
      holds if and only if the execution finishes or the text is as long as an earlier head was. */
  lemma ClosingAssertions(m: Machine, s: string, relaxed: bool)
    requires s != ""
    ensures var (r, n) := Execute(m, s, relaxed);
            && r.mark < |s| && r.fieldStart < |s| && 0 <= r.fieldLen <= |s|
            && r.bodyStart == (if r.control.Finished? then n else m.bodyStart)
            && (r.bodyStart <= |s| <==> m.bodyStart <= |s| || r.control.Finished?)
  {
    hide Run;
    if !m.control.Error? {
      RunMarks(m.(mark := 0, fieldStart := 0, fieldLen := 0, calls := []), s, 0, relaxed);
      RunBody(m.(mark := 0, fieldStart := 0, fieldLen := 0, calls := []), s, 0, relaxed);
    }
  }

  /** The assertion on the start of the body holds in every execution. */
  predicate AssertionsHold(m: Machine, inputs: seq<string>, relaxed: bool)
    decreases |inputs|
  {
    inputs != [] ==>
      var m' := Execute(m, inputs[0], relaxed).0;
      (inputs[0] != "" ==> m'.bodyStart <= |inputs[0]|) && AssertionsHold(m', inputs[1..], relaxed)
  }

  /** No execution but the last one finishes. */
  predicate FinishesLast(m: Machine, inputs: seq<string>, relaxed: bool)
    decreases |inputs|
  {
    |inputs| > 1 ==>
      var m' := Execute(m, inputs[0], relaxed).0;
      !m'.control.Finished? && FinishesLast(m', inputs[1..], relaxed)
  }

  /** Until it has finished, a parser never fails that assertion. */
  lemma {:induction false} UnfinishedHolds(m: Machine, inputs: seq<string>, relaxed: bool)
    requires m.bodyStart == 0 && FinishesLast(m, inputs, relaxed)
    ensures AssertionsHold(m, inputs, relaxed)
    decreases |inputs|
  {
    hide Execute;
    if inputs != [] {
      EmptyExecution(m, relaxed);
      if inputs[0] != "" {
        ClosingAssertions(m, inputs[0], relaxed);
      }
      if |inputs| > 1 {
        UnfinishedHolds(Execute(m, inputs[0], relaxed).0, inputs[1..], relaxed);
      }
    }
  }

  lemma EmptyExecution(m: Machine, relaxed: bool)
    ensures Execute(m, "", relaxed) == (m.(calls := []), 0)
  {
  }

  /** Every callback gets a slice of what was consumed, whatever is executed, if and only if the execution does not begin
      inside a query, or the query's mark is reached before the query can end. */
  lemma SlicesInsideIff(m: Machine, relaxed: bool)
    ensures (forall s, c :: c in Execute(m, s, relaxed).0.calls ==> Inside(c, Execute(m, s, relaxed).1))
            <==> !InQuery(m.control) || m.queryStart <= Lead(m.control)
  {
    hide Execute, Inside;
    if !InQuery(m.control) || m.queryStart <= Lead(m.control) {
      forall s, c | c in Execute(m, s, relaxed).0.calls ensures Inside(c, Execute(m, s, relaxed).1) {
        SlicesInside(m, s, relaxed);
      }
    } else {
      EscapesSlice(m, relaxed);
    }
  }

  lemma SlicesInside(m: Machine, s: string, relaxed: bool)
    requires !InQuery(m.control) || m.queryStart <= Lead(m.control)
    ensures forall c :: c in Execute(m, s, relaxed).0.calls ==> Inside(c, Execute(m, s, relaxed).1)
  {
    hide Inside, Run;
    if s != "" && !m.control.Error? {
      RunInside(m.(mark := 0, fieldStart := 0, fieldLen := 0, calls := []), s, 0, relaxed);
    }
  }

  /** The shortest text that ends the query. */
  function Escape(s: Control): string {
    if Lead(s) == 2 then "00 " else if Lead(s) == 1 then "0 " else " "
  }

  /** A query whose mark lies beyond its shortest end gives a slice of negative length. */
  lemma EscapesSlice(m: Machine, relaxed: bool)
    requires InQuery(m.control) && m.queryStart > Lead(m.control)
    ensures var (r, n) := Execute(m, Escape(m.control), relaxed);
            var c := OnQuery(m.queryStart, Lead(m.control) - m.queryStart);
            c in r.calls && !Inside(c, n)
  {
    hide Run, Step, Inside;
    var m0 := m.(mark := 0, fieldStart := 0, fieldLen := 0, calls := []);
    var s, k := Escape(m.control), Lead(m.control);
    var q := m0.(control := Query);
    EscapeDigits(m0, relaxed);
    if k == 2 {
      StepsOn(m0, s, 0, relaxed);
      StepsOn(m0.(control := QueryHex(1)), s, 1, relaxed);
    } else if k == 1 {
      StepsOn(m0, s, 0, relaxed);
    } else {
      assert q == m0;
    }
    QuerySpace(q, k, relaxed);
    StepsOn(q, s, k, relaxed);
    AtEnd(Step(q, ' ', k, relaxed), s, relaxed);
    NotInside(m.queryStart, k, k + 1);
  }

  lemma QuerySpace(m: Machine, p: nat, relaxed: bool)
    requires m.control == Query
    ensures var m' := Step(m, ' ', p, relaxed);
            m'.control == Version(0) && m'.calls == m.calls + [OnQuery(m.queryStart, p - m.queryStart), OnUri(m.mark, p - m.mark)]
  {
  }

  lemma NotInside(at: nat, p: nat, q: nat)
    requires at > p
    ensures !Inside(OnQuery(at, p - at), q)
  {
  }

  lemma EscapeDigits(m: Machine, relaxed: bool)
    ensures m.control == QueryHex(0) ==> Step(m, '0', 0, relaxed) == m.(control := QueryHex(1))
    ensures forall p :: Step(m.(control := QueryHex(1)), '0', p, relaxed) == m.(control := Query)
    ensures m.control.QueryHex? && m.control.n > 0 ==> Step(m, '0', 0, relaxed) == m.(control := Query)
  {
  }

  /** An execution that begins inside a query can hand out a slice of negative length: the query's mark still belongs to
      the buffer before. */
  lemma QueryMarkIsStale(relaxed: bool)
    ensures var m := Execute(Fresh(0), "A /?q", relaxed).0;
            && m.control == Query && m.queryStart == 4
            && OnQuery(4, -4) in Execute(m, " ", relaxed).0.calls
  {
    hide Run, Step, Inside;
    StaleRun(relaxed);
    AfterStaleMark(StaleMachine(), relaxed);
  }

  function StaleMachine(): Machine {
    Machine(Query, 2, 0, 0, 4, 0, [OnMethod(0, 1), OnPath(2, 1)])
  }

  lemma StaleRun(relaxed: bool)
    ensures Run(Fresh(0), "A /?q", 0, relaxed) == (StaleMachine(), 5)
  {
    hide Run, Step;
    var s, m1 := "A /?q", Machine(Method(1), 0, 0, 0, 0, 0, []);
    var m2 := m1.(control := Uri, calls := [OnMethod(0, 1)]);
    var m3 := m2.(control := Slash, mark := 2);
    var m4 := m3.(control := QueryStart, calls := [OnMethod(0, 1), OnPath(2, 1)]);
    FirstStaleSteps(relaxed);
    LastStaleSteps(relaxed);
    AtEnd(StaleMachine(), s, relaxed);
    StepsOn(m4, s, 4, relaxed);
    StepsOn(m3, s, 3, relaxed);
    StepsOn(m2, s, 2, relaxed);
    StepsOn(m1, s, 1, relaxed);
    StepsOn(Fresh(0), s, 0, relaxed);
  }

  lemma StepsOn(m: Machine, s: string, p: nat, relaxed: bool)
    requires p < |s| && !Stops(Step(m, s[p], p, relaxed).control)
    ensures Run(m, s, p, relaxed) == Run(Step(m, s[p], p, relaxed), s, p + 1, relaxed)
  {
  }

  lemma AtEnd(m: Machine, s: string, relaxed: bool)
    ensures Run(m, s, |s|, relaxed) == (m, |s|)
  {
  }

  lemma FirstStaleSteps(relaxed: bool)
    ensures var m1 := Machine(Method(1), 0, 0, 0, 0, 0, []);
            var m2 := m1.(control := Uri, calls := [OnMethod(0, 1)]);
            && Step(Fresh(0), 'A', 0, relaxed) == m1 && Step(m1, ' ', 1, relaxed) == m2
            && Step(m2, '/', 2, relaxed) == m2.(control := Slash, mark := 2)
  {
  }

  lemma LastStaleSteps(relaxed: bool)
    ensures var m3 := Machine(Slash, 2, 0, 0, 0, 0, [OnMethod(0, 1)]);
            var m4 := m3.(control := QueryStart, calls := [OnMethod(0, 1), OnPath(2, 1)]);
            && Step(m3, '?', 3, relaxed) == m4
            && Step(m4, 'q', 4, relaxed) == m4.(control := Query, queryStart := 4)
  {
  }

  lemma AfterStaleMark(m: Machine, relaxed: bool)
    requires m.control == Query && m.queryStart == 4
    ensures OnQuery(4, -4) in Execute(m, " ", relaxed).0.calls
  {
  }

  // ---------------------------------------------------------------- the blank line

  predicate EndsWith(t: string, u: string) {
    |u| <= |t| && t[|t| - |u|..] == u
  }

  /** The text ends with a line end and an empty line. */
  predicate EndsBlank(t: string) {
    EndsWith(t, "\n\n") || EndsWith(t, "\n\r\n")
  }

  /** What has been read when the automaton stands before or in an empty line, or behind it. */
  predicate LineOk(s: Control, t: string) {
    && (s.LineStart? ==> EndsWith(t, "\n"))
    && (s.LastLine? ==> EndsWith(t, "\n\r"))
    && (s.Finished? ==> EndsBlank(t))
  }

  /** How the automaton comes to a line's start, into an empty line and behind it. */
  lemma LineEnds(s: Control, c: char, relaxed: bool)
    ensures var next := Next(s, c, relaxed);
            && (next.LineStart? ==> c == '\n')
            && (next.LastLine? ==> s.LineStart? && c == '\r')
            && (next.Finished? ==> c == '\n' && (s.LineStart? || s.LastLine?))
  {
    hide Between, PathChar, QueryChar, RootlessChar, FieldChar, HexChar, BadInValue, Relaxed, VERSION_TEXT;
  }

  lemma StepBlank(s: Control, t: string, c: char, relaxed: bool)
    requires LineOk(s, t)
    ensures LineOk(Next(s, c, relaxed), t + [c])
  {
    hide Next, EndsBlank, EndsWith;
    LineEnds(s, c, relaxed);
    Endings(t, c);
  }

  lemma Endings(t: string, c: char)
    ensures c == '\n' ==> EndsWith(t + [c], "\n")
    ensures c == '\n' && EndsWith(t, "\n") ==> EndsBlank(t + [c])
    ensures c == '\n' && EndsWith(t, "\n\r") ==> EndsBlank(t + [c])
    ensures c == '\r' && EndsWith(t, "\n") ==> EndsWith(t + [c], "\n\r")
  {
    var u := t + [c];
    if EndsWith(t, "\n") {
      assert u[|u| - 2..] == t[|t| - 1..] + [c];
    }
    if EndsWith(t, "\n\r") {
      assert u[|u| - 3..] == t[|t| - 2..] + [c];
    }
  }

  /** `before` is what earlier executions read. */
  lemma {:induction false} RunBlank(m: Machine, before: string, s: string, p: nat, relaxed: bool)
    requires p <= |s| && LineOk(m.control, before + s[..p])
    ensures var (r, n) := Run(m, s, p, relaxed);
            && LineOk(r.control, before + s[..n])
            && (!Stops(r.control) ==> n == |s|)
    decreases |s| - p
  {
    hide Step, LineOk;
    if p < |s| {
      var m' := Step(m, s[p], p, relaxed);
      NextDecides(m, s[p], p, relaxed);
      StepBlank(m.control, before + s[..p], s[p], relaxed);
      assert before + s[..p] + [s[p]] == before + s[..p + 1];
      if m'.control.Error? {
        NothingToShow(m'.control, before + s[..p]);
      } else if !Stops(m'.control) {
        RunBlank(m', before, s, p + 1, relaxed);
      }
    }
  }

  lemma NothingToShow(s: Control, t: string)
    requires s.Error?
    ensures LineOk(s, t)
  {
  }

  // ---------------------------------------------------------------- splitting

  lemma NextDecides(m: Machine, c: char, p: nat, relaxed: bool)
    ensures Step(m, c, p, relaxed).control == Next(m.control, c, relaxed)
  {
  }

  /** Neither marks nor calls influence where the automaton goes. */
  lemma {:induction false} ControlDecides(m: Machine, k: Machine, s: string, p: nat, t: string, q: nat, relaxed: bool)
    requires p <= |s| && q <= |t| && s[p..] == t[q..] && m.control == k.control
    ensures Run(m, s, p, relaxed).0.control == Run(k, t, q, relaxed).0.control
    ensures Run(m, s, p, relaxed).1 - p == Run(k, t, q, relaxed).1 - q
    decreases |s| - p
  {
    hide Step;
    assert |s| - p == |t| - q;
    if p < |s| {
      assert s[p] == s[p..][0] == t[q];
      NextDecides(m, s[p], p, relaxed);
      NextDecides(k, t[q], q, relaxed);
      assert s[p + 1..] == s[p..][1..] && t[q + 1..] == t[q..][1..];
      ControlDecides(Step(m, s[p], p, relaxed), Step(k, t[q], q, relaxed), s, p + 1, t, q + 1, relaxed);
    }
  }

  /** Reading `a + b` is reading `a`, and then `b` unless the automaton stopped. */
  lemma {:induction false} RunJoined(m: Machine, a: string, b: string, p: nat, relaxed: bool)
    requires p <= |a|
    ensures var (r, n) := Run(m, a, p, relaxed);
            && (p < |a| && Stops(r.control) ==> Run(m, a + b, p, relaxed) == (r, n))
            && (!Stops(r.control) ==> n == |a| && Run(m, a + b, p, relaxed) == Run(r, a + b, |a|, relaxed))
    decreases |a| - p
  {
    hide Step;
    if p < |a| {
      assert (a + b)[p] == a[p];
      var m' := Step(m, a[p], p, relaxed);
      RunJoined(m', a, b, p + 1, relaxed);
      if p + 1 == |a| {
        assert Run(m', a, p + 1, relaxed) == (m', p + 1);
      }
    }
  }

  /** Splitting an input changes neither the state at the end nor how much is consumed in all: when the first part
      neither finishes nor fails the second goes on from there, and otherwise the first part decides. Of texts that reach
      Elsewhere this says what the model does, which stops there, and not what the program does. */
  lemma SplitInput(m: Machine, a: string, b: string, relaxed: bool)
    requires !Stops(m.control)
    ensures var (first, n) := Execute(m, a, relaxed);
            var (whole, total) := Execute(m, a + b, relaxed);
            && (Stops(first.control) ==> whole == first && total == n)
            && (!Stops(first.control) ==>
                  && n == |a|
                  && whole.control == Execute(first, b, relaxed).0.control && total == |a| + Execute(first, b, relaxed).1)
  {
    hide Run;
    var m0 := m.(mark := 0, fieldStart := 0, fieldLen := 0, calls := []);
    if a == "" {
      assert a + b == b;
    } else {
      RunJoined(m0, a, b, 0, relaxed);
      var first := Execute(m, a, relaxed).0;
      if !Stops(first.control) {
        if b == "" {
          assert a + b == a;
        } else {
          assert (a + b)[|a|..] == b[0..];
          ControlDecides(first, first.(mark := 0, fieldStart := 0, fieldLen := 0, calls := []), a + b, |a|, b, 0, relaxed);
        }
      }
    }
  }

  /** An error is permanent: whatever follows, the automaton stays in error, consumes nothing and calls nothing. */
  lemma {:induction false} ErrorIsPermanent(m: Machine, inputs: seq<string>, relaxed: bool)
    requires m.control == Error
    ensures var r := ExecuteAll(m, inputs, relaxed);
            r.0.control == Error && r.1 == 0 && (inputs != [] ==> r.0.calls == [])
    decreases |inputs|
  {
    if inputs != [] {
      ErrorIsPermanent(Execute(m, inputs[0], relaxed).0, inputs[1..], relaxed);
    }
  }

  /** Many executions one after the other, and how much they consume in all. */
  function ExecuteAll(m: Machine, inputs: seq<string>, relaxed: bool): (Machine, nat)
    decreases |inputs|
  {
    if inputs == [] then (m, 0)
    else
      var (m1, n) := Execute(m, inputs[0], relaxed);
      var (m2, k) := ExecuteAll(m1, inputs[1..], relaxed);
      (m2, n + k)
  }

  // ---------------------------------------------------------------- the program

  class HttpParser {
    const uriRelaxed: bool
    var cs: Control
    var bodyStart: nat
    var nread: nat
    var mark: nat
    var fieldStart: nat
    var fieldLen: int
    var queryStart: nat
    /** The callbacks called by the last execution. */
    var calls: seq<Call>

    ghost function Value(): Machine
      reads this
    {
      Machine(cs, mark, fieldStart, fieldLen, queryStart, bodyStart, calls)
    }

    /** http_parser_init on memory that held `garbage` */
    constructor (uriRelaxed: bool, garbage: nat)
      ensures Value() == Fresh(garbage) && this.uriRelaxed == uriRelaxed
    {
      this.uriRelaxed := uriRelaxed;
      cs, bodyStart, nread, mark, fieldStart, fieldLen, queryStart, calls := Start, 0, 0, 0, 0, 0, garbage, [];
    }

    /** http_parser_execute from offset 0 */
    method Execute(buffer: array<char>, len: nat) returns (n: nat)
      requires len <= buffer.Length
      modifies this
      ensures (Value(), n) == HttpAutomaton.Execute(old(Value()), buffer[..len], uriRelaxed)
      ensures len > 0 ==> nread == n
    {
      hide Next, Effects;
      calls := [];
      if len == 0 {
        return 0;
      }
      nread, mark, fieldLen, fieldStart := 0, 0, 0, 0;
      if cs.Error? {
        return 0;
      }
      ghost var s, start := buffer[..len], Value();
      var p := 0;
      while p < len
        invariant 0 <= p <= len && buffer[..len] == s
        invariant Run(start, s, 0, uriRelaxed) == Run(Value(), s, p, uriRelaxed)
        invariant !cs.Error? && nread == 0
      {
        var c := buffer[p];
        var next := Next(cs, c, uriRelaxed);
        if next.Error? {
          cs := Error;
          nread := p;
          return p;
        }
        Transition(c, p);
        cs := next;
        p := p + 1;
        if Stops(next) {
          break;
        }
      }
      nread := p;
      n := p;
    }

    /** What a transition does to the marks, and which callbacks it calls. */
    method Transition(c: char, p: nat)
      modifies this`mark, this`fieldStart, this`fieldLen, this`queryStart, this`bodyStart, this`calls
      ensures Value() == Effects(old(Value()), c, p)
    {
      match cs {
        case Start => mark := p;
        case Method(_) =>
          if c == ' ' {
            calls := calls + [OnMethod(mark, p - mark)];
          }
        case Uri =>
          mark := p;
          if c == ' ' || c == '#' {
            calls := calls + [OnPath(p, 0), OnUri(p, 0)];
          } else if c == '?' {
            calls := calls + [OnPath(p, 0)];
          }
        case Rootless => EndPath(c, p);
        case Path => EndPath(c, p);
        case Slash => EndPath(c, p);
        case QueryStart => queryStart := p; EndQuery(c, p);
        case Query => EndQuery(c, p);
        case FragmentStart => mark := p; EndFragment(c, p);
        case Fragment => EndFragment(c, p);
        case Version(n) =>
          if n == 0 {
            mark := p;
          } else if n == 8 {
            calls := calls + [OnVersion(mark, p - mark)];
          }
        case LineStart =>
          fieldStart := p;
          if c == '\n' {
            bodyStart := p + 1;
            calls := calls + [OnHeaderDone(p + 1)];
          }
        case Field => EndField(c, p);
        case LastLine =>
          if c == '\n' {
            bodyStart := p + 1;
            calls := calls + [OnHeaderDone(p + 1)];
          } else {
            EndField(c, p);
          }
        case Finished => EndField(c, p);
        case BeforeValue => mark := p; EndValue(c, p);
        case Value => EndValue(c, p);
        case _ =>
      }
    }

    method EndPath(c: char, p: nat)
      modifies this`calls
      ensures Value() == AfterPath(old(Value()), c, p)
    {
      if c == ' ' || c == '#' {
        calls := calls + [OnPath(mark, p - mark), OnUri(mark, p - mark)];
      } else if c == '?' {
        calls := calls + [OnPath(mark, p - mark)];
      }
    }

    method EndQuery(c: char, p: nat)
      modifies this`calls
      ensures Value() == AfterQuery(old(Value()), c, p)
    {
      if c == ' ' || c == '#' {
        calls := calls + [OnQuery(queryStart, p - queryStart), OnUri(mark, p - mark)];
      }
    }

    method EndFragment(c: char, p: nat)
      modifies this`calls
      ensures Value() == AfterFragment(old(Value()), c, p)
    {
      if c == ' ' {
        calls := calls + [OnFragment(mark, p - mark)];
      }
    }

    method EndField(c: char, p: nat)
      modifies this`fieldLen
      ensures Value() == AfterField(old(Value()), c, p)
    {
      if c == ':' {
        fieldLen := p - fieldStart;
      }
    }

    method EndValue(c: char, p: nat)
      modifies this`calls
      ensures Value() == AfterValue(old(Value()), c, p)
    {
      if c == '\n' || c == '\r' {
        calls := calls + [OnField(fieldStart, fieldLen, mark, p - mark)];
      }
    }
  }
}
