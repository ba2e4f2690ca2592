/** What the request parser makes of any well-formed head. */
module HttpHeads {
  import opened Codec
  import opened HttpGrammar
  import opened HttpHeaders
  import opened HttpRequests
  import opened HttpAutomaton
  import opened HttpParsing
  import opened HttpSegments
  import opened HttpRequestParsers

  // ---------------------------------------------------------------- the target

  function PathStop(h: HeadText): char {
    if h.query.Some? then '?' else QueryStop(h)
  }

  function QueryStop(h: HeadText): char {
    if h.fragment.Some? then '#' else ' '
  }

  /** The machine after the path, the query and the fragment of a target that begins at `p`. */
  function AfterPathOf(m: Machine, h: HeadText, p: nat): Machine {
    m.(control := AfterStop(PathStop(h)), mark := p, calls := m.calls + PathCalls(p, |h.path|, PathStop(h)))
  }

  function AfterQueryOf(m: Machine, h: HeadText, p: nat): Machine {
    var k, q := AfterPathOf(m, h, p), p + |h.path| + 1;
    if h.query.None? then k
    else k.(control := AfterStop(QueryStop(h)), queryStart := q,
            calls := k.calls + [OnQuery(q, |h.query.value|), OnUri(p, q + |h.query.value| - p)])
  }

  function FragmentAt(h: HeadText, p: nat): nat {
    p + |UriText(h.path, h.query)| + 1
  }

  function AfterTarget(m: Machine, h: HeadText, p: nat): Machine {
    var k, f := AfterQueryOf(m, h, p), FragmentAt(h, p);
    if h.fragment.None? then k
    else k.(control := Version(0), mark := f, calls := k.calls + [OnFragment(f, |h.fragment.value|)])
  }

  /** Where the parts of a target stand in the text. */
  lemma TargetParts(s: string, p: nat, h: HeadText)
    requires At(s, p, TargetText(h))
    ensures At(s, p, h.path + [PathStop(h)])
    ensures h.query.Some? ==> At(s, p + |h.path| + 1, h.query.value + [QueryStop(h)])
    ensures h.fragment.Some? ==> At(s, FragmentAt(h, p), h.fragment.value + " ")
    ensures |TargetText(h)| == (if h.fragment.Some? then FragmentAt(h, p) - p + |h.fragment.value| + 1 else |UriText(h.path, h.query)| + 1)
  {
    hide At;
    var f := if h.fragment.Some? then h.fragment.value + " " else "";
    var q := if h.query.Some? then h.query.value + [QueryStop(h)] else "";
    assert TargetText(h) == (h.path + [PathStop(h)]) + (q + f);
    AtSplit(s, p, h.path + [PathStop(h)], q + f);
    AtSplit(s, p + |h.path| + 1, q, f);
  }

  lemma ReadPath(m: Machine, s: string, p: nat, h: HeadText, relaxed: bool)
    requires m.control == Uri && At(s, p, TargetText(h)) && TargetOk(h.path, h.query, h.fragment, relaxed)
    ensures p + |h.path| + 1 <= |s|
    ensures Run(m, s, p, relaxed) == Run(AfterPathOf(m, h, p), s, p + |h.path| + 1, relaxed)
  {
    hide Run, At, PathOk, Escaped, TargetText, PathCalls, AfterStop;
    TargetParts(s, p, h);
    AtBound(s, p, h.path + [PathStop(h)]);
    PathSegment(m, s, p, h.path, PathStop(h), relaxed);
  }

  lemma ReadQuery(m: Machine, s: string, p: nat, h: HeadText, relaxed: bool)
    requires m.control == Uri && At(s, p, TargetText(h)) && TargetOk(h.path, h.query, h.fragment, relaxed)
    ensures p + |UriText(h.path, h.query)| + 1 <= |s|
    ensures Run(m, s, p, relaxed) == Run(AfterQueryOf(m, h, p), s, p + |UriText(h.path, h.query)| + 1, relaxed)
  {
    hide Run, At, PathOk, Escaped, TargetText, PathCalls, TargetOk;
    QueryOkOf(h, relaxed);
    TargetParts(s, p, h);
    ReadPath(m, s, p, h, relaxed);
    if h.query.Some? {
      var q := p + |h.path| + 1;
      AtBound(s, q, h.query.value + [QueryStop(h)]);
      QuerySegment(AfterPathOf(m, h, p), s, q, h.query.value, QueryStop(h), relaxed);
    }
  }

  lemma QueryOkOf(h: HeadText, relaxed: bool)
    requires TargetOk(h.path, h.query, h.fragment, relaxed)
    ensures h.query.Some? ==> Escaped(InQuery, h.query.value, relaxed)
    ensures h.fragment.Some? ==> Escaped(InFragment, h.fragment.value, relaxed)
  {
  }

  /** Over the target and the space behind it. */
  lemma ReadTarget(m: Machine, s: string, p: nat, h: HeadText, relaxed: bool)
    requires m.control == Uri && At(s, p, TargetText(h)) && TargetOk(h.path, h.query, h.fragment, relaxed)
    ensures AfterTarget(m, h, p).control == Version(0) && p + |TargetText(h)| <= |s|
    ensures Run(m, s, p, relaxed) == Run(AfterTarget(m, h, p), s, p + |TargetText(h)|, relaxed)
  {
    hide Run, At, PathOk, Escaped, TargetText, PathCalls, TargetOk, UriText;
    QueryOkOf(h, relaxed);
    TargetParts(s, p, h);
    AtBound(s, p, TargetText(h));
    ReadQuery(m, s, p, h, relaxed);
    if h.fragment.Some? {
      FragmentSegment(AfterQueryOf(m, h, p), s, FragmentAt(h, p), h.fragment.value, relaxed);
    }
  }

  // ---------------------------------------------------------------- the lines

  function HeaderOf(l: Line): Header {
    Header(l.name, l.value)
  }

  function HeadersOf(ls: seq<Line>): (hs: seq<Header>)
    ensures |hs| == |ls|
    ensures forall i :: 0 <= i < |ls| ==> hs[i] == HeaderOf(ls[i])
  {
    if ls == [] then [] else HeadersOf(ls[..|ls| - 1]) + [HeaderOf(ls[|ls| - 1])]
  }

  /** The machine after header lines that begin at `p`. */
  function AfterLines(m: Machine, ls: seq<Line>, p: nat): Machine
    decreases |ls|
  {
    if ls == [] then m
    else
      var n := |ls| - 1;
      var k, q, l := AfterLines(m, ls[..n], p), p + |LinesText(ls[..n])|, ls[n];
      k.(control := LineStart, mark := ValueAt(l, q), fieldStart := q, fieldLen := |l.name|,
         calls := k.calls + [OnField(q, |l.name|, ValueAt(l, q), |l.value|)])
  }

  lemma {:induction false} LinesSegment(m: Machine, s: string, p: nat, ls: seq<Line>, relaxed: bool)
    requires m.control == LineStart && At(s, p, LinesText(ls)) && forall i :: 0 <= i < |ls| ==> IsLine(ls[i])
    ensures AfterLines(m, ls, p).control == LineStart
    ensures Run(m, s, p, relaxed) == Run(AfterLines(m, ls, p), s, p + |LinesText(ls)|, relaxed)
    decreases |ls|
  {
    hide Run, LineText, NameOk, BlanksOk, ValueOk, At;
    AtBound(s, p, LinesText(ls));
    if ls != [] {
      var n := |ls| - 1;
      AtSplit(s, p, LinesText(ls[..n]), LineText(ls[n]));
      LinesSegment(m, s, p, ls[..n], relaxed);
      assert IsLine(ls[n]);
      LineSegment(AfterLines(m, ls[..n], p), s, p + |LinesText(ls[..n])|, ls[n], relaxed);
    }
  }

  function WithHeaders(b: Built, hs: seq<Header>): Built {
    b.(request := b.request.(headers := SetAll(b.request.headers, hs)))
  }

  lemma {:induction false} SetAllSnoc(hs: seq<Header>, more: seq<Header>, h: Header)
    ensures SetAll(hs, more + [h]) == SetHeader(SetAll(hs, more), h.name, h.value)
    decreases |more|
  {
    hide SetHeader;
    if more == [] {
      assert ([h])[1..] == [];
    } else {
      assert (more + [h])[1..] == more[1..] + [h];
      SetAllSnoc(SetHeader(hs, more[0].name, more[0].value), more[1..], h);
    }
  }

  lemma SliceAt(s: string, p: nat, t: string)
    requires At(s, p, t)
    ensures Slice(s, p, |t|) == t
  {
  }

  lemma LineSlices(s: string, q: nat, l: Line)
    requires At(s, q, LineText(l))
    ensures Slice(s, q, |l.name|) == l.name && Slice(s, ValueAt(l, q), |l.value|) == l.value
  {
    hide At, Slice, Eol;
    var rest := l.value + Eol(l.crlf);
    assert LineText(l) == l.name + (":" + l.blanks + rest);
    AtSplit(s, q, l.name, ":" + l.blanks + rest);
    AtSplit(s, q + |l.name|, ":" + l.blanks, rest);
    AtSplit(s, ValueAt(l, q), l.value, Eol(l.crlf));
    SliceAt(s, q, l.name);
    SliceAt(s, ValueAt(l, q), l.value);
  }

  /** The callbacks of the lines set the headers they print. */
  lemma {:induction false} LinesBuilt(b: Built, m: Machine, s: string, p: nat, ls: seq<Line>)
    requires At(s, p, LinesText(ls)) && forall i :: 0 <= i < |ls| ==> IsLine(ls[i])
    ensures HandleAll(b, s, AfterLines(m, ls, p).calls) == WithHeaders(HandleAll(b, s, m.calls), HeadersOf(ls))
    decreases |ls|
  {
    hide LineText, ValueOk, BlanksOk, NameChar, At, SetHeader, Slice, HandleAll, AfterCall;
    if ls != [] {
      var n := |ls| - 1;
      var q, l := p + |LinesText(ls[..n])|, ls[n];
      AtSplit(s, p, LinesText(ls[..n]), LineText(l));
      LinesBuilt(b, m, s, p, ls[..n]);
      assert IsLine(l);
      LineCall(HandleAll(b, s, AfterLines(m, ls[..n], p).calls), s, q, l);
      HandleSnoc(b, s, AfterLines(m, ls[..n], p).calls, OnField(q, |l.name|, ValueAt(l, q), |l.value|));
      SetAllSnoc(HandleAll(b, s, m.calls).request.headers, HeadersOf(ls[..n]), HeaderOf(l));
    }
  }

  /** The callback of one line sets its header. */
  lemma LineCall(b: Built, s: string, q: nat, l: Line)
    requires At(s, q, LineText(l)) && l.name != ""
    ensures AfterCall(b, s, OnField(q, |l.name|, ValueAt(l, q), |l.value|))
            == b.(request := b.request.(headers := SetHeader(b.request.headers, l.name, l.value)))
  {
    hide LineText, At, SetHeader, Slice;
    LineSlices(s, q, l);
  }

  lemma HandleSnoc(b: Built, s: string, calls: seq<Call>, c: Call)
    ensures HandleAll(b, s, calls + [c]) == AfterCall(HandleAll(b, s, calls), s, c)
  {
  }

  // ---------------------------------------------------------------- the head

  function TargetAt(h: HeadText): nat {
    |h.verb| + 1
  }

  function VersionAt(h: HeadText): nat {
    TargetAt(h) + |TargetText(h)|
  }

  function LinesAt(h: HeadText): nat {
    VersionAt(h) + |VersionText(h.minor, h.crlf)|
  }

  function BlankAt(h: HeadText): nat {
    LinesAt(h) + |LinesText(h.lines)|
  }

  /** The parts of a head in any text that begins with it. */
  lemma HeadInParts(h: HeadText, s: string)
    requires Text(h) <= s
    ensures && At(s, 0, h.verb + " ") && At(s, TargetAt(h), TargetText(h)) && At(s, VersionAt(h), VersionText(h.minor, h.crlf))
            && At(s, LinesAt(h), LinesText(h.lines)) && At(s, BlankAt(h), Eol(h.endCrlf))
            && |Text(h)| == BlankAt(h) + |Eol(h.endCrlf)| <= |s|
  {
    hide TargetText, VersionText, LinesText, At, Eol;
    var a, b, c, d, e := h.verb + " ", TargetText(h), VersionText(h.minor, h.crlf), LinesText(h.lines), Eol(h.endCrlf);
    var rest := s[|Text(h)|..];
    assert s == Text(h) + rest;
    Regrouped(a, b, c, d, e, rest);
    AtWhole(s);
    AtSplit(s, 0, a, b + (c + (d + (e + rest))));
    AtSplit(s, |a|, b, c + (d + (e + rest)));
    AtSplit(s, |a| + |b|, c, d + (e + rest));
    AtSplit(s, |a| + |b| + |c|, d, e + rest);
    AtSplit(s, |a| + |b| + |c| + |d|, e, rest);
  }

  lemma Regrouped(a: string, b: string, c: string, d: string, e: string, rest: string)
    ensures a + b + c + d + e + rest == a + (b + (c + (d + (e + rest))))
  {
  }

  lemma AtWhole(s: string)
    ensures At(s, 0, s)
  {
  }

  function AfterVerb(h: HeadText, garbage: nat): Machine {
    Fresh(garbage).(control := Uri, calls := [OnMethod(0, |h.verb|)])
  }

  function AfterVersion(h: HeadText, garbage: nat): Machine {
    var m, p := AfterTarget(AfterVerb(h, garbage), h, TargetAt(h)), VersionAt(h);
    m.(control := LineStart, mark := p, calls := m.calls + [OnVersion(p, 8)])
  }

  function AfterHead(h: HeadText, garbage: nat): Machine {
    var m := AfterLines(AfterVersion(h, garbage), h.lines, LinesAt(h));
    m.(control := Finished, fieldStart := BlankAt(h), bodyStart := |Text(h)|, calls := m.calls + [OnHeaderDone(|Text(h)|)])
  }

  lemma ReadVerb(h: HeadText, s: string, garbage: nat, relaxed: bool)
    requires At(s, 0, h.verb + " ") && VerbOk(h.verb)
    ensures TargetAt(h) <= |s| && Run(Fresh(garbage), s, 0, relaxed) == Run(AfterVerb(h, garbage), s, TargetAt(h), relaxed)
  {
    hide Run, At, VerbOk;
    AtBound(s, 0, h.verb + " ");
    MethodSegment(Fresh(garbage), s, 0, h.verb, relaxed);
    assert [] + [OnMethod(0, |h.verb|)] == [OnMethod(0, |h.verb|)];
  }

  lemma ReadVersion(h: HeadText, s: string, garbage: nat, relaxed: bool)
    requires Text(h) <= s && WellFormed(h, relaxed)
    ensures LinesAt(h) <= |s| && Run(Fresh(garbage), s, 0, relaxed) == Run(AfterVersion(h, garbage), s, LinesAt(h), relaxed)
  {
    hide Run, At, VerbOk, TargetOk, IsLine, Text, TargetText, VersionText, LinesText, AfterTarget;
    HeadInParts(h, s);
    AtBound(s, TargetAt(h), TargetText(h));
    AtBound(s, VersionAt(h), VersionText(h.minor, h.crlf));
    ReadVerb(h, s, garbage, relaxed);
    ReadTarget(AfterVerb(h, garbage), s, TargetAt(h), h, relaxed);
    VersionSegment(AfterTarget(AfterVerb(h, garbage), h, TargetAt(h)), s, VersionAt(h), h.minor, h.crlf, relaxed);
  }

  /** The automaton reads a well-formed head and stops right behind it. */
  lemma ReadHead(h: HeadText, s: string, garbage: nat, relaxed: bool)
    requires Text(h) <= s && WellFormed(h, relaxed)
    ensures Run(Fresh(garbage), s, 0, relaxed) == (AfterHead(h, garbage), |Text(h)|)
  {
    hide Run, At, VerbOk, TargetOk, IsLine, Text, TargetText, VersionText, LinesText, AfterTarget, AfterLines, Eol;
    HeadInParts(h, s);
    AtBound(s, LinesAt(h), LinesText(h.lines));
    ReadVersion(h, s, garbage, relaxed);
    LinesSegment(AfterVersion(h, garbage), s, LinesAt(h), h.lines, relaxed);
    BlankLine(AfterLines(AfterVersion(h, garbage), h.lines, LinesAt(h)), s, BlankAt(h), h.endCrlf, relaxed);
  }

  // ---------------------------------------------------------------- what is built

  /** The request of a head: the first listed method whose name the verb begins with, or an error and no method. */
  function BuiltOf(h: HeadText): Built {
    var verb := CharsToHttpMethod(h.verb);
    Built(NEW_REQUEST.(verb := if verb == INVALID_METHOD then GET_METHOD else verb,
                       version := if h.minor == '1' then 0x11 else 0x10,
                       path := h.path,
                       query := if h.query.Some? then h.query.value else "",
                       fragment := if h.fragment.Some? then h.fragment.value else "",
                       headers := SetAll([], HeadersOf(h.lines))),
          if verb == INVALID_METHOD then 1000 else 0)
  }

  lemma {:induction false} FirstMatchMeaning(t: string, i: nat)
    requires i <= |NAMES|
    ensures var k := FirstMatch(t, i);
            && i <= k <= |NAMES| && (k < |NAMES| ==> NAMES[k] <= t)
            && forall j :: i <= j < k ==> !(NAMES[j] <= t)
    decreases |NAMES| - i
  {
    hide NAMES;
    if i < |NAMES| {
      FirstMatchMeaning(t, i + 1);
    }
  }

  /** The method of a verb: the first listed one whose name it begins with, or none. */
  lemma MethodMeaning(t: string)
    ensures var k := CharsToHttpMethod(t);
            && |NAMES| == INVALID_METHOD && k <= INVALID_METHOD
            && (k < INVALID_METHOD ==> NAMES[k] <= t)
            && forall j :: 0 <= j < k ==> !(NAMES[j] <= t)
  {
    hide NAMES;
    Count();
    FirstMatchMeaning(t, 0);
  }

  lemma {:induction false} MatchBefore(verb: string, rest: string, i: nat)
    requires i <= |NAMES|
    ensures FirstMatch(verb + " " + rest, i) == FirstMatch(verb, i)
    decreases |NAMES| - i
  {
    hide NAMES;
    if i < |NAMES| {
      Count();
      NameChars(i);
      var t := verb + " " + rest;
      if |verb| < |NAMES[i]| {
        assert t[|verb|] == ' ' && NAMES[i][|verb|] != ' ';
      } else {
        assert t[..|NAMES[i]|] == verb[..|NAMES[i]|];
      }
      MatchBefore(verb, rest, i + 1);
    }
  }

  lemma VerbBuilt(h: HeadText, s: string, garbage: nat)
    requires At(s, 0, h.verb + " ")
    ensures var verb := CharsToHttpMethod(h.verb);
            HandleAll(NewParser(garbage).built, s, AfterVerb(h, garbage).calls)
            == Built(NEW_REQUEST.(verb := if verb == INVALID_METHOD then GET_METHOD else verb),
                     if verb == INVALID_METHOD then 1000 else 0)
  {
    hide FirstMatch;
    assert s == h.verb + " " + s[|h.verb| + 1..];
    MatchBefore(h.verb, s[|h.verb| + 1..], 0);
    HandleSnoc(NewParser(garbage).built, s, [], OnMethod(0, |h.verb|));
    assert [] + [OnMethod(0, |h.verb|)] == [OnMethod(0, |h.verb|)];
  }

  function WithTarget(b: Built, h: HeadText): Built {
    b.(request := b.request.(path := h.path,
                             query := if h.query.Some? then h.query.value else b.request.query,
                             fragment := if h.fragment.Some? then h.fragment.value else b.request.fragment))
  }

  lemma PathBuilt(b: Built, m: Machine, s: string, p: nat, h: HeadText)
    requires At(s, p, TargetText(h))
    ensures HandleAll(b, s, AfterPathOf(m, h, p).calls)
            == (var k := HandleAll(b, s, m.calls); k.(request := k.request.(path := h.path)))
  {
    hide HandleAll, TargetText, At, Slice, CharsToHttpMethod;
    TargetParts(s, p, h);
    AtSplit(s, p, h.path, [PathStop(h)]);
    SliceAt(s, p, h.path);
    var c1 := m.calls + [OnPath(p, |h.path|)];
    HandleSnoc(b, s, m.calls, OnPath(p, |h.path|));
    HandleSnoc(b, s, c1, OnUri(p, |h.path|));
    assert m.calls + [OnPath(p, |h.path|), OnUri(p, |h.path|)] == c1 + [OnUri(p, |h.path|)];
  }

  lemma QueryBuilt(b: Built, m: Machine, s: string, p: nat, h: HeadText)
    requires At(s, p, TargetText(h)) && h.query.Some?
    ensures HandleAll(b, s, AfterQueryOf(m, h, p).calls)
            == (var k := HandleAll(b, s, AfterPathOf(m, h, p).calls); k.(request := k.request.(query := h.query.value)))
  {
    hide HandleAll, TargetText, At, Slice, AfterPathOf, CharsToHttpMethod;
    TargetParts(s, p, h);
    var q, calls := p + |h.path| + 1, AfterPathOf(m, h, p).calls;
    AtSplit(s, q, h.query.value, [QueryStop(h)]);
    SliceAt(s, q, h.query.value);
    var c1 := calls + [OnQuery(q, |h.query.value|)];
    HandleSnoc(b, s, calls, OnQuery(q, |h.query.value|));
    HandleSnoc(b, s, c1, OnUri(p, q + |h.query.value| - p));
    assert calls + [OnQuery(q, |h.query.value|), OnUri(p, q + |h.query.value| - p)] == c1 + [OnUri(p, q + |h.query.value| - p)];
  }

  lemma TargetBuilt(b: Built, m: Machine, s: string, p: nat, h: HeadText)
    requires At(s, p, TargetText(h))
    ensures HandleAll(b, s, AfterTarget(m, h, p).calls) == WithTarget(HandleAll(b, s, m.calls), h)
  {
    hide HandleAll, TargetText, At, Slice, AfterPathOf, CharsToHttpMethod;
    PathBuilt(b, m, s, p, h);
    if h.query.Some? {
      QueryBuilt(b, m, s, p, h);
    }
    if h.fragment.Some? {
      TargetParts(s, p, h);
      var f := FragmentAt(h, p);
      AtSplit(s, f, h.fragment.value, " ");
      SliceAt(s, f, h.fragment.value);
      HandleSnoc(b, s, AfterQueryOf(m, h, p).calls, OnFragment(f, |h.fragment.value|));
    }
  }

  lemma VersionAgrees(s: string, p: nat, minor: char, crlf: bool)
    requires At(s, p, VersionText(minor, crlf)) && minor in {'0', '1'}
    ensures p <= |s| && (AgreesFor(s[p..], "HTTP/1.1", 8) <==> minor == '1') && (AgreesFor(s[p..], "HTTP/1.0", 8) <==> minor == '0')
  {
    var t, v := s[p..], VersionText(minor, crlf);
    assert t[..|v|] == v;
    assert "HTTP/1.1"[..8] == "HTTP/1.1" && "HTTP/1.0"[..8] == "HTTP/1.0";
    assert t[7] == t[..|v|][7] == minor;
    forall i | 0 <= i < 7 ensures t[i] == "HTTP/1."[i] {
      assert t[i] == t[..|v|][i];
    }
  }

  lemma VersionBuilt(b: Built, s: string, calls: seq<Call>, p: nat, minor: char, crlf: bool)
    requires At(s, p, VersionText(minor, crlf)) && minor in {'0', '1'}
    ensures HandleAll(b, s, calls + [OnVersion(p, 8)])
            == (var k := HandleAll(b, s, calls); k.(request := k.request.(version := if minor == '1' then 0x11 else 0x10)))
  {
    hide HandleAll, AgreesFor, At, VersionText, CharsToHttpMethod;
    VersionAgrees(s, p, minor, crlf);
    HandleSnoc(b, s, calls, OnVersion(p, 8));
  }

  lemma AllBuilt(h: HeadText, s: string, garbage: nat, relaxed: bool)
    requires Text(h) <= s && WellFormed(h, relaxed)
    ensures HandleAll(NewParser(garbage).built, s, AfterHead(h, garbage).calls) == BuiltOf(h)
  {
    hide HandleAll, TargetText, VersionText, LinesText, At, AfterTarget, AfterLines, SetAll, HeadersOf, CharsToHttpMethod;
    hide Text, VerbOk, TargetOk, IsLine, Eol, LinesAt, VersionAt;
    HeadInParts(h, s);
    var b := NewParser(garbage).built;
    VerbBuilt(h, s, garbage);
    TargetBuilt(b, AfterVerb(h, garbage), s, TargetAt(h), h);
    VersionBuilt(b, s, AfterTarget(AfterVerb(h, garbage), h, TargetAt(h)).calls, VersionAt(h), h.minor, h.crlf);
    LinesBuilt(b, AfterVersion(h, garbage), s, LinesAt(h), h.lines);
    HandleSnoc(b, s, AfterLines(AfterVersion(h, garbage), h.lines, LinesAt(h)).calls, OnHeaderDone(|Text(h)|));
  }

  lemma TextNotEmpty(h: HeadText)
    ensures Text(h) != ""
  {
    hide TargetText, VersionText, LinesText, Eol;
    assert |h.verb + " "| > 0;
  }

  /** On every text that begins with a well-formed head, one execution finishes right behind the head and builds its
      method, version, path, query, fragment and headers. */
  lemma HeadParsed(h: HeadText, s: string, garbage: nat, relaxed: bool)
    requires Text(h) <= s && WellFormed(h, relaxed)
    ensures var (p, n) := ExecuteRequest(NewParser(garbage), s, relaxed);
            IsFinished(p) && n == |Text(h)| && p.built == BuiltOf(h)
  {
    hide Run, HandleAll, WellFormed, BuiltOf, Text;
    TextNotEmpty(h);
    ReadHead(h, s, garbage, relaxed);
    AllBuilt(h, s, garbage, relaxed);
    ControlOfHead(h, garbage);
  }

  lemma ControlOfHead(h: HeadText, garbage: nat)
    ensures AfterHead(h, garbage).control == Finished
  {
  }
}
