/** How the request automaton reads the parts of a head. */
module HttpSegments {
  import opened Codec
  import opened HttpGrammar
  import opened HttpRequests
  import opened HttpAutomaton
  import opened HttpParsing

  /** The text `t` stands at position `p` of `s`. */
  ghost predicate At(s: string, p: nat, t: string) {
    p + |t| <= |s| && s[p..p + |t|] == t
  }

  lemma AtChar(s: string, p: nat, t: string, i: nat)
    requires At(s, p, t) && i < |t|
    ensures s[p + i] == t[i]
  {
  }

  lemma AtSplit(s: string, p: nat, a: string, b: string)
    requires At(s, p, a + b)
    ensures At(s, p, a) && At(s, p + |a|, b)
  {
    assert s[p..p + |a|] == s[p..p + |a + b|][..|a|] == a;
    assert s[p + |a|..p + |a| + |b|] == s[p..p + |a + b|][|a|..] == b;
  }

  lemma AtBound(s: string, p: nat, t: string)
    requires At(s, p, t)
    ensures p + |t| <= |s|
  {
  }

  lemma AtDrop(s: string, p: nat, t: string, k: nat)
    requires At(s, p, t) && k <= |t|
    ensures At(s, p + k, t[k..])
  {
  }

  // ---------------------------------------------------------------- characters

  /** The automaton's tables of characters are those of the standards, but for what is said there. */
  lemma CharsAgree(c: char, relaxed: bool)
    ensures MethodChar(c) <==> VerbChar(c)
    ensures HexChar(c) <==> Hex(c)
    ensures PathChar(c, relaxed) <==> PChar(c, relaxed)
    ensures FieldChar(c) <==> NameChar(c)
  {
  }

  // ---------------------------------------------------------------- the method

  lemma {:induction false} MethodRest(m: Machine, s: string, p: nat, n: nat, t: string, relaxed: bool)
    requires m.control == Method(n) && n + |t| <= 20 && At(s, p, t) && forall i :: 0 <= i < |t| ==> VerbChar(t[i])
    ensures Run(m, s, p, relaxed) == Run(m.(control := Method(n + |t|)), s, p + |t|, relaxed)
    decreases |t|
  {
    hide Run, MethodChar, VerbChar;
    if t != "" {
      AtChar(s, p, t, 0);
      CharsAgree(t[0], relaxed);
      MethodStep(m, n, s[p], p, relaxed);
      StepsOn(m, s, p, relaxed);
      AtDrop(s, p, t, 1);
      MethodRest(m.(control := Method(n + 1)), s, p + 1, n + 1, t[1..], relaxed);
    } else {
      assert m.(control := Method(n + |t|)) == m;
    }
  }

  lemma MethodStep(m: Machine, n: nat, c: char, p: nat, relaxed: bool)
    requires m.control == Method(n) && n < 20 && MethodChar(c)
    ensures Step(m, c, p, relaxed) == m.(control := Method(n + 1))
  {
  }

  /** From the start over the method and the space after it. */
  lemma MethodSegment(m: Machine, s: string, p: nat, verb: string, relaxed: bool)
    requires m.control == Start && At(s, p, verb + " ") && VerbOk(verb)
    ensures Run(m, s, p, relaxed)
            == Run(m.(control := Uri, mark := p, calls := m.calls + [OnMethod(p, |verb|)]), s, p + |verb| + 1, relaxed)
  {
    hide Run, MethodChar, VerbChar, At;
    AtSplit(s, p, verb, " ");
    AtChar(s, p, verb, 0);
    AtChar(s, p + |verb|, " ", 0);
    CharsAgree(verb[0], relaxed);
    var m1 := m.(control := Method(1), mark := p);
    MethodStart(m, s[p], p, relaxed);
    AtBound(s, p, verb);
    StepsOn(m, s, p, relaxed);
    AtDrop(s, p, verb, 1);
    MethodRest(m1, s, p + 1, 1, verb[1..], relaxed);
    var m2 := m1.(control := Method(|verb|));
    AtBound(s, p + |verb|, " ");
    MethodEnd(m2, s[p + |verb|], p + |verb|, relaxed);
    StepsOn(m2, s, p + |verb|, relaxed);
  }

  lemma MethodStart(m: Machine, c: char, p: nat, relaxed: bool)
    requires m.control == Start && MethodChar(c)
    ensures Step(m, c, p, relaxed) == m.(control := Method(1), mark := p)
  {
  }

  lemma MethodEnd(m: Machine, c: char, p: nat, relaxed: bool)
    requires m.control.Method? && c == ' '
    ensures Step(m, c, p, relaxed) == m.(control := Uri, calls := m.calls + [OnMethod(m.mark, p - m.mark)])
  {
  }

  // ---------------------------------------------------------------- plain characters and escapes

  function Stay(place: Place): Control {
    match place case InPath => Path case InBare => Rootless case InQuery => Query case InFragment => Fragment
  }

  function InEscape(place: Place, n: nat): Control {
    match place case InPath => PathHex(n) case InBare => RootlessHex(n) case InQuery => QueryHex(n) case InFragment => FragmentHex(n)
  }

  lemma PlainSteps(m: Machine, place: Place, c: char, p: nat, relaxed: bool)
    ensures m.control == Stay(place) && Plain(place, c, relaxed) ==> Step(m, c, p, relaxed) == m
    ensures m.control == Stay(place) && c == '%' ==> Step(m, c, p, relaxed) == m.(control := InEscape(place, 0))
  {
    hide PathChar, PChar;
    CharsAgree(c, relaxed);
    if PChar(c, relaxed) {
      PCharExcludes(c, relaxed);
    }
  }

  lemma PCharExcludes(c: char, relaxed: bool)
    requires PChar(c, relaxed)
    ensures c !in {' ', '#', '?', '%', '/'}
  {
  }

  lemma EscapeSteps(m: Machine, place: Place, c: char, p: nat, relaxed: bool)
    requires Hex(c)
    ensures m.control == InEscape(place, 0) ==> Step(m, c, p, relaxed) == m.(control := InEscape(place, 1))
    ensures m.control == InEscape(place, 1) ==> Step(m, c, p, relaxed) == m.(control := Stay(place))
  {
    hide HexChar, Hex;
    CharsAgree(c, relaxed);
  }

  /** The automaton stays where it is over text of its place. */
  lemma {:induction false} TextSegment(m: Machine, s: string, p: nat, place: Place, t: string, relaxed: bool)
    requires m.control == Stay(place) && At(s, p, t) && Escaped(place, t, relaxed)
    ensures Run(m, s, p, relaxed) == Run(m, s, p + |t|, relaxed)
    decreases |t|
  {
    hide Run, Step, Plain, Hex, At, Stops;
    if t != "" {
      AtBound(s, p, t);
      AtChar(s, p, t, 0);
      GoesOnInside(place);
      if Plain(place, t[0], relaxed) && Escaped(place, t[1..], relaxed) {
        PlainSteps(m, place, s[p], p, relaxed);
        StepsOn(m, s, p, relaxed);
        AtDrop(s, p, t, 1);
        TextSegment(m, s, p + 1, place, t[1..], relaxed);
      } else {
        EscapeSegment(m, s, p, place, t, relaxed);
        AtDrop(s, p, t, 3);
        TextSegment(m, s, p + 3, place, t[3..], relaxed);
      }
    }
  }

  lemma GoesOnInside(place: Place)
    ensures !Stops(Stay(place)) && forall n :: !Stops(InEscape(place, n))
  {
  }

  lemma EscapeSegment(m: Machine, s: string, p: nat, place: Place, t: string, relaxed: bool)
    requires m.control == Stay(place) && At(s, p, t) && |t| >= 3 && t[0] == '%' && Hex(t[1]) && Hex(t[2])
    ensures p + 3 <= |s| && Run(m, s, p, relaxed) == Run(m, s, p + 3, relaxed)
  {
    hide Run, Step, Plain, Hex, At, Stay, InEscape, Stops;
    AtBound(s, p, t);
    AtChar(s, p, t, 0);
    AtChar(s, p, t, 1);
    AtChar(s, p, t, 2);
    GoesOnInside(place);
    var h0, h1 := m.(control := InEscape(place, 0)), m.(control := InEscape(place, 1));
    PlainSteps(m, place, s[p], p, relaxed);
    EscapeSteps(h0, place, s[p + 1], p + 1, relaxed);
    EscapeSteps(h1, place, s[p + 2], p + 2, relaxed);
    assert h1.(control := Stay(place)) == m;
    StepsOn(m, s, p, relaxed);
    StepsOn(h0, s, p + 1, relaxed);
    StepsOn(h1, s, p + 2, relaxed);
  }

  // ---------------------------------------------------------------- the path

  /** Where the character after a path, a query or a fragment leads. */
  function AfterStop(stop: char): Control {
    if stop == '#' then FragmentStart else if stop == '?' then QueryStart else Version(0)
  }

  /** What the end of a path calls: the path, and the whole target unless a query follows. */
  function PathCalls(p: nat, n: nat, stop: char): seq<Call> {
    if stop == '?' then [OnPath(p, n)] else [OnPath(p, n), OnUri(p, n)]
  }

  lemma PathStops(m: Machine, stop: char, p: nat, relaxed: bool)
    requires m.control in {Path, Rootless, Slash} && stop in {' ', '#', '?'} && m.mark <= p
    ensures Step(m, stop, p, relaxed)
            == m.(control := AfterStop(stop), calls := m.calls + PathCalls(m.mark, p - m.mark, stop))
  {
  }

  lemma EmptyPath(m: Machine, stop: char, p: nat, relaxed: bool)
    requires m.control == Uri && stop in {' ', '#', '?'}
    ensures Step(m, stop, p, relaxed) == m.(control := AfterStop(stop), mark := p, calls := m.calls + PathCalls(p, 0, stop))
  {
  }

  lemma UriSlash(m: Machine, p: nat, relaxed: bool)
    requires m.control == Uri
    ensures Step(m, '/', p, relaxed) == m.(control := Slash, mark := p)
  {
  }

  /** After the first slash anything but another slash is read as further on in the path. */
  lemma SlashIsPath(m: Machine, s: string, p: nat, relaxed: bool)
    requires m.control == Slash && p < |s| && s[p] != '/'
    ensures Run(m, s, p, relaxed) == Run(m.(control := Path), s, p, relaxed)
  {
    hide PathChar;
    var k := m.(control := Path);
    assert Step(m, s[p], p, relaxed) == Step(k, s[p], p, relaxed) by {
      hide Run;
    }
    hide Step;
  }

  lemma RootedSegment(m: Machine, s: string, p: nat, path: string, stop: char, relaxed: bool)
    requires m.control == Uri && At(s, p, path + [stop]) && Rooted(path, relaxed) && stop in {' ', '?', '#'}
    ensures Run(m, s, p, relaxed) == Run(m.(control := Path, mark := p), s, p + |path|, relaxed)
    ensures p + |path| < |s| && s[p + |path|] == stop
  {
    hide Run, Step, At, Escaped;
    AtBound(s, p, path + [stop]);
    AtChar(s, p, path + [stop], 0);
    AtChar(s, p, path + [stop], |path|);
    UriSlash(m, p, relaxed);
    StepsOn(m, s, p, relaxed);
    var m1 := m.(control := Slash, mark := p);
    AtChar(s, p, path + [stop], 1);
    SlashIsPath(m1, s, p + 1, relaxed);
    AtSplit(s, p, path, [stop]);
    AtDrop(s, p, path, 1);
    TextSegment(m1.(control := Path), s, p + 1, InPath, path[1..], relaxed);
  }

  /** The first character of a path that is not rooted sets its mark. */
  lemma UriIsBare(m: Machine, s: string, p: nat, relaxed: bool)
    requires m.control == Uri && p < |s| && !Alpha(s[p]) && (s[p] == '%' || Plain(InBare, s[p], relaxed))
    ensures Run(m, s, p, relaxed) == Run(m.(control := Rootless, mark := p), s, p, relaxed)
  {
    hide PathChar, PChar;
    CharsAgree(s[p], relaxed);
    if PChar(s[p], relaxed) {
      PCharExcludes(s[p], relaxed);
    }
    var k := m.(control := Rootless, mark := p);
    assert Step(m, s[p], p, relaxed) == Step(k, s[p], p, relaxed) by {
      hide Run;
    }
    hide Step;
  }

  lemma BareFirst(t: string, relaxed: bool)
    requires Escaped(InBare, t, relaxed) && t != ""
    ensures t[0] == '%' || Plain(InBare, t[0], relaxed)
  {
  }

  lemma BareSlash(m: Machine, p: nat, relaxed: bool)
    requires m.control == Rootless
    ensures Step(m, '/', p, relaxed) == m.(control := Path)
  {
  }

  lemma BareSegment(m: Machine, s: string, p: nat, path: string, k: nat, stop: char, relaxed: bool)
    requires m.control == Uri && At(s, p, path + [stop]) && BareTo(path, k, relaxed) && stop in {' ', '?', '#'}
    ensures var last := if k < |path| then Path else Rootless;
            Run(m, s, p, relaxed) == Run(m.(control := last, mark := p), s, p + |path|, relaxed)
    ensures p + |path| < |s| && s[p + |path|] == stop
  {
    hide Run, Step, At, Escaped, Plain;
    AtBound(s, p, path + [stop]);
    AtChar(s, p, path + [stop], 0);
    AtChar(s, p, path + [stop], |path|);
    AtSplit(s, p, path, [stop]);
    BareFirst(path[..k], relaxed);
    UriIsBare(m, s, p, relaxed);
    var m1 := m.(control := Rootless, mark := p);
    assert path == path[..k] + path[k..];
    AtSplit(s, p, path[..k], path[k..]);
    TextSegment(m1, s, p, InBare, path[..k], relaxed);
    if k < |path| {
      AtChar(s, p, path, k);
      BareSlash(m1, p + k, relaxed);
      StepsOn(m1, s, p + k, relaxed);
      AtDrop(s, p, path, k + 1);
      TextSegment(m1.(control := Path), s, p + k + 1, InPath, path[k + 1..], relaxed);
    }
  }

  /** From the target's first character over the character `stop` after the path. */
  lemma PathSegment(m: Machine, s: string, p: nat, path: string, stop: char, relaxed: bool)
    requires m.control == Uri && At(s, p, path + [stop]) && PathOk(path, relaxed) && stop in {' ', '?', '#'}
    ensures Run(m, s, p, relaxed)
            == Run(m.(control := AfterStop(stop), mark := p, calls := m.calls + PathCalls(p, |path|, stop)),
                   s, p + |path| + 1, relaxed)
  {
    hide Run, Step, At, Rooted, BareTo, PathCalls, AfterStop;
    AtBound(s, p, path + [stop]);
    AtChar(s, p, path + [stop], |path|);
    StopGoesOn(stop);
    if path == "" {
      EmptyPath(m, stop, p, relaxed);
      StepsOn(m, s, p, relaxed);
    } else if Rooted(path, relaxed) {
      RootedSegment(m, s, p, path, stop, relaxed);
      var m1 := m.(control := Path, mark := p);
      PathStops(m1, stop, p + |path|, relaxed);
      StepsOn(m1, s, p + |path|, relaxed);
    } else {
      var k: nat :| BareTo(path, k, relaxed);
      BareSegment(m, s, p, path, k, stop, relaxed);
      var m1 := m.(control := if k < |path| then Path else Rootless, mark := p);
      PathStops(m1, stop, p + |path|, relaxed);
      StepsOn(m1, s, p + |path|, relaxed);
    }
  }

  lemma StopGoesOn(stop: char)
    ensures !Stops(AfterStop(stop))
  {
  }

  // ---------------------------------------------------------------- query and fragment

  /** The first character of a query, or the one after an empty query, sets its mark. */
  lemma QueryStarts(m: Machine, s: string, p: nat, relaxed: bool)
    requires m.control == QueryStart && p < |s| && !NextInQuery(s[p], relaxed).Error?
    ensures Run(m, s, p, relaxed) == Run(m.(control := Query, queryStart := p), s, p, relaxed)
  {
    hide QueryChar;
    var k := m.(control := Query, queryStart := p);
    assert Step(m, s[p], p, relaxed) == Step(k, s[p], p, relaxed) by {
      hide Run;
    }
    hide Step;
  }

  lemma FragmentStarts(m: Machine, s: string, p: nat, relaxed: bool)
    requires m.control == FragmentStart && p < |s| && !NextInFragment(s[p], relaxed).Error?
    ensures Run(m, s, p, relaxed) == Run(m.(control := Fragment, mark := p), s, p, relaxed)
  {
    hide QueryChar;
    var k := m.(control := Fragment, mark := p);
    assert Step(m, s[p], p, relaxed) == Step(k, s[p], p, relaxed) by {
      hide Run;
    }
    hide Step;
  }

  lemma FirstGoesOn(place: Place, t: string, stop: char, relaxed: bool)
    requires place in {InQuery, InFragment} && Escaped(place, t, relaxed) && (stop == ' ' || (stop == '#' && place == InQuery))
    ensures var c := (t + [stop])[0];
            !(if place == InQuery then NextInQuery(c, relaxed) else NextInFragment(c, relaxed)).Error?
  {
    hide PathChar, PChar;
    CharsAgree((t + [stop])[0], relaxed);
  }

  lemma QueryStops(m: Machine, stop: char, p: nat, relaxed: bool)
    requires m.control == Query && stop in {' ', '#'}
    ensures Step(m, stop, p, relaxed)
            == m.(control := AfterStop(stop),
                  calls := m.calls + [OnQuery(m.queryStart, p - m.queryStart), OnUri(m.mark, p - m.mark)])
  {
  }

  /** From the character after the question mark over the character `stop` after the query. */
  lemma QuerySegment(m: Machine, s: string, q: nat, query: string, stop: char, relaxed: bool)
    requires m.control == QueryStart && At(s, q, query + [stop]) && Escaped(InQuery, query, relaxed) && stop in {' ', '#'}
    ensures Run(m, s, q, relaxed)
            == Run(m.(control := AfterStop(stop), queryStart := q,
                      calls := m.calls + [OnQuery(q, |query|), OnUri(m.mark, q + |query| - m.mark)]),
                   s, q + |query| + 1, relaxed)
  {
    hide Run, Step, At, Escaped, NextInQuery, AfterStop;
    AtBound(s, q, query + [stop]);
    AtChar(s, q, query + [stop], 0);
    AtChar(s, q, query + [stop], |query|);
    FirstGoesOn(InQuery, query, stop, relaxed);
    StopGoesOn(stop);
    QueryStarts(m, s, q, relaxed);
    var m1 := m.(control := Query, queryStart := q);
    AtSplit(s, q, query, [stop]);
    TextSegment(m1, s, q, InQuery, query, relaxed);
    QueryStops(m1, stop, q + |query|, relaxed);
    StepsOn(m1, s, q + |query|, relaxed);
  }

  lemma FragmentStops(m: Machine, p: nat, relaxed: bool)
    requires m.control == Fragment
    ensures Step(m, ' ', p, relaxed) == m.(control := Version(0), calls := m.calls + [OnFragment(m.mark, p - m.mark)])
  {
  }

  /** From the character after the sign over the space after the fragment. */
  lemma FragmentSegment(m: Machine, s: string, q: nat, fragment: string, relaxed: bool)
    requires m.control == FragmentStart && At(s, q, fragment + " ") && Escaped(InFragment, fragment, relaxed)
    ensures Run(m, s, q, relaxed)
            == Run(m.(control := Version(0), mark := q, calls := m.calls + [OnFragment(q, |fragment|)]),
                   s, q + |fragment| + 1, relaxed)
  {
    hide Run, Step, At, Escaped, NextInFragment;
    AtBound(s, q, fragment + " ");
    AtChar(s, q, fragment + " ", 0);
    AtChar(s, q, fragment + " ", |fragment|);
    FirstGoesOn(InFragment, fragment, ' ', relaxed);
    FragmentStarts(m, s, q, relaxed);
    var m1 := m.(control := Fragment, mark := q);
    AtSplit(s, q, fragment, " ");
    TextSegment(m1, s, q, InFragment, fragment, relaxed);
    FragmentStops(m1, q + |fragment|, relaxed);
    StepsOn(m1, s, q + |fragment|, relaxed);
  }

  // ---------------------------------------------------------------- the version

  lemma VersionSteps(m: Machine, n: nat, p: nat, relaxed: bool)
    ensures 0 < n < 7 && m.control == Version(n) ==> Step(m, VERSION_TEXT[n], p, relaxed) == m.(control := Version(n + 1))
    ensures m.control == Version(0) ==> Step(m, 'H', p, relaxed) == m.(control := Version(1), mark := p)
    ensures m.control == Version(7) ==>
              Step(m, '0', p, relaxed) == m.(control := Version(8)) && Step(m, '1', p, relaxed) == m.(control := Version(8))
    ensures m.control == Version(8) ==>
              && Step(m, '\r', p, relaxed) == m.(control := LineEnd, calls := m.calls + [OnVersion(m.mark, p - m.mark)])
              && Step(m, '\n', p, relaxed) == m.(control := LineStart, calls := m.calls + [OnVersion(m.mark, p - m.mark)])
    ensures m.control == LineEnd ==> Step(m, '\n', p, relaxed) == m.(control := LineStart)
  {
  }

  lemma VersionConstant()
    ensures |VERSION_TEXT| == 7 && VERSION_TEXT == "HTTP/1." && VERSION_TEXT[0] == 'H'
  {
  }

  /** `n` characters of HTTP/1. have been read, and they go on to the `k`-th. */
  lemma {:induction false} VersionRest(m: Machine, s: string, p: nat, n: nat, k: nat, relaxed: bool)
    requires m.control == Version(n) && 0 < n <= k <= 7 && p + k <= |s|
    requires forall i :: n <= i < k ==> s[p + i] == VERSION_TEXT[i]
    ensures Run(m, s, p + n, relaxed) == Run(m.(control := Version(k)), s, p + k, relaxed)
    decreases k - n
  {
    hide Run, Step, VERSION_TEXT;
    VersionConstant();
    if n < k {
      VersionSteps(m, n, p + n, relaxed);
      StepsOn(m, s, p + n, relaxed);
      VersionRest(m.(control := Version(n + 1)), s, p, n + 1, k, relaxed);
    } else {
      assert m.(control := Version(k)) == m;
    }
  }

  lemma VersionChars(s: string, p: nat, minor: char, crlf: bool)
    requires At(s, p, VersionText(minor, crlf))
    ensures |VersionText(minor, crlf)| == (if crlf then 10 else 9) && p + |VersionText(minor, crlf)| <= |s|
    ensures (forall i :: 0 <= i < 7 ==> s[p + i] == VERSION_TEXT[i]) && s[p + 7] == minor
    ensures if crlf then s[p + 8] == '\r' && s[p + 9] == '\n' else s[p + 8] == '\n'
  {
    var t := VersionText(minor, crlf);
    forall i | 0 <= i < |t| ensures s[p + i] == t[i] {
      AtChar(s, p, t, i);
    }
  }

  /** The version and the end of its line. */
  lemma VersionSegment(m: Machine, s: string, p: nat, minor: char, crlf: bool, relaxed: bool)
    requires m.control == Version(0) && At(s, p, VersionText(minor, crlf)) && minor in {'0', '1'}
    ensures Run(m, s, p, relaxed)
            == Run(m.(control := LineStart, mark := p, calls := m.calls + [OnVersion(p, 8)]),
                   s, p + |VersionText(minor, crlf)|, relaxed)
  {
    hide Run, Step, At, VersionText, VERSION_TEXT;
    VersionConstant();
    VersionChars(s, p, minor, crlf);
    VersionSteps(m, 0, p, relaxed);
    assert s[p + 0] == 'H';
    StepsOn(m, s, p, relaxed);
    var m1 := m.(control := Version(1), mark := p);
    VersionRest(m1, s, p, 1, 7, relaxed);
    VersionTail(m1.(control := Version(7)), s, p, minor, crlf, relaxed);
  }

  /** The minor version and the end of the line. */
  lemma VersionTail(m: Machine, s: string, p: nat, minor: char, crlf: bool, relaxed: bool)
    requires m.control == Version(7) && m.mark == p && At(s, p, VersionText(minor, crlf)) && minor in {'0', '1'}
    ensures p + |VersionText(minor, crlf)| <= |s| && p + 7 < |s|
    ensures Run(m, s, p + 7, relaxed)
            == Run(m.(control := LineStart, calls := m.calls + [OnVersion(p, 8)]), s, p + |VersionText(minor, crlf)|, relaxed)
  {
    hide Run, Step, At, VersionText, VERSION_TEXT;
    VersionChars(s, p, minor, crlf);
    VersionSteps(m, 7, p + 7, relaxed);
    StepsOn(m, s, p + 7, relaxed);
    var m8 := m.(control := Version(8));
    VersionSteps(m8, 8, p + 8, relaxed);
    StepsOn(m8, s, p + 8, relaxed);
    if crlf {
      var m9 := m8.(control := LineEnd, calls := m.calls + [OnVersion(p, 8)]);
      VersionSteps(m9, 9, p + 9, relaxed);
      StepsOn(m9, s, p + 9, relaxed);
    }
  }

  lemma WrongVersion(m: Machine, n: nat, c: char, p: nat, relaxed: bool)
    requires m.control == Version(n) && n < 7 && c != VERSION_TEXT[n]
    ensures Step(m, c, p, relaxed).control == Error
  {
  }

  /** A major version other than 1 is an error. */
  lemma OtherVersion(m: Machine, s: string, p: nat, major: nat, rest: string, relaxed: bool)
    requires m.control == Version(0) && major < 16 && major != 1 && At(s, p, "HTTP/" + Decimal(major) + "." + rest)
    ensures Run(m, s, p, relaxed).0.control == Error
  {
    hide Run, Step, At, Decimal, VERSION_TEXT;
    var t := "HTTP/" + Decimal(major) + "." + rest;
    AtBound(s, p, t);
    MajorDigits(major);
    VersionPrefix(s, p, t);
    AtChar(s, p, t, 5);
    AtChar(s, p, t, 6);
    VersionConstant();
    assert s[p + 0] == 'H';
    VersionSteps(m, 0, p, relaxed);
    StepsOn(m, s, p, relaxed);
    var m1 := m.(control := Version(1), mark := p);
    VersionRest(m1, s, p, 1, 5, relaxed);
    var m5 := m1.(control := Version(5));
    if major < 10 {
      WrongVersion(m5, 5, s[p + 5], p + 5, relaxed);
      StopsAt(m5, s, p + 5, relaxed);
    } else {
      VersionSteps(m5, 5, p + 5, relaxed);
      StepsOn(m5, s, p + 5, relaxed);
      var m6 := m5.(control := Version(6));
      WrongVersion(m6, 6, s[p + 6], p + 6, relaxed);
      StopsAt(m6, s, p + 6, relaxed);
    }
  }

  lemma VersionPrefix(s: string, p: nat, t: string)
    requires At(s, p, t) && "HTTP/" <= t
    ensures p + 5 <= |s| && forall i :: 0 <= i < 5 ==> s[p + i] == VERSION_TEXT[i]
  {
  }

  lemma MajorDigits(major: nat)
    requires major < 16
    ensures var d := Decimal(major);
            && (major < 10 && major != 1 ==> |d| == 1 && d[0] != VERSION_TEXT[5])
            && (major >= 10 ==> |d| == 2 && d[0] == VERSION_TEXT[5] && d[1] != VERSION_TEXT[6])
            && (major == 1 ==> d == "1")
  {
  }

  // ---------------------------------------------------------------- header lines

  lemma NameSteps(m: Machine, c: char, p: nat, relaxed: bool)
    requires NameChar(c)
    ensures m.control == LineStart && c != '\n' && c != '\r' ==> Step(m, c, p, relaxed) == m.(control := Field, fieldStart := p)
    ensures m.control == LineStart && c == '\r' ==> Step(m, c, p, relaxed) == m.(control := LastLine, fieldStart := p)
    ensures m.control == Field ==> Step(m, c, p, relaxed) == m
    ensures m.control == LastLine && c != '\n' ==> Step(m, c, p, relaxed) == m.(control := Field)
  {
    hide FieldChar, NameChar;
    CharsAgree(c, relaxed);
    NoColon(c);
  }

  lemma NoColon(c: char)
    ensures NameChar(c) ==> c != ':'
  {
  }

  lemma ColonStep(m: Machine, p: nat, relaxed: bool)
    ensures m.control == Field || m.control == LastLine ==>
              Step(m, ':', p, relaxed) == m.(control := BeforeValue, fieldLen := p - m.fieldStart)
  {
  }

  /** In a state that a kind of characters does not leave. */
  lemma {:induction false} Stays(m: Machine, s: string, p: nat, t: string, relaxed: bool)
    requires !Stops(m.control) && At(s, p, t)
    requires forall i :: 0 <= i < |t| ==> Step(m, t[i], p + i, relaxed) == m
    ensures Run(m, s, p, relaxed) == Run(m, s, p + |t|, relaxed)
    decreases |t|
  {
    hide Run, Step, At;
    if t != "" {
      AtBound(s, p, t);
      AtChar(s, p, t, 0);
      StepsOn(m, s, p, relaxed);
      AtDrop(s, p, t, 1);
      forall i | 0 <= i < |t[1..]| ensures Step(m, t[1..][i], p + 1 + i, relaxed) == m {
        assert t[1..][i] == t[i + 1];
        assert Step(m, t[i + 1], p + (i + 1), relaxed) == m;
      }
      Stays(m, s, p + 1, t[1..], relaxed);
    }
  }

  lemma NameRest(m: Machine, s: string, p: nat, name: string, k: nat, relaxed: bool)
    requires m.control == Field && At(s, p, name) && k <= |name| && forall i :: 0 <= i < |name| ==> NameChar(name[i])
    ensures p + |name| <= |s| && Run(m, s, p + k, relaxed) == Run(m, s, p + |name|, relaxed)
  {
    hide Run, Step, At, NameChar;
    AtBound(s, p, name);
    AtDrop(s, p, name, k);
    forall i | 0 <= i < |name[k..]| ensures Step(m, name[k..][i], p + k + i, relaxed) == m {
      assert name[k..][i] == name[i + k];
      NameSteps(m, name[i + k], p + k + i, relaxed);
    }
    Stays(m, s, p + k, name[k..], relaxed);
  }

  /** The name and the colon. */
  lemma NameSegment(m: Machine, s: string, p: nat, name: string, relaxed: bool)
    requires m.control == LineStart && At(s, p, name + ":") && NameOk(name)
    ensures Run(m, s, p, relaxed)
            == Run(m.(control := BeforeValue, fieldStart := p, fieldLen := |name|), s, p + |name| + 1, relaxed)
  {
    hide Run, Step, At, NameChar;
    AtBound(s, p, name + ":");
    AtChar(s, p, name + ":", 0);
    AtChar(s, p, name + ":", |name|);
    AtSplit(s, p, name, ":");
    NameSteps(m, name[0], p, relaxed);
    StepsOn(m, s, p, relaxed);
    var m1 := m.(control := Field, fieldStart := p);
    var k := 1;
    if name[0] == '\r' {
      var m0 := m.(control := LastLine, fieldStart := p);
      if |name| > 1 {
        AtChar(s, p, name, 1);
        NameSteps(m0, name[1], p + 1, relaxed);
        StepsOn(m0, s, p + 1, relaxed);
        k := 2;
      } else {
        ColonStep(m0, p + 1, relaxed);
        StepsOn(m0, s, p + 1, relaxed);
        return;
      }
    }
    NameRest(m1, s, p, name, k, relaxed);
    ColonStep(m1, p + |name|, relaxed);
    StepsOn(m1, s, p + |name|, relaxed);
  }

  lemma ValueSteps(m: Machine, c: char, p: nat, relaxed: bool)
    ensures m.control == BeforeValue && IsBlank(c) ==> Step(m, c, p, relaxed) == m.(mark := p)
    ensures m.control == BeforeValue && ValueChar(c) && !IsBlank(c) ==>
              Step(m, c, p, relaxed) == m.(control := Value, mark := p)
    ensures m.control == Value && ValueChar(c) ==> Step(m, c, p, relaxed) == m
  {
  }

  /** The end of a line behind a value. */
  lemma ValueEnds(m: Machine, c: char, p: nat, relaxed: bool)
    requires c in {'\r', '\n'}
    ensures m.control == BeforeValue ==>
              Step(m, c, p, relaxed)
              == m.(control := if c == '\r' then LineEnd else LineStart, mark := p,
                    calls := m.calls + [OnField(m.fieldStart, m.fieldLen, p, 0)])
    ensures m.control == Value ==>
              Step(m, c, p, relaxed)
              == m.(control := if c == '\r' then LineEnd else LineStart,
                    calls := m.calls + [OnField(m.fieldStart, m.fieldLen, m.mark, p - m.mark)])
    ensures m.control == LineEnd && c == '\n' ==> Step(m, c, p, relaxed) == m.(control := LineStart)
  {
  }

  lemma {:induction false} BlanksSegment(m: Machine, s: string, p: nat, blanks: string, relaxed: bool) returns (mark: nat)
    requires m.control == BeforeValue && At(s, p, blanks) && BlanksOk(blanks)
    ensures Run(m, s, p, relaxed) == Run(m.(mark := mark), s, p + |blanks|, relaxed)
    decreases |blanks|
  {
    hide Run, Step, At, IsBlank;
    mark := m.mark;
    if blanks != "" {
      AtBound(s, p, blanks);
      AtChar(s, p, blanks, 0);
      ValueSteps(m, s[p], p, relaxed);
      StepsOn(m, s, p, relaxed);
      AtDrop(s, p, blanks, 1);
      mark := BlanksSegment(m.(mark := p), s, p + 1, blanks[1..], relaxed);
    }
  }

  lemma EolChars(s: string, q: nat, crlf: bool)
    requires At(s, q, Eol(crlf))
    ensures q + |Eol(crlf)| <= |s| && s[q] == (if crlf then '\r' else '\n') && (crlf ==> s[q + 1] == '\n')
    ensures |Eol(crlf)| == if crlf then 2 else 1
  {
    AtChar(s, q, Eol(crlf), 0);
    if crlf {
      AtChar(s, q, Eol(crlf), 1);
    }
  }

  /** The characters of a value that is not empty. */
  lemma ValueChars(m: Machine, s: string, p: nat, value: string, relaxed: bool)
    requires m.control == BeforeValue && At(s, p, value) && ValueOk(value) && value != ""
    ensures Run(m, s, p, relaxed) == Run(m.(control := Value, mark := p), s, p + |value|, relaxed)
  {
    hide Run, Step, At, ValueChar, IsBlank;
    AtBound(s, p, value);
    AtChar(s, p, value, 0);
    ValueSteps(m, value[0], p, relaxed);
    StepsOn(m, s, p, relaxed);
    var m1 := m.(control := Value, mark := p);
    AtDrop(s, p, value, 1);
    forall i | 0 <= i < |value[1..]| ensures Step(m1, value[1..][i], p + 1 + i, relaxed) == m1 {
      assert value[1..][i] == value[i + 1];
      ValueSteps(m1, value[i + 1], p + 1 + i, relaxed);
    }
    Stays(m1, s, p + 1, value[1..], relaxed);
  }

  /** The value and the end of its line. */
  lemma ValueSegment(m: Machine, s: string, p: nat, value: string, crlf: bool, relaxed: bool)
    requires m.control == BeforeValue && At(s, p, value + Eol(crlf)) && ValueOk(value)
    ensures Run(m, s, p, relaxed)
            == Run(m.(control := LineStart, mark := p, calls := m.calls + [OnField(m.fieldStart, m.fieldLen, p, |value|)]),
                   s, p + |value| + |Eol(crlf)|, relaxed)
  {
    hide Run, Step, At, ValueChar, IsBlank, Eol;
    var q := p + |value|;
    AtSplit(s, p, value, Eol(crlf));
    EolChars(s, q, crlf);
    var m3 := m.(control := LineEnd, mark := p, calls := m.calls + [OnField(m.fieldStart, m.fieldLen, p, |value|)]);
    if value == "" {
      ValueEnds(m, s[q], p, relaxed);
      StepsOn(m, s, p, relaxed);
    } else {
      var m1 := m.(control := Value, mark := p);
      ValueChars(m, s, p, value, relaxed);
      ValueEnds(m1, s[q], q, relaxed);
      StepsOn(m1, s, q, relaxed);
    }
    if crlf {
      ValueEnds(m3, '\n', q + 1, relaxed);
      StepsOn(m3, s, q + 1, relaxed);
    }
  }

  /** Where a line's value begins, when the line begins at `p`. */
  function ValueAt(l: Line, p: nat): nat {
    p + |l.name| + 1 + |l.blanks|
  }

  lemma LineSegment(m: Machine, s: string, p: nat, l: Line, relaxed: bool)
    requires m.control == LineStart && At(s, p, LineText(l)) && IsLine(l)
    ensures Run(m, s, p, relaxed)
            == Run(m.(control := LineStart, mark := ValueAt(l, p), fieldStart := p, fieldLen := |l.name|,
                      calls := m.calls + [OnField(p, |l.name|, ValueAt(l, p), |l.value|)]),
                   s, p + |LineText(l)|, relaxed)
  {
    hide Run, Step, At, NameOk, ValueOk, BlanksOk, Eol;
    var q := p + |l.name| + 1;
    var m1 := m.(control := BeforeValue, fieldStart := p, fieldLen := |l.name|);
    assert LineText(l) == (l.name + ":") + (l.blanks + (l.value + Eol(l.crlf)));
    AtSplit(s, p, l.name + ":", l.blanks + (l.value + Eol(l.crlf)));
    AtSplit(s, q, l.blanks, l.value + Eol(l.crlf));
    NameSegment(m, s, p, l.name, relaxed);
    var mark := BlanksSegment(m1, s, q, l.blanks, relaxed);
    ValueSegment(m1.(mark := mark), s, ValueAt(l, p), l.value, l.crlf, relaxed);
  }

  // ---------------------------------------------------------------- the end

  /** The blank line: the automaton stops behind it. */
  lemma BlankLine(m: Machine, s: string, p: nat, crlf: bool, relaxed: bool)
    requires m.control == LineStart && At(s, p, Eol(crlf))
    ensures var end := p + |Eol(crlf)|;
            Run(m, s, p, relaxed)
            == (m.(control := Finished, fieldStart := p, bodyStart := end, calls := m.calls + [OnHeaderDone(end)]), end)
  {
    hide Run, Step, At, Eol;
    EolChars(s, p, crlf);
    EndSteps(m, p, relaxed);
    if crlf {
      StepsOn(m, s, p, relaxed);
      var m1 := m.(control := LastLine, fieldStart := p);
      EndSteps(m1, p + 1, relaxed);
      StopsAt(m1, s, p + 1, relaxed);
    } else {
      StopsAt(m, s, p, relaxed);
    }
  }

  lemma EndSteps(m: Machine, p: nat, relaxed: bool)
    ensures m.control == LineStart ==>
              && Step(m, '\r', p, relaxed) == m.(control := LastLine, fieldStart := p)
              && Step(m, '\n', p, relaxed)
                 == m.(control := Finished, fieldStart := p, bodyStart := p + 1, calls := m.calls + [OnHeaderDone(p + 1)])
    ensures m.control == LastLine ==>
              Step(m, '\n', p, relaxed)
              == m.(control := Finished, bodyStart := p + 1, calls := m.calls + [OnHeaderDone(p + 1)])
  {
  }

  lemma StopsAt(m: Machine, s: string, p: nat, relaxed: bool)
    requires p < |s|
    ensures Step(m, s[p], p, relaxed).control == Finished ==>
              Run(m, s, p, relaxed) == (Step(m, s[p], p, relaxed), p + 1)
    ensures Step(m, s[p], p, relaxed).control == Error ==> Run(m, s, p, relaxed) == (Step(m, s[p], p, relaxed), p)
  {
  }
}
