/** The texts on which the request parser finishes are exactly those that begin with a well-formed head. */
module HttpLanguage {
  import opened Codec
  import opened HttpGrammar
  import opened HttpHeaders
  import opened HttpRequests
  import opened HttpAutomaton
  import opened HttpParsing
  import opened HttpSegments
  import opened HttpRequestParsers
  import opened HttpHeads

  /** The automaton comes from `s` to `goal` with the last character of `t`, and not before. */
  predicate Reaches(s: Control, t: string, goal: Control, relaxed: bool)
    decreases |t|
  {
    t != "" && var next := Next(s, t[0], relaxed);
    if |t| == 1 then next == goal else !Stops(next) && next != goal && Reaches(next, t[1..], goal, relaxed)
  }

  lemma {:induction false} RunReaches(m: Machine, s: string, p: nat, relaxed: bool)
    requires p <= |s| && !m.control.Finished? && Run(m, s, p, relaxed).0.control.Finished?
    ensures var n := Run(m, s, p, relaxed).1; p < n && Reaches(m.control, s[p..n], Finished, relaxed)
    decreases |s| - p
  {
    hide Step, Next;
    if p < |s| {
      var m' := Step(m, s[p], p, relaxed);
      NextDecides(m, s[p], p, relaxed);
      if !Stops(m'.control) {
        RunReaches(m', s, p + 1, relaxed);
        var n := Run(m, s, p, relaxed).1;
        assert s[p..n][1..] == s[p + 1..n];
      }
    }
  }

  // ---------------------------------------------------------------- method

  lemma VerbNext(k: nat, c: char, relaxed: bool)
    ensures var next := Next(Method(k), c, relaxed);
            && (c == ' ' ==> next == Uri)
            && (c != ' ' && !next.Error? ==> k < 20 && VerbChar(c) && next == Method(k + 1))
  {
    hide MethodChar, VerbChar;
    CharsAgree(c, relaxed);
  }

  lemma {:induction false} VerbPart(k: nat, t: string, relaxed: bool) returns (verb: string, rest: string)
    requires 1 <= k <= 20 && Reaches(Method(k), t, Finished, relaxed)
    ensures t == verb + " " + rest && k + |verb| <= 20 && (forall i :: 0 <= i < |verb| ==> VerbChar(verb[i]))
    ensures Reaches(Uri, rest, Finished, relaxed)
    decreases |t|
  {
    hide VerbChar, Next;
    VerbNext(k, t[0], relaxed);
    if t[0] == ' ' {
      verb, rest := "", t[1..];
      assert t == " " + t[1..];
    } else {
      verb, rest := VerbPart(k + 1, t[1..], relaxed);
      assert t == [t[0]] + t[1..];
      verb := [t[0]] + verb;
    }
  }

  lemma StartNext(c: char, relaxed: bool)
    ensures var next := Next(Start, c, relaxed); !Stops(next) ==> VerbChar(c) && next == Method(1)
    ensures Next(Start, c, relaxed) != Finished
  {
  }

  // ---------------------------------------------------------------- plain text and escapes

  /** Where a character leads that ends the text of a place. */
  function StopControl(stop: char): Control {
    if stop == '/' then Path else AfterStop(stop)
  }

  predicate EndsPlace(place: Place, c: char) {
    match place
    case InPath => c in {' ', '#', '?'}
    case InBare => c in {' ', '#', '?', '/'}
    case InQuery => c in {' ', '#'}
    case InFragment => c == ' '
  }

  lemma StayNext(place: Place, c: char, relaxed: bool)
    ensures var next := Next(Stay(place), c, relaxed);
            && !next.Finished?
            && (!next.Error? ==>
                  || (next == InEscape(place, 0) && c == '%')
                  || (next == Stay(place) && Plain(place, c, relaxed))
                  || (next == StopControl(c) && EndsPlace(place, c)))
  {
    hide PathChar, PChar;
    CharsAgree(c, relaxed);
  }

  lemma EscapeNext(place: Place, n: nat, c: char, relaxed: bool)
    requires n < 2
    ensures var next := Next(InEscape(place, n), c, relaxed);
            !next.Finished? && (!next.Error? ==> Hex(c) && next == if n == 0 then InEscape(place, 1) else Stay(place))
  {
    hide HexChar, Hex;
    CharsAgree(c, relaxed);
  }

  lemma Unescape(place: Place, t: string, relaxed: bool)
    requires Reaches(InEscape(place, 0), t, Finished, relaxed)
    ensures |t| > 2 && Hex(t[0]) && Hex(t[1]) && Reaches(Stay(place), t[2..], Finished, relaxed)
  {
    hide Next, Hex, InEscape, Stay;
    EscapeNext(place, 0, t[0], relaxed);
    EscapeNext(place, 1, t[1], relaxed);
    assert t[1..][1..] == t[2..];
  }

  lemma {:induction false} TextPart(place: Place, t: string, relaxed: bool) returns (text: string, stop: char, rest: string)
    requires Reaches(Stay(place), t, Finished, relaxed)
    ensures t == text + [stop] + rest && Escaped(place, text, relaxed) && EndsPlace(place, stop)
    ensures Reaches(StopControl(stop), rest, Finished, relaxed)
    decreases |t|
  {
    hide Next, Stay, InEscape, StopControl, Plain, EndsPlace, Hex;
    StayNext(place, t[0], relaxed);
    assert t == [t[0]] + t[1..];
    var next := Next(Stay(place), t[0], relaxed);
    if next == InEscape(place, 0) && t[0] == '%' {
      Unescape(place, t[1..], relaxed);
      var more;
      more, stop, rest := TextPart(place, t[1..][2..], relaxed);
      text := ['%', t[1], t[2]] + more;
      assert text[3..] == more;
      assert t == ['%', t[1], t[2]] + t[1..][2..];
    } else if next == Stay(place) && Plain(place, t[0], relaxed) {
      var more;
      more, stop, rest := TextPart(place, t[1..], relaxed);
      text := [t[0]] + more;
      assert text[1..] == more;
    } else {
      text, stop, rest := "", t[0], t[1..];
    }
  }

  // ---------------------------------------------------------------- the target

  lemma SameFirst(a: Control, b: Control, t: string, relaxed: bool)
    requires Reaches(a, t, Finished, relaxed) && Next(a, t[0], relaxed) == Next(b, t[0], relaxed)
    ensures Reaches(b, t, Finished, relaxed)
  {
  }

  lemma FragmentPart(t: string, relaxed: bool) returns (fragment: string, rest: string)
    requires Reaches(FragmentStart, t, Finished, relaxed)
    ensures t == fragment + " " + rest && Escaped(InFragment, fragment, relaxed) && Reaches(Version(0), rest, Finished, relaxed)
  {
    hide NextInFragment;
    SameFirst(FragmentStart, Fragment, t, relaxed);
    var stop;
    fragment, stop, rest := TextPart(InFragment, t, relaxed);
  }

  /** What comes behind a path or a query, with the character that ends it. */
  lemma AfterQueryPart(stop: char, t: string, relaxed: bool) returns (fragment: Option<string>, rest: string)
    requires stop in {' ', '#'} && Reaches(AfterStop(stop), t, Finished, relaxed)
    ensures [stop] + t == Mark("#", fragment) + " " + rest
    ensures (fragment.Some? ==> Escaped(InFragment, fragment.value, relaxed)) && Reaches(Version(0), rest, Finished, relaxed)
  {
    hide Reaches, Escaped;
    if stop == ' ' {
      fragment, rest := None, t;
    } else {
      var f;
      f, rest := FragmentPart(t, relaxed);
      fragment := Some(f);
    }
  }

  lemma AfterPathPart(stop: char, t: string, relaxed: bool) returns (query: Option<string>, fragment: Option<string>, rest: string)
    requires stop in {' ', '#', '?'} && Reaches(AfterStop(stop), t, Finished, relaxed)
    ensures [stop] + t == Mark("?", query) + Mark("#", fragment) + " " + rest
    ensures query.Some? ==> Escaped(InQuery, query.value, relaxed)
    ensures fragment.Some? ==> Escaped(InFragment, fragment.value, relaxed)
    ensures Reaches(Version(0), rest, Finished, relaxed)
  {
    hide Reaches, Escaped, Mark;
    NoMark("?");
    if stop == '?' {
      QueryFirst(t, relaxed);
      var q, stop', t' := TextPart(InQuery, t, relaxed);
      fragment, rest := AfterQueryPart(stop', t', relaxed);
      query := Some(q);
      QueryJoined(t, q, stop', t', Mark("#", fragment), rest);
    } else {
      query := None;
      fragment, rest := AfterQueryPart(stop, t, relaxed);
      assert Mark("?", query) + Mark("#", fragment) == Mark("#", fragment);
    }
  }

  lemma NoMark(sign: string)
    ensures Mark(sign, None) == ""
  {
  }

  lemma QueryJoined(t: string, q: string, stop: char, t': string, f: string, rest: string)
    requires t == q + [stop] + t' && [stop] + t' == f + " " + rest
    ensures ['?'] + t == Mark("?", Some(q)) + f + " " + rest
  {
    assert ['?'] + t == "?" + q + ([stop] + t');
  }

  lemma QueryFirst(t: string, relaxed: bool)
    requires Reaches(QueryStart, t, Finished, relaxed)
    ensures Reaches(Query, t, Finished, relaxed)
  {
    hide NextInQuery;
    SameFirst(QueryStart, Query, t, relaxed);
  }

  lemma UriNext(c: char, relaxed: bool)
    ensures var next := Next(Uri, c, relaxed);
            && !next.Finished?
            && (!Stops(next) ==>
                  || (c in {' ', '#', '?'} && next == AfterStop(c))
                  || (c == '/' && next == Slash)
                  || (!Alpha(c) && c !in {' ', '#', '?', '/'} && next == Next(Rootless, c, relaxed)))
  {
    hide PathChar, PChar;
    CharsAgree(c, relaxed);
  }

  lemma SlashNext(c: char, relaxed: bool)
    ensures c == '/' ==> Next(Slash, c, relaxed) == Elsewhere
    ensures c != '/' ==> Next(Slash, c, relaxed) == Next(Path, c, relaxed)
  {
  }

  lemma RootedPart(t: string, relaxed: bool) returns (path: string, stop: char, rest: string)
    requires Reaches(Slash, t, Finished, relaxed)
    ensures "/" + t == path + [stop] + rest && Rooted(path, relaxed) && stop in {' ', '#', '?'}
    ensures Reaches(AfterStop(stop), rest, Finished, relaxed)
  {
    hide Next, Escaped;
    SlashNext(t[0], relaxed);
    assert t[0] != '/';
    SameFirst(Slash, Path, t, relaxed);
    var text;
    text, stop, rest := TextPart(InPath, t, relaxed);
    path := "/" + text;
    assert path[1..] == text;
    assert |text| > 0 ==> text[0] == t[0];
  }

  lemma BarePart(t: string, relaxed: bool) returns (path: string, stop: char, rest: string)
    requires Reaches(Rootless, t, Finished, relaxed) && !Alpha(t[0]) && t[0] !in {' ', '#', '?', '/'}
    ensures t == path + [stop] + rest && stop in {' ', '#', '?'} && exists k: nat :: BareTo(path, k, relaxed)
    ensures Reaches(AfterStop(stop), rest, Finished, relaxed)
  {
    hide Next, Escaped, Reaches;
    path, stop, rest := TextPart(InBare, t, relaxed);
    var k := |path|;
    assert path != "" && path[0] == t[0];
    assert path[..k] == path;
    if stop == '/' {
      var more, first := "", path;
      more, stop, rest := TextPart(InPath, rest, relaxed);
      path := first + "/" + more;
      assert path[..k] == first && path[k + 1..] == more;
    }
    assert BareTo(path, k, relaxed);
  }

  lemma PathPart(t: string, relaxed: bool) returns (path: string, stop: char, rest: string)
    requires Reaches(Uri, t, Finished, relaxed)
    ensures t == path + [stop] + rest && PathOk(path, relaxed) && stop in {' ', '#', '?'}
    ensures Reaches(AfterStop(stop), rest, Finished, relaxed)
  {
    hide Next, Escaped, Rooted, BareTo, AfterStop;
    UriNext(t[0], relaxed);
    assert t == [t[0]] + t[1..];
    if t[0] in {' ', '#', '?'} {
      path, stop, rest := "", t[0], t[1..];
    } else if t[0] == '/' {
      path, stop, rest := RootedPart(t[1..], relaxed);
    } else {
      SameFirst(Uri, Rootless, t, relaxed);
      path, stop, rest := BarePart(t, relaxed);
    }
  }

  lemma TargetPart(t: string, relaxed: bool)
    returns (path: string, query: Option<string>, fragment: Option<string>, rest: string)
    requires Reaches(Uri, t, Finished, relaxed)
    ensures t == UriText(path, query) + Mark("#", fragment) + " " + rest && TargetOk(path, query, fragment, relaxed)
    ensures Reaches(Version(0), rest, Finished, relaxed)
  {
    hide Reaches, Escaped, PathOk, Mark, AfterStop;
    var stop, t';
    path, stop, t' := PathPart(t, relaxed);
    query, fragment, rest := AfterPathPart(stop, t', relaxed);
    assert t == path + ([stop] + t');
  }

  // ---------------------------------------------------------------- the version

  lemma VersionNext(n: nat, c: char, relaxed: bool)
    ensures var next := Next(Version(n), c, relaxed);
            && (n < 7 ==> next == if c == "HTTP/1."[n] then Version(n + 1) else Error)
            && (n == 7 ==> next == if c == '0' || c == '1' then Version(8) else Error)
            && (n == 8 ==> next == if c == '\n' then LineStart else if c == '\r' then LineEnd else Error)
    ensures Next(LineEnd, c, relaxed) == if c == '\n' then LineStart else Error
  {
  }

  lemma {:induction false} VersionDigits(n: nat, t: string, goal: Control, relaxed: bool) returns (rest: string)
    requires n <= 7 && goal in {LineStart, Finished} && Reaches(Version(n), t, goal, relaxed)
    ensures t == "HTTP/1."[n..] + rest && Reaches(Version(7), rest, goal, relaxed)
    decreases 7 - n
  {
    hide Next;
    if n == 7 {
      rest := t;
    } else {
      VersionNext(n, t[0], relaxed);
      rest := VersionDigits(n + 1, t[1..], goal, relaxed);
      Cut("HTTP/1.", n);
      assert t == [t[0]] + t[1..];
    }
  }

  lemma EolPart(t: string, goal: Control, relaxed: bool) returns (crlf: bool, rest: string)
    requires goal in {LineStart, Finished} && Reaches(Version(8), t, goal, relaxed)
    ensures t == Eol(crlf) + rest
    ensures if goal == LineStart then rest == "" else Reaches(LineStart, rest, goal, relaxed)
  {
    hide Next;
    VersionNext(8, t[0], relaxed);
    crlf := t[0] == '\r';
    rest := t[1..];
    assert t == [t[0]] + t[1..];
    if crlf {
      var u := t[1..];
      VersionNext(9, u[0], relaxed);
      rest := u[1..];
      assert u == [u[0]] + u[1..];
    }
  }

  lemma VersionPart(t: string, goal: Control, relaxed: bool) returns (minor: char, crlf: bool, rest: string)
    requires goal in {LineStart, Finished} && Reaches(Version(0), t, goal, relaxed)
    ensures t == VersionText(minor, crlf) + rest && minor in {'0', '1'}
    ensures if goal == LineStart then rest == "" else Reaches(LineStart, rest, goal, relaxed)
  {
    hide Next, Eol;
    var u := VersionDigits(0, t, goal, relaxed);
    VersionNext(7, u[0], relaxed);
    minor := u[0];
    assert u == [u[0]] + u[1..] && "HTTP/1."[0..] == "HTTP/1.";
    crlf, rest := EolPart(u[1..], goal, relaxed);
  }

  lemma Cut(t: string, n: nat)
    requires n < |t|
    ensures t[n..] == [t[n]] + t[n + 1..]
  {
  }

  lemma {:induction false} VersionGoesOn(n: nat, rest: string, relaxed: bool)
    requires n <= 7 && Reaches(Version(7), rest, LineStart, relaxed)
    ensures Reaches(Version(n), "HTTP/1."[n..] + rest, LineStart, relaxed)
    decreases 7 - n
  {
    hide Next;
    if n == 7 {
      assert "HTTP/1."[7..] + rest == rest;
    } else {
      VersionGoesOn(n + 1, rest, relaxed);
      var t := "HTTP/1."[n..] + rest;
      assert t[1..] == "HTTP/1."[n + 1..] + rest;
      VersionNext(n, t[0], relaxed);
    }
  }

  lemma VersionEnds(minor: char, crlf: bool, relaxed: bool)
    requires minor in {'0', '1'}
    ensures Reaches(Version(7), [minor] + Eol(crlf), LineStart, relaxed)
  {
    hide Next;
    var t := [minor] + Eol(crlf);
    VersionNext(7, minor, relaxed);
    assert t[1..] == Eol(crlf);
    VersionNext(8, Eol(crlf)[0], relaxed);
    if crlf {
      VersionNext(9, '\n', relaxed);
      assert Eol(crlf)[1..] == "\n";
      assert Reaches(LineEnd, "\n", LineStart, relaxed);
    }
    assert Reaches(Version(8), Eol(crlf), LineStart, relaxed);
  }

  /** Behind the space after a target the automaton comes to the first line with exactly these texts: HTTP/1.0 or HTTP/1.1,
      ended by LF or CR LF. */
  lemma VersionLineIff(t: string, relaxed: bool)
    ensures Reaches(Version(0), t, LineStart, relaxed)
            <==> t in {"HTTP/1.0\n", "HTTP/1.0\r\n", "HTTP/1.1\n", "HTTP/1.1\r\n"}
  {
    hide Reaches;
    if Reaches(Version(0), t, LineStart, relaxed) {
      var minor, crlf, rest := VersionPart(t, LineStart, relaxed);
      assert t == VersionText(minor, crlf);
      FourTexts();
    }
    FourTexts();
    forall minor, crlf | minor in {'0', '1'} ensures Reaches(Version(0), VersionText(minor, crlf), LineStart, relaxed) {
      VersionEnds(minor, crlf, relaxed);
      VersionGoesOn(0, [minor] + Eol(crlf), relaxed);
      assert "HTTP/1."[0..] + ([minor] + Eol(crlf)) == VersionText(minor, crlf);
    }
  }

  lemma FourTexts()
    ensures VersionText('0', false) == "HTTP/1.0\n" && VersionText('0', true) == "HTTP/1.0\r\n"
    ensures VersionText('1', false) == "HTTP/1.1\n" && VersionText('1', true) == "HTTP/1.1\r\n"
  {
  }

  // ---------------------------------------------------------------- header lines

  lemma FieldNext(c: char, relaxed: bool)
    ensures var next := Next(Field, c, relaxed);
            !next.Error? ==> if c == ':' then next == BeforeValue else NameChar(c) && next == Field
  {
    hide FieldChar, NameChar;
    CharsAgree(c, relaxed);
  }

  lemma {:induction false} FieldPart(t: string, relaxed: bool) returns (name: string, rest: string)
    requires Reaches(Field, t, Finished, relaxed)
    ensures t == name + ":" + rest && (forall i :: 0 <= i < |name| ==> NameChar(name[i]))
    ensures Reaches(BeforeValue, rest, Finished, relaxed)
    decreases |t|
  {
    hide Next, NameChar;
    FieldNext(t[0], relaxed);
    assert t == [t[0]] + t[1..];
    if t[0] == ':' {
      name, rest := "", t[1..];
    } else {
      name, rest := FieldPart(t[1..], relaxed);
      name := [t[0]] + name;
    }
  }

  lemma ValueNext(c: char, relaxed: bool)
    ensures var next := Next(Value, c, relaxed);
            next == if c as int == 0 || c as int == 127 then Error
                    else if c == '\n' then LineStart else if c == '\r' then LineEnd else Value
    ensures var next := Next(BeforeValue, c, relaxed);
            next == if IsBlank(c) then BeforeValue else Next(Value, c, relaxed)
    ensures Next(LineEnd, c, relaxed) == if c == '\n' then LineStart else Error
  {
  }

  lemma {:induction false} ValuePart(t: string, relaxed: bool) returns (value: string, crlf: bool, rest: string)
    requires Reaches(Value, t, Finished, relaxed)
    ensures t == value + Eol(crlf) + rest && (forall i :: 0 <= i < |value| ==> ValueChar(value[i]))
    ensures Reaches(LineStart, rest, Finished, relaxed)
    decreases |t|
  {
    hide Next;
    ValueNext(t[0], relaxed);
    assert t == [t[0]] + t[1..];
    if t[0] == '\n' {
      value, crlf, rest := "", false, t[1..];
    } else if t[0] == '\r' {
      ValueNext(t[1], relaxed);
      value, crlf, rest := "", true, t[1..][1..];
      assert t == "\r\n" + rest;
    } else {
      value, crlf, rest := ValuePart(t[1..], relaxed);
      value := [t[0]] + value;
    }
  }

  lemma {:induction false} BlanksPart(t: string, relaxed: bool) returns (blanks: string, value: string, crlf: bool, rest: string)
    requires Reaches(BeforeValue, t, Finished, relaxed)
    ensures t == blanks + value + Eol(crlf) + rest && BlanksOk(blanks) && ValueOk(value)
    ensures Reaches(LineStart, rest, Finished, relaxed)
    decreases |t|
  {
    hide Next, Eol;
    ValueNext(t[0], relaxed);
    assert t == [t[0]] + t[1..];
    if IsBlank(t[0]) {
      blanks, value, crlf, rest := BlanksPart(t[1..], relaxed);
      blanks := [t[0]] + blanks;
    } else {
      SameFirst(BeforeValue, Value, t, relaxed);
      blanks := "";
      value, crlf, rest := ValuePart(t, relaxed);
      if value != "" {
        FirstOfValue(t, value, crlf, rest);
      }
    }
  }

  lemma FirstOfValue(t: string, value: string, crlf: bool, rest: string)
    requires t == value + Eol(crlf) + rest && value != ""
    ensures value[0] == t[0]
  {
  }

  lemma StartOfLine(c: char, relaxed: bool)
    ensures var next := Next(LineStart, c, relaxed);
            && (c == '\n' <==> next == Finished)
            && (c == '\r' ==> next == LastLine)
            && (c != '\n' && c != '\r' && !next.Error? ==> NameChar(c) && next == Field)
    ensures var next := Next(LastLine, c, relaxed);
            && (c == '\n' ==> next == Finished)
            && (c != '\n' ==> next == Next(Field, c, relaxed))
  {
    hide FieldChar, NameChar;
    CharsAgree(c, relaxed);
  }

  lemma NamePart(t: string, relaxed: bool) returns (name: string, rest: string)
    requires Reaches(LineStart, t, Finished, relaxed) && t != "\n" && t != "\r\n"
    ensures t == name + ":" + rest && NameOk(name) && Reaches(BeforeValue, rest, Finished, relaxed)
  {
    hide Next, NameChar;
    StartOfLine(t[0], relaxed);
    assert t == [t[0]] + t[1..];
    assert |t| > 1;
    if t[0] == '\r' {
      StartOfLine(t[1], relaxed);
      Longer(t);
      SameFirst(LastLine, Field, t[1..], relaxed);
      name, rest := FieldPart(t[1..], relaxed);
      CarriageReturn();
      assert |name| > 0 ==> name[0] == t[1];
    } else {
      name, rest := FieldPart(t[1..], relaxed);
    }
    name := [t[0]] + name;
  }

  /** The first line, when the text is not just the end of a head. */
  lemma LinePart(t: string, relaxed: bool) returns (l: Line, rest: string)
    requires Reaches(LineStart, t, Finished, relaxed) && t != "\n" && t != "\r\n"
    ensures t == LineText(l) + rest && IsLine(l) && Reaches(LineStart, rest, Finished, relaxed)
  {
    hide Reaches, NameOk, Eol, ValueOk, BlanksOk;
    var name, t' := NamePart(t, relaxed);
    var blanks, value, crlf;
    blanks, value, crlf, rest := BlanksPart(t', relaxed);
    l := Line(name, blanks, value, crlf);
    assert LineText(l) + rest == name + ":" + (blanks + value + Eol(crlf) + rest);
  }

  lemma CarriageReturn()
    ensures NameChar('\r')
  {
  }

  lemma Longer(t: string)
    requires |t| > 1 && t[0] == '\r' && t != "\r\n"
    ensures t[1] == '\n' ==> |t| > 2
  {
    if |t| == 2 {
      assert t == [t[0], t[1]];
    }
  }

  lemma {:induction false} LinesTextJoined(a: seq<Line>, b: seq<Line>)
    ensures LinesText(a + b) == LinesText(a) + LinesText(b)
    decreases |b|
  {
    hide LineText;
    if b == [] {
      assert a + b == a;
    } else {
      var n := |b| - 1;
      assert (a + b)[..|a + b| - 1] == a + b[..n];
      LinesTextJoined(a, b[..n]);
    }
  }

  lemma {:induction false} LinesPart(t: string, relaxed: bool) returns (lines: seq<Line>, endCrlf: bool)
    requires Reaches(LineStart, t, Finished, relaxed)
    ensures t == LinesText(lines) + Eol(endCrlf) && forall i :: 0 <= i < |lines| ==> IsLine(lines[i])
    decreases |t|
  {
    hide Reaches, IsLine, LineText;
    if t == "\n" {
      lines, endCrlf := [], false;
    } else if t == "\r\n" {
      lines, endCrlf := [], true;
    } else {
      var l, rest := LinePart(t, relaxed);
      LineNotEmpty(l);
      lines, endCrlf := LinesPart(rest, relaxed);
      LinesTextJoined([l], lines);
      OneLine(l);
      lines := [l] + lines;
    }
  }

  lemma LineNotEmpty(l: Line)
    ensures LineText(l) != ""
  {
  }

  lemma OneLine(l: Line)
    ensures LinesText([l]) == LineText(l)
  {
  }

  // ---------------------------------------------------------------- the whole head

  /** What the automaton has read when it finishes is a well-formed head. */
  lemma FinishedIsHead(s: string, garbage: nat, relaxed: bool) returns (h: HeadText)
    requires Run(Fresh(garbage), s, 0, relaxed).0.control.Finished?
    ensures WellFormed(h, relaxed) && Text(h) == s[..Run(Fresh(garbage), s, 0, relaxed).1]
  {
    hide Run, Next, TargetOk, IsLine, Escaped;
    RunReaches(Fresh(garbage), s, 0, relaxed);
    var t := s[0..Run(Fresh(garbage), s, 0, relaxed).1];
    StartNext(t[0], relaxed);
    assert t == [t[0]] + t[1..];
    var verb, t1 := VerbPart(1, t[1..], relaxed);
    verb := [t[0]] + verb;
    var path, query, fragment, t2 := TargetPart(t1, relaxed);
    var minor, crlf, t3 := VersionPart(t2, Finished, relaxed);
    var lines, endCrlf := LinesPart(t3, relaxed);
    h := HeadText(verb, path, query, fragment, minor, crlf, lines, endCrlf);
    Assembled(h, t, t1, t2, t3);
  }

  lemma Assembled(h: HeadText, t: string, t1: string, t2: string, t3: string)
    requires t == h.verb + " " + t1 && t1 == UriText(h.path, h.query) + Mark("#", h.fragment) + " " + t2
    requires t2 == VersionText(h.minor, h.crlf) + t3 && t3 == LinesText(h.lines) + Eol(h.endCrlf)
    ensures Text(h) == t
  {
    hide UriText, Mark, VersionText, LinesText, Eol;
  }

  /** A parser finishes on a text if and only if the text begins with a well-formed head. It has then consumed such a head
      and built what the head says; and whatever well-formed head the text begins with, that is the one. */
  lemma ParsesIff(s: string, garbage: nat, relaxed: bool)
    ensures var (p, n) := ExecuteRequest(NewParser(garbage), s, relaxed);
            && (IsFinished(p) <==> exists h :: WellFormed(h, relaxed) && Text(h) <= s)
            && (IsFinished(p) ==> exists h :: WellFormed(h, relaxed) && Text(h) == s[..n] && p.built == BuiltOf(h))
            && (forall h :: WellFormed(h, relaxed) && Text(h) <= s ==> n == |Text(h)| && p.built == BuiltOf(h))
  {
    hide Run, HandleAll, WellFormed, Text, BuiltOf;
    var (p, n) := ExecuteRequest(NewParser(garbage), s, relaxed);
    if IsFinished(p) {
      var h := FinishedIsHead(s, garbage, relaxed);
      HeadParsed(h, s, garbage, relaxed);
    }
    forall h | WellFormed(h, relaxed) && Text(h) <= s ensures IsFinished(p) && n == |Text(h)| && p.built == BuiltOf(h) {
      HeadParsed(h, s, garbage, relaxed);
    }
  }
}
