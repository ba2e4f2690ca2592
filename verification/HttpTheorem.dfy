/** Parsing undoes printing. */
module HttpTheorem {
  import opened Codec
  import opened HttpGrammar
  import opened HttpHeaders
  import opened HttpRequests
  import opened HttpAutomaton
  import opened HttpParsing
  import opened HttpSegments
  import opened HttpRequestParsers
  import opened HttpHeads
  import opened HttpRoundTrip

  // ---------------------------------------------------------------- the printed head

  /** The head that is printed for a request whose major version is 1. */
  function HeadOf(r: Request): HeadText
    requires r.verb < |NAMES|
  {
    HeadText(NAMES[r.verb], r.path, if r.query == "" then None else Some(r.query), if r.fragment == "" then None else Some(""),
             '0', true, Lines(r), true)
  }

  /** What the printed request line ends with. */
  function VersionLine(r: Request): string {
    "HTTP/" + Decimal(r.version / 16) + "." + Decimal(r.version / 128) + CRLF
  }

  lemma TargetPrinted(r: Request)
    requires r.verb < |NAMES|
    ensures TargetText(HeadOf(r)) == Target(r) + " "
  {
    hide NAMES, Lines;
  }

  lemma HeadInLines(r: Request)
    requires r.verb < 34
    ensures |NAMES| == 34
    ensures Head(r) == (NAMES[r.verb] + " ") + TargetText(HeadOf(r)) + VersionLine(r) + LinesText(Lines(r)) + CRLF
  {
    hide NAMES, Decimal, Lines, LinesText, Target, TargetText, RequestLine, HeadOf;
    Count();
    HeadIsLines(r);
    TargetPrinted(r);
    LinePrinted(r);
  }

  lemma LinePrinted(r: Request)
    requires r.verb < 34
    ensures |NAMES| == 34 && RequestLine(r) == (NAMES[r.verb] + " ") + (Target(r) + " ") + VersionLine(r)
  {
    hide NAMES, Decimal, Target;
    Count();
    var v := Decimal(r.version / 16) + "." + Decimal(r.version / 128) + CRLF;
    assert " HTTP/" == " " + "HTTP/";
    assert RequestLine(r) == NAMES[r.verb] + " " + Target(r) + (" " + "HTTP/") + v;
    assert VersionLine(r) == "HTTP/" + v;
  }

  lemma VersionPrinted(r: Request)
    requires r.version < 256 && r.version / 16 == 1
    ensures VersionLine(r) == VersionText('0', true)
  {
  }

  lemma HeadIsText(r: Request)
    requires r.verb < 34 && r.version < 256 && r.version / 16 == 1
    ensures |NAMES| == 34 && Head(r) == Text(HeadOf(r))
  {
    hide NAMES, Decimal, Lines, LinesText, Target, TargetText, VersionLine, Head, VersionText;
    HeadInLines(r);
    VersionPrinted(r);
    assert Eol(true) == CRLF;
  }

  lemma LinesAreLegal(r: Request, relaxed: bool)
    requires Legal(r, relaxed)
    ensures forall i :: 0 <= i < |Lines(r)| ==> IsLine(Lines(r)[i])
  {
    hide PathOk, Escaped, NameOk, ValueOk, BlanksOk, Sorted, Kept, Decimal, ConnectionValue;
    KeptLegal(r.headers);
    FixedLinesLegal(r);
    var ls := Lines(r);
    forall i | 0 <= i < |ls| ensures IsLine(ls[i]) {
      if 0 < i <= |Kept(r.headers)| {
        assert ls[i] == Kept(r.headers)[i - 1];
      }
    }
  }

  lemma {:induction false} KeptLegal(hs: seq<Header>)
    requires forall i :: 0 <= i < |hs| ==> LegalHeader(hs[i])
    ensures forall i :: 0 <= i < |Kept(hs)| ==> IsLine(Kept(hs)[i])
    decreases |hs|
  {
    hide SameName, NameOk, ValueOk;
    if hs != [] {
      KeptLegal(hs[..|hs| - 1]);
      assert LegalHeader(hs[|hs| - 1]);
    }
  }

  lemma FixedLinesLegal(r: Request)
    ensures IsLine(ConnectionLine(r))
    ensures r.body != "" ==> IsLine(LengthLines(r)[0])
  {
    hide NameOk, ValueOk, Decimal, ConnectionValue;
    FixedNamesLegal();
    ConnectionLegal(r.close);
    DecimalDigits(|r.body|);
    DigitsLegal(Decimal(|r.body|));
  }

  lemma FixedNamesLegal()
    ensures NameOk("connection") && NameOk("content-length")
  {
  }

  lemma ConnectionLegal(close: bool)
    ensures ValueOk(ConnectionValue(close))
  {
  }

  lemma DigitsLegal(s: string)
    requires forall i :: 0 <= i < |s| ==> IsDigit(s[i])
    ensures ValueOk(s)
  {
  }

  lemma VerbLegal(i: nat)
    requires i < 34 && i != MSEARCH
    ensures |NAMES| == 34 && VerbOk(NAMES[i])
  {
    hide NAMES, MethodChar;
    Count();
    NameShape(i);
    forall k | 0 <= k < |NAMES[i]| ensures VerbChar(NAMES[i][k]) {
      CharsAgree(NAMES[i][k], false);
    }
  }

  lemma PrintedTarget(r: Request, relaxed: bool)
    requires Legal(r, relaxed)
    ensures |NAMES| == 34
    ensures var h := HeadOf(r); TargetOk(h.path, h.query, h.fragment, relaxed)
  {
    hide NAMES, PathOk, LegalHeader, Sorted, Lines;
    Count();
  }

  lemma PrintedWellFormed(r: Request, relaxed: bool)
    requires Legal(r, relaxed) && r.verb != MSEARCH
    ensures |NAMES| == 34 && WellFormed(HeadOf(r), relaxed)
  {
    hide NAMES, TargetOk, VerbOk, IsLine, Lines, Legal;
    Listed(r, relaxed);
    VerbLegal(r.verb);
    PrintedTarget(r, relaxed);
    LinesAreLegal(r, relaxed);
  }

  // ---------------------------------------------------------------- the parsed request

  /** The request that the parser makes of a printed one. */
  function Parsed(r: Request): Request {
    NEW_REQUEST.(verb := r.verb, version := 0x10, path := r.path, query := r.query,
                 headers := SetAll([], HeadersOf(Lines(r))))
  }

  lemma MethodRecovered(i: nat)
    requires i < 34
    ensures |NAMES| == 34 && CharsToHttpMethod(NAMES[i]) == i
  {
    hide NAMES;
    Count();
    NameRecovered(i, "");
    MatchBefore(NAMES[i], "", 0);
  }

  lemma PrintedBuilt(r: Request)
    requires r.verb < 34
    ensures |NAMES| == 34 && BuiltOf(HeadOf(r)) == Built(Parsed(r), 0)
  {
    hide NAMES, CharsToHttpMethod, SetAll, HeadersOf, Lines;
    MethodRecovered(r.verb);
  }

  lemma HeadIsRead(r: Request, s: string, garbage: nat, relaxed: bool)
    requires Head(r) <= s && Legal(r, relaxed) && r.verb != MSEARCH && r.version / 16 == 1
    ensures var (p, n) := ExecuteRequest(NewParser(garbage), s, relaxed);
            IsFinished(p) && n == |Head(r)| && p.built == Built(Parsed(r), 0)
  {
    hide NAMES, Head, ExecuteRequest, Legal, Parsed, BuiltOf, Text, WellFormed;
    Listed(r, relaxed);
    HeadIsText(r);
    PrintedWellFormed(r, relaxed);
    PrintedBuilt(r);
    HeadParsed(HeadOf(r), s, garbage, relaxed);
  }

  lemma Listed(r: Request, relaxed: bool)
    requires Legal(r, relaxed)
    ensures r.verb < 34 == |NAMES| && r.version < 256 && Sorted(r.headers)
  {
  }

  lemma HeadNotEmpty(r: Request)
    ensures Head(r) != ""
  {
  }

  /** M-SEARCH is printed with a dash, which the automaton does not take in a method. */
  lemma DashIsRefused(r: Request, s: string, garbage: nat, relaxed: bool)
    requires Head(r) <= s && r.verb == MSEARCH
    ensures Run(Fresh(garbage), s, 0, relaxed).0.control == Error
  {
    hide Run, Step, Head;
    DashComes(r, s);
    MethodStart(Fresh(garbage), 'M', 0, relaxed);
    StepsOn(Fresh(garbage), s, 0, relaxed);
    var m := Fresh(garbage).(control := Method(1));
    DashStep(m, 1, relaxed);
    StopsAt(m, s, 1, relaxed);
  }

  lemma DashComes(r: Request, s: string)
    requires Head(r) <= s && r.verb == MSEARCH
    ensures |s| > 1 && s[0] == 'M' && s[1] == '-'
  {
    hide NAMES, Head, TargetText, VersionLine, LinesText, Lines;
    HeadInLines(r);
    MSearchShape();
    assert Head(r)[0] == NAMES[r.verb][0] && Head(r)[1] == NAMES[r.verb][1];
  }

  lemma DashStep(m: Machine, p: nat, relaxed: bool)
    requires m.control.Method?
    ensures Step(m, '-', p, relaxed).control == Error
  {
  }

  /** The parts of a printed head before its version, in any text that begins with it. */
  lemma PrintedParts(r: Request, s: string)
    requires Head(r) <= s && r.verb < 34
    ensures |NAMES| == 34
    ensures var h := HeadOf(r);
            && At(s, 0, h.verb + " ") && At(s, TargetAt(h), TargetText(h)) && At(s, VersionAt(h), VersionLine(r))
  {
    hide NAMES, Head, TargetText, VersionLine, LinesText, Lines, At;
    HeadInLines(r);
    var h := HeadOf(r);
    var a, b, c := h.verb + " ", TargetText(h), VersionLine(r);
    var rest := LinesText(Lines(r)) + CRLF + s[|Head(r)|..];
    assert s == Head(r) + s[|Head(r)|..];
    assert s == a + (b + (c + rest));
    AtWhole(s);
    AtSplit(s, 0, a, b + (c + rest));
    AtSplit(s, |a|, b, c + rest);
    AtSplit(s, |a| + |b|, c, rest);
  }

  lemma MajorIsRefused(r: Request, s: string, garbage: nat, relaxed: bool)
    requires Head(r) <= s && Legal(r, relaxed) && r.verb != MSEARCH && r.version / 16 != 1
    ensures Run(Fresh(garbage), s, 0, relaxed).0.control == Error
  {
    hide NAMES, Run, At, Legal, AfterTarget, Decimal, TargetText, TargetOk, VerbOk, Head, Lines;
    Listed(r, relaxed);
    PrintedParts(r, s);
    VerbLegal(r.verb);
    PrintedTarget(r, relaxed);
    var h := HeadOf(r);
    ReadVerb(h, s, garbage, relaxed);
    ReadTarget(AfterVerb(h, garbage), s, TargetAt(h), h, relaxed);
    var rest := Decimal(r.version / 128) + CRLF;
    assert VersionLine(r) == "HTTP/" + Decimal(r.version / 16) + "." + rest;
    OtherVersion(AfterTarget(AfterVerb(h, garbage), h, TargetAt(h)), s, VersionAt(h), r.version / 16, rest, relaxed);
  }

  /** A printed request parses exactly when its method is not M-SEARCH and its major version is 1; otherwise the
      automaton fails. When it parses, one execution consumes exactly the head, leaves the body, and yields the same
      method, path, query and headers, but for the connection header and the length of a body. The minor version is
      always read as 0, and the fragment as the empty text. */
  lemma ParsingUndoesPrinting(r: Request, garbage: nat, relaxed: bool)
    requires Legal(r, relaxed)
    ensures var (p, n) := ExecuteRequest(NewParser(garbage), Dump(r), relaxed);
            && (HasError(p) <==> r.verb == MSEARCH || r.version / 16 != 1)
            && (IsFinished(p) <==> !HasError(p))
            && (IsFinished(p) ==>
                  && n == |Head(r)| <= |Dump(r)| && Dump(r)[n..] == r.body
                  && p.built.request.verb == r.verb && p.built.request.path == r.path && p.built.request.query == r.query
                  && p.built.request.fragment == "" && p.built.request.version == 0x10
                  && Sorted(p.built.request.headers)
                  && (forall key :: Lookup(p.built.request.headers, key) == ParsedHeader(r, key))
                  && ContentLength(p.built.request) == if r.body != "" then |r.body| else ContentLength(r))
  {
    hide NAMES, Dump, Head, Run, HandleAll, Legal, Lookup, ParsedHeader, Sorted, SetAll, HeadersOf, Lines, ContentLength;
    ParsedSorted(r, relaxed);
    Listed(r, relaxed);
    HeadNotEmpty(r);
    HeadFirst(r);
    if r.verb == MSEARCH {
      DashIsRefused(r, Dump(r), garbage, relaxed);
    } else if r.version / 16 != 1 {
      MajorIsRefused(r, Dump(r), garbage, relaxed);
    } else {
      HeadIsRead(r, Dump(r), garbage, relaxed);
      forall key ensures Lookup(Parsed(r).headers, key) == ParsedHeader(r, key) {
        PrintedHeaders(r, key);
      }
      ParsedLength(r, relaxed);
    }
  }

  lemma HeadFirst(r: Request)
    ensures Head(r) <= Dump(r) && Dump(r)[|Head(r)|..] == r.body
  {
  }

  lemma ParsedSorted(r: Request, relaxed: bool)
    requires Legal(r, relaxed)
    ensures Sorted(Parsed(r).headers)
  {
    hide PathOk, Escaped, LegalHeader, Sorted, SetAll, HeadersOf, Lines;
    PrintedHeaders(r, "");
  }

  lemma ParsedLength(r: Request, relaxed: bool)
    requires Legal(r, relaxed)
    ensures ContentLength(Parsed(r)) == if r.body != "" then |r.body| else ContentLength(r)
  {
    hide Lookup, Sorted, SetAll, HeadersOf, Lines, Decimal, SameName, PathOk, Escaped, LegalHeader, LexicalCast;
    PrintedHeaders(r, "content-length");
    NamesDiffer();
    Symmetric("content-length", "connection");
    SameAsItself("content-length");
    DecimalRecovered(|r.body|);
  }

  lemma SameAsItself(a: string)
    ensures SameName(a, a)
  {
  }
}
