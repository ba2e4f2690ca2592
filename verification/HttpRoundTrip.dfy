/** Parsing a printed request: dump in sylar/http/http.cpp against the request parser. */
module HttpRoundTrip {
  import opened Codec
  import opened HttpHeaders
  import opened HttpRequests
  import opened HttpGrammar
  import opened HttpHeads
  import opened HttpLanguage

  /** What a request must look like for its head to be well formed: a listed method, a legal path and query, and names and
      values of fields as a head may have them. */
  ghost predicate Legal(r: Request, relaxed: bool) {
    && r.verb < 34 && r.version < 256
    && PathOk(r.path, relaxed) && Escaped(InQuery, r.query, relaxed)
    && Sorted(r.headers) && (forall i :: 0 <= i < |r.headers| ==> LegalHeader(r.headers[i]))
    && |r.body| < WORD64
  }

  predicate LegalHeader(h: Header) {
    NameOk(h.name) && ValueOk(h.value)
  }

  // ---------------------------------------------------------------- the printed lines

  /** The headers that dump prints from the map. */
  function Kept(hs: seq<Header>): seq<Line> {
    if hs == [] then []
    else
      var h := hs[|hs| - 1];
      Kept(hs[..|hs| - 1]) + if SameName(h.name, "connection") then [] else [Line(h.name, "", h.value, true)]
  }

  function ConnectionLine(r: Request): Line {
    Line("connection", " ", ConnectionValue(r.close), true)
  }

  function LengthLines(r: Request): seq<Line> {
    if r.body != "" then [Line("content-length", " ", Decimal(|r.body|), true)] else []
  }

  function Lines(r: Request): seq<Line> {
    [ConnectionLine(r)] + Kept(r.headers) + LengthLines(r)
  }

  lemma {:induction false} KeptText(hs: seq<Header>)
    ensures LinesText(Kept(hs)) == HeaderLines(hs)
    decreases |hs|
  {
    if hs != [] {
      KeptText(hs[..|hs| - 1]);
      KeptTextLast(hs);
    } else {
      assert Kept(hs) == [];
    }
    hide SameName, LinesText, LineText;
  }

  lemma KeptTextLast(hs: seq<Header>)
    requires hs != [] && LinesText(Kept(hs[..|hs| - 1])) == HeaderLines(hs[..|hs| - 1])
    ensures LinesText(Kept(hs)) == HeaderLines(hs)
  {
    hide SameName, LinesText, LineText, CRLF;
    var h := hs[|hs| - 1];
    var before, l := Kept(hs[..|hs| - 1]), Line(h.name, "", h.value, true);
    LinesTextJoined(before, [l]);
    OneLine(l);
    PlainLine(l);
    assert before + [] == before;
  }

  lemma PlainLine(l: Line)
    ensures l.blanks == "" && l.crlf ==> LineText(l) == l.name + ":" + l.value + CRLF
  {
  }

  lemma HeadIsLines(r: Request)
    ensures Head(r) == RequestLine(r) + LinesText(Lines(r)) + CRLF
  {
    hide RequestLine, HeaderLines, LineText, ConnectionValue, Decimal, LinesText, Kept;
    var a, k, c := ConnectionLine(r), Kept(r.headers), LengthLines(r);
    LinesTextJoined([a] + k, c);
    LinesTextJoined([a], k);
    OneLine(a);
    KeptText(r.headers);
    LengthText(r);
    ConnectionText(r);
  }

  lemma ConnectionText(r: Request)
    ensures LineText(ConnectionLine(r)) == "connection: " + ConnectionValue(r.close) + CRLF
  {
  }

  lemma LengthText(r: Request)
    ensures LinesText(LengthLines(r)) == if r.body != "" then "content-length: " + Decimal(|r.body|) + CRLF else ""
  {
  }

  // ---------------------------------------------------------------- the parsed headers

  /** What the parsed request answers for a header. */
  function ParsedHeader(r: Request, key: string): Option<string> {
    if SameName(key, "connection") then Some(if r.close then "close" else "keep-alive")
    else if SameName(key, "content-length") && r.body != "" then Some(Decimal(|r.body|))
    else Lookup(r.headers, key)
  }

  lemma NamesDiffer()
    ensures !SameName("connection", "content-length")
  {
    hide Fold;
    FoldAt("connection", 3);
    FoldAt("content-length", 3);
  }

  lemma {:induction false} FoldAt(s: string, k: nat)
    requires k < |s| && forall i :: 0 <= i < |s| ==> s[i] != '\0'
    ensures |Fold(s)| == |s| && Fold(s)[k] == Lower(s[k])
  {
    if k > 0 {
      FoldAt(s[1..], k - 1);
    } else if |s| > 1 {
      FoldAt(s[1..], 0);
    }
  }

  /** dump keeps all headers but the connection header, in order. */
  lemma {:induction false} KeptMeaning(hs: seq<Header>)
    requires Sorted(hs)
    ensures var k := HeadersOf(Kept(hs));
            && Sorted(k) && (forall h :: h in k <==> h in hs && !SameName(h.name, "connection"))
    decreases |hs|
  {
    hide SameName, Less;
    if hs != [] {
      var n := |hs| - 1;
      KeptMeaning(hs[..n]);
      var before, h := HeadersOf(Kept(hs[..n])), hs[n];
      assert hs == hs[..n] + [h];
      HeadersJoined(Kept(hs[..n]), if SameName(h.name, "connection") then [] else [Line(h.name, "", h.value, true)]);
      forall x | x in before ensures Less(x.name, h.name) {
        var i :| 0 <= i < n && hs[..n][i] == x;
        assert Less(hs[i].name, hs[n].name);
      }
    } else {
      assert HeadersOf(Kept(hs)) == [];
    }
  }

  lemma {:induction false} HeadersJoined(a: seq<Line>, b: seq<Line>)
    ensures HeadersOf(a + b) == HeadersOf(a) + HeadersOf(b)
  {
  }

  predicate NoneNamed(hs: seq<Header>, key: string) {
    forall i :: 0 <= i < |hs| ==> !SameName(hs[i].name, key)
  }

  /** The last entry of this name has the value `v`. */
  ghost predicate LastNamed(hs: seq<Header>, key: string, v: string) {
    exists i :: 0 <= i < |hs| && SameName(hs[i].name, key) && hs[i].value == v && NoneNamed(hs[i + 1..], key)
  }

  lemma SetAllDecides(more: seq<Header>, key: string)
    ensures var hs := SetAll([], more);
            && Sorted(hs)
            && (NoneNamed(more, key) ==> Lookup(hs, key) == None)
            && (forall v :: LastNamed(more, key, v) ==> Lookup(hs, key) == Some(v))
  {
    hide SameName, SetAll, Lookup, Sorted;
    EmptySorted();
    SetAllLookup([], more, key);
    forall v | LastNamed(more, key, v) ensures Lookup(SetAll([], more), key) == Some(v) {
      var i :| 0 <= i < |more| && SameName(more[i].name, key) && more[i].value == v && NoneNamed(more[i + 1..], key);
      forall j | i < j < |more| ensures !SameName(more[j].name, key) {
        assert more[j] == more[i + 1..][j - i - 1];
      }
    }
  }

  lemma EmptySorted()
    ensures Sorted([]) && forall key :: Lookup([], key) == None
  {
  }

  /** What is looked up after setting the printed headers in order. */
  lemma PrintedHeaders(r: Request, key: string)
    requires Sorted(r.headers)
    ensures var hs := SetAll([], HeadersOf(Lines(r)));
            Sorted(hs) && Lookup(hs, key) == ParsedHeader(r, key)
  {
    hide SameName, Lookup, SetAll, Sorted, Kept, Decimal, ConnectionValue, HeadersOf, NoneNamed, LastNamed, LengthLines;
    KeptMeaning(r.headers);
    SetAllDecides(HeadersOf(Lines(r)), key);
    var k, c := HeadersOf(Kept(r.headers)), HeadersOf(LengthLines(r));
    LinesInParts(r);
    if SameName(key, "connection") {
      ConnectionIs(r.close);
      ConnectionDecides(r, k, c, key);
    } else if SameName(key, "content-length") && r.body != "" {
      LengthDecides(r, k, c, key);
    } else {
      OthersDecide(r, k, c, key);
    }
  }

  lemma ConnectionIs(close: bool)
    ensures ConnectionValue(close) == if close then "close" else "keep-alive"
  {
  }

  lemma LinesInParts(r: Request)
    ensures HeadersOf(Lines(r)) == [HeaderOf(ConnectionLine(r))] + HeadersOf(Kept(r.headers)) + HeadersOf(LengthLines(r))
  {
  }

  lemma Symmetric(a: string, b: string)
    ensures SameName(a, b) ==> SameName(b, a)
  {
  }

  lemma Chain(a: string, b: string, c: string)
    ensures SameName(a, b) && SameName(b, c) ==> SameName(a, c)
  {
  }

  /** The length line is there exactly when there is a body. */
  lemma LengthHeader(r: Request)
    ensures var c := HeadersOf(LengthLines(r));
            c == if r.body != "" then [Header("content-length", Decimal(|r.body|))] else []
  {
  }

  lemma ConnectionDecides(r: Request, k: seq<Header>, c: seq<Header>, key: string)
    requires SameName(key, "connection") && c == HeadersOf(LengthLines(r))
    requires forall h :: h in k ==> !SameName(h.name, "connection")
    ensures LastNamed([HeaderOf(ConnectionLine(r))] + k + c, key, ConnectionValue(r.close))
  {
    hide SameName, Decimal, ConnectionValue, HeadersOf, LengthLines;
    var hs := [HeaderOf(ConnectionLine(r))] + k + c;
    LengthHeader(r);
    NamesDiffer();
    Symmetric(key, "connection");
    Symmetric("content-length", "connection");
    assert hs[1..] == k + c;
    forall j | 0 <= j < |k + c| ensures !SameName((k + c)[j].name, key) {
      if j < |k| {
        assert k[j] in k;
        Chain(k[j].name, key, "connection");
      } else {
        Chain("content-length", key, "connection");
      }
    }
    assert SameName(hs[0].name, key) && NoneNamed(hs[0 + 1..], key);
  }

  lemma LengthDecides(r: Request, k: seq<Header>, c: seq<Header>, key: string)
    requires SameName(key, "content-length") && r.body != "" && c == HeadersOf(LengthLines(r))
    ensures LastNamed([HeaderOf(ConnectionLine(r))] + k + c, key, Decimal(|r.body|))
  {
    hide SameName, Decimal, ConnectionValue, HeadersOf, LengthLines;
    var hs, i := [HeaderOf(ConnectionLine(r))] + k + c, 1 + |k|;
    LengthHeader(r);
    Symmetric(key, "content-length");
    assert hs[i] == c[0] && hs[i + 1..] == [];
    assert SameName(hs[i].name, key) && NoneNamed(hs[i + 1..], key);
  }

  lemma OthersDecide(r: Request, k: seq<Header>, c: seq<Header>, key: string)
    requires Sorted(r.headers) && Sorted(k) && c == HeadersOf(LengthLines(r))
    requires forall h :: h in k <==> h in r.headers && !SameName(h.name, "connection")
    requires !SameName(key, "connection") && !(SameName(key, "content-length") && r.body != "")
    ensures var hs := [HeaderOf(ConnectionLine(r))] + k + c;
            && (Lookup(r.headers, key) == None ==> NoneNamed(hs, key))
            && (forall v :: Lookup(r.headers, key) == Some(v) ==> LastNamed(hs, key, v))
  {
    hide SameName, Lookup, Sorted, Decimal, ConnectionValue, HeadersOf, LengthLines, LastNamed;
    LengthHeader(r);
    Symmetric("connection", key);
    Symmetric("content-length", key);
    match Lookup(r.headers, key)
    case None =>
      LookupMeaning(r.headers, key, "");
      assert forall h :: h in k ==> !SameName(h.name, key);
    case Some(v) =>
      LookupMeaning(r.headers, key, v);
      var n :| 0 <= n < |r.headers| && SameName(r.headers[n].name, key) && r.headers[n].value == v;
      var h := r.headers[n];
      Symmetric(h.name, key);
      Chain(key, h.name, "connection");
      assert h in k;
      var i :| 0 <= i < |k| && k[i] == h;
      KeptDecides([HeaderOf(ConnectionLine(r))], k, c, i, key);
  }

  lemma KeptDecides(a: seq<Header>, k: seq<Header>, c: seq<Header>, i: nat, key: string)
    requires Sorted(k) && i < |k| && SameName(k[i].name, key) && |a| == 1 && NoneNamed(c, key)
    ensures LastNamed(a + k + c, key, k[i].value)
  {
    hide SameName, Sorted;
    var hs := a + k + c;
    assert hs[i + 1] == k[i];
    var rest := hs[(i + 1) + 1..];
    assert rest == k[i + 1..] + c;
    forall j | 0 <= j < |rest| ensures !SameName(rest[j].name, key) {
      if j < |k| - i - 1 {
        assert rest[j] == k[i + 1 + j];
        LaterDiffers(k, i, i + 1 + j, key);
      } else {
        assert rest[j] == c[j - (|k| - i - 1)];
      }
    }
    assert SameName(hs[i + 1].name, key) && hs[i + 1].value == k[i].value && NoneNamed(hs[(i + 1) + 1..], key);
  }

  lemma LaterDiffers(k: seq<Header>, i: nat, j: nat, key: string)
    requires Sorted(k) && i < j < |k| && SameName(k[i].name, key)
    ensures !SameName(k[j].name, key)
  {
    hide Fold, Before;
    assert Less(k[i].name, k[j].name);
    Irreflexive(Fold(key));
  }
}
