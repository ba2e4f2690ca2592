/** sylar/http/http_parser.cpp: the callbacks that build a request out of the automaton's slices. */
module HttpRequestParsers {
  import opened Codec
  import opened HttpHeaders
  import opened HttpRequests
  import opened HttpAutomaton
  import HttpParsing

  /** The request under construction and the error code, 0 for none. */
  datatype Built = Built(request: Request, error: nat)

  /** The slice a callback gets. Lengths that reach outside the text have no slice. */
  function Slice(s: string, at: nat, length: int): string {
    if 0 <= length && at + length <= |s| then s[at..at + length] else ""
  }

  function From(s: string, at: nat): string {
    if at <= |s| then s[at..] else ""
  }

  /** strncmp(s, literal, n) == 0 */
  predicate AgreesFor(s: string, literal: string, n: int) {
    if n <= |literal| then 0 <= n && literal[..n] <= s
    else |s| > |literal| && literal <= s && s[|literal|] == '\0'
  }

  function HandleVersion(b: Built, s: string, at: nat, length: int): Built {
    if AgreesFor(From(s, at), "HTTP/1.1", length) then b.(request := b.request.(version := 0x11))
    else if AgreesFor(From(s, at), "HTTP/1.0", length) then b.(request := b.request.(version := 0x10))
    else b.(error := 1001)
  }

  /** One callback. */
  function AfterCall(b: Built, s: string, c: Call): Built {
    match c
    case OnMethod(at, _) =>
      var m := CharsToHttpMethod(From(s, at));
      if m == INVALID_METHOD then b.(error := 1000) else b.(request := b.request.(verb := m))
    case OnUri(_, _) => b
    case OnFragment(at, length) => b.(request := b.request.(fragment := Slice(s, at, length)))
    case OnPath(at, length) => b.(request := b.request.(path := Slice(s, at, length)))
    case OnQuery(at, length) => b.(request := b.request.(query := Slice(s, at, length)))
    case OnVersion(at, length) => HandleVersion(b, s, at, length)
    case OnField(field, flen, at, length) =>
      if flen == 0 then b.(error := 1002)
      else b.(request := b.request.(headers := SetHeader(b.request.headers, Slice(s, field, flen), Slice(s, at, length))))
    case OnHeaderDone(_) => b
  }

  function HandleAll(b: Built, s: string, calls: seq<Call>): Built {
    if calls == [] then b else AfterCall(HandleAll(b, s, calls[..|calls| - 1]), s, calls[|calls| - 1])
  }

  /** HttpRequestParser: the automaton and what it has built. */
  datatype Parser = Parser(machine: Machine, built: Built)

  function NewParser(garbage: nat): Parser {
    Parser(Fresh(garbage), Built(NEW_REQUEST, 0))
  }

  /** HttpRequestParser::execute, and how much it consumed. */
  function ExecuteRequest(p: Parser, s: string, relaxed: bool): (r: (Parser, nat))
    ensures r.1 <= |s|
  {
    var (m, n) := Execute(p.machine, s, relaxed);
    (Parser(m, HandleAll(p.built, s, m.calls)), n)
  }

  predicate HasError(p: Parser) {
    p.built.error != 0 || p.machine.control.Error?
  }

  /** States from 348 on are final; the request automaton has no other. */
  predicate IsFinished(p: Parser) {
    p.machine.control.Finished?
  }

  /** getContentLength: 0 when the header is absent or no number. */
  function ContentLength(r: Request): nat {
    match Lookup(r.headers, "content-length")
    case None => 0
    case Some(v) => match LexicalCast(v) case Some(n) => n case None => 0
  }

  /** What a version of at most eight characters says: every beginning of HTTP/1.1 is read as 1.1, only the whole HTTP/1.0 as
      1.0, and everything else is an error. */
  lemma VersionMeaning(b: Built, s: string, at: nat, length: nat)
    requires length <= 8 && at + length <= |s|
    ensures var t := s[at..at + length];
            HandleVersion(b, s, at, length)
            == if t <= "HTTP/1.1" then b.(request := b.request.(version := 0x11))
               else if t == "HTTP/1.0" then b.(request := b.request.(version := 0x10))
               else b.(error := 1001)
  {
    var t, rest := s[at..at + length], s[at..];
    assert t == rest[..length];
    Agrees(rest, "HTTP/1.1", length);
    Agrees(rest, "HTTP/1.0", length);
    if t <= "HTTP/1.0" && t != "HTTP/1.0" {
      assert |t| < 8;
      forall i | 0 <= i < |t| ensures t[i] == "HTTP/1.1"[i] {
        assert t[i] == "HTTP/1.0"[i];
      }
    }
  }

  lemma Agrees(s: string, literal: string, n: nat)
    requires n <= |literal| && n <= |s|
    ensures AgreesFor(s, literal, n) <==> s[..n] <= literal
  {
    if s[..n] <= literal {
      assert literal[..n] == s[..n];
    }
  }

  /** An error code stays set, so an error of the whole parser is permanent. */
  lemma {:induction false} ErrorStays(b: Built, s: string, calls: seq<Call>)
    ensures b.error != 0 ==> HandleAll(b, s, calls).error != 0
    decreases |calls|
  {
    if calls != [] {
      ErrorStays(b, s, calls[..|calls| - 1]);
    }
  }

  lemma ErrorIsPermanent(p: Parser, s: string, relaxed: bool)
    requires HasError(p)
    ensures HasError(ExecuteRequest(p, s, relaxed).0)
  {
    ErrorStays(p.built, s, Execute(p.machine, s, relaxed).0.calls);
    hide HandleAll, Run;
  }

  // ---------------------------------------------------------------- the program

  class HttpRequestParser {
    const parser: HttpParsing.HttpParser
    const data: HttpRequest
    var error: nat

    ghost predicate Shows(p: Parser)
      reads this, parser, data
    {
      p == Parser(parser.Value(), Built(data.Value(), error))
    }

    constructor (relaxed: bool, garbage: nat)
      ensures Shows(NewParser(garbage)) && parser.uriRelaxed == relaxed
      ensures fresh(parser) && fresh(data)
    {
      parser := new HttpParsing.HttpParser(relaxed, garbage);
      data := new HttpRequest();
      error := 0;
    }

    /** The callback of one slice of the text. */
    method Handle(ghost b: Built, s: string, c: Call)
      requires b == Built(data.Value(), error)
      modifies this, data
      ensures Built(data.Value(), error) == AfterCall(b, s, c)
    {
      hide LowerBound, SetHeader, FirstMatch, CharsToHttpMethod, AgreesFor;
      match c {
        case OnMethod(at, _) =>
          var m := CharsToHttpMethod(From(s, at));
          if m == INVALID_METHOD {
            error := 1000;
          } else {
            data.verb := m;
          }
        case OnUri(_, _) =>
        case OnFragment(at, length) => data.fragment := Slice(s, at, length);
        case OnPath(at, length) => data.path := Slice(s, at, length);
        case OnQuery(at, length) => data.query := Slice(s, at, length);
        case OnVersion(at, length) =>
          if AgreesFor(From(s, at), "HTTP/1.1", length) {
            data.version := 0x11;
          } else if AgreesFor(From(s, at), "HTTP/1.0", length) {
            data.version := 0x10;
          } else {
            error := 1001;
          }
        case OnField(field, flen, at, length) =>
          if flen == 0 {
            error := 1002;
          } else {
            data.SetHeader(Slice(s, field, flen), Slice(s, at, length));
          }
        case OnHeaderDone(_) =>
      }
    }

    /** execute: what the automaton did not consume moves to the front of the buffer. */
    method Execute(buffer: array<char>, len: nat, ghost p: Parser) returns (offset: nat)
      requires Shows(p) && len <= buffer.Length
      modifies this, parser, data, buffer
      ensures var (p', n) := ExecuteRequest(p, old(buffer[..len]), parser.uriRelaxed); Shows(p') && offset == n
      ensures buffer[..len - offset] == old(buffer[offset..len]) && buffer[len - offset..] == old(buffer[len - offset..])
    {
      hide HttpAutomaton.Execute, AfterCall;
      var s := buffer[..len];
      offset := parser.Execute(buffer, len);
      var calls, i := parser.calls, 0;
      while i < |calls|
        invariant 0 <= i <= |calls| && calls == parser.calls
        invariant parser.Value() == HttpAutomaton.Execute(p.machine, s, parser.uriRelaxed).0
        invariant Built(data.Value(), error) == HandleAll(p.built, s, calls[..i])
        invariant buffer[..] == old(buffer[..])
      {
        assert calls[..i + 1][..i] == calls[..i];
        Handle(HandleAll(p.built, s, calls[..i]), s, calls[i]);
        i := i + 1;
      }
      assert calls[..|calls|] == calls;
      MoveToFront(buffer, offset, len);
    }
  }

  /** memmove(data, data + offset, len - offset) */
  method MoveToFront(buffer: array<char>, offset: nat, len: nat)
    requires offset <= len <= buffer.Length
    modifies buffer
    ensures buffer[..len - offset] == old(buffer[offset..len]) && buffer[len - offset..] == old(buffer[len - offset..])
  {
    var i := 0;
    while i < len - offset
      invariant 0 <= i <= len - offset
      invariant forall k :: 0 <= k < i ==> buffer[k] == old(buffer[offset + k])
      invariant forall k :: i <= k < buffer.Length ==> buffer[k] == old(buffer[k])
    {
      buffer[i] := buffer[offset + i];
      i := i + 1;
    }
  }
}
