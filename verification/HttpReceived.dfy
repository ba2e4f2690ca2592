/** What a session receives: the head up to its empty line and the announced number of bytes behind it, however the bytes
    are split into reads. */
module HttpReceived {
  import opened Codec
  import HttpHeaders
  import opened HttpRequests
  import opened HttpAutomaton
  import opened HttpParsing
  import opened HttpRequestParsers
  import opened HttpSplits
  import opened HttpGrammar
  import opened HttpHeads
  import opened HttpLanguage
  import opened HttpRoundTrip
  import opened HttpSegments
  import opened HttpTheorem
  import opened HttpSessions

  // ---------------------------------------------------------------- the head decides

  /** A text that the parser reads to its end and then is finished. */
  ghost predicate WholeHead(head: string, garbage: nat, relaxed: bool) {
    var (q, n) := ExecuteRequest(NewParser(garbage), head, relaxed);
    IsFinished(q) && !HasError(q) && n == |head|
  }

  /** Such a text ends in an empty line. */
  lemma HeadEndsBlank(head: string, garbage: nat, relaxed: bool)
    requires WholeHead(head, garbage, relaxed)
    ensures EndsBlank(head)
  {
    hide Run, HandleAll;
    RunBlank(Fresh(garbage), "", head, 0, relaxed);
    assert "" + head[..|head|] == head;
  }

  /** What follows a whole head has no influence on what is read of it. */
  lemma HeadDecides(head: string, more: string, garbage: nat, relaxed: bool)
    requires WholeHead(head, garbage, relaxed)
    ensures ExecuteRequest(NewParser(garbage), head + more, relaxed) == ExecuteRequest(NewParser(garbage), head, relaxed)
  {
    hide Run, HandleAll, Closed, EndsBlank;
    HeadEndsBlank(head, garbage, relaxed);
    CallsClosed(Fresh(garbage), head, relaxed);
    RunJoined(Fresh(garbage), head, more, 0, relaxed);
    HandleJoined(NewParser(garbage).built, head, more, Execute(Fresh(garbage), head, relaxed).0.calls);
  }

  /** Every first read that finishes the parser begins with a whole head, and gives what that gives. */
  lemma FirstReadFinishes(t: string, garbage: nat, relaxed: bool)
    requires var (q, n) := ExecuteRequest(NewParser(garbage), t, relaxed); IsFinished(q) && !HasError(q)
    ensures var (q, n) := ExecuteRequest(NewParser(garbage), t, relaxed);
            WholeHead(t[..n], garbage, relaxed) && ExecuteRequest(NewParser(garbage), t[..n], relaxed) == (q, n)
  {
    hide Run, HandleAll, Closed, EndsBlank;
    var (q, n) := ExecuteRequest(NewParser(garbage), t, relaxed);
    RunBlank(Fresh(garbage), "", t, 0, relaxed);
    FinishedMoves(Fresh(garbage), t, 0, relaxed);
    assert "" + t[..n] == t[..n] && t[..n] + t[n..] == t;
    FinishedThere(Fresh(garbage), t, relaxed);
    CallsClosed(Fresh(garbage), t[..n], relaxed);
    HandleJoined(NewParser(garbage).built, t[..n], t[n..], Execute(Fresh(garbage), t[..n], relaxed).0.calls);
  }

  lemma FinishedMoves(m: Machine, s: string, p: nat, relaxed: bool)
    requires p <= |s| && !m.control.Finished? && Run(m, s, p, relaxed).0.control.Finished?
    ensures Run(m, s, p, relaxed).1 > p
  {
  }

  /** The automaton that finishes in a text finishes in what it consumed of it. */
  lemma FinishedThere(m: Machine, t: string, relaxed: bool)
    requires !m.control.Finished? && Run(m, t, 0, relaxed).0.control.Finished?
    ensures var n := Run(m, t, 0, relaxed).1; Run(m, t[..n], 0, relaxed) == Run(m, t, 0, relaxed)
  {
    hide Run;
    var n := Run(m, t, 0, relaxed).1;
    FinishedMoves(m, t, 0, relaxed);
    assert t[..n] + t[n..] == t;
    RunJoined(m, t[..n], t[n..], 0, relaxed);
    var r := Run(m, t[..n], 0, relaxed).0;
    if !Stops(r.control) {
      FinishedMoves(r, t, n, relaxed);
    }
  }

  // ---------------------------------------------------------------- any reads

  /** What has been consumed after the reads. */
  ghost predicate ReadOk(p: Parser, pending: string, read: string) {
    && |pending| <= |read|
    && read == read[..|read| - |pending|] + pending
    && (!p.machine.control.Elsewhere? ==> LineOk(p.machine.control, read[..|read| - |pending|]))
    && (!Stops(p.machine.control) ==> pending == "")
  }

  lemma ReadMore(p: Parser, pending: string, read: string, t: string, relaxed: bool)
    requires ReadOk(p, pending, read) && GoesOn(p)
    ensures var (q, n) := ExecuteRequest(p, pending + t, relaxed); ReadOk(q, (pending + t)[n..], read + t)
  {
    hide Run, HandleAll, LineOk;
    var (q, n) := ExecuteRequest(p, pending + t, relaxed);
    var before := read[..|read| - |pending|];
    assert read + t == before + (pending + t);
    if pending + t == "" {
      assert read + t == read;
    } else if p.machine.control.Elsewhere? {
      StaysElsewhere(p.machine, pending + t, relaxed);
      Shorter(before, pending + t, n);
    } else {
      var m := p.machine.(mark := 0, fieldStart := 0, fieldLen := 0, calls := []);
      assert before + (pending + t)[..0] == before;
      RunBlank(m, before, pending + t, 0, relaxed);
      Shorter(before, pending + t, n);
    }
  }

  lemma Shorter(before: string, u: string, n: nat)
    requires n <= |u|
    ensures var read := before + u;
            && |u[n..]| <= |read| && read[..|read| - |u[n..]|] == before + u[..n] && read == before + u[..n] + u[n..]
  {
  }

  lemma StaysElsewhere(m: Machine, s: string, relaxed: bool)
    requires m.control.Elsewhere?
    ensures Execute(m, s, relaxed).0.control.Elsewhere?
  {
  }

  lemma {:induction false} ReadsOk(chunks: seq<string>, garbage: nat, relaxed: bool)
    requires forall i :: 0 <= i < |chunks| ==> GoesOn(AfterReads(NewParser(garbage), chunks[..i], relaxed).0)
    ensures var (p, pending) := AfterReads(NewParser(garbage), chunks, relaxed); ReadOk(p, pending, Concat(chunks))
    decreases |chunks|
  {
    hide ExecuteRequest, GoesOn, ReadOk, AfterReads;
    if chunks == [] {
      ReadNothing(garbage, relaxed);
    } else {
      var k := |chunks| - 1;
      assert forall i :: 0 <= i < k ==> chunks[..k][..i] == chunks[..i];
      ReadsOk(chunks[..k], garbage, relaxed);
      var (p, pending) := AfterReads(NewParser(garbage), chunks[..k], relaxed);
      ReadMore(p, pending, Concat(chunks[..k]), chunks[k], relaxed);
      LastRead(chunks, garbage, relaxed);
    }
  }

  lemma ReadNothing(garbage: nat, relaxed: bool)
    ensures AfterReads(NewParser(garbage), [], relaxed) == (NewParser(garbage), "") && ReadOk(NewParser(garbage), "", "")
  {
  }

  lemma LastRead(chunks: seq<string>, garbage: nat, relaxed: bool)
    requires chunks != []
    ensures var k := |chunks| - 1;
            var (p, pending) := AfterReads(NewParser(garbage), chunks[..k], relaxed);
            var (q, n) := ExecuteRequest(p, pending + chunks[k], relaxed);
            && AfterReads(NewParser(garbage), chunks, relaxed) == (q, (pending + chunks[k])[n..])
            && Concat(chunks) == Concat(chunks[..k]) + chunks[k]
  {
    hide ExecuteRequest;
  }

  /** What a session returns for a head that it has read: `request`, as read from the head; `following`, all bytes behind
      the head; `inBuffer`, how many of them came with the head. */
  ghost predicate Returns(outcome: Outcome, request: Request, following: string, inBuffer: nat) {
    var length := ContentLength(request);
    && (length == 0 || length >= 0x8000_0000_0000_0000 ==> outcome == Received(request))
    && (|following| < length < 0x8000_0000_0000_0000 ==> outcome == Hangs)
    && (0 < length <= |following| && length < 0x8000_0000_0000_0000 ==>
          outcome == if length > inBuffer && NoPositiveInt(length - inBuffer) then Refused
                     else Received(request.(body := following[..length])))
  }

  /** A length that is zero or negative when it is cut to 32 bits. */
  predicate NoPositiveInt(n: nat) {
    n % 0x1_0000_0000 == 0 || n % 0x1_0000_0000 >= 0x8000_0000
  }

  lemma Casts(n: nat)
    ensures ToInt32(n) <= 0 <==> NoPositiveInt(n)
    ensures n < WORD64 ==> ToInt64(n) == if n < 0x8000_0000_0000_0000 then n else n - WORD64
  {
  }

  /** The announced length is a 64-bit number. */
  lemma LengthFits(r: Request)
    ensures ContentLength(r) < WORD64
  {
    hide HttpHeaders.Lookup, Digits;
  }

  lemma JudgeReturns(p: Parser, pending: string, rest: string, buffSize: nat)
    requires IsFinished(p) && !HasError(p)
    ensures if |pending| == buffSize then Judge(p, pending, rest, buffSize) == Refused
            else Returns(Judge(p, pending, rest, buffSize), p.built.request, pending + rest, |pending|)
  {
    hide ToInt32, ToInt64, ContentLength, HasError;
    LengthFits(p.built.request);
    Casts(ContentLength(p.built.request));
    forall n: nat ensures ToInt32(n) <= 0 <==> NoPositiveInt(n) {
      Casts(n);
    }
  }

  /** Whatever was sent and however it is split into reads: once the parser has finished, what it consumed in all reads ends
      in an empty line, and the body is the announced number of bytes right behind that line. */
  lemma AnyReceived(garbage: nat, relaxed: bool, chunks: seq<string>, rest: string, buffSize: nat)
    requires forall i :: 0 <= i < |chunks| ==> GoesOn(AfterReads(NewParser(garbage), chunks[..i], relaxed).0)
    requires var p := AfterReads(NewParser(garbage), chunks, relaxed).0; IsFinished(p) && !HasError(p)
    ensures var (p, pending) := AfterReads(NewParser(garbage), chunks, relaxed);
            var n, all := |Concat(chunks)| - |pending|, Concat(chunks) + rest;
            && 0 <= n && EndsBlank(all[..n])
            && if |pending| == buffSize then Judge(p, pending, rest, buffSize) == Refused
               else Returns(Judge(p, pending, rest, buffSize), p.built.request, all[n..], |pending|)
  {
    hide AfterReads, GoesOn, Judge, Returns, Concat, EndsBlank, HasError;
    ReadsOk(chunks, garbage, relaxed);
    var (p, pending) := AfterReads(NewParser(garbage), chunks, relaxed);
    JudgeReturns(p, pending, rest, buffSize);
    var n, all := |Concat(chunks)| - |pending|, Concat(chunks) + rest;
    assert all[..n] == Concat(chunks)[..n];
    assert all[n..] == pending + rest;
  }

  /** No read begins between a mark and its use. */
  ghost predicate CleanReads(chunks: seq<string>, garbage: nat, relaxed: bool) {
    forall i :: 0 <= i < |chunks| && chunks[i] != "" ==>
      CleanSplit(AfterReads(NewParser(garbage), chunks[..i], relaxed).0.machine.control, chunks[i])
  }

  /** Nor in the targets the model does not follow. */
  ghost predicate Followed(chunks: seq<string>, garbage: nat, relaxed: bool) {
    forall i :: 0 <= i < |chunks| ==>
      var p := AfterReads(NewParser(garbage), chunks[..i], relaxed).0; GoesOn(p) && !p.machine.control.Elsewhere?
  }

  /** A head that comes in several reads, none of which begins between a mark and its use, is read like the same head in
      one read: the same request or error code, the same state, and as much consumed. */
  lemma {:induction false} SplitHead(chunks: seq<string>, garbage: nat, relaxed: bool)
    requires Followed(chunks, garbage, relaxed) && CleanReads(chunks, garbage, relaxed)
    ensures var (p, pending) := AfterReads(NewParser(garbage), chunks, relaxed);
            LikeWhole(p, pending, Concat(chunks), garbage, relaxed)
    decreases |chunks|
  {
    hide ExecuteRequest, AfterReads, CleanSplit, LikeWhole, ReadOk, Concat;
    if chunks == [] {
      WholeOfNothing(garbage, relaxed);
    } else {
      var k := |chunks| - 1;
      var before := chunks[..k];
      assert forall i :: 0 <= i < k ==> before[..i] == chunks[..i] && before[i] == chunks[i];
      SplitHead(before, garbage, relaxed);
      ReadsOk(before, garbage, relaxed);
      var (p, pending) := AfterReads(NewParser(garbage), before, relaxed);
      NothingPending(p, pending, Concat(before));
      OneMore(p, Concat(before), chunks[k], garbage, relaxed);
      LastRead(chunks, garbage, relaxed);
      assert "" + chunks[k] == chunks[k];
    }
  }

  lemma NothingPending(p: Parser, pending: string, read: string)
    requires ReadOk(p, pending, read) && GoesOn(p) && !p.machine.control.Elsewhere?
    ensures pending == "" && !Stops(p.machine.control)
  {
  }

  lemma WholeOfNothing(garbage: nat, relaxed: bool)
    ensures var (p, pending) := AfterReads(NewParser(garbage), [], relaxed);
            LikeWhole(p, pending, Concat([]), garbage, relaxed)
  {
  }

  // ---------------------------------------------------------------- the head comes first

  lemma OneRead(p: Parser, t: string, relaxed: bool)
    ensures AfterReads(p, [t], relaxed)
            == (ExecuteRequest(p, t, relaxed).0, t[ExecuteRequest(p, t, relaxed).1..]) && Concat([t]) == t
  {
    hide ExecuteRequest;
    assert [t][..0] == [] && "" + t == t;
    assert AfterReads(p, [], relaxed) == (p, "");
  }

  /** When the first read brings a whole head, the loop makes no other read. */
  lemma FirstReadEnough(head: string, garbage: nat, relaxed: bool, chunks: seq<string>)
    requires WholeHead(head, garbage, relaxed) && chunks != [] && head <= chunks[0]
    requires forall i :: 0 <= i < |chunks| ==> GoesOn(AfterReads(NewParser(garbage), chunks[..i], relaxed).0)
    ensures chunks == [chunks[0]]
    ensures AfterReads(NewParser(garbage), chunks, relaxed)
            == (ExecuteRequest(NewParser(garbage), head, relaxed).0, chunks[0][|head|..])
  {
    hide ExecuteRequest, AfterReads, HasError;
    assert chunks[0] == head + chunks[0][|head|..];
    HeadDecides(head, chunks[0][|head|..], garbage, relaxed);
    OneRead(NewParser(garbage), chunks[0], relaxed);
    assert chunks[..1] == [chunks[0]];
  }

  /** Whatever head the first read brings whole: in however many bytes of what follows it comes with the head, and in
      whatever portions the rest comes, the session returns the request of that head with the announced number of bytes
      behind its empty line. */
  lemma HeadReceived(head: string, following: string, garbage: nat, relaxed: bool, chunks: seq<string>, rest: string,
                     buffSize: nat)
    requires WholeHead(head, garbage, relaxed)
    requires chunks != [] && head <= chunks[0] && |chunks[0]| <= buffSize
    requires forall i :: 0 <= i < |chunks| ==> GoesOn(AfterReads(NewParser(garbage), chunks[..i], relaxed).0)
    requires Concat(chunks) + rest == head + following
    ensures EndsBlank(head)
    ensures var (p, pending) := AfterReads(NewParser(garbage), chunks, relaxed);
            Returns(Judge(p, pending, rest, buffSize), ExecuteRequest(NewParser(garbage), head, relaxed).0.built.request,
                    following, |chunks[0]| - |head|)
  {
    hide ExecuteRequest, AfterReads, GoesOn, Judge, Returns, Concat, EndsBlank;
    FirstReadEnough(head, garbage, relaxed, chunks);
    HeadEndsBlank(head, garbage, relaxed);
    NotEmpty(head);
    OneRead(NewParser(garbage), chunks[0], relaxed);
    var (p, pending) := AfterReads(NewParser(garbage), chunks, relaxed);
    AnyReceived(garbage, relaxed, chunks, rest, buffSize);
    assert (head + following)[|head|..] == following;
  }

  lemma NotEmpty(head: string)
    requires EndsBlank(head)
    ensures |head| > 1
  {
  }

  // ---------------------------------------------------------------- an execution after the head

  /** The closing assertion on the start of the body fails in an execution on one character behind any head. */
  lemma BodyStartIsStale(head: string, garbage: nat, relaxed: bool)
    requires WholeHead(head, garbage, relaxed)
    ensures var m := ExecuteRequest(NewParser(garbage), head, relaxed).0.machine;
            m.control == Finished && m.bodyStart == |head| && Execute(m, "a", relaxed).0.bodyStart > |"a"|
  {
    hide ExecuteRequest, Execute, WholeHead, NewParser;
    MarkOfBody(head, garbage, relaxed);
    var m := ExecuteRequest(NewParser(garbage), head, relaxed).0.machine;
    ClosingAssertions(m, "a", relaxed);
    FieldBegins(m, relaxed);
  }

  lemma MarkOfBody(head: string, garbage: nat, relaxed: bool)
    requires WholeHead(head, garbage, relaxed)
    ensures var m := ExecuteRequest(NewParser(garbage), head, relaxed).0.machine;
            m.control == Finished && m.bodyStart == |head| > 1
  {
    hide Execute, HandleAll;
    HeadEndsBlank(head, garbage, relaxed);
    NotEmpty(head);
    ClosingAssertions(Fresh(garbage), head, relaxed);
  }

  lemma FieldBegins(m: Machine, relaxed: bool)
    requires m.control == Finished
    ensures Execute(m, "a", relaxed).0.control == Field
  {
    StepsOn(m.(mark := 0, fieldStart := 0, fieldLen := 0, calls := []), "a", 0, relaxed);
  }

  /** So it does behind a printed request without a body. */
  lemma SecondExecutionFails(garbage: nat, relaxed: bool)
    ensures var r := Request(GET_METHOD, 0x11, true, "/", "", "", [], "");
            var m := ExecuteRequest(NewParser(garbage), Head(r), relaxed).0.machine;
            Legal(r, relaxed) && Execute(m, "a", relaxed).0.bodyStart > |"a"|
  {
    hide ExecuteRequest, Head, Parsed, WholeHead, Execute;
    var r := Request(GET_METHOD, 0x11, true, "/", "", "", [], "");
    HeadIsRead(r, Head(r), garbage, relaxed);
    PrintedHead(r, garbage, relaxed);
    BodyStartIsStale(Head(r), garbage, relaxed);
  }

  /** The whole heads are the well-formed heads with a listed method. */
  lemma WholeHeadIff(head: string, garbage: nat, relaxed: bool)
    ensures WholeHead(head, garbage, relaxed)
            <==> exists h :: WellFormed(h, relaxed) && Text(h) == head && CharsToHttpMethod(h.verb) != INVALID_METHOD
  {
    hide Run, HandleAll, WellFormed, Text, BuiltOf, ExecuteRequest;
    ParsesIff(head, garbage, relaxed);
    var (q, n) := ExecuteRequest(NewParser(garbage), head, relaxed);
    if WholeHead(head, garbage, relaxed) {
      var h :| WellFormed(h, relaxed) && Text(h) == head[..n] && q.built == BuiltOf(h);
      ErrorOf(h);
    }
    forall h | WellFormed(h, relaxed) && Text(h) == head && CharsToHttpMethod(h.verb) != INVALID_METHOD
      ensures WholeHead(head, garbage, relaxed)
    {
      ErrorOf(h);
    }
  }

  lemma ErrorOf(h: HeadText)
    ensures BuiltOf(h).error != 0 <==> CharsToHttpMethod(h.verb) == INVALID_METHOD
  {
    hide CharsToHttpMethod;
  }

  /** In terms of what is sent: any well-formed head with a listed method, and any bytes behind it. If the first read brings
      the head, then however the bytes are split into reads, the session returns the method, version, path, query, fragment
      and headers of the head, with the announced number of bytes as its body. */
  lemma RequestReceived(h: HeadText, following: string, garbage: nat, relaxed: bool, chunks: seq<string>, rest: string,
                        buffSize: nat)
    requires WellFormed(h, relaxed) && CharsToHttpMethod(h.verb) != INVALID_METHOD
    requires chunks != [] && Text(h) <= chunks[0] && |chunks[0]| <= buffSize
    requires forall i :: 0 <= i < |chunks| ==> GoesOn(AfterReads(NewParser(garbage), chunks[..i], relaxed).0)
    requires Concat(chunks) + rest == Text(h) + following
    ensures var (p, pending) := AfterReads(NewParser(garbage), chunks, relaxed);
            Returns(Judge(p, pending, rest, buffSize), BuiltOf(h).request, following, |chunks[0]| - |Text(h)|)
  {
    hide ExecuteRequest, AfterReads, GoesOn, Judge, Returns, Concat, Text, BuiltOf, WellFormed, CharsToHttpMethod, EndsBlank;
    hide WholeHead;
    WholeHeadIff(Text(h), garbage, relaxed);
    HeadParsed(h, Text(h), garbage, relaxed);
    HeadReceived(Text(h), following, garbage, relaxed, chunks, rest, buffSize);
  }

  // ---------------------------------------------------------------- the head comes in parts

  /** A head that is a beginning of what is sent is a beginning of every text that finishes the parser. */
  lemma HeadComesFirst(head: string, read: string, garbage: nat, relaxed: bool)
    requires WholeHead(head, garbage, relaxed) && (head <= read || read <= head)
    requires var q := ExecuteRequest(NewParser(garbage), read, relaxed).0; IsFinished(q) && !HasError(q)
    ensures head <= read && ExecuteRequest(NewParser(garbage), read, relaxed) == ExecuteRequest(NewParser(garbage), head, relaxed)
  {
    hide ExecuteRequest, HasError;
    if head <= read {
      assert head + read[|head|..] == read;
      HeadDecides(head, read[|head|..], garbage, relaxed);
    } else {
      var n := ExecuteRequest(NewParser(garbage), read, relaxed).1;
      FirstReadFinishes(read, garbage, relaxed);
      assert read[..n] + head[n..] == head;
      HeadDecides(read[..n], head[n..], garbage, relaxed);
    }
  }

  /** Whatever head comes, in however many reads of which none begins between a mark and its use: the session returns the
      request of that head as one read of it gives it, with the announced number of bytes behind its empty line. */
  lemma SplitHeadReceived(head: string, following: string, garbage: nat, relaxed: bool, chunks: seq<string>, rest: string,
                          buffSize: nat)
    requires WholeHead(head, garbage, relaxed)
    requires Followed(chunks, garbage, relaxed) && CleanReads(chunks, garbage, relaxed)
    requires Concat(chunks) + rest == head + following
    requires var p := AfterReads(NewParser(garbage), chunks, relaxed).0; IsFinished(p) && !HasError(p)
    ensures var (p, pending) := AfterReads(NewParser(garbage), chunks, relaxed);
            && |Concat(chunks)| == |head| + |pending|
            && if |pending| == buffSize then Judge(p, pending, rest, buffSize) == Refused
               else Returns(Judge(p, pending, rest, buffSize), ExecuteRequest(NewParser(garbage), head, relaxed).0.built.request,
                            following, |pending|)
  {
    hide ExecuteRequest, AfterReads, GoesOn, Judge, Returns, Concat, EndsBlank, CleanSplit;
    SplitHead(chunks, garbage, relaxed);
    var (p, pending) := AfterReads(NewParser(garbage), chunks, relaxed);
    var read := Concat(chunks);
    Beginnings(read, rest, head, following);
    HeadComesFirst(head, read, garbage, relaxed);
    AnyReceived(garbage, relaxed, chunks, rest, buffSize);
    assert (head + following)[|head|..] == following;
  }

  lemma Beginnings(a: string, x: string, b: string, y: string)
    requires a + x == b + y
    ensures a <= b || b <= a
  {
    if |a| <= |b| {
      assert a == (a + x)[..|a|] == (b + y)[..|a|] == b[..|a|];
    } else {
      assert b == (b + y)[..|b|] == (a + x)[..|b|] == a[..|b|];
    }
  }

  // ---------------------------------------------------------------- a printed request

  /** The whole head of a printed request arrives in the first read. Then, for every way in which the bytes after it are
      split into reads and whatever follows the request, the request received is the one sent, with its body; it is refused
      exactly when what is missing of the body after the first read is no positive 32-bit integer. */
  lemma SentIsReceived(r: Request, garbage: nat, relaxed: bool, chunks: seq<string>, rest: string, more: string, buffSize: nat)
    requires Legal(r, relaxed) && r.verb != MSEARCH && r.version / 16 == 1 && 0 < |r.body| < 0x8000_0000_0000_0000
    requires chunks != [] && Head(r) <= chunks[0] && |chunks[0]| <= buffSize
    requires forall i :: 0 <= i < |chunks| ==> GoesOn(AfterReads(NewParser(garbage), chunks[..i], relaxed).0)
    requires Concat(chunks) + rest == Dump(r) + more
    ensures var (p, pending) := AfterReads(NewParser(garbage), chunks, relaxed);
            var missing := |Dump(r)| - |chunks[0]|;
            Judge(p, pending, rest, buffSize)
            == if missing > 0 && NoPositiveInt(missing) then Refused else Received(Parsed(r).(body := r.body))
  {
    hide ExecuteRequest, Head, Parsed, AfterReads, Judge, ToInt32, ToInt64, ContentLength, GoesOn, Concat, NewParser;
    hide PathOk, Escaped, LegalHeader, HttpHeaders.Sorted, EndsBlank;
    HeadIsRead(r, Head(r), garbage, relaxed);
    PrintedHead(r, garbage, relaxed);
    ParsedLength(r, relaxed);
    assert Dump(r) + more == Head(r) + (r.body + more);
    assert (r.body + more)[..|r.body|] == r.body;
    HeadReceived(Head(r), r.body + more, garbage, relaxed, chunks, rest, buffSize);
  }

  lemma PrintedHead(r: Request, garbage: nat, relaxed: bool)
    requires var (p, n) := ExecuteRequest(NewParser(garbage), Head(r), relaxed);
             IsFinished(p) && n == |Head(r)| && p.built == Built(Parsed(r), 0)
    ensures WholeHead(Head(r), garbage, relaxed)
  {
    hide ExecuteRequest, Head, Parsed;
  }

  /** A body of 2^31 bytes, none of which comes with the head. */
  function LongBody(): (body: string)
    ensures |body| == 0x8000_0000
  {
    seq(0x8000_0000, i => 'x')
  }

  function LongRequest(): Request {
    Request(GET_METHOD, 0x11, true, "/", "", "", [], LongBody())
  }

  lemma LongIsLegal(relaxed: bool)
    ensures Legal(LongRequest(), relaxed)
  {
    hide LongBody;
  }

  lemma FirstGoesOn(garbage: nat, relaxed: bool)
    ensures GoesOn(AfterReads(NewParser(garbage), [], relaxed).0)
  {
  }

  lemma OneChunk(garbage: nat, relaxed: bool, first: string)
    ensures forall i :: 0 <= i < |[first]| ==> GoesOn(AfterReads(NewParser(garbage), [first][..i], relaxed).0)
  {
    hide GoesOn, AfterReads, NewParser;
    FirstGoesOn(garbage, relaxed);
    assert [first][..0] == [];
  }

  lemma DumpLength(r: Request)
    ensures |Dump(r)| == |Head(r)| + |r.body| && Head(r) + r.body == Dump(r) + ""
  {
    hide Head;
  }

  /** In a buffer of whatever size that holds the head, it is read whole and then refused. */
  lemma LongBodyRefused(garbage: nat, relaxed: bool, buffSize: nat)
    requires buffSize >= |Head(LongRequest())|
    ensures var r := LongRequest();
            var (p, pending) := AfterReads(NewParser(garbage), [Head(r)], relaxed);
            Legal(r, relaxed) && Judge(p, pending, r.body, buffSize) == Refused
  {
    hide LongBody, Head, Legal, AfterReads, Judge, GoesOn, NewParser, Dump, ToInt32, Concat, ExecuteRequest, Parsed;
    var r := LongRequest();
    LongIsLegal(relaxed);
    OneChunk(garbage, relaxed, Head(r));
    OneRead(NewParser(garbage), Head(r), relaxed);
    DumpLength(r);
    SentIsReceived(r, garbage, relaxed, [Head(r)], r.body, "", buffSize);
  }
}
