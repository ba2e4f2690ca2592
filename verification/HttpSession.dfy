/** recvRequest of sylar/http/http_session.cpp and readFixSize of sylar/stream.cpp: a request off a stream whose reads
    return what they like. */
module HttpSessions {
  import opened Codec
  import opened HttpHeaders
  import opened HttpRequests
  import opened HttpRequestParsers

  /** A connected stream: what the peer will have sent, and how much each read returns at most. */
  class Stream {
    var incoming: string
    var sizes: seq<nat>

    constructor (incoming: string, sizes: seq<nat>)
      ensures this.incoming == incoming && this.sizes == sizes
    {
      this.incoming, this.sizes := incoming, sizes;
    }

    /** Into the buffer from `at` on. Nothing is read only at the end of the stream, or into no space. */
    method Read(buffer: array<char>, at: nat, length: nat) returns (n: nat)
      requires at + length <= buffer.Length
      modifies this, buffer
      ensures n <= length && n <= |old(incoming)| && incoming == old(incoming)[n..]
      ensures n == 0 <==> length == 0 || old(incoming) == ""
      ensures buffer[..at] == old(buffer[..at]) && buffer[at..at + n] == old(incoming)[..n]
      ensures buffer[at + n..] == old(buffer[at + n..])
    {
      var most := if sizes == [] || sizes[0] == 0 then length else sizes[0];
      sizes := if sizes == [] then [] else sizes[1..];
      n := if most < length then most else length;
      n := if n < |incoming| then n else |incoming|;
      var i := 0;
      while i < n
        invariant 0 <= i <= n && incoming == old(incoming)
        invariant forall k :: 0 <= k < at ==> buffer[k] == old(buffer[k])
        invariant forall k :: 0 <= k < i ==> buffer[at + k] == old(incoming)[k]
        invariant forall k :: at + i <= k < buffer.Length ==> buffer[k] == old(buffer[k])
      {
        buffer[at + i] := incoming[i];
        i := i + 1;
      }
      incoming := incoming[n..];
    }

    /** readFixSize into the buffer from `at` on. At the end of the stream its loop never ends: `stuck`. The length it
        returns is cut to a signed 32-bit integer. */
    method ReadFixSize(buffer: array<char>, at: nat, length: nat) returns (rt: int, stuck: bool)
      requires at + length <= buffer.Length
      modifies this, buffer
      ensures stuck <==> |old(incoming)| < length
      ensures !stuck ==> rt == ToInt32(length) && incoming == old(incoming)[length..]
      ensures !stuck ==> buffer[at..at + length] == old(incoming)[..length]
      ensures buffer[..at] == old(buffer[..at])
    {
      var offset: nat, left: nat := 0, length;
      while left > 0
        invariant offset + left == length && offset <= |old(incoming)| && incoming == old(incoming)[offset..]
        invariant buffer[at..at + offset] == old(incoming)[..offset] && buffer[..at] == old(buffer[..at])
        decreases left
      {
        ghost var before := buffer[..];
        var n := Read(buffer, at + offset, left);
        if n == 0 {
          return 0, true;
        }
        assert buffer[..at] == before[..at];
        assert buffer[at..at + offset] == before[at..at + offset];
        assert buffer[at..at + offset + n] == buffer[at..at + offset] + buffer[at + offset..at + offset + n];
        assert old(incoming)[offset..][n..] == old(incoming)[offset + n..];
        offset, left := offset + n, left - n;
      }
      rt, stuck := ToInt32(length), false;
    }
  }

  /** uint64_t to int64_t */
  function ToInt64(n: nat): int {
    var w := n % WORD64;
    if w < 0x8000_0000_0000_0000 then w else w - WORD64
  }

  /** No request and a closed stream, a read that never returns, or a request. */
  datatype Outcome = Refused | Hangs | Received(request: Request)

  // ---------------------------------------------------------------- what is received

  /** The parser after the reads, and what it left in the buffer. */
  function AfterReads(p: Parser, chunks: seq<string>, relaxed: bool): (Parser, string) {
    if chunks == [] then (p, "")
    else
      var n := |chunks| - 1;
      var (before, pending) := AfterReads(p, chunks[..n], relaxed);
      var (after, k) := ExecuteRequest(before, pending + chunks[n], relaxed);
      (after, (pending + chunks[n])[k..])
  }

  predicate GoesOn(p: Parser) {
    !HasError(p) && !IsFinished(p)
  }

  /** The body is the next bytes after the head, wherever the reads end. */
  function WithBody(request: Request, following: string, inBuffer: nat): Outcome {
    var length := ToInt64(ContentLength(request));
    if length <= 0 then Received(request)
    else if |following| < length then Hangs
    else if length > inBuffer && ToInt32(length - inBuffer) <= 0 then Refused
    else Received(request.(body := following[..length]))
  }

  /** After the last read of the head; `rest` is still to come. */
  function Judge(p: Parser, pending: string, rest: string, buffSize: nat): Outcome {
    if HasError(p) || |pending| == buffSize || !IsFinished(p) then Refused
    else WithBody(p.built.request, pending + rest, |pending|)
  }

  function Concat(chunks: seq<string>): string {
    if chunks == [] then "" else Concat(chunks[..|chunks| - 1]) + chunks[|chunks| - 1]
  }

  // ---------------------------------------------------------------- the session

  /** What the reads so far have made of the parser, the buffer and the stream. */
  ghost predicate Progress(start: Parser, p: Parser, pending: string, chunks: seq<string>, all: string, left: string, relaxed: bool) {
    && Concat(chunks) + left == all
    && (p, pending) == AfterReads(start, chunks, relaxed)
    && forall i :: 0 <= i < |chunks| ==> chunks[i] != "" && GoesOn(AfterReads(start, chunks[..i], relaxed).0)
  }

  lemma ProgressMade(start: Parser, p: Parser, pending: string, chunks: seq<string>, all: string, left: string,
                     relaxed: bool, t: string)
    requires Progress(start, p, pending, chunks, all, t + left, relaxed) && t != "" && GoesOn(p)
    ensures var (p', n) := ExecuteRequest(p, pending + t, relaxed);
            Progress(start, p', (pending + t)[n..], chunks + [t], all, left, relaxed)
  {
    hide ExecuteRequest, GoesOn;
    var chunks' := chunks + [t];
    assert chunks'[..|chunks|] == chunks;
    assert forall i :: 0 <= i < |chunks| ==> chunks'[..i] == chunks[..i];
    assert Concat(chunks') == Concat(chunks) + t;
    assert Concat(chunks) + (t + left) == Concat(chunks) + t + left;
  }

  /** One round of the loop: a read and an execution. False when nothing was read. */
  method Round(stream: Stream, parser: HttpRequestParser, buffer: array<char>, offset: nat, ghost p: Parser)
    returns (some: bool, next: nat, ghost t: string)
    requires parser.Shows(p) && offset <= buffer.Length
    modifies stream, buffer, parser, parser.parser, parser.data
    ensures next <= buffer.Length
    ensures some ==> t != "" && offset + |t| <= buffer.Length && old(stream.incoming) == t + stream.incoming
    ensures some ==> var (p', n) := ExecuteRequest(p, old(buffer[..offset]) + t, parser.parser.uriRelaxed);
                     parser.Shows(p') && buffer[..next] == (old(buffer[..offset]) + t)[n..]
    ensures !some ==> next == offset && parser.Shows(p) && buffer[..next] == old(buffer[..offset])
                      && (stream.incoming == "" || offset == buffer.Length)
    ensures !some ==> stream.incoming == old(stream.incoming)
  {
    hide ExecuteRequest;
    ghost var pending := buffer[..offset];
    var n := stream.Read(buffer, offset, buffer.Length - offset);
    some, next, t := n > 0, offset, "";
    if some {
      t := buffer[offset..offset + n];
      var len := offset + n;
      assert buffer[..len] == pending + t;
      var nparse := parser.Execute(buffer, len, p);
      next := len - nparse;
      assert (pending + t)[nparse..] == buffer[..next];
    }
  }

  /** The loop over reads, until the head is there. */
  method ReadHead(stream: Stream, parser: HttpRequestParser, buffer: array<char>, ghost start: Parser)
    returns (ok: bool, offset: nat, ghost p: Parser, ghost chunks: seq<string>)
    requires parser.Shows(start) && GoesOn(start)
    modifies stream, buffer, parser, parser.parser, parser.data
    ensures offset <= buffer.Length && parser.Shows(p)
    ensures Progress(start, p, buffer[..offset], chunks, old(stream.incoming), stream.incoming, parser.parser.uriRelaxed)
    ensures chunks != [] ==> |chunks[0]| <= buffer.Length
    ensures ok <==> !HasError(p) && offset != buffer.Length && IsFinished(p)
    ensures GoesOn(p) ==> stream.incoming == "" || offset == buffer.Length
  {
    hide ExecuteRequest, AfterReads, Concat;
    var relaxed := parser.parser.uriRelaxed;
    offset, p, chunks := 0, start, [];
    Begins(start, stream.incoming, relaxed);
    while true
      invariant parser.Shows(p) && offset <= buffer.Length && GoesOn(p)
      invariant Progress(start, p, buffer[..offset], chunks, old(stream.incoming), stream.incoming, relaxed)
      invariant chunks != [] ==> |chunks[0]| <= buffer.Length
      decreases |stream.incoming|
    {
      ghost var pending := buffer[..offset];
      var some, next, t := Round(stream, parser, buffer, offset, p);
      if !some {
        return false, next, p, chunks;
      }
      ProgressMade(start, p, pending, chunks, old(stream.incoming), stream.incoming, relaxed, t);
      p, chunks, offset := ExecuteRequest(p, pending + t, relaxed).0, chunks + [t], next;
      var failed := parser.error != 0 || parser.parser.cs.Error?;
      if failed || offset == buffer.Length {
        return false, offset, p, chunks;
      }
      if parser.parser.cs.Finished? {
        return true, offset, p, chunks;
      }
    }
  }

  lemma Begins(start: Parser, all: string, relaxed: bool)
    ensures Progress(start, start, "", [], all, all, relaxed)
  {
  }

  /** The body: what the buffer holds of it, and the rest off the stream. */
  method ReadBody(stream: Stream, data: HttpRequest, buffer: array<char>, offset: nat) returns (outcome: Outcome)
    requires offset <= buffer.Length
    modifies stream, data
    ensures outcome == WithBody(old(data.Value()), old(buffer[..offset]) + old(stream.incoming), offset)
  {
    hide ToInt32, ToInt64, ContentLength, LexicalCast;
    var length := ToInt64(ContentLength(data.Value()));
    if length <= 0 {
      return Received(data.Value());
    }
    var body := new char[length];
    var len := if length >= offset then offset else length;
    forall i | 0 <= i < len {
      body[i] := buffer[i];
    }
    var left := length - offset;
    if left > 0 {
      assert body[..offset] == buffer[..offset];
      var rt, stuck := stream.ReadFixSize(body, len, left);
      if stuck {
        return Hangs;
      }
      if rt <= 0 {
        return Refused;
      }
      assert body[..] == body[..offset] + body[offset..offset + left];
      assert old(buffer[..offset] + stream.incoming)[..length] == body[..];
    } else {
      assert body[..] == buffer[..offset][..length];
    }
    data.body := body[..];
    outcome := Received(data.Value());
  }

  /** recvRequest. `chunks` are the reads of its first loop, `rest` is what had not been read after them. */
  method RecvRequest(stream: Stream, buffSize: nat, relaxed: bool, garbage: nat)
    returns (outcome: Outcome, ghost chunks: seq<string>, ghost rest: string)
    modifies stream
    ensures Concat(chunks) + rest == old(stream.incoming) && (chunks != [] ==> |chunks[0]| <= buffSize)
    ensures forall i :: 0 <= i < |chunks| ==>
              chunks[i] != "" && GoesOn(AfterReads(NewParser(garbage), chunks[..i], relaxed).0)
    ensures var (p, pending) := AfterReads(NewParser(garbage), chunks, relaxed);
            && (GoesOn(p) ==> rest == "" || |pending| == buffSize)
            && outcome == Judge(p, pending, rest, buffSize)
  {
    hide ExecuteRequest, WithBody, AfterReads, Concat;
    var parser := new HttpRequestParser(relaxed, garbage);
    var buffer := new char[buffSize];
    var ok, offset;
    ghost var p;
    ok, offset, p, chunks := ReadHead(stream, parser, buffer, NewParser(garbage));
    rest := stream.incoming;
    if !ok {
      outcome := Refused;
    } else {
      outcome := ReadBody(stream, parser.data, buffer, offset);
    }
  }
}
