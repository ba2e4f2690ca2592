/** Requests of sylar/http/http.cpp: the method table, the fields, and how a request is printed. */
module HttpRequests {
  import opened Codec
  import opened HttpHeaders
  import A = HttpAutomaton

  // ---------------------------------------------------------------- methods

  const NAMES: seq<string> := [
    "DELETE", "GET", "HEAD", "POST", "PUT", "CONNECT", "OPTIONS", "TRACE", "COPY", "LOCK", "MKCOL", "MOVE", "PROPFIND",
    "PROPPATCH", "SEARCH", "UNLOCK", "BIND", "REBIND", "UNBIND", "ACL", "REPORT", "MKACTIVITY", "CHECKOUT", "MERGE",
    "M-SEARCH", "NOTIFY", "SUBSCRIBE", "UNSUBSCRIBE", "PATCH", "PURGE", "MKCALENDAR", "LINK", "UNLINK", "SOURCE"]

  const INVALID_METHOD := 34
  const GET_METHOD := 1
  const MSEARCH := 24

  /** CharsToHttpMethod: the first name of the table that the characters begin with. */
  function CharsToHttpMethod(m: string): nat {
    FirstMatch(m, 0)
  }

  function FirstMatch(m: string, i: nat): nat
    requires i <= |NAMES|
    decreases |NAMES| - i
  {
    if i == |NAMES| || NAMES[i] <= m then i else FirstMatch(m, i + 1)
  }

  function HttpMethodToString(m: nat): string {
    if m < |NAMES| then NAMES[m] else "<unknown>"
  }

  /** No name of the table begins another one. */
  lemma NamesApart(j: nat, i: nat)
    requires j < i < 34
    ensures !(NAMES[j] <= NAMES[i])
  {
    hide NAMES;
    if i < 14 {
      NamesApartLow(j, i);
    } else if i < 22 {
      NamesApartMiddle(j, i);
    } else if i < 28 {
      NamesApartUpper(j, i);
    } else {
      NamesApartHigh(j, i);
    }
  }

  /** The names differ within their first five characters. */
  predicate Differ(a: string, b: string) {
    && |a| >= 3 && |b| >= 3
    && (a[0] != b[0] || a[1] != b[1] || a[2] != b[2]
        || (|a| >= 4 && |b| >= 4 && (a[3] != b[3] || (|a| >= 5 && |b| >= 5 && a[4] != b[4]))))
  }

  lemma NamesApartLow(j: nat, i: nat)
    requires j < i < 14
    ensures !(NAMES[j] <= NAMES[i])
  {
    assert Differ(NAMES[j], NAMES[i]);
  }

  lemma NamesApartMiddle(j: nat, i: nat)
    requires j < i && 14 <= i < 22
    ensures !(NAMES[j] <= NAMES[i])
  {
    assert Differ(NAMES[j], NAMES[i]);
  }

  lemma NamesApartUpper(j: nat, i: nat)
    requires j < i && 22 <= i < 28
    ensures !(NAMES[j] <= NAMES[i])
  {
    assert Differ(NAMES[j], NAMES[i]);
  }

  lemma NamesApartHigh(j: nat, i: nat)
    requires j < i && 28 <= i < 34
    ensures !(NAMES[j] <= NAMES[i])
  {
    assert Differ(NAMES[j], NAMES[i]);
  }

  /** Every name but M-SEARCH is made of the automaton's method characters, and is short enough for it. */
  lemma NameShape(i: nat)
    requires i < 34
    ensures 3 <= |NAMES[i]| <= 11
    ensures i != MSEARCH ==> forall k :: 0 <= k < |NAMES[i]| ==> A.MethodChar(NAMES[i][k])
  {
  }

  lemma MSearchShape()
    ensures |NAMES[MSEARCH]| == 8 && NAMES[MSEARCH][0] == 'M' && NAMES[MSEARCH][1] == '-'
  {
  }

  /** A printed method name followed by a space is read back as that method. */
  lemma NameRecovered(i: nat, rest: string)
    requires i < 34
    ensures CharsToHttpMethod(NAMES[i] + " " + rest) == i
  {
    hide NAMES;
    Count();
    var m := NAMES[i] + " " + rest;
    forall j | 0 <= j < i ensures !(NAMES[j] <= m) {
      NotBegun(j, i, rest);
    }
    assert NAMES[i] <= m;
    MatchAt(m, i, 0);
  }

  lemma Count()
    ensures |NAMES| == 34
  {
  }

  lemma NotBegun(j: nat, i: nat, rest: string)
    requires j < i < 34
    ensures |NAMES| == 34 && !(NAMES[j] <= NAMES[i] + " " + rest)
  {
    hide NAMES;
    Count();
    NamesApart(j, i);
    NameChars(j);
    NameChars(i);
    WithinFirstWord(NAMES[j], NAMES[i], rest);
  }

  /** A prefix without spaces ends before the first space. */
  lemma WithinFirstWord(a: string, b: string, rest: string)
    requires forall k :: 0 <= k < |a| ==> a[k] != ' '
    ensures a <= b + " " + rest ==> a <= b
  {
    var m := b + " " + rest;
    assert m[|b|] == ' ' && m[..|b|] == b;
    if |a| > |b| {
      assert a[|b|] != m[|b|];
    }
  }

  lemma NameChars(i: nat)
    requires i < 34
    ensures |NAMES| == 34 && forall k :: 0 <= k < |NAMES[i]| ==> ' ' < NAMES[i][k]
  {
  }

  lemma {:induction false} MatchAt(m: string, i: nat, from: nat)
    requires from <= i < |NAMES| && NAMES[i] <= m && forall j :: 0 <= j < i ==> !(NAMES[j] <= m)
    ensures FirstMatch(m, from) == i
    decreases i - from
  {
    hide NAMES;
    if from < i {
      MatchAt(m, i, from + 1);
    }
  }

  // ---------------------------------------------------------------- numbers

  function Digit(d: nat): char
    requires d < 10
  {
    ('0' as int + d) as char
  }

  function Decimal(n: nat): (s: string)
    ensures |s| > 0
  {
    if n < 10 then [Digit(n)] else Decimal(n / 10) + [Digit(n % 10)]
  }

  predicate IsDigit(c: char) {
    '0' <= c <= '9'
  }

  function Digits(s: string): Option<nat> {
    if s == "" then Some(0)
    else
      var front := Digits(s[..|s| - 1]);
      if front.Some? && IsDigit(s[|s| - 1]) then Some(front.value * 10 + (s[|s| - 1] as int - '0' as int)) else None
  }

  const WORD64 := 0x1_0000_0000_0000_0000

  /** boost::lexical_cast<uint64_t>: an optional sign, then digits that fit; a minus sign negates modulo 2^64. */
  function LexicalCast(s: string): Option<nat> {
    var signed := s != "" && s[0] in {'+', '-'};
    var digits := if signed then s[1..] else s;
    var n := Digits(digits);
    if digits == "" || n == None || n.value >= WORD64 then None
    else if signed && s[0] == '-' then Some((WORD64 - n.value) % WORD64)
    else n
  }

  lemma {:induction false} DecimalDigits(n: nat)
    ensures Digits(Decimal(n)) == Some(n)
    ensures forall i :: 0 <= i < |Decimal(n)| ==> IsDigit(Decimal(n)[i])
    decreases n
  {
    if n < 10 {
      assert Decimal(n)[..0] == "";
    } else {
      DecimalDigits(n / 10);
      var s := Decimal(n);
      assert s[..|s| - 1] == Decimal(n / 10);
    }
  }

  /** A printed number is read back as that number. */
  lemma DecimalRecovered(n: nat)
    requires n < WORD64
    ensures LexicalCast(Decimal(n)) == Some(n)
  {
    DecimalDigits(n);
    hide Decimal, Digits;
    assert IsDigit(Decimal(n)[0]);
  }

  /** A sign, none or one; leading zeros; a number. */
  function SignedText(sign: string, zeros: nat, n: nat): string {
    sign + seq(zeros, i => '0') + Decimal(n)
  }

  lemma {:induction false} DigitsMeaning(s: string)
    ensures Digits(s).Some? <==> forall i :: 0 <= i < |s| ==> '0' <= s[i] <= '9'
    decreases |s|
  {
    if s != "" {
      DigitsMeaning(s[..|s| - 1]);
    }
  }

  lemma {:induction false} ZerosFirst(zeros: nat, n: nat)
    ensures Digits(seq(zeros, i => '0') + Decimal(n)) == Some(n)
    decreases n
  {
    var z := seq(zeros, i => '0');
    var s := z + Decimal(n);
    if n < 10 {
      assert s[..|s| - 1] == z;
      OnlyZeros(zeros);
    } else {
      ZerosFirst(zeros, n / 10);
      assert s[..|s| - 1] == z + Decimal(n / 10);
    }
  }

  lemma {:induction false} OnlyZeros(zeros: nat)
    ensures Digits(seq(zeros, i => '0')) == Some(0)
  {
    if zeros > 0 {
      OnlyZeros(zeros - 1);
      assert seq(zeros, i => '0')[..zeros - 1] == seq(zeros - 1, i => '0');
    }
  }

  /** What the conversion makes of a number with or without a sign: it must be below 2^64, and a minus sign counts it down
      from there. */
  lemma NumberMeaning(sign: string, zeros: nat, n: nat)
    requires sign in {"", "+", "-"}
    ensures LexicalCast(SignedText(sign, zeros, n))
            == if n >= WORD64 then None else if sign == "-" && n > 0 then Some(WORD64 - n) else Some(n)
  {
    hide Digits, Decimal, LexicalCast;
    var t := seq(zeros, i => '0') + Decimal(n);
    ZerosFirst(zeros, n);
    DigitsMeaning(t);
    assert sign + seq(zeros, i => '0') + Decimal(n) == sign + t;
    SignedCast(sign, t, n);
  }

  lemma SignedCast(sign: string, t: string, n: nat)
    requires sign in {"", "+", "-"} && t != "" && '0' <= t[0] <= '9' && Digits(t) == Some(n)
    ensures LexicalCast(sign + t) == if n >= WORD64 then None else if sign == "-" && n > 0 then Some(WORD64 - n) else Some(n)
  {
    hide Digits;
    if sign == "" {
      assert "" + t == t;
    } else {
      assert (sign + t)[1..] == t && (sign + t)[0] == sign[0];
    }
  }

  /** Nothing else than digits behind at most one sign is a number. */
  lemma NoNumber(s: string)
    requires LexicalCast(s).Some?
    ensures var digits := if s != "" && s[0] in {'+', '-'} then s[1..] else s;
            digits != "" && forall i :: 0 <= i < |digits| ==> '0' <= digits[i] <= '9'
  {
    hide Digits;
    DigitsMeaning(if s != "" && s[0] in {'+', '-'} then s[1..] else s);
  }

  // ---------------------------------------------------------------- requests

  datatype Request = Request(
    verb: nat,
    version: nat,
    close: bool,
    path: string,
    query: string,
    fragment: string,
    headers: seq<Header>,
    body: string)

  /** What the constructor makes. */
  const NEW_REQUEST := Request(GET_METHOD, 0x11, true, "/", "", "", [], "")

  const CRLF := "\r\n"

  function ConnectionValue(close: bool): string {
    if close then "close" else "keep-alive"
  }

  function RequestLine(r: Request): string {
    HttpMethodToString(r.verb) + " " + Target(r)
      + " HTTP/" + Decimal(r.version / 16) + "." + Decimal(r.version / 128) + CRLF
  }

  /** The fragment itself is not printed, only its sign. */
  function Target(r: Request): string {
    r.path + (if r.query == "" then "" else "?") + r.query + (if r.fragment == "" then "" else "#")
  }

  function HeaderLines(hs: seq<Header>): string {
    if hs == [] then ""
    else
      var h := hs[|hs| - 1];
      HeaderLines(hs[..|hs| - 1]) + if SameName(h.name, "connection") then "" else h.name + ":" + h.value + CRLF
  }

  /** Everything before the body. */
  function Head(r: Request): string {
    RequestLine(r)
      + "connection: " + ConnectionValue(r.close) + CRLF
      + HeaderLines(r.headers)
      + (if r.body != "" then "content-length: " + Decimal(|r.body|) + CRLF else "")
      + CRLF
  }

  /** HttpRequest::dump */
  function Dump(r: Request): string {
    Head(r) + r.body
  }

  /** The request as the program holds it. */
  class HttpRequest {
    var verb: nat
    var version: nat
    var close: bool
    var path: string
    var query: string
    var fragment: string
    var headers: seq<Header>
    var body: string

    function Value(): Request
      reads this
    {
      Request(verb, version, close, path, query, fragment, headers, body)
    }

    constructor ()
      ensures Value() == NEW_REQUEST
    {
      verb, version, close, path, query, fragment, headers, body := GET_METHOD, 0x11, true, "/", "", "", [], "";
    }

    /** lower_bound in the header map */
    method FirstNotLess(key: string) returns (it: nat)
      ensures it == LowerBound(headers, key)
    {
      it := 0;
      while it < |headers| && Less(headers[it].name, key)
        invariant 0 <= it <= |headers|
        invariant LowerBound(headers, key) == it + LowerBound(headers[it..], key)
      {
        it := it + 1;
      }
    }

    method GetHeader(key: string, def: string) returns (value: string)
      ensures value == match Lookup(headers, key) case Some(v) => v case None => def
    {
      var it := FirstNotLess(key);
      value := if it < |headers| && !Less(key, headers[it].name) then headers[it].value else def;
    }

    method SetHeader(key: string, value: string)
      modifies this`headers
      ensures headers == HttpHeaders.SetHeader(old(headers), key, value)
    {
      var it := FirstNotLess(key);
      if it < |headers| && !Less(key, headers[it].name) {
        headers := headers[it := headers[it].(value := value)];
      } else {
        headers := headers[..it] + [Header(key, value)] + headers[it..];
      }
    }

    method DelHeader(key: string)
      modifies this`headers
      ensures headers == HttpHeaders.DelHeader(old(headers), key)
    {
      var it := FirstNotLess(key);
      if it < |headers| && !Less(key, headers[it].name) {
        headers := headers[..it] + headers[it + 1..];
      }
    }

    /** dump, onto a stream */
    method DumpTo(os: string) returns (out: string)
      ensures out == os + Dump(Value())
    {
      hide Decimal, SameName, HttpMethodToString, ConnectionValue, RequestLine, HeaderLines;
      out := DumpLine(os);
      ghost var start := out + "connection: " + ConnectionValue(close) + CRLF;
      out := out + "connection: " + (if close then "close" else "keep-alive") + CRLF;
      ConnectionIs(close);
      out := DumpHeaders(out);
      if body != "" {
        out := out + "content-length: " + Decimal(|body|) + CRLF + CRLF + body;
      } else {
        out := out + CRLF;
      }
      Assembled(os, Value());
    }

    method DumpLine(os: string) returns (out: string)
      ensures out == os + RequestLine(Value())
    {
      hide Decimal, HttpMethodToString;
      var q, f := if query == "" then "" else "?", if fragment == "" then "" else "#";
      out := os + HttpMethodToString(verb) + " " + path + q + query + f;
      assert out == os + (HttpMethodToString(verb) + " " + Target(Value()));
      out := out + " HTTP/" + Decimal(version / 16) + "." + Decimal(version / 128) + CRLF;
    }

    /** The loop over the headers. */
    method DumpHeaders(os: string) returns (out: string)
      ensures out == os + HeaderLines(headers)
    {
      hide SameName;
      out := os;
      var i := 0;
      while i < |headers|
        invariant 0 <= i <= |headers| && out == os + HeaderLines(headers[..i])
      {
        assert headers[..i + 1][..i] == headers[..i];
        if !SameName(headers[i].name, "connection") {
          out := out + (headers[i].name + ":" + headers[i].value + CRLF);
        }
        i := i + 1;
      }
      assert headers[..|headers|] == headers;
    }

    lemma ConnectionIs(close: bool)
      ensures ConnectionValue(close) == if close then "close" else "keep-alive"
    {
    }
  }

  lemma Assembled(os: string, r: Request)
    ensures os + Dump(r) ==
            var out := os + RequestLine(r) + "connection: " + ConnectionValue(r.close) + CRLF + HeaderLines(r.headers);
            if r.body != "" then out + "content-length: " + Decimal(|r.body|) + CRLF + CRLF + r.body else out + CRLF
  {
    hide Decimal, RequestLine, ConnectionValue, HeaderLines, CRLF;
    var a, b, c := RequestLine(r), "connection: " + ConnectionValue(r.close) + CRLF, HeaderLines(r.headers);
    assert a + "connection: " + ConnectionValue(r.close) + CRLF == a + b;
    assert os + a + "connection: " + ConnectionValue(r.close) + CRLF == os + a + b;
    assert os + (a + b + c) == os + a + b + c;
    var d := if r.body != "" then "content-length: " + Decimal(|r.body|) + CRLF else "";
    assert Head(r) == a + b + c + d + CRLF;
    Tail(os + a + b + c, r);
    assert os + ((a + b + c + d + CRLF) + r.body) == (os + a + b + c) + (d + CRLF + r.body);
  }

  lemma Tail(out: string, r: Request)
    ensures var d := if r.body != "" then "content-length: " + Decimal(|r.body|) + CRLF else "";
            out + (d + CRLF + r.body)
            == if r.body != "" then out + "content-length: " + Decimal(|r.body|) + CRLF + CRLF + r.body else out + CRLF
  {
  }
}
