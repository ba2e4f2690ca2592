/** The request automaton of sylar/http/http11_parser.rl.cpp: states 1 to 33, 175 to 193 and 348, its marks and its
    callbacks. All states of absolute and authority-form targets and of XML and JSON messages are one state, Elsewhere,
    in which this model stops. */
module HttpAutomaton {
  import opened Codec

  /** The states, with the numbers they have in the program. */
  datatype Control =
    | Error              // 0
    | Start              // 1
    | Method(n: nat)     // 2, 175..193: n characters read
    | Uri                // 3
    | Version(n: nat)    // 4..12: n characters of HTTP/1.d read
    | LineStart          // 13
    | Field              // 14
    | BeforeValue        // 15
    | Value              // 16
    | LineEnd            // 17
    | LastLine           // 18
    | Rootless           // 19
    | FragmentStart      // 20
    | Fragment           // 21
    | FragmentHex(n: nat) // 22, 23
    | RootlessHex(n: nat) // 24, 25
    | Path               // 26
    | PathHex(n: nat)    // 27, 28
    | QueryStart         // 29
    | Query              // 30
    | QueryHex(n: nat)   // 31, 32
    | Slash              // 33
    | Finished           // 348
    | Elsewhere

  /** One call of a callback; offsets into the buffer, lengths as the program computes them. */
  datatype Call =
    | OnMethod(at: nat, length: int)
    | OnUri(at: nat, length: int)
    | OnFragment(at: nat, length: int)
    | OnPath(at: nat, length: int)
    | OnQuery(at: nat, length: int)
    | OnVersion(at: nat, length: int)
    | OnField(field: nat, flen: int, at: nat, length: int)
    | OnHeaderDone(at: nat)

  /** The fields of http_parser that the modelled states use. */
  datatype Machine = Machine(
    control: Control,
    mark: nat,
    fieldStart: nat,
    fieldLen: int,
    queryStart: nat,
    bodyStart: nat,
    calls: seq<Call>)

  // ---------------------------------------------------------------- characters

  predicate Between(c: char, low: nat, high: nat) {
    low <= c as int <= high
  }

  predicate MethodChar(c: char) {
    Between(c, 48, 57) || Between(c, 65, 90)
  }

  predicate HexChar(c: char) {
    Between(c, 48, 57) || Between(c, 65, 70) || Between(c, 97, 102)
  }

  /** Accepted only when uri_relaxed is set. */
  predicate Relaxed(c: char, relaxed: bool) {
    relaxed && c in {'^', '{', '}'}
  }

  /** A path character other than % and /; bytes above 127 are negative in C and accepted. */
  predicate PathChar(c: char, relaxed: bool) {
    || c in {'!', '$', '=', '_', '~'} || (Between(c, 38, 59) && c != '/') || Between(c, 64, 90) || Between(c, 97, 122)
    || c as int >= 128 || Relaxed(c, relaxed)
  }

  predicate QueryChar(c: char, relaxed: bool) {
    PathChar(c, relaxed) || c == '/' || c == '?'
  }

  /** In a target that does not begin with a slash. */
  predicate RootlessChar(c: char, relaxed: bool) {
    PathChar(c, relaxed) && c != ':' && c as int < 128
  }

  predicate FieldChar(c: char) {
    || c in {'!', '|', '~'} || Between(c, 1, 8) || Between(c, 10, 31) || Between(c, 35, 39) || Between(c, 42, 43)
    || Between(c, 45, 46) || Between(c, 48, 57) || Between(c, 65, 90) || Between(c, 94, 122)
  }

  predicate BadInValue(c: char) {
    c as int == 0 || c as int == 127
  }

  const VERSION_TEXT := "HTTP/1."

  // ---------------------------------------------------------------- transitions

  function NextInUri(c: char, relaxed: bool): Control {
    if c == ' ' then Version(0)
    else if c == '#' then FragmentStart
    else if c == '%' then RootlessHex(0)
    else if c == '/' then Slash
    else if c == '?' then QueryStart
    else if Between(c, 65, 90) || Between(c, 97, 122) then Elsewhere
    else if RootlessChar(c, relaxed) then Rootless
    else Error
  }

  /** Past the first character of a path; `stay` and `hex` are the states of ordinary and of escaped characters. */
  function NextInPath(c: char, ordinary: bool, stay: Control, hex: Control): Control {
    if c == ' ' then Version(0)
    else if c == '#' then FragmentStart
    else if c == '?' then QueryStart
    else if c == '%' then hex
    else if ordinary then stay
    else Error
  }

  function NextInQuery(c: char, relaxed: bool): Control {
    if c == ' ' then Version(0)
    else if c == '#' then FragmentStart
    else if c == '%' then QueryHex(0)
    else if QueryChar(c, relaxed) then Query
    else Error
  }

  function NextInFragment(c: char, relaxed: bool): Control {
    if c == ' ' then Version(0)
    else if c == '%' then FragmentHex(0)
    else if QueryChar(c, relaxed) then Fragment
    else Error
  }

  /** Two hexadecimal digits, then back. */
  function NextInHex(c: char, n: nat, second: Control, back: Control): Control {
    if !HexChar(c) then Error else if n == 0 then second else back
  }

  function NextInField(c: char): Control {
    if c == ':' then BeforeValue else if FieldChar(c) then Field else Error
  }

  function Next(s: Control, c: char, relaxed: bool): Control {
    match s
    case Error => Error
    case Start => if MethodChar(c) then Method(1) else if c in {'<', '@'} then Elsewhere else Error
    case Method(n) => if c == ' ' then Uri else if n < 20 && MethodChar(c) then Method(n + 1) else Error
    case Uri => NextInUri(c, relaxed)
    case Version(n) =>
      if n < 7 then (if c == VERSION_TEXT[n] then Version(n + 1) else Error)
      else if n == 7 then (if c in {'0', '1'} then Version(8) else Error)
      else if c == '\n' then LineStart else if c == '\r' then LineEnd else Error
    case LineStart =>
      if c == '\n' then Finished else if c == '\r' then LastLine else if FieldChar(c) then Field else Error
    case Field => NextInField(c)
    case BeforeValue =>
      if BadInValue(c) then Error
      else if c == ' ' || c as int == 9 then BeforeValue
      else if c == '\n' then LineStart else if c == '\r' then LineEnd else Value
    case Value =>
      if BadInValue(c) then Error else if c == '\n' then LineStart else if c == '\r' then LineEnd else Value
    case LineEnd => if c == '\n' then LineStart else Error
    case LastLine => if c == '\n' then Finished else NextInField(c)
    case Rootless =>
      if c == '/' then Path else NextInPath(c, RootlessChar(c, relaxed), Rootless, RootlessHex(0))
    case FragmentStart => NextInFragment(c, relaxed)
    case Fragment => NextInFragment(c, relaxed)
    case FragmentHex(n) => NextInHex(c, n, FragmentHex(1), Fragment)
    case RootlessHex(n) => NextInHex(c, n, RootlessHex(1), Rootless)
    case Path => NextInPath(c, PathChar(c, relaxed) || c == '/', Path, PathHex(0))
    case PathHex(n) => NextInHex(c, n, PathHex(1), Path)
    case QueryStart => NextInQuery(c, relaxed)
    case Query => NextInQuery(c, relaxed)
    case QueryHex(n) => NextInHex(c, n, QueryHex(1), Query)
    case Slash => if c == '/' then Elsewhere else NextInPath(c, PathChar(c, relaxed), Path, PathHex(0))
    case Finished => NextInField(c)
    case Elsewhere => Elsewhere
  }

  /** What the transition on the character at `p` does besides changing the state. */
  function Effects(m: Machine, c: char, p: nat): Machine {
    match m.control
    case Start => m.(mark := p)
    case Method(_) => if c == ' ' then m.(calls := m.calls + [OnMethod(m.mark, p - m.mark)]) else m
    case Uri =>
      if c == ' ' || c == '#' then m.(mark := p, calls := m.calls + [OnPath(p, 0), OnUri(p, 0)])
      else if c == '?' then m.(mark := p, calls := m.calls + [OnPath(p, 0)])
      else m.(mark := p)
    case Rootless => AfterPath(m, c, p)
    case Path => AfterPath(m, c, p)
    case Slash => AfterPath(m, c, p)
    case QueryStart => AfterQuery(m.(queryStart := p), c, p)
    case Query => AfterQuery(m, c, p)
    case FragmentStart => AfterFragment(m.(mark := p), c, p)
    case Fragment => AfterFragment(m, c, p)
    case Version(n) =>
      if n == 0 then m.(mark := p)
      else if n == 8 then m.(calls := m.calls + [OnVersion(m.mark, p - m.mark)])
      else m
    case LineStart => if c == '\n' then Done(m.(fieldStart := p), p) else m.(fieldStart := p)
    case Field => AfterField(m, c, p)
    case LastLine => if c == '\n' then Done(m, p) else AfterField(m, c, p)
    case Finished => AfterField(m, c, p)
    case BeforeValue => AfterValue(m.(mark := p), c, p)
    case Value => AfterValue(m, c, p)
    case _ => m
  }

  function AfterPath(m: Machine, c: char, p: nat): Machine {
    if c == ' ' || c == '#' then m.(calls := m.calls + [OnPath(m.mark, p - m.mark), OnUri(m.mark, p - m.mark)])
    else if c == '?' then m.(calls := m.calls + [OnPath(m.mark, p - m.mark)])
    else m
  }

  function AfterQuery(m: Machine, c: char, p: nat): Machine {
    if c == ' ' || c == '#' then
      m.(calls := m.calls + [OnQuery(m.queryStart, p - m.queryStart), OnUri(m.mark, p - m.mark)])
    else m
  }

  function AfterFragment(m: Machine, c: char, p: nat): Machine {
    if c == ' ' then m.(calls := m.calls + [OnFragment(m.mark, p - m.mark)]) else m
  }

  function AfterField(m: Machine, c: char, p: nat): Machine {
    if c == ':' then m.(fieldLen := p - m.fieldStart) else m
  }

  function AfterValue(m: Machine, c: char, p: nat): Machine {
    if c == '\n' || c == '\r' then m.(calls := m.calls + [OnField(m.fieldStart, m.fieldLen, m.mark, p - m.mark)]) else m
  }

  function Done(m: Machine, p: nat): Machine {
    m.(bodyStart := p + 1, calls := m.calls + [OnHeaderDone(p + 1)])
  }

  /** A transition into the error state does nothing else. */
  function Step(m: Machine, c: char, p: nat, relaxed: bool): Machine {
    var next := Next(m.control, c, relaxed);
    if next.Error? then m.(control := Error) else Effects(m, c, p).(control := next)
  }

  predicate Stops(s: Control) {
    s.Error? || s.Finished? || s.Elsewhere?
  }

  /** Where the automaton ends that reads `s` from position `p`: its machine and how far it got. The character that is
      in error is not consumed. */
  function Run(m: Machine, s: string, p: nat, relaxed: bool): (r: (Machine, nat))
    requires p <= |s|
    ensures p <= r.1 <= |s|
    decreases |s| - p
  {
    if p == |s| then (m, p)
    else
      var m' := Step(m, s[p], p, relaxed);
      if m'.control.Error? then (m', p)
      else if Stops(m'.control) then (m', p + 1)
      else Run(m', s, p + 1, relaxed)
  }

  /** http_parser_execute: all marks but the query's are reset; an automaton in error stays so and reads nothing. `calls`
      then holds the calls of this execution. */
  function Execute(m: Machine, s: string, relaxed: bool): (r: (Machine, nat))
    ensures r.1 <= |s|
  {
    if s == "" then (m.(calls := []), 0)
    else
      var m0 := m.(mark := 0, fieldStart := 0, fieldLen := 0, calls := []);
      if m.control.Error? then (m0, 0) else Run(m0, s, 0, relaxed)
  }

  /** http_parser_init; the program leaves the query's mark as it finds it. */
  function Fresh(queryStart: nat): Machine {
    Machine(Start, 0, 0, 0, queryStart, 0, [])
  }
}
