/** What a request head looks like: the characters of RFC 3986 and RFC 9110, the parts of a head, and its text. Nothing here
    refers to the automaton. */
module HttpGrammar {
  import opened Codec

  // ---------------------------------------------------------------- characters

  predicate Alpha(c: char) {
    'a' <= c <= 'z' || 'A' <= c <= 'Z'
  }

  predicate Num(c: char) {
    '0' <= c <= '9'
  }

  predicate Hex(c: char) {
    Num(c) || 'a' <= c <= 'f' || 'A' <= c <= 'F'
  }

  /** Section 2.3 of RFC 3986. */
  predicate Unreserved(c: char) {
    Alpha(c) || Num(c) || c in {'-', '.', '_', '~'}
  }

  /** Section 2.2 of RFC 3986. */
  predicate SubDelim(c: char) {
    c in {'!', '$', '&', '\'', '(', ')', '*', '+', ',', ';', '='}
  }

  /** pchar of section 3.3 of RFC 3986 without escapes; besides, every character beyond ASCII, and three more when the parser
      is relaxed. */
  predicate PChar(c: char, relaxed: bool) {
    Unreserved(c) || SubDelim(c) || c in {':', '@'} || c as int >= 128 || (relaxed && c in {'^', '{', '}'})
  }

  /** Section 5.6.2 of RFC 9110. */
  predicate TChar(c: char) {
    Alpha(c) || Num(c) || c in {'!', '#', '$', '%', '&', '\'', '*', '+', '-', '.', '^', '_', '`', '|', '~'}
  }

  /** What the parser takes in the name of a field: tokens, and all control characters but NUL and the tab. */
  predicate NameChar(c: char) {
    TChar(c) || (0 < c as int < 32 && c as int != 9)
  }

  predicate IsBlank(c: char) {
    c == ' ' || c as int == 9
  }

  predicate ValueChar(c: char) {
    c as int != 0 && c as int != 127 && c != '\n' && c != '\r'
  }

  predicate VerbChar(c: char) {
    Num(c) || 'A' <= c <= 'Z'
  }

  // ---------------------------------------------------------------- targets

  /** A path, the part of a path before its first slash, a query or a fragment. */
  datatype Place = InPath | InBare | InQuery | InFragment

  predicate Plain(place: Place, c: char, relaxed: bool) {
    match place
    case InPath => PChar(c, relaxed) || c == '/'
    case InBare => PChar(c, relaxed) && c != ':' && c as int < 128
    case _ => PChar(c, relaxed) || c == '/' || c == '?'
  }

  /** Plain characters and escapes, each a % with two hexadecimal digits. */
  predicate Escaped(place: Place, t: string, relaxed: bool) {
    || t == ""
    || (t[0] == '%' && |t| >= 3 && Hex(t[1]) && Hex(t[2]) && Escaped(place, t[3..], relaxed))
    || (Plain(place, t[0], relaxed) && Escaped(place, t[1..], relaxed))
  }

  /** One slash, and then a path that does not begin with another one. */
  predicate Rooted(path: string, relaxed: bool) {
    path != "" && path[0] == '/' && (|path| > 1 ==> path[1] != '/') && Escaped(InPath, path[1..], relaxed)
  }

  /** `path` does not begin with a slash or a letter, and its first slash, if any, is at `k`. */
  predicate BareTo(path: string, k: nat, relaxed: bool) {
    && 0 < k <= |path| && !Alpha(path[0]) && Escaped(InBare, path[..k], relaxed)
    && (k < |path| ==> path[k] == '/' && Escaped(InPath, path[k + 1..], relaxed))
  }

  ghost predicate PathOk(path: string, relaxed: bool) {
    path == "" || Rooted(path, relaxed) || exists k: nat :: BareTo(path, k, relaxed)
  }

  function Mark(sign: string, t: Option<string>): string {
    if t.Some? then sign + t.value else ""
  }

  function UriText(path: string, query: Option<string>): string {
    path + Mark("?", query)
  }

  // ---------------------------------------------------------------- lines

  function Eol(crlf: bool): string {
    if crlf then "\r\n" else "\n"
  }

  /** A header line: a field's name, the blanks behind the colon, its value, and whether the line ends in CR LF or LF. */
  datatype Line = Line(name: string, blanks: string, value: string, crlf: bool)

  function LineText(l: Line): string {
    l.name + ":" + l.blanks + l.value + Eol(l.crlf)
  }

  /** A name does not look like the end of the head. */
  predicate NameOk(name: string) {
    && name != "" && (forall i :: 0 <= i < |name| ==> NameChar(name[i]))
    && name[0] != '\n' && (name[0] == '\r' && |name| > 1 ==> name[1] != '\n')
  }

  predicate BlanksOk(blanks: string) {
    forall i :: 0 <= i < |blanks| ==> IsBlank(blanks[i])
  }

  predicate ValueOk(value: string) {
    (forall i :: 0 <= i < |value| ==> ValueChar(value[i])) && (value != "" ==> !IsBlank(value[0]))
  }

  predicate IsLine(l: Line) {
    NameOk(l.name) && BlanksOk(l.blanks) && ValueOk(l.value)
  }

  function LinesText(ls: seq<Line>): string {
    if ls == [] then "" else LinesText(ls[..|ls| - 1]) + LineText(ls[|ls| - 1])
  }

  // ---------------------------------------------------------------- heads

  datatype HeadText = HeadText(
    verb: string,
    path: string,
    query: Option<string>,
    fragment: Option<string>,
    minor: char,
    crlf: bool,
    lines: seq<Line>,
    endCrlf: bool)

  predicate VerbOk(verb: string) {
    1 <= |verb| <= 20 && forall i :: 0 <= i < |verb| ==> VerbChar(verb[i])
  }

  ghost predicate TargetOk(path: string, query: Option<string>, fragment: Option<string>, relaxed: bool) {
    && PathOk(path, relaxed)
    && (query.Some? ==> Escaped(InQuery, query.value, relaxed))
    && (fragment.Some? ==> Escaped(InFragment, fragment.value, relaxed))
  }

  ghost predicate WellFormed(h: HeadText, relaxed: bool) {
    && VerbOk(h.verb) && TargetOk(h.path, h.query, h.fragment, relaxed) && h.minor in {'0', '1'}
    && forall i :: 0 <= i < |h.lines| ==> IsLine(h.lines[i])
  }

  function TargetText(h: HeadText): string {
    UriText(h.path, h.query) + Mark("#", h.fragment) + " "
  }

  function VersionText(minor: char, crlf: bool): string {
    "HTTP/1." + [minor] + Eol(crlf)
  }

  function Text(h: HeadText): string {
    (h.verb + " ") + TargetText(h) + VersionText(h.minor, h.crlf) + LinesText(h.lines) + Eol(h.endCrlf)
  }
}
