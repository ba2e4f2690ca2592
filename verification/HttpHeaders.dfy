/** The header map of sylar/http/http.cpp: an ordered map whose keys compare without case. */
module HttpHeaders {
  import opened Codec

  datatype Header = Header(name: string, value: string)

  function Lower(c: char): char {
    if 'A' <= c <= 'Z' then (c as int + 32) as char else c
  }

  /** What strcasecmp sees of a string: everything before the first NUL, in lower case. */
  function Fold(s: string): string {
    if s == "" || s[0] == '\0' then "" else [Lower(s[0])] + Fold(s[1..])
  }

  /** strcasecmp(a, b) < 0 on folded strings. */
  predicate Before(a: string, b: string) {
    b != "" && (a == "" || a[0] < b[0] || (a[0] == b[0] && Before(a[1..], b[1..])))
  }

  /** CaseInsensitiveLess */
  predicate Less(lhs: string, rhs: string) {
    Before(Fold(lhs), Fold(rhs))
  }

  predicate SameName(a: string, b: string) {
    Fold(a) == Fold(b)
  }

  // ---------------------------------------------------------------- the order

  lemma {:induction false} Irreflexive(a: string)
    ensures !Before(a, a)
  {
    if a != "" {
      Irreflexive(a[1..]);
    }
  }

  lemma {:induction false} Transitive(a: string, b: string, c: string)
    requires Before(a, b) && Before(b, c)
    ensures Before(a, c)
  {
    if a != "" && a[0] == b[0] && b[0] == c[0] {
      Transitive(a[1..], b[1..], c[1..]);
    }
  }

  lemma {:induction false} Total(a: string, b: string)
    ensures Before(a, b) || a == b || Before(b, a)
  {
    if a != "" && b != "" && a[0] == b[0] {
      Total(a[1..], b[1..]);
      assert a == [a[0]] + a[1..] && b == [b[0]] + b[1..];
    }
  }

  // ---------------------------------------------------------------- names in plain terms

  /** What the program compares of a name: what comes before the first NUL. */
  function Compared(s: string): (t: string)
    ensures t <= s && '\0' !in t && (|t| < |s| ==> s[|t|] == '\0')
  {
    if s == "" || s[0] == '\0' then "" else [s[0]] + Compared(s[1..])
  }

  /** The same character, or the same letter of the alphabet in the other case. */
  predicate SameLetter(c: char, d: char) {
    || c == d
    || ('A' <= c <= 'Z' && d as int == c as int + 32)
    || ('A' <= d <= 'Z' && c as int == d as int + 32)
  }

  lemma {:induction false} FoldMeaning(s: string)
    ensures |Fold(s)| == |Compared(s)|
    ensures forall i :: 0 <= i < |Fold(s)| ==>
              Fold(s)[i] as int == Compared(s)[i] as int + if 'A' <= Compared(s)[i] <= 'Z' then 32 else 0
  {
    if s != "" && s[0] != '\0' {
      FoldMeaning(s[1..]);
    }
  }

  /** Two names are one exactly when they agree letter by letter but for case. */
  lemma SameNameMeaning(a: string, b: string)
    ensures SameName(a, b) <==>
              |Compared(a)| == |Compared(b)| && forall i :: 0 <= i < |Compared(a)| ==> SameLetter(Compared(a)[i], Compared(b)[i])
  {
    hide Fold, Compared;
    FoldMeaning(a);
    FoldMeaning(b);
    var f, g, x, y := Fold(a), Fold(b), Compared(a), Compared(b);
    if |x| == |y| {
      assert forall i :: 0 <= i < |x| ==> (f[i] == g[i] <==> SameLetter(x[i], y[i]));
      if forall i :: 0 <= i < |x| ==> SameLetter(x[i], y[i]) {
        assert forall i :: 0 <= i < |f| ==> f[i] == g[i];
        assert f == g;
      }
    }
  }

  /** A name comes before another one at the first letter in which they differ, or as its beginning. */
  lemma {:induction false} BeforeMeaning(a: string, b: string)
    ensures Before(a, b) <==> exists k :: 0 <= k < |b| && k <= |a| && a[..k] == b[..k] && (k == |a| || a[k] < b[k])
  {
    if b != "" {
      if a == "" {
        assert a[..0] == b[..0];
      } else if a[0] == b[0] {
        BeforeMeaning(a[1..], b[1..]);
        if k :| 0 <= k < |b[1..]| && k <= |a[1..]| && a[1..][..k] == b[1..][..k] && (k == |a[1..]| || a[1..][k] < b[1..][k]) {
          assert a[..k + 1] == [a[0]] + a[1..][..k] && b[..k + 1] == [b[0]] + b[1..][..k];
        }
        if k :| 0 <= k < |b| && k <= |a| && a[..k] == b[..k] && (k == |a| || a[k] < b[k]) {
          assert a[1..][..k - 1] == a[..k][1..] && b[1..][..k - 1] == b[..k][1..];
        }
      } else {
        assert a[..0] == b[..0];
        if k :| 0 < k < |b| && k <= |a| && a[..k] == b[..k] {
          assert a[..k][0] == b[..k][0];
        }
      }
    }
  }

  lemma {:induction false} NothingCut(s: string)
    requires '\0' !in s
    ensures Compared(s) == s
  {
    if s != "" {
      NothingCut(s[1..]);
      assert s == [s[0]] + s[1..];
    }
  }

  /** The two spellings in use of one name. */
  lemma LengthHeaderNames()
    ensures SameName("Content-Length", "content-length") && !SameName("Content_Length", "content-length")
  {
    hide Compared, Fold;
    var a, b, c := "Content-Length", "content-length", "Content_Length";
    NothingCut(a);
    NothingCut(b);
    NothingCut(c);
    SameNameMeaning(a, b);
    SameNameMeaning(c, b);
    assert SameLetter(a[0], b[0]) && SameLetter(a[8], b[8]);
    assert forall i :: 0 <= i < 14 && i != 0 && i != 8 ==> a[i] == b[i];
    assert !SameLetter(c[7], b[7]);
  }

  // ---------------------------------------------------------------- the map

  ghost predicate Sorted(hs: seq<Header>) {
    forall i, j :: 0 <= i < j < |hs| ==> Less(hs[i].name, hs[j].name)
  }

  /** std::map::lower_bound */
  function LowerBound(hs: seq<Header>, key: string): (k: nat)
    ensures k <= |hs|
    ensures forall i :: 0 <= i < k ==> Less(hs[i].name, key)
    ensures k < |hs| ==> !Less(hs[k].name, key)
  {
    if hs == [] || !Less(hs[0].name, key) then 0 else 1 + LowerBound(hs[1..], key)
  }

  /** std::map::find: the index, or the length. */
  function Find(hs: seq<Header>, key: string): (k: nat)
    ensures k <= |hs|
  {
    var k := LowerBound(hs, key);
    if k < |hs| && !Less(key, hs[k].name) then k else |hs|
  }

  /** hasHeader, getHeader */
  function Lookup(hs: seq<Header>, key: string): Option<string> {
    var k := Find(hs, key);
    if k < |hs| then Some(hs[k].value) else None
  }

  /** setHeader: an entry of the same name keeps its spelling and gets the new value. */
  function SetHeader(hs: seq<Header>, key: string, value: string): seq<Header> {
    var k := LowerBound(hs, key);
    if k < |hs| && !Less(key, hs[k].name) then hs[k := hs[k].(value := value)]
    else hs[..k] + [Header(key, value)] + hs[k..]
  }

  function DelHeader(hs: seq<Header>, key: string): seq<Header> {
    var k := Find(hs, key);
    if k < |hs| then hs[..k] + hs[k + 1..] else hs
  }

  function SetAll(hs: seq<Header>, more: seq<Header>): seq<Header>
    decreases |more|
  {
    if more == [] then hs else SetAll(SetHeader(hs, more[0].name, more[0].value), more[1..])
  }

  // ---------------------------------------------------------------- what the map means

  /** In a sorted map the search finds the one entry of that name. */
  lemma FindMeaning(hs: seq<Header>, key: string)
    requires Sorted(hs)
    ensures var k := Find(hs, key);
            && (k < |hs| ==> SameName(hs[k].name, key))
            && (forall i :: 0 <= i < |hs| && SameName(hs[i].name, key) ==> i == k)
  {
    hide Fold, Before;
    var k := LowerBound(hs, key);
    if k < |hs| {
      Total(Fold(hs[k].name), Fold(key));
      Irreflexive(Fold(key));
    }
    forall i | 0 <= i < |hs| && SameName(hs[i].name, key) ensures i == k && !Less(key, hs[k].name) {
      Irreflexive(Fold(key));
      assert i < k ==> Less(hs[i].name, key);
      assert i > k ==> Less(hs[k].name, hs[i].name);
    }
  }

  lemma LookupMeaning(hs: seq<Header>, key: string, value: string)
    requires Sorted(hs)
    ensures Lookup(hs, key) == Some(value) <==> exists i :: 0 <= i < |hs| && SameName(hs[i].name, key) && hs[i].value == value
    ensures Lookup(hs, key) == None <==> forall i :: 0 <= i < |hs| ==> !SameName(hs[i].name, key)
  {
    hide Sorted, SameName, Find;
    FindMeaning(hs, key);
  }

  /** Setting a header changes what is found under its name, in whatever case, and nothing else; the map stays sorted. */
  lemma SetThenLookup(hs: seq<Header>, key: string, value: string, other: string)
    requires Sorted(hs)
    ensures Sorted(SetHeader(hs, key, value))
    ensures Lookup(SetHeader(hs, key, value), other) == if SameName(other, key) then Some(value) else Lookup(hs, other)
  {
    hide Sorted, SetHeader, Lookup, LowerBound, Find, Fold;
    SetSorted(hs, key, value);
    SetMembers(hs, key, value);
    var hs' := SetHeader(hs, key, value);
    if SameName(other, key) {
      LookupMeaning(hs', other, value);
    } else {
      match Lookup(hs, other)
      case Some(v) =>
        LookupMeaning(hs, other, v);
        LookupMeaning(hs', other, v);
        var i :| 0 <= i < |hs| && SameName(hs[i].name, other) && hs[i].value == v;
        assert hs[i] in hs';
      case None =>
        LookupMeaning(hs, other, "");
        LookupMeaning(hs', other, "");
    }
  }

  lemma SetSorted(hs: seq<Header>, key: string, value: string)
    requires Sorted(hs)
    ensures Sorted(SetHeader(hs, key, value))
  {
    hide Fold, Before;
    var k := LowerBound(hs, key);
    var hs' := SetHeader(hs, key, value);
    if k < |hs| && !Less(key, hs[k].name) {
      assert forall i :: 0 <= i < |hs| ==> hs'[i].name == hs[i].name;
    } else {
      assert forall i :: 0 <= i < |hs'| ==> hs'[i] == if i < k then hs[i] else if i == k then Header(key, value) else hs[i - 1];
      forall j | k < j < |hs| ensures Less(key, hs[j].name) {
        Transitive(Fold(key), Fold(hs[k].name), Fold(hs[j].name));
      }
    }
  }

  /** The entries of other names stay, and one entry of this name has the value. */
  lemma SetMembers(hs: seq<Header>, key: string, value: string)
    requires Sorted(hs)
    ensures var hs' := SetHeader(hs, key, value);
            && (exists i :: 0 <= i < |hs'| && SameName(hs'[i].name, key) && hs'[i].value == value)
            && (forall h :: h in hs && !SameName(h.name, key) ==> h in hs')
            && (forall h :: h in hs' && !SameName(h.name, key) ==> h in hs)
  {
    hide Fold, Before, Sorted, SetHeader;
    FindMeaning(hs, key);
    var k := LowerBound(hs, key);
    var hs' := SetHeader(hs, key, value);
    SetShape(hs, key, value);
    if k < |hs| && !Less(key, hs[k].name) {
      assert SameName(hs'[k].name, key);
    } else {
      assert SameName(hs'[k].name, key);
    }
  }

  /** Only the place of the lower bound changes. */
  lemma SetShape(hs: seq<Header>, key: string, value: string)
    ensures var k, hs' := LowerBound(hs, key), SetHeader(hs, key, value);
            && k < |hs'| && hs'[k].value == value
            && (if k < |hs| && !Less(key, hs[k].name) then hs'[k].name == hs[k].name else hs'[k].name == key)
            && (forall h :: h in hs && (k < |hs| && !Less(key, hs[k].name) ==> h != hs[k]) ==> h in hs')
            && (forall h :: h in hs' && h != hs'[k] ==> h in hs)
  {
  }

  /** Deleting a header removes what is found under its name and nothing else. */
  lemma DelThenLookup(hs: seq<Header>, key: string, other: string)
    requires Sorted(hs)
    ensures Sorted(DelHeader(hs, key))
    ensures Lookup(DelHeader(hs, key), other) == if SameName(other, key) then None else Lookup(hs, other)
  {
    hide Sorted, Lookup, Find, Fold, DelHeader, Less, Before;
    DelSorted(hs, key);
    DelMembers(hs, key);
    var hs' := DelHeader(hs, key);
    if SameName(other, key) {
      LookupMeaning(hs', other, "");
    } else {
      match Lookup(hs, other)
      case Some(v) =>
        LookupMeaning(hs, other, v);
        LookupMeaning(hs', other, v);
        var i :| 0 <= i < |hs| && SameName(hs[i].name, other) && hs[i].value == v;
        assert hs[i] in hs';
      case None =>
        LookupMeaning(hs, other, "");
        LookupMeaning(hs', other, "");
    }
  }

  /** The entries of other names stay, and none of this name. */
  lemma DelMembers(hs: seq<Header>, key: string)
    requires Sorted(hs)
    ensures forall h :: h in DelHeader(hs, key) <==> h in hs && !SameName(h.name, key)
  {
    hide Sorted, Find, Fold, Less, Before;
    FindMeaning(hs, key);
    var k, hs' := Find(hs, key), DelHeader(hs, key);
    if k < |hs| {
      assert forall i :: 0 <= i < |hs'| ==> hs'[i] == hs[if i < k then i else i + 1];
      forall h | h in hs && !SameName(h.name, key) ensures h in hs' {
        var i :| 0 <= i < |hs| && hs[i] == h;
        assert hs'[if i < k then i else i - 1] == h;
      }
    }
  }

  lemma DelSorted(hs: seq<Header>, key: string)
    requires Sorted(hs)
    ensures Sorted(DelHeader(hs, key))
  {
  }

  /** Setting many headers in order: the last one of a name decides. */
  lemma {:induction false} SetAllLookup(hs: seq<Header>, more: seq<Header>, key: string)
    requires Sorted(hs)
    ensures Sorted(SetAll(hs, more))
    ensures (forall i :: 0 <= i < |more| ==> !SameName(more[i].name, key)) ==> Lookup(SetAll(hs, more), key) == Lookup(hs, key)
    ensures forall i :: 0 <= i < |more| && SameName(more[i].name, key)
                        && (forall j :: i < j < |more| ==> !SameName(more[j].name, key))
                        ==> Lookup(SetAll(hs, more), key) == Some(more[i].value)
    decreases |more|
  {
    hide Sorted, Lookup, SetHeader, Fold;
    if more != [] {
      var hs' := SetHeader(hs, more[0].name, more[0].value);
      SetThenLookup(hs, more[0].name, more[0].value, key);
      SetAllLookup(hs', more[1..], key);
      forall i | 0 <= i < |more| && SameName(more[i].name, key) && (forall j :: i < j < |more| ==> !SameName(more[j].name, key))
        ensures Lookup(SetAll(hs, more), key) == Some(more[i].value)
      {
        if i > 0 {
          assert more[1..][i - 1] == more[i];
          assert forall j :: i - 1 < j < |more[1..]| ==> more[1..][j] == more[j + 1];
        }
      }
    }
  }
}
