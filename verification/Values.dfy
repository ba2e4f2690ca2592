/** The typed values a ByteArray stores, and what its writers and readers make of them as byte sequences. */
module Values {
  import opened Bits
  import opened Endian
  import opened Codec

  datatype Width = W8 | W16 | W32 | W64 {
    function Bytes(): (n: nat)
      ensures n in {1, 2, 4, 8}
    {
      match this case W8 => 1 case W16 => 2 case W32 => 4 case W64 => 8
    }

    function Bits(): (n: nat)
      ensures n >= 8 && n == 8 * Bytes()
    {
      8 * Bytes()
    }
  }

  /** Fint: writeFint8 to writeFuint64. Varint: writeInt32, writeUint32, writeInt64, writeUint64.
      Text: writeStringF16, writeStringF32, writeStringF64, and writeStringVint, whose length is a
      fixed 64-bit integer like that of writeStringF64. */
  datatype Kind =
    | Fint(width: Width, signed: bool)
    | Varint(width: Width, zigzag: bool)
    | Text(prefix: Width)

  datatype Value = Num(n: int) | Str(s: seq<byte>)

  datatype Item = Item(kind: Kind, value: Value)

  predicate Supported(k: Kind) {
    match k
    case Fint(_, _) => true
    case Varint(w, _) => w == W32 || w == W64
    case Text(p) => p != W8
  }

  /** `v` has the C++ parameter type of the writer for `k`. */
  predicate InRange(k: Kind, v: Value) {
    && Supported(k)
    && match k
       case Fint(w, signed) => v.Num? && NumInRange(w, signed, v.n)
       case Varint(w, zigzag) => v.Num? && NumInRange(w, zigzag, v.n)
       case Text(_) => v.Str?
  }

  predicate NumInRange(w: Width, signed: bool, n: int) {
    if signed then SignedRange(w.Bits(), n) else 0 <= n < Pow2(w.Bits())
  }

  /** A string no longer than its length prefix can count; numbers always fit. */
  predicate Fits(k: Kind, v: Value) {
    k.Text? && v.Str? ==> |v.s| < Pow2(k.prefix.Bits())
  }

  function VarintWord(w: Width, zigzag: bool, n: int): (u: nat)
    requires NumInRange(w, zigzag, n)
    ensures u < Pow2(w.Bits())
  {
    if zigzag then
      ZigzagMeaning(w.Bits(), n);
      EncodeZigzag(w.Bits(), n)
    else n
  }

  /** The bytes one writer appends. The length prefix of a string is truncated to its width. */
  function Encode(host: Order, e: Order, k: Kind, v: Value): seq<byte>
    requires InRange(k, v)
  {
    match k
    case Fint(w, signed) => FintToWire(host, e, ToUnsigned(w.Bits(), v.n), w.Bytes())
    case Varint(w, zigzag) => VarintBytes(VarintWord(w, zigzag, v.n))
    case Text(p) => FintToWire(host, e, ToUnsigned(p.Bits(), |v.s|), p.Bytes()) + v.s
  }

  function FintNumber(w: Width, signed: bool, u: nat): int {
    if signed then ToSigned(w.Bits(), u) else u
  }

  function VarintNumber(w: Width, zigzag: bool, u: nat): int {
    if zigzag then DecodeZigzag(w.Bits(), u) else u
  }

  /** What the matching reader makes of `bs`: the value and how many bytes it took, or nothing when it
      asks for more bytes than there are. */
  function Decode(host: Order, e: Order, k: Kind, bs: seq<byte>): (r: Option<(Value, nat)>)
    ensures r.Some? ==> r.value.1 <= |bs|
  {
    match k
    case Fint(w, signed) =>
      if |bs| < w.Bytes() then None
      else Some((Num(FintNumber(w, signed, FintFromWire(host, e, bs[..w.Bytes()]))), w.Bytes()))
    case Varint(w, zigzag) =>
      (match ReadVarint(w.Bits(), bs, 0, 0)
       case None => None
       case Some(p) =>
         ReadVarintConsumed(w.Bits(), bs, 0, 0);
         Some((Num(VarintNumber(w, zigzag, p.0)), p.1)))
    case Text(p) =>
      var n := p.Bytes();
      if |bs| < n then None
      else
        var len := FintFromWire(host, e, bs[..n]);
        if |bs| - n < len then None else Some((Str(bs[n..n + len]), n + len))
  }

  /** A number as the word of its width: itself, or counted down from the word's range. */
  lemma UnsignedMeaning(bits: nat, x: int)
    requires bits > 0 && 0 - Pow2(bits - 1) <= x < Pow2(bits)
    ensures ToUnsigned(bits, x) == if x >= 0 then x else x + Pow2(bits)
  {
    assert Pow2(bits) == 2 * Pow2(bits - 1);
    if x >= 0 {
      DivModUnique(x, Pow2(bits), 0, x);
    } else {
      DivModUnique(x, Pow2(bits), -1, x + Pow2(bits));
    }
  }

  /** The word of a varint is the number itself, or by zigzag 2n for n >= 0 and -2n - 1 for n < 0. */
  lemma VarintWordMeaning(w: Width, zigzag: bool, n: int)
    requires NumInRange(w, zigzag, n)
    ensures VarintWord(w, zigzag, n) == if !zigzag then n else if n >= 0 then 2 * n else -2 * n - 1
  {
    if zigzag {
      ZigzagMeaning(w.Bits(), n);
    }
  }

  /** The format on the wire, byte by byte and whatever the host: fixed-width integers in two's complement and the array's
      byte order; varints in groups of seven bits, the least significant first; strings behind their length, which is cut to
      its prefix. */
  lemma WireFormat(host: Order, e: Order, k: Kind, v: Value)
    requires InRange(k, v)
    ensures k.Fint? ==>
              var bs, n, u := Encode(host, e, k, v), k.width.Bytes(), if v.n >= 0 then v.n else v.n + Pow2(k.width.Bits());
              |bs| == n
              && forall i :: 0 <= i < n ==> bs[i] == if e == Big then u / Pow2(8 * (n - 1 - i)) % 256 else u / Pow2(8 * i) % 256
    ensures k.Varint? ==>
              var bs, u := Encode(host, e, k, v), if !k.zigzag then v.n else if v.n >= 0 then 2 * v.n else -2 * v.n - 1;
              && u >= 0 && (forall n: nat :: n > 0 ==> (|bs| <= n <==> u < Pow2(7 * n)))
              && forall i :: 0 <= i < |bs| ==> bs[i] == u / Pow2(7 * i) % 128 + (if i == |bs| - 1 then 0 else 128)
    ensures k.Text? ==>
              var bs, n, u := Encode(host, e, k, v), k.prefix.Bytes(), |v.s| % Pow2(k.prefix.Bits());
              && |bs| == n + |v.s| && bs[n..] == v.s
              && forall i :: 0 <= i < n ==> bs[i] == if e == Big then u / Pow2(8 * (n - 1 - i)) % 256 else u / Pow2(8 * i) % 256
  {
    hide Pow2, FintToWire, VarintBytes, VarintWord, ToUnsigned;
    match k
    case Fint(w, signed) => FintFormat(host, e, w, signed, v.n);
    case Varint(w, zigzag) => VarintFormat(w, zigzag, v.n);
    case Text(p) => TextFormat(host, e, p, v.s);
  }

  lemma FintFormat(host: Order, e: Order, w: Width, signed: bool, x: int)
    requires NumInRange(w, signed, x)
    ensures var bs, n, u := FintToWire(host, e, ToUnsigned(w.Bits(), x), w.Bytes()), w.Bytes(),
                            if x >= 0 then x else x + Pow2(w.Bits());
            && u >= 0
            && forall i :: 0 <= i < n ==> bs[i] == if e == Big then u / Pow2(8 * (n - 1 - i)) % 256 else u / Pow2(8 * i) % 256
  {
    hide Pow2, FintToWire, ToUnsigned;
    HalfRange(w.Bits());
    UnsignedMeaning(w.Bits(), x);
    WordFormat(host, e, ToUnsigned(w.Bits(), x), w.Bytes());
  }

  lemma HalfRange(bits: nat)
    requires bits > 0
    ensures Pow2(bits) == 2 * Pow2(bits - 1)
  {
  }

  lemma WordFormat(host: Order, e: Order, u: nat, n: nat)
    ensures var bs := FintToWire(host, e, u, n);
            forall i :: 0 <= i < n ==> bs[i] == if e == Big then u / Pow2(8 * (n - 1 - i)) % 256 else u / Pow2(8 * i) % 256
  {
    hide FintToWire, Pow2;
    var bs := FintToWire(host, e, u, n);
    forall i | 0 <= i < n ensures bs[i] == if e == Big then u / Pow2(8 * (n - 1 - i)) % 256 else u / Pow2(8 * i) % 256 {
      WireBytes(host, e, u, n, i);
    }
  }

  lemma VarintFormat(w: Width, zigzag: bool, x: int)
    requires NumInRange(w, zigzag, x)
    ensures var bs, u := VarintBytes(VarintWord(w, zigzag, x)), if !zigzag then x else if x >= 0 then 2 * x else -2 * x - 1;
            && u >= 0 && (forall n: nat :: n > 0 ==> (|bs| <= n <==> u < Pow2(7 * n)))
            && forall i :: 0 <= i < |bs| ==> bs[i] == u / Pow2(7 * i) % 128 + (if i == |bs| - 1 then 0 else 128)
  {
    hide Pow2, VarintBytes, VarintWord;
    VarintWordMeaning(w, zigzag, x);
    var u := VarintWord(w, zigzag, x);
    var bs := VarintBytes(u);
    forall n: nat | n > 0 ensures |bs| <= n <==> u < Pow2(7 * n) {
      VarintLength(u, n);
    }
    forall i | 0 <= i < |bs| ensures bs[i] == u / Pow2(7 * i) % 128 + (if i == |bs| - 1 then 0 else 128) {
      VarintByteAt(u, i);
    }
  }

  lemma TextFormat(host: Order, e: Order, p: Width, s: seq<byte>)
    ensures var bs, n, u := FintToWire(host, e, ToUnsigned(p.Bits(), |s|), p.Bytes()) + s, p.Bytes(), |s| % Pow2(p.Bits());
            && |bs| == n + |s| && bs[n..] == s
            && forall i :: 0 <= i < n ==> bs[i] == if e == Big then u / Pow2(8 * (n - 1 - i)) % 256 else u / Pow2(8 * i) % 256
  {
    hide FintToWire, Pow2;
    WordFormat(host, e, ToUnsigned(p.Bits(), |s|), p.Bytes());
  }

  lemma ReadVarintConsumed(bits: nat, bs: seq<byte>, i: nat, result: nat)
    ensures ReadVarint(bits, bs, i, result).Some? ==> ReadVarint(bits, bs, i, result).value.1 <= |bs|
  {
  }

  lemma FintItem(writer: Order, reader: Order, e: Order, w: Width, signed: bool, n: int, tail: seq<byte>)
    requires NumInRange(w, signed, n)
    ensures var bs := Encode(writer, e, Fint(w, signed), Num(n));
            Decode(reader, e, Fint(w, signed), bs + tail) == Some((Num(n), |bs|))
  {
    hide Pow2, FintToWire, FintFromWire, ToUnsigned, ToSigned;
    var bs := Encode(writer, e, Fint(w, signed), Num(n));
    assert (bs + tail)[..w.Bytes()] == bs;
    FintRoundTrip(writer, reader, e, ToUnsigned(w.Bits(), n), w.Bytes());
    if signed {
      SignedRoundTrip(w.Bits(), n);
    } else {
      WordIdentity(w.Bits(), n);
    }
  }

  lemma VarintItem(writer: Order, reader: Order, e: Order, w: Width, zigzag: bool, n: int, tail: seq<byte>)
    requires NumInRange(w, zigzag, n)
    requires w == W32 || w == W64
    ensures var bs := Encode(writer, e, Varint(w, zigzag), Num(n));
            Decode(reader, e, Varint(w, zigzag), bs + tail) == Some((Num(n), |bs|))
  {
    VarintRoundTrip(w.Bits(), VarintWord(w, zigzag, n), tail);
    if zigzag {
      ZigzagDecodesEncoded(w.Bits(), n);
    }
  }

  lemma TextPrefix(writer: Order, reader: Order, e: Order, p: Width, s: seq<byte>, tail: seq<byte>)
    requires p != W8
    ensures var bs := Encode(writer, e, Text(p), Str(s)) + tail;
            p.Bytes() <= |bs| && FintFromWire(reader, e, bs[..p.Bytes()]) == |s| % Pow2(p.Bits()) && bs[p.Bytes()..] == s + tail
  {
    var len := ToUnsigned(p.Bits(), |s|);
    var head := FintToWire(writer, e, len, p.Bytes());
    var bs := Encode(writer, e, Text(p), Str(s)) + tail;
    assert bs == head + (s + tail);
    FintRoundTrip(writer, reader, e, len, p.Bytes());
    assert bs[..p.Bytes()] == head;
  }

  /** A string is read back cut to its length modulo the range of its prefix. */
  lemma TextItem(writer: Order, reader: Order, e: Order, p: Width, s: seq<byte>, tail: seq<byte>)
    requires p != W8
    ensures var len := |s| % Pow2(p.Bits());
            len <= |s| && |Encode(writer, e, Text(p), Str(s))| == p.Bytes() + |s| &&
            Decode(reader, e, Text(p), Encode(writer, e, Text(p), Str(s)) + tail) == Some((Str(s[..len]), p.Bytes() + len))
  {
    hide Pow2, FintToWire, FintFromWire, Encode, VarintBytes, ReadVarint;
    var bs := Encode(writer, e, Text(p), Str(s)) + tail;
    var n, len := p.Bytes(), |s| % Pow2(p.Bits());
    TextPrefix(writer, reader, e, p, s, tail);
    TextLength(writer, e, p, s);
    TruncatedLength(|s|, Pow2(p.Bits()));
    SliceOfRest(bs, n, len, s, tail);
  }

  lemma TextLength(host: Order, e: Order, p: Width, s: seq<byte>)
    requires p != W8
    ensures |Encode(host, e, Text(p), Str(s))| == p.Bytes() + |s|
  {
    hide Pow2, FintToWire;
  }

  lemma SliceOfRest(bs: seq<byte>, n: nat, len: nat, s: seq<byte>, tail: seq<byte>)
    requires n <= |bs| && bs[n..] == s + tail && len <= |s|
    ensures n + len <= |bs| && bs[n..n + len] == s[..len]
  {
  }

  /** Reading back one written value succeeds, returns that value and takes exactly its bytes if and only if
      a string fits its length prefix; the hosts of writer and reader may differ. */
  lemma ItemRoundTrip(writer: Order, reader: Order, e: Order, k: Kind, v: Value, tail: seq<byte>)
    requires InRange(k, v)
    ensures var bs := Encode(writer, e, k, v);
            Fits(k, v) ==> Decode(reader, e, k, bs + tail) == Some((v, |bs|))
    ensures !Fits(k, v) ==> var r := Decode(reader, e, k, Encode(writer, e, k, v) + tail); r.Some? && r.value.0 != v
  {
    hide Pow2, Encode, Decode;
    match k
    case Fint(w, signed) => FintItem(writer, reader, e, w, signed, v.n, tail);
    case Varint(w, zigzag) => VarintItem(writer, reader, e, w, zigzag, v.n, tail);
    case Text(p) =>
      TextItem(writer, reader, e, p, v.s, tail);
      CutString(v.s, Pow2(p.Bits()));
  }

  lemma CutString(s: seq<byte>, m: nat)
    requires m > 0
    ensures |s| % m <= |s|
    ensures s[..|s| % m] == s <==> |s| < m
  {
  }

  lemma TruncatedLength(n: nat, m: nat)
    requires m > 0
    ensures n % m <= n
    ensures n % m == n <==> n < m
  {
  }

  // ---------------------------------------------------------------- lists of values

  predicate AllInRange(items: seq<Item>) {
    forall i :: 0 <= i < |items| ==> InRange(items[i].kind, items[i].value)
  }

  predicate AllFit(items: seq<Item>) {
    forall i :: 0 <= i < |items| ==> Fits(items[i].kind, items[i].value)
  }

  function EncodeAll(host: Order, e: Order, items: seq<Item>): seq<byte>
    requires AllInRange(items)
  {
    if items == [] then []
    else Encode(host, e, items[0].kind, items[0].value) + EncodeAll(host, e, items[1..])
  }

  function Kinds(items: seq<Item>): seq<Kind> {
    seq(|items|, i requires 0 <= i < |items| => items[i].kind)
  }

  function ItemValues(items: seq<Item>): seq<Value> {
    seq(|items|, i requires 0 <= i < |items| => items[i].value)
  }

  /** Matching reads, one after another: the values and the bytes left over. */
  function DecodeAll(host: Order, e: Order, kinds: seq<Kind>, bs: seq<byte>): Option<(seq<Value>, seq<byte>)>
  {
    if kinds == [] then Some(([], bs))
    else
      match Decode(host, e, kinds[0], bs)
      case None => None
      case Some(p) =>
        match DecodeAll(host, e, kinds[1..], bs[p.1..])
        case None => None
        case Some(q) => Some(([p.0] + q.0, q.1))
  }

  /** Decoding a list of written values with the matching readers gives them all back, and nothing is left
      over, if and only if every string fits its prefix. */
  lemma {:induction false} ListRoundTrip(writer: Order, reader: Order, e: Order, items: seq<Item>)
    requires AllInRange(items)
    ensures AllFit(items) <==> DecodeAll(reader, e, Kinds(items), EncodeAll(writer, e, items)) == Some((ItemValues(items), []))
  {
    if items == [] {
      assert Kinds(items) == [] && ItemValues(items) == [];
    } else {
      hide Encode, Decode;
      var k, v := items[0].kind, items[0].value;
      var first, rest := Encode(writer, e, k, v), EncodeAll(writer, e, items[1..]);
      ItemRoundTrip(writer, reader, e, k, v, rest);
      ListRoundTrip(writer, reader, e, items[1..]);
      DecodeAllStep(reader, e, items, first + rest);
      assert AllFit(items) <==> Fits(k, v) && AllFit(items[1..]);
      if Fits(k, v) {
        assert (first + rest)[|first|..] == rest;
      }
    }
  }

  lemma DecodeAllStep(reader: Order, e: Order, items: seq<Item>, bs: seq<byte>)
    requires items != []
    ensures var r := Decode(reader, e, items[0].kind, bs);
            DecodeAll(reader, e, Kinds(items), bs) == Some((ItemValues(items), []))
            <==> r.Some? && r.value.0 == items[0].value
                 && DecodeAll(reader, e, Kinds(items[1..]), bs[r.value.1..]) == Some((ItemValues(items[1..]), []))
  {
    assert Kinds(items)[0] == items[0].kind && Kinds(items)[1..] == Kinds(items[1..]);
    var vs, v := ItemValues(items[1..]), items[0].value;
    assert ItemValues(items) == [v] + vs;
    var r := Decode(reader, e, items[0].kind, bs);
    if r.Some? {
      var q := DecodeAll(reader, e, Kinds(items[1..]), bs[r.value.1..]);
      if q.Some? {
        var all := [r.value.0] + q.value.0;
        assert all[0] == r.value.0 && all[1..] == q.value.0;
        assert ([v] + vs)[0] == v && ([v] + vs)[1..] == vs;
      }
    }
  }
}
