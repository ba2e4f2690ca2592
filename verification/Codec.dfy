/** The value codecs of sylar/bytearray.cpp as functions on byte sequences: zigzag, varints, fixed-width
    integers and length-prefixed strings. */
module Codec {
  import opened Bits
  import opened Endian

  datatype Option<+T> = None | Some(value: T)

  // ---------------------------------------------------------------- two's complement

  function ToUnsigned(bits: nat, x: int): (u: nat)
    ensures u < Pow2(bits)
  {
    x % Pow2(bits)
  }

  function ToSigned(bits: nat, u: nat): int
    requires bits > 0
  {
    if u < Pow2(bits - 1) then u else u - Pow2(bits)
  }

  /** A size cast to a 32-bit int. */
  function ToInt32(n: nat): int {
    var w := n % 0x1_0000_0000;
    if w < 0x8000_0000 then w else w - 0x1_0000_0000
  }

  predicate SignedRange(bits: nat, x: int)
    requires bits > 0
  {
    0 - Pow2(bits - 1) <= x < Pow2(bits - 1)
  }

  lemma SignedRoundTrip(bits: nat, x: int)
    requires bits > 0 && SignedRange(bits, x)
    ensures ToSigned(bits, ToUnsigned(bits, x)) == x
  {
    var m := Pow2(bits);
    if x >= 0 {
      DivModUnique(x, m, 0, x);
    } else {
      DivModUnique(x, m, -1, x + m);
    }
  }

  // ---------------------------------------------------------------- zigzag

  /** EncodeZigzag32 and EncodeZigzag64, every operation reduced to the word. */
  function EncodeZigzag(bits: nat, v: int): nat
    requires bits > 0
  {
    if v < 0 then ToUnsigned(bits, ToUnsigned(bits, -v) * 2 - 1) else ToUnsigned(bits, v * 2)
  }

  /** DecodeZigzag32 and DecodeZigzag64: `(v >> 1) ^ -(v & 1)`, read as a signed word. */
  function DecodeZigzag(bits: nat, v: nat): int
    requires bits > 0
  {
    ToSigned(bits, BitXor(v / 2, ToUnsigned(bits, 0 - BitAnd(v, 1))))
  }

  /** Non-negative numbers go to the even words and negative ones to the odd words, with no wrap-around
      anywhere in the signed range, its minimum included. */
  lemma ZigzagMeaning(bits: nat, v: int)
    requires bits > 0 && SignedRange(bits, v)
    ensures EncodeZigzag(bits, v) == (if v >= 0 then 2 * v else -2 * v - 1)
    ensures EncodeZigzag(bits, v) < Pow2(bits)
  {
    assert Pow2(bits) == 2 * Pow2(bits - 1);
    if v >= 0 {
      WordIdentity(bits, v * 2);
    } else {
      WordIdentity(bits, -v);
      WordIdentity(bits, -v * 2 - 1);
    }
  }

  lemma WordIdentity(bits: nat, x: int)
    requires 0 <= x < Pow2(bits)
    ensures ToUnsigned(bits, x) == x
  {
    DivModUnique(x, Pow2(bits), 0, x);
  }

  lemma DecodeZigzagMeaning(bits: nat, u: nat)
    requires bits > 0 && u < Pow2(bits)
    ensures DecodeZigzag(bits, u) == (if u % 2 == 0 then u / 2 else -(u / 2) - 1)
    ensures SignedRange(bits, DecodeZigzag(bits, u))
  {
    var m := Pow2(bits);
    assert Pow2(1) == 2;
    MaskIsMod(u, 1);
    if u % 2 == 0 {
      DivModUnique(0, m, 0, 0);
      assert BitXor(u / 2, 0) == u / 2;
    } else {
      DivModUnique(-1, m, -1, m - 1);
      XorOnesIsComplement(u / 2, bits);
    }
  }

  /** Zigzag is a bijection between the signed and the unsigned words. */
  lemma ZigzagBijection(bits: nat, v: int, u: nat)
    requires bits > 0 && SignedRange(bits, v) && u < Pow2(bits)
    ensures DecodeZigzag(bits, EncodeZigzag(bits, v)) == v
    ensures EncodeZigzag(bits, DecodeZigzag(bits, u)) == u
  {
    ZigzagDecodesEncoded(bits, v);
    ZigzagEncodesDecoded(bits, u);
  }

  lemma ZigzagDecodesEncoded(bits: nat, v: int)
    requires bits > 0 && SignedRange(bits, v)
    ensures DecodeZigzag(bits, EncodeZigzag(bits, v)) == v
  {
    ZigzagMeaning(bits, v);
    DecodeZigzagMeaning(bits, EncodeZigzag(bits, v));
  }

  lemma ZigzagEncodesDecoded(bits: nat, u: nat)
    requires bits > 0 && u < Pow2(bits)
    ensures EncodeZigzag(bits, DecodeZigzag(bits, u)) == u
  {
    DecodeZigzagMeaning(bits, u);
    ZigzagMeaning(bits, DecodeZigzag(bits, u));
  }

  // ---------------------------------------------------------------- varints

  function VarintBytes(v: nat): (bs: seq<byte>)
    ensures bs != []
  {
    if v < 0x80 then [v] else [v % 0x80 + 0x80] + VarintBytes(v / 0x80)
  }

  /** The loop of writeUint32 and writeUint64 with its local array of `room` bytes (5 or 10): it never
      overruns the array. */
  method FillVarint(v: nat, bits: nat, room: nat) returns (tmp: array<byte>, i: nat)
    requires v < Pow2(bits) && bits <= 7 * room && room > 0
    ensures fresh(tmp) && tmp.Length == room
    ensures i <= room && tmp[..i] == VarintBytes(v)
  {
    tmp := new byte[room];
    i := 0;
    var value := v;
    Pow2Monotonic(bits, 7 * room);
    VarintLength(v, room);
    while value >= 0x80
      invariant i + |VarintBytes(value)| <= room
      invariant tmp[..i] + VarintBytes(value) == VarintBytes(v)
    {
      ghost var rest := VarintBytes(value / 0x80);
      tmp[i] := OrContinuation(BitAnd(value, 0x7f), value);
      assert tmp[..i] + [tmp[i]] == tmp[..i + 1];
      assert VarintBytes(value) == [tmp[i]] + rest;
      assert tmp[..i + 1] + rest == tmp[..i] + ([tmp[i]] + rest);
      value, i := value / 0x80, i + 1;
    }
    tmp[i] := value;
    i := i + 1;
  }

  /** `(value & 0x7f) | 0x80` */
  function OrContinuation(low: nat, ghost value: nat): (b: byte)
    requires low == BitAnd(value, 0x7f)
    ensures b == value % 0x80 + 0x80
  {
    assert Pow2(7) == 0x80;
    MaskIsMod(value, 7);
    OrDisjointIsPlus(low, 1, 7);
    BitOr(low, 0x80)
  }

  /** The loop of readUint32 and readUint64 from shift `i` on: the number read and the bytes it took, or
      nothing when the bytes run out. Shifted bytes are truncated to the word. */
  function ReadVarint(bits: nat, bs: seq<byte>, i: nat, result: nat): Option<(nat, nat)>
  {
    if i >= bits then Some((result, 0))
    else if bs == [] then None
    else if bs[0] < 0x80 then Some((BitOr(result, ShiftLeft(bits, bs[0], i)), 1))
    else
      match ReadVarint(bits, bs[1..], i + 7, BitOr(result, ShiftLeft(bits, BitAnd(bs[0], 0x7f), i)))
      case None => None
      case Some(p) => Some((p.0, p.1 + 1))
  }

  function ShiftLeft(bits: nat, x: nat, i: nat): nat
  {
    (x * Pow2(i)) % Pow2(bits)
  }

  lemma Pow2Monotonic(m: nat, n: nat)
    requires m <= n
    ensures Pow2(m) <= Pow2(n)
    decreases n
  {
  }

  lemma Pow2Step7(i: nat)
    ensures Pow2(i + 7) == 0x80 * Pow2(i)
  {
    assert Pow2(7) == 0x80;
    Pow2Add(7, i);
  }

  /** Byte by byte: seven bits each, the least significant first, and the eighth bit on all but the last. */
  lemma {:induction false} VarintByteAt(v: nat, i: nat)
    requires i < |VarintBytes(v)|
    ensures VarintBytes(v)[i] == v / Pow2(7 * i) % 128 + (if i == |VarintBytes(v)| - 1 then 0 else 128)
  {
    if i > 0 {
      VarintByteAt(v / 0x80, i - 1);
      Pow2Add(7, 7 * (i - 1));
      assert Pow2(7) == 0x80 && 7 + 7 * (i - 1) == 7 * i;
      DivTwice(v, 0x80, Pow2(7 * (i - 1)));
    } else {
      assert Pow2(0) == 1;
      assert |VarintBytes(v)| == 1 <==> v < 0x80;
    }
  }

  /** n bytes are enough exactly for the numbers below 2^(7n): a varint takes max(1, ceil(bits / 7)) bytes. */
  lemma {:induction false} VarintLength(v: nat, n: nat)
    requires n >= 1
    ensures |VarintBytes(v)| <= n <==> v < Pow2(7 * n)
  {
    if n == 1 {
      assert Pow2(7) == 0x80;
    } else {
      Pow2Step7(7 * (n - 1));
      assert 7 * n == 7 * (n - 1) + 7;
      if v >= 0x80 {
        VarintLength(v / 0x80, n - 1);
      } else {
        Pow2Monotonic(7, 7 * n);
        assert Pow2(7) == 0x80;
      }
    }
  }

  lemma VarintSplit(v: nat, tail: seq<byte>)
    ensures (VarintBytes(v) + tail)[0] == if v < 0x80 then v else v % 0x80 + 0x80
    ensures (VarintBytes(v) + tail)[1..] == if v < 0x80 then tail else VarintBytes(v / 0x80) + tail
  {
    if v < 0x80 {
      assert ([v as byte] + tail)[1..] == tail;
    } else {
      var rest := VarintBytes(v / 0x80) + tail;
      assert VarintBytes(v) + tail == [(v % 0x80 + 0x80) as byte] + rest;
      assert ([(v % 0x80 + 0x80) as byte] + rest)[1..] == rest;
    }
  }

  /** No encoding is a prefix of another, so a reader knows where each one ends. */
  lemma {:induction false} VarintPrefixFree(a: nat, b: nat, x: seq<byte>, y: seq<byte>)
    requires VarintBytes(a) + x == VarintBytes(b) + y
    ensures a == b && x == y
  {
    VarintSplit(a, x);
    VarintSplit(b, y);
    if a >= 0x80 {
      VarintPrefixFree(a / 0x80, b / 0x80, x, y);
    }
  }

  /** One byte of a long varint: what its low seven bits add at shift `i`, and what is left to read. */
  lemma VarintStep(bits: nat, v: nat, i: nat, result: nat)
    requires v >= 0x80 && result < Pow2(i) && v * Pow2(i) < Pow2(bits)
    ensures i + 7 < bits
    ensures BitOr(result, ShiftLeft(bits, v % 0x80, i)) == result + (v % 0x80) * Pow2(i) < Pow2(i + 7)
    ensures v * Pow2(i) == (v % 0x80) * Pow2(i) + (v / 0x80) * Pow2(i + 7) < Pow2(bits)
  {
    var p, low, high := Pow2(i), v % 0x80, v / 0x80;
    Pow2Step7(i);
    Distribute(low, high, p, v);
    MulMagnitude(p, high);
    WordIdentity(bits, low * p);
    OrDisjointIsPlus(result, low, i);
    if i + 7 >= bits {
      Pow2Monotonic(bits, i + 7);
    }
  }

  lemma Distribute(low: nat, high: nat, p: nat, v: nat)
    requires low < 0x80 && high >= 1 && p >= 1 && v == low + 0x80 * high
    ensures v * p == low * p + high * (0x80 * p)
    ensures low * p <= 0x7f * p
    ensures high * (0x80 * p) >= 0x80 * p
  {
  }

  lemma ReadVarintMore(bits: nat, v: nat, tail: seq<byte>, i: nat, result: nat)
    requires v >= 0x80 && i < bits
    ensures ReadVarint(bits, VarintBytes(v) + tail, i, result)
         == match ReadVarint(bits, VarintBytes(v / 0x80) + tail, i + 7, BitOr(result, ShiftLeft(bits, v % 0x80, i)))
            case None => None
            case Some(p) => Some((p.0, p.1 + 1))
  {
    hide ShiftLeft, BitOr, BitAnd, VarintBytes;
    VarintSplit(v, tail);
    assert Pow2(7) == 0x80;
    MaskIsMod(v % 0x80 + 0x80, 7);
  }

  lemma ReadVarintLast(bits: nat, v: nat, tail: seq<byte>, i: nat, result: nat)
    requires v < 0x80 && i < bits && result < Pow2(i) && v * Pow2(i) < Pow2(bits)
    ensures ReadVarint(bits, VarintBytes(v) + tail, i, result) == Some((result + v * Pow2(i), 1))
  {
    VarintSplit(v, tail);
    WordIdentity(bits, v * Pow2(i));
    OrDisjointIsPlus(result, v, i);
  }

  lemma {:induction false} ReadVarintFrom(bits: nat, v: nat, tail: seq<byte>, i: nat, result: nat, total: nat)
    requires result < Pow2(i) && v * Pow2(i) < Pow2(bits) && i < bits
    requires total == result + v * Pow2(i)
    ensures ReadVarint(bits, VarintBytes(v) + tail, i, result) == Some((total, |VarintBytes(v)|))
    decreases v
  {
    hide ReadVarint, ShiftLeft, BitOr, BitAnd, Pow2;
    if v < 0x80 {
      ReadVarintLast(bits, v, tail, i, result);
    } else {
      var next := BitOr(result, ShiftLeft(bits, v % 0x80, i));
      assert next < Pow2(i + 7) && i + 7 < bits
          && (v / 0x80) * Pow2(i + 7) < Pow2(bits)
          && total == next + (v / 0x80) * Pow2(i + 7) by {
        VarintStep(bits, v, i, result);
      }
      ReadVarintFrom(bits, v / 0x80, tail, i + 7, next, total);
      ReadVarintMore(bits, v, tail, i, result);
    }
  }

  /** Reading a varint returns the number written and stops exactly at its end. */
  lemma VarintRoundTrip(bits: nat, v: nat, tail: seq<byte>)
    requires bits > 0 && v < Pow2(bits)
    ensures ReadVarint(bits, VarintBytes(v) + tail, 0, 0) == Some((v, |VarintBytes(v)|))
  {
    assert Pow2(0) == 1;
    ReadVarintFrom(bits, v, tail, 0, 0, v);
  }

  // ---------------------------------------------------------------- any bytes as a varint

  /** The groups of seven bits of the first `k` bytes with their weights. */
  function GroupSum(bs: seq<byte>, k: nat): nat
    requires k <= |bs|
  {
    if k == 0 then 0 else GroupSum(bs, k - 1) + bs[k - 1] % 128 * Pow2(7 * (k - 1))
  }

  lemma {:induction false} GroupSumBound(bs: seq<byte>, k: nat)
    requires k <= |bs|
    ensures GroupSum(bs, k) < Pow2(7 * k)
  {
    hide Pow2;
    if k > 0 {
      GroupSumBound(bs, k - 1);
      Pow2Step7(7 * (k - 1));
      assert 7 * (k - 1) + 7 == 7 * k;
      NextGroup(GroupSum(bs, k - 1), bs[k - 1] % 128, Pow2(7 * (k - 1)));
    }
  }

  lemma NextGroup(g: nat, x: nat, m: nat)
    requires g < m && x < 128
    ensures g + x * m < 128 * m
  {
    assert x * m <= 127 * m;
  }

  /** Or with a shifted number that may lose its upper bits is addition in the word. */
  lemma OrShifted(bits: nat, i: nat, low: nat, x: nat)
    requires i < bits && low < Pow2(i)
    ensures BitOr(low, ShiftLeft(bits, x, i)) == (low + x * Pow2(i)) % Pow2(bits)
  {
    hide Pow2, BitOr;
    var m, n := Pow2(i), Pow2(bits - i);
    Pow2Add(i, bits - i);
    var q, h := x / n, x % n;
    ShiftedParts(x, m, n);
    DivModUnique(x * m, m * n, q, h * m);
    OrDisjointIsPlus(low, h, i);
    DivModUnique(low + x * m, m * n, q, low + h * m);
  }

  lemma ShiftedParts(x: nat, m: nat, n: nat)
    requires m > 0 && n > 0
    ensures m * n > 0 && x * m == (m * n) * (x / n) + x % n * m && x % n * m + m <= m * n
  {
    var q, h := x / n, x % n;
    assert x * m == (n * q + h) * m;
    assert (n * q + h) * m == (m * n) * q + h * m;
    assert (h + 1) * m <= n * m;
  }

  /** The byte at which the varint ends, or the number of bytes the loop reads at most. */
  function VarintEnd(bs: seq<byte>, k: nat, room: nat): (n: nat)
    requires k <= room && k <= |bs|
    ensures k <= n <= room && n <= |bs|
    ensures forall j :: k <= j < n ==> bs[j] >= 0x80
    ensures n < room && n < |bs| ==> bs[n] < 0x80
    decreases room - k
  {
    if k == room || k == |bs| || bs[k] < 0x80 then k else VarintEnd(bs, k + 1, room)
  }

  lemma {:induction false} ReadGroups(bits: nat, room: nat, bs: seq<byte>, k: nat, result: nat)
    requires 7 * (room - 1) < bits <= 7 * room && k <= room && k <= |bs| && result == GroupSum(bs, k) % Pow2(bits)
    ensures var n := VarintEnd(bs, k, room);
            ReadVarint(bits, bs[k..], 7 * k, result)
            == if n < room && n < |bs| then Some((GroupSum(bs, n + 1) % Pow2(bits), n + 1 - k))
               else if n == room then Some((GroupSum(bs, room) % Pow2(bits), room - k))
               else None
    decreases room - k
  {
    hide Pow2, BitOr, BitAnd, ShiftLeft, GroupSum;
    if k < room && k < |bs| {
      GroupStep(bits, room, bs, k, result);
      assert bs[k..][1..] == bs[k + 1..];
      if bs[k] >= 0x80 {
        ReadGroups(bits, room, bs, k + 1, BitOr(result, ShiftLeft(bits, BitAnd(bs[k], 0x7f), 7 * k)));
      }
    }
  }

  lemma GroupStep(bits: nat, room: nat, bs: seq<byte>, k: nat, result: nat)
    requires 7 * (room - 1) < bits <= 7 * room && k < room && k < |bs| && result == GroupSum(bs, k) % Pow2(bits)
    ensures 7 * k < bits && BitAnd(bs[k], 0x7f) == bs[k] % 128
    ensures BitOr(result, ShiftLeft(bits, bs[k] % 128, 7 * k)) == GroupSum(bs, k + 1) % Pow2(bits)
  {
    hide Pow2, BitOr, BitAnd, ShiftLeft;
    GroupSumBound(bs, k);
    Pow2Monotonic(7 * k, bits);
    DivModUnique(GroupSum(bs, k), Pow2(bits), 0, GroupSum(bs, k));
    OrShifted(bits, 7 * k, result, bs[k] % 128);
    SevenBits(bs[k]);
  }

  lemma SevenBits(b: byte)
    ensures BitAnd(b, 0x7f) == b % 128
  {
    assert Pow2(7) == 128;
    MaskIsMod(b, 7);
  }

  /** What the readers of 32- and 64-bit varints make of any bytes: the groups up to the first byte below 128, but of at most
      5 or 10 bytes, and of the sum what the word holds; or nothing when the bytes run out before. */
  lemma ReadVarintMeaning(bits: nat, bs: seq<byte>)
    requires bits == 32 || bits == 64
    ensures var room := if bits == 32 then 5 else 10;
            var n := VarintEnd(bs, 0, room);
            ReadVarint(bits, bs, 0, 0)
            == if n < room && n < |bs| then Some((GroupSum(bs, n + 1) % Pow2(bits), n + 1))
               else if n == room then Some((GroupSum(bs, room) % Pow2(bits), room))
               else None
  {
    hide Pow2, ReadVarint;
    assert bs[0..] == bs;
    DivModUnique(0, Pow2(bits), 0, 0);
    ReadGroups(bits, if bits == 32 then 5 else 10, bs, 0, 0);
  }
}
