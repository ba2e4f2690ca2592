/** Byte order of fixed-width integers (sylar/endian1.h): host memory layout, byteswap, wire order. */
module Endian {
  import opened Bits

  datatype Order = Little | Big

  function LittleBytes(v: nat, w: nat): (bs: seq<byte>)
    ensures |bs| == w
  {
    if w == 0 then [] else [v % 256] + LittleBytes(v / 256, w - 1)
  }

  function FromLittle(bs: seq<byte>): nat
  {
    if bs == [] then 0 else bs[0] + 256 * FromLittle(bs[1..])
  }

  function Reverse(bs: seq<byte>): (rs: seq<byte>)
    ensures |rs| == |bs|
    ensures forall i :: 0 <= i < |bs| ==> rs[i] == bs[|bs| - 1 - i]
  {
    if bs == [] then [] else Reverse(bs[1..]) + [bs[0]]
  }

  /** The `w` bytes in order `o`, given least significant first. */
  function InOrder(o: Order, bs: seq<byte>): (rs: seq<byte>)
    ensures |rs| == |bs|
  {
    if o == Little then bs else Reverse(bs)
  }

  /** How a `w`-byte unsigned integer lies in the memory of a `host`. */
  function ToMemory(host: Order, v: nat, w: nat): (bs: seq<byte>)
    ensures |bs| == w
  {
    InOrder(host, LittleBytes(v, w))
  }

  function FromMemory(host: Order, bs: seq<byte>): nat
  {
    FromLittle(InOrder(host, bs))
  }

  /** bswap_16, bswap_32, bswap_64. */
  function ByteSwap(v: nat, w: nat): nat
  {
    FromLittle(Reverse(LittleBytes(v, w)))
  }

  /** The bytes the fixed-width writers hand to `write`: swap when the array's order is not the host's. */
  function FintToWire(host: Order, endian: Order, v: nat, w: nat): (bs: seq<byte>)
    ensures |bs| == w
  {
    ToMemory(host, if endian != host then ByteSwap(v, w) else v, w)
  }

  /** What the fixed-width readers make of `bs`. */
  function FintFromWire(host: Order, endian: Order, bs: seq<byte>): nat
  {
    var v := FromMemory(host, bs);
    if endian == host then v else ByteSwap(v, |bs|)
  }

  lemma ReverseTwice(bs: seq<byte>)
    ensures Reverse(Reverse(bs)) == bs
  {
  }

  lemma Pow2Bytes(w: nat)
    requires w > 0
    ensures Pow2(8 * w) == 256 * Pow2(8 * (w - 1))
  {
    var rest := 8 * (w - 1);
    assert Pow2(8) == 256;
    Pow2Add(8, rest);
    assert 8 * w == 8 + rest;
  }

  lemma {:induction false} FromLittleOfLittleBytes(v: nat, w: nat)
    ensures FromLittle(LittleBytes(v, w)) == v % Pow2(8 * w)
  {
    if w > 0 {
      var m := Pow2(8 * (w - 1));
      FromLittleOfLittleBytes(v / 256, w - 1);
      Pow2Bytes(w);
      var q, r := (v / 256) / m, (v / 256) % m;
      assert v == (256 * m) * q + (v % 256 + 256 * r);
      DivModUnique(v, 256 * m, q, v % 256 + 256 * r);
    }
  }

  lemma {:induction false} LittleBytesOfFromLittle(bs: seq<byte>)
    ensures LittleBytes(FromLittle(bs), |bs|) == bs
    ensures FromLittle(bs) < Pow2(8 * |bs|)
  {
    if bs != [] {
      LittleBytesOfFromLittle(bs[1..]);
      Pow2Bytes(|bs|);
      DivModUnique(FromLittle(bs), 256, FromLittle(bs[1..]), bs[0]);
    }
  }

  /** The bytes written depend on the array's order only, never on the host that writes them. */
  lemma WireIndependentOfHost(host: Order, endian: Order, v: nat, w: nat)
    ensures FintToWire(host, endian, v, w) == InOrder(endian, LittleBytes(v, w))
  {
    var le := LittleBytes(v, w);
    if endian != host {
      LittleBytesOfFromLittle(Reverse(le));
      ReverseTwice(le);
    }
  }

  lemma FintFromWireMeaning(host: Order, endian: Order, bs: seq<byte>)
    ensures FintFromWire(host, endian, bs) == FromLittle(InOrder(endian, bs))
    ensures FintFromWire(host, endian, bs) < Pow2(8 * |bs|)
  {
    LittleBytesOfFromLittle(bs);
    LittleBytesOfFromLittle(Reverse(bs));
    ReverseTwice(bs);
  }

  /** A reader on any host recovers what a writer on any other host wrote. */
  lemma FintRoundTrip(writer: Order, reader: Order, endian: Order, v: nat, w: nat)
    requires v < Pow2(8 * w)
    ensures FintFromWire(reader, endian, FintToWire(writer, endian, v, w)) == v
  {
    WireIndependentOfHost(writer, endian, v, w);
    FintFromWireMeaning(reader, endian, FintToWire(writer, endian, v, w));
    ReverseTwice(LittleBytes(v, w));
    FromLittleOfLittleBytes(v, w);
    DivModUnique(v, Pow2(8 * w), 0, v);
  }

  // ---------------------------------------------------------------- byte by byte

  lemma {:induction false} LittleByteAt(v: nat, w: nat, i: nat)
    requires i < w
    ensures LittleBytes(v, w)[i] == v / Pow2(8 * i) % 256
  {
    if i > 0 {
      LittleByteAt(v / 256, w - 1, i - 1);
      Pow2Bytes(i);
      DivTwice(v, 256, Pow2(8 * (i - 1)));
    }
  }

  lemma DivTwice(v: nat, a: nat, b: nat)
    requires a > 0 && b > 0
    ensures a * b > 0 && v / a / b == v / (a * b)
  {
    var t := v / a;
    Divided(v, a);
    Divided(t, b);
    Composed(v, a, b, t, t / b, t % b, v % a);
  }

  lemma Divided(v: nat, a: nat)
    requires a > 0
    ensures v == a * (v / a) + v % a && v % a < a
  {
  }

  lemma Composed(v: nat, a: nat, b: nat, t: nat, q: nat, r: nat, s: nat)
    requires v == a * t + s && t == b * q + r && r < b && s < a
    ensures a * b > 0 && v / (a * b) == q
  {
    Regrouped(a, b, q, r, s);
    Remains(a, b, r, s);
    DivModUnique(v, a * b, q, a * r + s);
  }

  lemma Regrouped(a: nat, b: nat, q: nat, r: nat, s: nat)
    ensures a * (b * q + r) + s == (a * b) * q + (a * r + s)
  {
    assert a * (b * q + r) == a * (b * q) + a * r;
    assert a * (b * q) == (a * b) * q;
  }

  lemma Remains(a: nat, b: nat, r: nat, s: nat)
    requires r < b && s < a
    ensures a * r + s < a * b
  {
    assert a * r <= a * (b - 1);
  }

  /** On every host: the most significant byte comes first in big-endian order, the least significant one in
      little-endian order. */
  lemma WireBytes(host: Order, endian: Order, v: nat, w: nat, i: nat)
    requires i < w
    ensures FintToWire(host, endian, v, w)[i]
            == (if endian == Big then v / Pow2(8 * (w - 1 - i)) % 256 else v / Pow2(8 * i) % 256)
  {
    hide FintToWire, Pow2;
    WireIndependentOfHost(host, endian, v, w);
    LittleByteAt(v, w, i);
    LittleByteAt(v, w, w - 1 - i);
  }

  /** The first `k` bytes with their weights, the first byte of all being the most significant. */
  function BigSum(bs: seq<byte>, k: nat): nat
    requires k <= |bs|
  {
    if k == 0 then 0 else BigSum(bs, k - 1) + bs[k - 1] * Pow2(8 * (|bs| - k))
  }

  /** The first `k` bytes with their weights, the first byte of all being the least significant. */
  function LittleSum(bs: seq<byte>, k: nat): nat
    requires k <= |bs|
  {
    if k == 0 then 0 else LittleSum(bs, k - 1) + bs[k - 1] * Pow2(8 * (k - 1))
  }

  lemma {:induction false} LittleSumIs(bs: seq<byte>, k: nat)
    requires k <= |bs|
    ensures LittleSum(bs, k) == FromLittle(bs[..k])
  {
    if k > 0 {
      LittleSumIs(bs, k - 1);
      FromLittleSnoc(bs[..k - 1], bs[k - 1]);
      assert bs[..k] == bs[..k - 1] + [bs[k - 1]];
    }
  }

  lemma {:induction false} FromLittleSnoc(bs: seq<byte>, b: byte)
    ensures FromLittle(bs + [b]) == FromLittle(bs) + b * Pow2(8 * |bs|)
  {
    if bs == [] {
      assert [b][1..] == [];
    } else {
      assert (bs + [b])[1..] == bs[1..] + [b];
      FromLittleSnoc(bs[1..], b);
      Pow2Bytes(|bs|);
      assert 256 * (b * Pow2(8 * (|bs| - 1))) == b * (256 * Pow2(8 * (|bs| - 1)));
    }
  }

  lemma {:induction false} BigSumIs(bs: seq<byte>, k: nat)
    requires k <= |bs|
    ensures BigSum(bs, k) == FromLittle(Reverse(bs[..k])) * Pow2(8 * (|bs| - k))
  {
    hide FromLittle, Reverse, Pow2;
    if k == 0 {
      NoBytes(bs);
    } else {
      BigSumIs(bs, k - 1);
      assert bs[..k] == bs[..k - 1] + [bs[k - 1]];
      ReverseSnoc(bs[..k - 1], bs[k - 1]);
      FromLittleCons(bs[k - 1], Reverse(bs[..k - 1]));
      Pow2Bytes(|bs| - k + 1);
      Distributes(FromLittle(Reverse(bs[..k - 1])), bs[k - 1], Pow2(8 * (|bs| - k)));
    }
  }

  lemma NoBytes(bs: seq<byte>)
    ensures FromLittle(Reverse(bs[..0])) == 0
  {
  }

  lemma FromLittleCons(b: byte, bs: seq<byte>)
    ensures FromLittle([b] + bs) == b + 256 * FromLittle(bs)
  {
    assert ([b] + bs)[1..] == bs;
  }

  lemma Distributes(f: nat, b: nat, m: nat)
    ensures f * (256 * m) + b * m == (b + 256 * f) * m
  {
  }

  lemma ReverseSnoc(bs: seq<byte>, b: byte)
    ensures Reverse(bs + [b]) == [b] + Reverse(bs)
  {
  }

  /** What is read on every host is the sum of the bytes with their weights. */
  lemma WireSum(host: Order, endian: Order, bs: seq<byte>)
    ensures FintFromWire(host, endian, bs) == (if endian == Big then BigSum(bs, |bs|) else LittleSum(bs, |bs|))
  {
    hide FintFromWire;
    FintFromWireMeaning(host, endian, bs);
    assert bs[..|bs|] == bs;
    assert Pow2(0) == 1;
    BigSumIs(bs, |bs|);
    LittleSumIs(bs, |bs|);
  }
}
