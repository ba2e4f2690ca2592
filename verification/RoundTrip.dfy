/** The write, rewind, read scenario of source/test_bytearray.cpp, for any mix of values. */
module RoundTrip {
  import opened Bits
  import opened Endian
  import opened Values
  import opened FlatBuffer
  import opened TypedReads
  import opened ByteArrays

  lemma EncodeAllSnoc(host: Order, e: Order, items: seq<Item>, i: nat)
    requires AllInRange(items) && i < |items|
    ensures EncodeAll(host, e, items[..i + 1]) == EncodeAll(host, e, items[..i]) + Encode(host, e, items[i].kind, items[i].value)
  {
    hide Encode;
    if i == 0 {
      assert items[..1][1..] == [];
    } else {
      var k, v := items[0].kind, items[0].value;
      assert items[..i + 1][1..] == items[1..][..i] && items[..i][1..] == items[1..][..i - 1];
      EncodeAllSnoc(host, e, items[1..], i - 1);
      var a, b, c := Encode(host, e, k, v), EncodeAll(host, e, items[1..][..i - 1]), Encode(host, e, items[i].kind, items[i].value);
      assert a + (b + c) == (a + b) + c;
    }
  }

  method WriteAll(ba: ByteArray, items: seq<Item>)
    requires ba.Valid() && AllInRange(items)
    modifies ba.Repr()
    ensures ba.Valid() && fresh(ba.Repr() - old(ba.Repr())) && ba.endian == old(ba.endian)
    ensures Written(old(ba.View()), EncodeAll(ba.host, ba.endian, items), ba.View())
  {
    hide ba.Linked, ba.Holds, ba.CursorAt, Written, Encode;
    ba.ValidView();
    WrittenNothing(ba.View());
    var i := 0;
    assert items[..0] == [];
    while i < |items|
      invariant 0 <= i <= |items| && ba.Valid() && fresh(ba.Repr() - old(ba.Repr())) && ba.endian == old(ba.endian)
      invariant Written(old(ba.View()), EncodeAll(ba.host, ba.endian, items[..i]), ba.View())
    {
      ghost var mid := ba.View();
      ba.WriteValue(items[i].kind, items[i].value);
      EncodeAllSnoc(ba.host, ba.endian, items, i);
      WrittenTwice(old(ba.View()), EncodeAll(ba.host, ba.endian, items[..i]), mid, Encode(ba.host, ba.endian, items[i].kind, items[i].value), ba.View());
      i := i + 1;
    }
    assert items[..i] == items;
  }

  lemma FreshlyWritten(empty: Flat, bytes: seq<byte>, g: Flat)
    requires empty.pos == empty.size == 0 && |empty.cells| == empty.base && Written(empty, bytes, g)
    ensures g.pos == g.size == |bytes| <= |g.cells|
    ensures g.(pos := 0).Readable() == bytes
    ensures bytes != [] ==> (g.size == |g.cells| <==> |bytes| % empty.base == 0)
  {
    assert g.cells[0..|bytes|] == bytes;
    var b := empty.base;
    if bytes != [] {
      if |bytes| < b {
        DivModUnique(|bytes|, b, 0, |bytes|);
      } else if |bytes| == b {
        DivModUnique(|bytes|, b, 1, 0);
      } else if |bytes| % b == 0 {
        NoMultipleBetween(|bytes|, |g.cells|, b);
      }
    }
  }

  lemma NoMultipleBetween(n: nat, m: nat, b: nat)
    requires b > 0 && n % b == 0 && m % b == 0 && n <= m < n + b
    ensures n == m
  {
    var i, j := n / b, m / b;
    assert (j - i) * b == m - n;
    MulMagnitude(b, j - i);
  }

  lemma NonemptyEncoding(host: Order, e: Order, items: seq<Item>)
    requires AllInRange(items) && items != []
    ensures EncodeAll(host, e, items) != []
  {
  }

  /** Write a list of values into an empty array and rewind it. */
  method WriteAndRewind(host: Order, little: bool, base: nat, items: seq<Item>) returns (ba: ByteArray)
    requires base >= 1 && AllInRange(items)
    ensures ba.Valid() && fresh(ba.Repr())
    ensures ba.host == host && ba.endian == if little then Little else Big
    ensures ba.View().Inv() && ba.position == 0
    ensures var bytes := EncodeAll(host, ba.endian, items);
            ba.View().Readable() == bytes && (items != [] ==> (ba.size == |ba.cells| <==> |bytes| % base == 0))
  {
    hide ByteArray.Linked, ByteArray.Holds, ByteArray.CursorAt, Written, Encode;
    ba := new ByteArray(host, base);
    ba.SetIsLittleEndian(little);
    ghost var empty := ba.View();
    WriteAll(ba, items);
    FreshlyWritten(empty, EncodeAll(host, ba.endian, items), ba.View());
    if items != [] {
      NonemptyEncoding(host, ba.endian, items);
    }
    var rewound := ba.SetPosition(0);
    ba.ValidView();
  }

  /** Writing a list of values into an empty array of any block size and either byte order, rewinding, and reading
      with the matching readers gives the values back with nothing left to read, if and only if every string fits
      its length prefix and the list does not end in an empty string exactly at the end of a block. */
  method WriteRewindRead(host: Order, little: bool, base: nat, items: seq<Item>) returns (r: Result<seq<Value>>, left: nat)
    requires base >= 1 && AllInRange(items)
    ensures var bytes := EncodeAll(host, if little then Little else Big, items);
            r == Ok(ItemValues(items)) && left == 0
            <==> AllFit(items) && !(EndsInEmptyString(items) && |bytes| % base == 0)
  {
    hide Encode, ReadAllTyped;
    var ba := WriteAndRewind(host, little, base, items);
    RecoveredIff(host, host, ba.endian, items, ba.View());
    r := ba.ReadAll(Kinds(items));
    left := ba.GetReadSize();
  }

  /** An empty string in an array of blocks of two bytes: its 16-bit length fills the block, and it cannot be read back. */
  lemma EmptyStringNotRead(host: Order, e: Order)
    ensures var items := [Item(Text(W16), Str([]))];
            && AllInRange(items) && AllFit(items) && EndsInEmptyString(items) && |EncodeAll(host, e, items)| == 2
            && ReadAllTyped(host, e, Kinds(items), Flat(2, EncodeAll(host, e, items), 0, 2)) == Err(NullCursor)
  {
    hide Encode, ReadTyped, AllInRange, AllFit;
    var items := [Item(Text(W16), Str([]))];
    var bs := Encode(host, e, Text(W16), Str([]));
    OneEmptyString(host, e);
    EmptyStringEncoded(host, e);
    var f := Flat(2, bs, 0, 2);
    assert Kinds(items)[0] == Text(W16) && Kinds(items) != [];
    assert ReadTyped(host, e, Text(W16), f) == Err(NullCursor);
  }

  lemma OneEmptyString(host: Order, e: Order)
    ensures var items := [Item(Text(W16), Str([]))];
            AllInRange(items) && AllFit(items) && EncodeAll(host, e, items) == Encode(host, e, Text(W16), Str([]))
  {
    hide Encode;
    var items := [Item(Text(W16), Str([]))];
    assert items[1..] == [] && EncodeAll(host, e, []) == [];
    assert Encode(host, e, Text(W16), Str([])) + [] == Encode(host, e, Text(W16), Str([]));
  }

  lemma EmptyStringEncoded(host: Order, e: Order)
    ensures var bs := Encode(host, e, Text(W16), Str([]));
            |bs| == 2 && ReadTyped(host, e, Text(W16), Flat(2, bs, 0, 2)) == Err(NullCursor)
  {
    hide Encode, Decode;
    EmptyStringDecoded(host, e);
    var bs := Encode(host, e, Text(W16), Str([]));
    assert Flat(2, bs, 0, 2).Readable() == bs;
  }

  lemma EmptyStringDecoded(host: Order, e: Order)
    ensures var bs := Encode(host, e, Text(W16), Str([]));
            |bs| == 2 && var d := Decode(host, e, Text(W16), bs); d.Some? && d.value == (Str([]), 2)
  {
    hide Encode, Decode, Pow2;
    TextItem(host, host, e, W16, [], []);
    var bs, s: seq<byte> := Encode(host, e, Text(W16), Str([])), [];
    assert bs + [] == bs && s[..0] == [];
  }
}
