/** Typed reads of a flat buffer, and when they give back what was written. */
module TypedReads {
  import opened Bits
  import opened Endian
  import opened Codec
  import opened Values
  import opened FlatBuffer

  /** The reader for `k` at the position: the value and the bytes it takes. Reading an empty string at the very
      end of the capacity dereferences the null cursor. */
  function ReadTyped(host: Order, e: Order, k: Kind, f: Flat): (r: Result<(Value, nat)>)
    requires f.pos <= f.size <= |f.cells|
    ensures r.Ok? ==> f.pos + r.value.1 <= f.size
  {
    match Decode(host, e, k, f.Readable())
    case None => Err(OutOfRange)
    case Some(p) =>
      if p.0 == Str([]) && f.pos + p.1 == |f.cells| then Err(NullCursor) else Ok(p)
  }

  /** One reader after another. */
  function ReadAllTyped(host: Order, e: Order, kinds: seq<Kind>, f: Flat): Result<(seq<Value>, nat)>
    requires f.pos <= f.size <= |f.cells|
  {
    if kinds == [] then Ok(([], f.pos))
    else
      match ReadTyped(host, e, kinds[0], f)
      case Err(fault) => Err(fault)
      case Ok(p) =>
        match ReadAllTyped(host, e, kinds[1..], f.(pos := f.pos + p.1))
        case Err(fault) => Err(fault)
        case Ok(q) => Ok(([p.0] + q.0, q.1))
  }

  lemma EncodeNonempty(host: Order, e: Order, k: Kind, v: Value)
    requires InRange(k, v)
    ensures Encode(host, e, k, v) != []
  {
  }

  /** The one list that cannot be read back although every string fits: it ends with an empty string, and the
      last cell written is the last of the capacity. */
  predicate EndsInEmptyString(items: seq<Item>) {
    items != [] && items[|items| - 1].value == Str([])
  }

  ghost predicate Recovered(host: Order, e: Order, items: seq<Item>, f: Flat)
    requires f.pos <= f.size <= |f.cells|
  {
    ReadAllTyped(host, e, Kinds(items), f) == Ok((ItemValues(items), f.size))
  }

  lemma RecoveredStep(host: Order, e: Order, items: seq<Item>, f: Flat)
    requires f.pos <= f.size <= |f.cells| && items != []
    ensures var r := ReadTyped(host, e, items[0].kind, f);
            Recovered(host, e, items, f)
            <==> r.Ok? && r.value.0 == items[0].value && Recovered(host, e, items[1..], f.(pos := f.pos + r.value.1))
  {
    hide ReadTyped;
    var vs, v := ItemValues(items[1..]), items[0].value;
    assert Kinds(items)[0] == items[0].kind && Kinds(items)[1..] == Kinds(items[1..]);
    assert ItemValues(items) == [v] + vs;
    assert ([v] + vs)[0] == v && ([v] + vs)[1..] == vs;
    var r := ReadTyped(host, e, items[0].kind, f);
    if r.Ok? {
      var q := ReadAllTyped(host, e, Kinds(items[1..]), f.(pos := f.pos + r.value.1));
      if q.Ok? {
        var all := [r.value.0] + q.value.0;
        assert all[0] == r.value.0 && all[1..] == q.value.0;
      }
    }
  }

  /** A buffer whose readable bytes are a written list gives the list back exactly when every string fits its
      prefix and the list does not end in an empty string flush with the capacity. */
  lemma {:induction false} RecoveredIff(writer: Order, reader: Order, e: Order, items: seq<Item>, f: Flat)
    requires AllInRange(items) && f.pos <= f.size <= |f.cells|
    requires f.Readable() == EncodeAll(writer, e, items)
    ensures Recovered(reader, e, items, f)
            <==> AllFit(items) && !(EndsInEmptyString(items) && f.size == |f.cells|)
  {
    hide Encode, Decode, ReadAllTyped, Recovered, EncodeAll, Kinds, ItemValues, AllFit;
    FirstOfAll(writer, e, items);
    if items == [] {
      NothingRecovered(reader, e, f);
    } else {
      var k, v := items[0].kind, items[0].value;
      var first, rest := Encode(writer, e, k, v), EncodeAll(writer, e, items[1..]);
      ItemRoundTrip(writer, reader, e, k, v, rest);
      RecoveredStep(reader, e, items, f);
      if Fits(k, v) {
        var g := f.(pos := f.pos + |first|);
        AfterFirst(f, first, rest);
        RecoveredIff(writer, reader, e, items[1..], g);
        LastIsLater(writer, e, items, f);
      }
    }
  }

  lemma FirstOfAll(writer: Order, e: Order, items: seq<Item>)
    requires AllInRange(items)
    ensures items == [] ==> EncodeAll(writer, e, items) == [] && AllFit(items)
    ensures items != [] ==>
              && EncodeAll(writer, e, items) == Encode(writer, e, items[0].kind, items[0].value) + EncodeAll(writer, e, items[1..])
              && (AllFit(items) <==> Fits(items[0].kind, items[0].value) && AllFit(items[1..]))
  {
    hide Encode, Fits;
  }

  lemma NothingRecovered(reader: Order, e: Order, f: Flat)
    requires f.pos <= f.size <= |f.cells| && f.Readable() == []
    ensures Recovered(reader, e, [], f)
  {
    assert |f.Readable()| == f.size - f.pos;
    assert Kinds([]) == [] && ItemValues([]) == [];
  }

  lemma AfterFirst(f: Flat, first: seq<byte>, rest: seq<byte>)
    requires f.pos <= f.size <= |f.cells| && f.Readable() == first + rest
    ensures f.pos + |first| <= f.size && f.(pos := f.pos + |first|).Readable() == rest
  {
  }

  lemma LastIsLater(writer: Order, e: Order, items: seq<Item>, f: Flat)
    requires AllInRange(items) && items != [] && f.pos <= f.size <= |f.cells|
    requires f.Readable() == EncodeAll(writer, e, items)
    ensures |items| > 1 ==> f.pos + |Encode(writer, e, items[0].kind, items[0].value)| < f.size
    ensures |items| > 1 ==> EndsInEmptyString(items) == EndsInEmptyString(items[1..])
    ensures |items| == 1 ==> f.pos + |Encode(writer, e, items[0].kind, items[0].value)| == f.size && items[1..] == []
  {
    hide Encode;
    AfterFirst(f, Encode(writer, e, items[0].kind, items[0].value), EncodeAll(writer, e, items[1..]));
    if |items| > 1 {
      EncodeNonempty(writer, e, items[1].kind, items[1].value);
      assert EncodeAll(writer, e, items[1..]) != [];
    }
  }
}
