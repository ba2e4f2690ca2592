/** sylar/socket_stream.cpp: a socket fills and drains a ByteArray through iovec lists. */
module SocketStreams {
  import opened Bits
  import opened FlatBuffer
  import opened ByteArrays

  lemma RegionIn(ba: ByteArray, iovs: seq<IoVec>, p: nat, i: nat)
    requires ba.baseSize >= 1 && ba.Covers(iovs, p) && i < |iovs|
    ensures ba.Region(iovs[i], p + TotalLen(iovs[..i]))
  {
  }

  lemma RegionsFit(ba: ByteArray, iovs: seq<IoVec>, p: nat)
    requires ba.Linked() && ba.Holds() && ba.Covers(iovs, p) && iovs != []
    ensures p + TotalLen(iovs) <= |ba.cells|
  {
    hide ba.Linked, ba.Holds, ba.Covers, ba.LiesAt;
    ba.CapacityIsCells();
    var n := |iovs| - 1;
    RegionIn(ba, iovs, p, n);
    ba.MemoryIsCells(p + TotalLen(iovs[..n]), iovs[n].base, iovs[n].off, iovs[n].len);
  }

  lemma AnotherRegion(ba: ByteArray, iovs: seq<IoVec>, p: nat, i: nat)
    requires ba.Linked() && ba.Covers(iovs, p) && i <= |iovs| && TotalLen(iovs[..i]) < TotalLen(iovs)
    ensures i < |iovs| && iovs[i].base in ba.Blocks()
    ensures iovs[i].len > 0 && iovs[i].off + iovs[i].len <= ba.baseSize
    ensures ba.LiesAt(p + TotalLen(iovs[..i]), iovs[i].base, iovs[i].off)
  {
    hide ba.Covers, TotalLen;
    assert iovs[..|iovs|] == iovs;
    RegionIn(ba, iovs, p, i);
    InBlocks(ba, p + TotalLen(iovs[..i]), iovs[i].base, iovs[i].off);
  }

  lemma InBlocks(ba: ByteArray, p: nat, ptr: array<byte>, npos: nat)
    requires ba.baseSize >= 1 && ba.LiesAt(p, ptr, npos)
    ensures ptr in ba.Blocks()
  {
  }

  lemma NoRegions(iovs: seq<IoVec>)
    ensures TotalLen(iovs[..0]) == 0 && TotalLen([]) == 0
  {
  }

  // ---------------------------------------------------------------- receiving

  /** What the kernel does with received bytes: fill the regions one after another. */
  method Scatter(ba: ByteArray, iovs: seq<IoVec>, ghost p: nat, data: seq<byte>)
    requires ba.Linked() && ba.Holds() && ba.Covers(iovs, p) && 0 < |data| <= TotalLen(iovs)
    modifies ba`cells, ba.Blocks()
    ensures ba.Linked() && ba.Holds()
    ensures p + |data| <= |old(ba.cells)| && ba.cells == Splice(old(ba.cells), p, data)
  {
    hide Splice, ba.Linked, ba.Holds, ba.Blocks, ba.Covers, ba.LiesAt, TotalLen;
    NoRegions(iovs);
    RegionsFit(ba, iovs, p);
    SpliceNothing(ba.cells, p, data);
    ba.CapacityIsCells();
    var i, done := 0, 0;
    while done < |data|
      invariant ba.Linked() && ba.Holds() && 0 <= done <= |data|
      invariant 0 <= i <= |iovs| && (done < |data| ==> done == TotalLen(iovs[..i]))
      invariant ba.cells == Splice(old(ba.cells), p, data[..done])
    {
      AnotherRegion(ba, iovs, p, i);
      var m := if iovs[i].len < |data| - done then iovs[i].len else |data| - done;
      SpliceOn(old(ba.cells), p, data, done, m);
      ba.CopyIn(p + done, iovs[i].base, iovs[i].off, data[done..done + m]);
      TotalLenPrefix(iovs, i);
      done := done + m;
      i := i + 1;
    }
    assert data[..done] == data;
  }

  /** The state after scattering `data` into regions got for `length` bytes and moving the position. */
  ghost predicate Received(f: Flat, length: nat, data: seq<byte>, g: Flat)
  {
    && f.Inv() && g.Inv() && g.base == f.base
    && GrownTo(f.base, |f.cells|, f.pos + length, |g.cells|)
    && var end := f.pos + |data|;
       && g.pos == end
       && g.size == Max(f.size, end)
       && g.cells[..end] == f.cells[..f.pos] + data
       && (end <= |f.cells| ==> g.cells[end..|f.cells|] == f.cells[end..])
  }

  lemma SplicedIsReceived(f: Flat, length: nat, data: seq<byte>, grown: seq<byte>, g: Flat)
    requires f.Inv() && g.Inv() && f.cells <= grown && f.pos + |data| <= |grown|
    requires g == Flat(f.base, Splice(grown, f.pos, data), f.pos + |data|, Max(f.size, f.pos + |data|))
    requires GrownTo(f.base, |f.cells|, f.pos + length, |grown|)
    ensures Received(f, length, data, g)
  {
  }

  /** Receiving by scatter and receiving by a plain write of the same bytes agree on every byte up to the
      position, on the position and on the size. */
  lemma ScatterIsWrite(f: Flat, length: nat, data: seq<byte>, scattered: Flat, written: Flat)
    requires Received(f, length, data, scattered) && Written(f, data, written)
    ensures scattered.pos == written.pos && scattered.size == written.size
    ensures scattered.cells[..scattered.pos] == written.cells[..written.pos]
  {
  }

  /** SocketStream::read(ByteArray::ptr, size_t). `rt` is what recv returns, and `data` the bytes that came. */
  method ReadInto(connected: bool, ba: ByteArray, length: nat, rt: int, data: seq<byte>) returns (r: int)
    requires ba.Valid()
    requires |data| == (if rt > 0 then rt else 0) <= length
    modifies ba.Repr()
    ensures ba.Valid() && fresh(ba.Repr() - old(ba.Repr()))
    ensures r == if connected then rt else -1
    ensures !connected ==> ba.View() == old(ba.View())
    ensures connected ==> Received(old(ba.View()), length, data, ba.View())
  {
    hide ba.Linked, ba.Holds, ba.CursorAt, ba.Blocks, ba.NodeSet, ba.Covers, Splice, GrownTo, TotalLen, Received;
    if !connected {
      return -1;
    }
    ba.ValidView();
    var n, iovs := ba.GetWriteBuffers(length);
    ghost var grown := ba.cells;
    ba.ValidView();
    ba.CapacityIsCells();
    GrownCovers(ba.baseSize, |old(ba.cells)|, ba.position + length, |grown|);
    SpliceNone(grown, ba.position);
    if rt > 0 {
      Scatter(ba, iovs, ba.position, data);
      var moved := ba.SetPosition(ba.position + rt);
      ba.ValidView();
    }
    SplicedIsReceived(old(ba.View()), length, data, grown, ba.View());
    r := rt;
  }

  lemma SpliceNone(s: seq<byte>, p: nat)
    requires p <= |s|
    ensures Splice(s, p, []) == s
  {
  }

  // ---------------------------------------------------------------- sending

  /** The bytes the kernel reads from the regions, in order. */
  ghost function Gathered(iovs: seq<IoVec>): seq<byte>
    requires forall i :: 0 <= i < |iovs| ==> iovs[i].off + iovs[i].len <= iovs[i].base.Length
    reads set i | 0 <= i < |iovs| :: iovs[i].base
  {
    if iovs == [] then []
    else
      var n := |iovs| - 1;
      Gathered(iovs[..n]) + iovs[n].base[iovs[n].off..iovs[n].off + iovs[n].len]
  }

  lemma {:induction false} GatheredIsCells(ba: ByteArray, iovs: seq<IoVec>, p: nat)
    requires ba.Linked() && ba.Holds() && ba.Covers(iovs, p) && p <= |ba.cells|
    ensures forall i :: 0 <= i < |iovs| ==> iovs[i].off + iovs[i].len <= iovs[i].base.Length
    ensures p + TotalLen(iovs) <= |ba.cells|
    ensures Gathered(iovs) == ba.cells[p..p + TotalLen(iovs)]
  {
    hide ba.Linked, ba.Holds, ba.Covers, ba.LiesAt;
    ba.CapacityIsCells();
    if iovs != [] {
      var n := |iovs| - 1;
      var q := p + TotalLen(iovs[..n]);
      CoversPrefix(ba, iovs, p);
      GatheredIsCells(ba, iovs[..n], p);
      RegionIn(ba, iovs, p, n);
      ba.MemoryIsCells(q, iovs[n].base, iovs[n].off, iovs[n].len);
      assert forall i :: 0 <= i < n ==> iovs[i] == iovs[..n][i];
      assert ba.cells[p..q + iovs[n].len] == ba.cells[p..q] + ba.cells[q..q + iovs[n].len];
    }
  }

  lemma CoversPrefix(ba: ByteArray, iovs: seq<IoVec>, p: nat)
    requires ba.baseSize >= 1 && ba.Covers(iovs, p) && iovs != []
    ensures ba.Covers(iovs[..|iovs| - 1], p)
  {
    hide ba.Region, TotalLen;
    var init := iovs[..|iovs| - 1];
    forall i | 0 <= i < |init| ensures ba.Region(init[i], p + TotalLen(init[..i])) {
      assert init[..i] == iovs[..i];
    }
  }

  /** The first bytes of a gathered stretch are what `read` would deliver. */
  lemma SentIsRead(f: Flat, total: nat, rt: nat)
    requires f.pos <= f.size <= |f.cells| && 0 < rt <= total <= f.size - f.pos
    ensures ReadCells(f, rt) == Ok(f.cells[f.pos..f.pos + total][..rt])
  {
    assert f.cells[f.pos..f.pos + total][..rt] == f.cells[f.pos..f.pos + rt];
  }

  /** SocketStream::write(ByteArray::ptr, size_t). `rt` is what send returns: it may take fewer bytes than offered. */
  method WriteFrom(connected: bool, ba: ByteArray, length: nat, rt: int) returns (r: int, ghost sent: seq<byte>)
    requires ba.Valid()
    requires rt <= length && rt <= ba.size - ba.position
    modifies ba`position, ba`size, ba`cur
    ensures ba.Valid()
    ensures r == if connected then rt else -1
    ensures !connected || rt <= 0 ==> ba.View() == old(ba.View()) && sent == []
    ensures connected && rt > 0 ==>
      ReadCells(old(ba.View()), rt) == Ok(sent) && ba.View() == old(ba.View()).(pos := old(ba.position) + rt)
  {
    hide ba.Linked, ba.Holds, ba.CursorAt, ba.Covers, ba.Blocks, ba.NodeSet, ba.LiesAt, Gathered, TotalLen, ReadCells;
    sent := [];
    if !connected {
      return -1, [];
    }
    ba.CapacityIsCells();
    var n, iovs := ba.GetReadBuffers(length);
    if rt > 0 {
      GatheredIsCells(ba, iovs, ba.position);
      sent := Gathered(iovs)[..rt];
      SentIsRead(ba.View(), TotalLen(iovs), rt);
      var moved := ba.SetPosition(ba.position + rt);
    }
    r := rt;
  }
}
