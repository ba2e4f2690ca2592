/** sylar/bytearray.cpp: a linked list of equal blocks that behaves like one flat buffer. */
module ByteArrays {
  import opened Bits
  import opened Endian
  import opened Codec
  import opened FlatBuffer
  import opened Values
  import opened TypedReads

  // ---------------------------------------------------------------- block offsets

  /** Where block `k` starts. */
  ghost function Off(k: nat, base: nat): nat {
    k * base
  }

  lemma OffStep(k: nat, base: nat)
    ensures Off(0, base) == 0
    ensures Off(k + 1, base) == Off(k, base) + base
  {
  }

  lemma {:induction false} OffOrder(i: nat, j: nat, base: nat)
    ensures i < j ==> Off(i, base) + base <= Off(j, base)
    ensures i <= j ==> Off(i, base) <= Off(j, base)
  {
    hide Off;
    if i < j {
      OffStep(j - 1, base);
      OffOrder(i, j - 1, base);
    }
  }

  /** Block and offset of cell `p`. */
  lemma OffOfCell(p: nat, base: nat)
    requires base > 0
    ensures Off(p / base, base) + p % base == p && p % base < base
  {
  }

  lemma CellOfOff(k: nat, j: nat, base: nat)
    requires j < base
    ensures (Off(k, base) + j) / base == k && (Off(k, base) + j) % base == j
  {
    DivModUnique(Off(k, base) + j, base, k, j);
  }

  lemma OffDivides(k: nat, base: nat)
    requires base > 0
    ensures Off(k, base) % base == 0
  {
    DivModUnique(Off(k, base), base, k, 0);
  }

  /** ceil(1.0 * n / base) */
  function CeilDiv(n: nat, base: nat): nat
    requires base > 0
  {
    (n + base - 1) / base
  }

  /** Rounding the missing part up to whole blocks grows the capacity as little as possible. */
  lemma GrowsEnough(base: nat, blocks: nat, need: nat)
    requires need > Off(blocks, base) && base > 0
    ensures var more := CeilDiv(need - Off(blocks, base), base);
            more >= 1 && GrownTo(base, Off(blocks, base), need, Off(blocks, base) + Off(more, base))
  {
    var missing := need - Off(blocks, base);
    var more := CeilDiv(missing, base);
    CeilDivBounds(missing, base);
    OffDivides(blocks + more, base);
    assert Off(blocks + more, base) == Off(blocks, base) + Off(more, base);
  }

  lemma CeilDivBounds(n: nat, base: nat)
    requires n > 0 && base > 0
    ensures CeilDiv(n, base) >= 1
    ensures n <= Off(CeilDiv(n, base), base) < n + base
  {
  }

  function Splice(s: seq<byte>, p: nat, chunk: seq<byte>): (t: seq<byte>)
    requires p + |chunk| <= |s|
    ensures |t| == |s|
  {
    s[..p] + chunk + s[p + |chunk|..]
  }

  lemma SpliceNothing(s: seq<byte>, p: nat, buf: seq<byte>)
    requires p <= |s|
    ensures Splice(s, p, buf[..0]) == s
  {
  }

  lemma Copied(s: seq<byte>, p: nat, chunk: seq<byte>, t: seq<byte>)
    requires p + |chunk| <= |s| == |t|
    requires forall i :: 0 <= i < |s| ==> t[i] == if p <= i < p + |chunk| then chunk[i - p] else s[i]
    ensures t == Splice(s, p, chunk)
  {
  }

  /** What lies outside the splice stays. */
  lemma SpliceElsewhere(s: seq<byte>, p: nat, chunk: seq<byte>, lo: nat, hi: nat)
    requires p + |chunk| <= |s| && lo <= hi <= |s| && (hi <= p || p + |chunk| <= lo)
    ensures Splice(s, p, chunk)[lo..hi] == s[lo..hi]
  {
  }

  /** A splice inside a part is a splice of that part. */
  lemma SpliceInside(s: seq<byte>, p: nat, chunk: seq<byte>, lo: nat, hi: nat)
    requires lo <= p && p + |chunk| <= hi <= |s|
    ensures Splice(s, p, chunk)[lo..hi] == Splice(s[lo..hi], p - lo, chunk)
  {
  }

  /** Splicing the next piece of a buffer behind the pieces before it. */
  lemma SpliceOn(s: seq<byte>, p: nat, buf: seq<byte>, done: nat, m: nat)
    requires done + m <= |buf| && p + |buf| <= |s|
    ensures Splice(Splice(s, p, buf[..done]), p + done, buf[done..done + m]) == Splice(s, p, buf[..done + m])
  {
  }

  /** Growing and then splicing is the effect of one write. */
  lemma SplicedIsWritten(f: Flat, buf: seq<byte>, grown: seq<byte>, g: Flat)
    requires f.Inv() && g.Inv() && f.cells <= grown && f.pos + |buf| <= |grown|
    requires g == Flat(f.base, Splice(grown, f.pos, buf), f.pos + |buf|, Max(f.size, f.pos + |buf|))
    requires GrownTo(f.base, |f.cells|, f.pos + |buf|, |grown|)
    ensures Written(f, buf, g)
  {
  }

  class Node {
    const ptr: array<byte>
    const size: nat
    var next: Node?

    constructor (s: nat)
      ensures fresh(ptr) && ptr.Length == size == s && next == null
    {
      ptr := new byte[s];
      size := s;
      next := null;
    }
  }

  /** struct iovec */
  datatype IoVec = IoVec(base: array<byte>, off: nat, len: nat)

  function TotalLen(iovs: seq<IoVec>): nat
  {
    if iovs == [] then 0 else TotalLen(iovs[..|iovs| - 1]) + iovs[|iovs| - 1].len
  }

  lemma TotalLenPrefix(iovs: seq<IoVec>, i: nat)
    requires i < |iovs|
    ensures TotalLen(iovs[..i + 1]) == TotalLen(iovs[..i]) + iovs[i].len
  {
    assert iovs[..i + 1][..i] == iovs[..i];
  }

  lemma TotalLenGrows(iovs: seq<IoVec>, i: nat, j: nat)
    requires i <= j <= |iovs|
    ensures TotalLen(iovs[..i]) <= TotalLen(iovs[..j])
    decreases j
  {
    if i < j {
      TotalLenPrefix(iovs, j - 1);
      TotalLenGrows(iovs, i, j - 1);
    }
  }

  class ByteArray {
    const host: Order
    const baseSize: nat
    var position: nat
    var capacity: nat
    var size: nat
    var endian: Order
    var root: Node
    var cur: Node?

    ghost var nodes: seq<Node>
    ghost var cells: seq<byte>

    ghost function Repr(): set<object>
      reads `nodes
    {
      {this} + NodeSet() + Blocks()
    }

    ghost function NodeSet(): set<Node>
      reads `nodes
    {
      set k | 0 <= k < |nodes| :: nodes[k]
    }

    /** The memory of the blocks. */
    ghost function Blocks(): set<array<byte>>
      reads `nodes
    {
      set k | 0 <= k < |nodes| :: nodes[k].ptr
    }

    /** The blocks form one list of distinct nodes of the base size that starts at the root. */
    ghost predicate Linked()
      reads `root, `nodes, nodes
    {
      && baseSize >= 1
      && |nodes| >= 1
      && root == nodes[0]
      && (forall k :: 0 <= k < |nodes| ==> nodes[k].size == nodes[k].ptr.Length == baseSize)
      && (forall k {:trigger nodes[k].next} :: 0 <= k < |nodes| - 1 ==> nodes[k].next == nodes[k + 1])
      && nodes[|nodes| - 1].next == null
      && (forall i, j :: 0 <= i < j < |nodes| ==> nodes[i] != nodes[j] && nodes[i].ptr != nodes[j].ptr)
    }

    /** Block `k` holds its share of the cells. */
    ghost predicate BlockHolds(k: nat)
      requires k < |nodes|
      reads `nodes, `cells, nodes[k].ptr
    {
      && Off(k, baseSize) + baseSize <= |cells|
      && nodes[k].ptr[..] == cells[Off(k, baseSize)..Off(k, baseSize) + baseSize]
    }

    ghost predicate Holds()
      reads `nodes, `cells, `capacity, set k | 0 <= k < |nodes| :: nodes[k].ptr
    {
      && capacity == |cells| == Off(|nodes|, baseSize)
      && forall k :: 0 <= k < |nodes| ==> BlockHolds(k)
    }

    /** The cursor block is number position / baseSize, and null exactly at the end of the capacity. */
    ghost predicate CursorAt(c: Node?, p: nat)
      requires baseSize >= 1
      reads `nodes, `capacity
    {
      if p < capacity then p / baseSize < |nodes| && c == nodes[p / baseSize] else c == null
    }

    ghost predicate Valid()
      reads `root, `cur, `nodes, `cells, `position, `size, `capacity, nodes, set k | 0 <= k < |nodes| :: nodes[k].ptr
    {
      && Linked()
      && Holds()
      && position <= size <= capacity
      && CursorAt(cur, position)
    }

    ghost function View(): Flat
      reads `cells, `position, `size
    {
      Flat(baseSize, cells, position, size)
    }

    lemma ValidView()
      requires Valid()
      ensures View().Inv()
    {
      OffDivides(|nodes|, baseSize);
      OffOrder(1, |nodes|, baseSize);
    }

    constructor (host: Order, base: nat)
      requires base >= 1
      ensures Valid() && fresh(Repr())
      ensures this.host == host && baseSize == base && endian == Big
      ensures position == size == 0 && |cells| == base
    {
      this.host := host;
      baseSize := base;
      position, capacity, size := 0, base, 0;
      endian := Big;
      var n := new Node(base);
      root := n;
      cur := n;
      nodes := [n];
      cells := n.ptr[..];
      new;
      OffStep(0, base);
      CellOfOff(0, 0, base);
    }

    function GetReadSize(): nat
      requires position <= size
      reads this
    {
      size - position
    }

    function GetCapacity(): nat
      requires position <= capacity
      reads this
    {
      capacity - position
    }

    method SetIsLittleEndian(val: bool)
      requires Valid()
      modifies `endian
      ensures Valid() && View() == old(View())
      ensures endian == if val then Little else Big
    {
      endian := if val then Little else Big;
    }

    // ---------------------------------------------------------------- growing

    method LastNode() returns (tmp: Node)
      requires Linked()
      ensures tmp == nodes[|nodes| - 1]
    {
      tmp := root;
      ghost var k := 0;
      while tmp.next != null
        invariant 0 <= k < |nodes| && tmp == nodes[k]
        decreases |nodes| - k
      {
        tmp := tmp.next;
        k := k + 1;
      }
    }

    /** One round of addCapacity's loop. */
    method AppendNode(tmp: Node) returns (n: Node)
      requires Linked() && Holds() && tmp == nodes[|nodes| - 1]
      modifies `capacity, `nodes, `cells, tmp
      ensures Linked() && Holds()
      ensures fresh(n) && fresh(n.ptr) && nodes == old(nodes) + [n]
      ensures old(cells) <= cells && |cells| == |old(cells)| + baseSize
    {
      n := new Node(baseSize);
      tmp.next := n;
      capacity := capacity + baseSize;
      nodes, cells := nodes + [n], cells + n.ptr[..];
      OffStep(|old(nodes)|, baseSize);
      forall k | 0 <= k < |nodes| ensures BlockHolds(k) {
        if k < |old(nodes)| {
          assert old(BlockHolds(k));
          assert nodes[k].ptr[..] == old(nodes[k].ptr[..]);
        }
      }
    }

    lemma SomeNode()
      requires Linked()
      ensures |nodes| >= 1
    {
    }

    /** The loop of addCapacity: `count` more blocks behind the last one. */
    method AppendNodes(count: nat) returns (first: Node?)
      requires Linked() && Holds()
      modifies `capacity, `nodes, `cells, NodeSet()
      ensures Linked() && Holds()
      ensures |nodes| == |old(nodes)| + count && old(nodes) <= nodes && fresh(Repr() - old(Repr()))
      ensures first == if count == 0 then null else nodes[|old(nodes)|]
      ensures old(cells) <= cells && |cells| == |old(cells)| + Off(count, baseSize)
    {
      hide Off, Linked;
      SomeNode();
      var tmp := LastNode();
      first := null;
      var i := 0;
      OffStep(0, baseSize);
      while i < count
        invariant 0 <= i <= count
        invariant |nodes| == |old(nodes)| + i && old(nodes) <= nodes && |nodes| >= 1
        invariant Linked() && Holds() && tmp == nodes[|nodes| - 1]
        invariant tmp in old(NodeSet()) || fresh(tmp)
        invariant forall k :: |old(nodes)| <= k < |nodes| ==> fresh(nodes[k]) && fresh(nodes[k].ptr)
        invariant first == if i == 0 then null else nodes[|old(nodes)|]
        invariant old(cells) <= cells && |cells| == |old(cells)| + Off(i, baseSize)
      {
        tmp := AppendNode(tmp);
        if first == null {
          first := tmp;
        }
        OffStep(i, baseSize);
        i := i + 1;
      }
      GrewFresh();
    }

    twostate lemma GrewFresh()
      requires old(nodes) <= nodes
      requires forall k :: |old(nodes)| <= k < |nodes| ==> fresh(nodes[k]) && fresh(nodes[k].ptr)
      ensures fresh(Repr() - old(Repr()))
    {
      assert forall k :: 0 <= k < |old(nodes)| ==> nodes[k] in old(NodeSet()) && nodes[k].ptr in old(Blocks());
    }

    /** More blocks leave the cursor right, unless it was past the last block: then the first new one is it. */
    twostate lemma CursorAfterGrowth(new first: Node?)
      requires old(Linked() && Holds()) && Linked() && Holds() && old(nodes) <= nodes
      requires position == old(position) <= old(capacity) && old(CursorAt(cur, position))
      requires |nodes| > |old(nodes)| && first == nodes[|old(nodes)|]
      ensures old(capacity) < capacity == |cells|
      ensures position < old(capacity) ==> CursorAt(old(cur), position)
      ensures position == old(capacity) ==> CursorAt(first, position)
    {
      OffOrder(|old(nodes)|, |nodes|, baseSize);
      CellOfOff(|old(nodes)|, 0, baseSize);
    }

    method AddCapacity(n: nat)
      requires Valid()
      modifies `capacity, `nodes, `cells, `cur, NodeSet()
      ensures Valid() && fresh(Repr() - old(Repr()))
      ensures old(cells) <= cells
      ensures GrownTo(baseSize, |old(cells)|, position + n, |cells|)
    {
      hide Off, CeilDiv, GrownTo, Repr, NodeSet, Blocks, Linked, Holds, CursorAt;
      CapacityIsCells();
      if n == 0 {
        AlreadyGrown(baseSize, capacity, position + n);
        return;
      }
      var oldCap := GetCapacity();
      if oldCap >= n {
        AlreadyGrown(baseSize, capacity, position + n);
        return;
      }
      var need := n - oldCap;
      GrowsEnough(baseSize, |nodes|, position + n);
      var count := CeilDiv(need, baseSize);
      var first := AppendNodes(count);
      CursorAfterGrowth(first);
      if oldCap == 0 {
        cur := first;
      }
    }

    lemma CapacityIsCells()
      requires Linked() && Holds()
      ensures baseSize >= 1 && |nodes| >= 1 && capacity == |cells| == Off(|nodes|, baseSize)
    {
    }

    // ---------------------------------------------------------------- write and read

    /** The memory `ptr` from offset `npos` on is where cell `p` lies. */
    ghost predicate LiesAt(p: nat, ptr: array<byte>, npos: nat)
      requires baseSize >= 1
      reads `nodes, `capacity
    {
      p < capacity && npos == p % baseSize && p / baseSize < |nodes| && ptr == nodes[p / baseSize].ptr
    }

    /** memcpy of `chunk` to block memory. */
    method CopyIn(ghost p: nat, ptr: array<byte>, npos: nat, chunk: seq<byte>)
      requires Linked() && Holds() && LiesAt(p, ptr, npos) && npos + |chunk| <= baseSize
      modifies ptr, `cells
      ensures Linked() && Holds()
      ensures p + |chunk| <= capacity
      ensures cells == Splice(old(cells), p, chunk)
    {
      hide Off, Splice;
      ghost var k := p / baseSize;
      OffOfCell(p, baseSize);
      assert BlockHolds(k);
      forall i | 0 <= i < |chunk| {
        ptr[npos + i] := chunk[i];
      }
      Copied(old(ptr[..]), npos, chunk, ptr[..]);
      SpliceInside(cells, p, chunk, Off(k, baseSize), Off(k, baseSize) + baseSize);
      cells := Splice(cells, p, chunk);
      assert BlockHolds(k);
      forall j | 0 <= j < |nodes| && j != k ensures BlockHolds(j) {
        assert old(BlockHolds(j));
        OffOrder(j, k, baseSize);
        OffOrder(k, j, baseSize);
        SpliceElsewhere(old(cells), p, chunk, Off(j, baseSize), Off(j, baseSize) + baseSize);
        assert nodes[j].ptr[..] == old(nodes[j].ptr[..]);
      }
    }

    /** What block memory holds are the cells it stands for. */
    lemma MemoryIsCells(p: nat, ptr: array<byte>, npos: nat, m: nat)
      requires Linked() && Holds() && LiesAt(p, ptr, npos) && npos + m <= baseSize
      ensures npos + m <= ptr.Length && p + m <= capacity == |cells| && ptr[npos..npos + m] == cells[p..p + m]
    {
      hide Off;
      OffOfCell(p, baseSize);
      assert BlockHolds(p / baseSize);
      assert ptr[npos..npos + m] == ptr[..][npos..npos + m];
    }

    /** With cells left there is a cursor block. */
    lemma CursorBlock()
      requires Linked() && Holds() && position < capacity && CursorAt(cur, position)
      ensures cur != null && cur.size == cur.ptr.Length == baseSize && cur.ptr in Blocks()
      ensures LiesAt(position, cur.ptr, position % baseSize)
    {
    }

    /** Move the position by `m` cells of the cursor block, and the cursor on when the block is used up. */
    method Advance(npos: nat, m: nat)
      requires Linked() && Holds() && position < capacity && CursorAt(cur, position)
      requires npos == position % baseSize && 0 < m && npos + m <= baseSize
      modifies `position, `cur
      ensures Linked() && Holds() && CursorAt(cur, position)
      ensures position == old(position) + m <= capacity
      ensures npos + m == baseSize ==> position % baseSize == 0
    {
      hide Off;
      ghost var k := position / baseSize;
      OffOfCell(position, baseSize);
      CursorAfter(k, npos + m);
      if cur.size == npos + m {
        cur := cur.next;
      }
      position := position + m;
    }

    /** The cursor after consuming block `k` up to offset `j`. */
    lemma CursorAfter(k: nat, j: nat)
      requires Linked() && Holds() && k < |nodes| && j <= baseSize
      ensures Off(k, baseSize) + j <= capacity
      ensures j < baseSize ==> CursorAt(nodes[k], Off(k, baseSize) + j)
      ensures j == baseSize ==> CursorAt(nodes[k].next, Off(k, baseSize) + j) && (Off(k, baseSize) + j) % baseSize == 0
    {
      OffStep(k, baseSize);
      OffOrder(k, |nodes|, baseSize);
      OffOrder(k + 1, |nodes|, baseSize);
      if j < baseSize {
        CellOfOff(k, j, baseSize);
      } else {
        CellOfOff(k + 1, 0, baseSize);
      }
    }

    method Write(buf: seq<byte>)
      requires Valid()
      modifies Repr()
      ensures Valid() && endian == old(endian) && fresh(Repr() - old(Repr()))
      ensures Written(old(View()), buf, View())
    {
      hide Off, Linked, Holds, CursorAt, Blocks, NodeSet, Splice, GrownTo, Written;
      ValidView();
      if |buf| == 0 {
        WrittenNothing(View());
        return;
      }
      AddCapacity(|buf|);
      ghost var grown := cells;
      CapacityIsCells();
      GrownCovers(baseSize, |old(cells)|, position + |buf|, |cells|);
      WriteLoop(buf);
      if position > size {
        size := position;
      }
      ValidView();
      SplicedIsWritten(old(View()), buf, grown, View());
    }

    /** The loop of write: copy block by block, moving the cursor. */
    method WriteLoop(buf: seq<byte>)
      requires Linked() && Holds() && buf != [] && position + |buf| <= capacity && CursorAt(cur, position)
      modifies `position, `cur, `cells, Blocks()
      ensures Linked() && Holds() && CursorAt(cur, position)
      ensures position == old(position) + |buf| && cells == Splice(old(cells), old(position), buf)
    {
      hide Off, Linked, Holds, CursorAt, Blocks, Splice;
      CapacityIsCells();
      CursorBlock();
      var npos := position % baseSize;
      var ncap := cur.size - npos;
      var bpos := 0;
      var n := |buf|;
      SpliceNothing(cells, position, buf);
      while n > 0
        invariant Linked() && Holds() && CursorAt(cur, position)
        invariant 0 <= bpos <= |buf| && bpos + n == |buf| && position == old(position) + bpos
        invariant cells == Splice(old(cells), old(position), buf[..bpos])
        invariant n > 0 ==> npos == position % baseSize && ncap == baseSize - npos
      {
        var m := if ncap >= n then n else ncap;
        CursorBlock();
        SpliceOn(old(cells), old(position), buf, bpos, m);
        CopyIn(position, cur.ptr, npos, buf[bpos..bpos + m]);
        Advance(npos, m);
        bpos := bpos + m;
        n := n - m;
        if n > 0 {
          CursorBlock();
          ncap := cur.size;
          npos := 0;
        }
      }
      assert buf[..bpos] == buf;
    }

    method Read(n: nat) returns (r: Result<seq<byte>>)
      requires Valid()
      modifies `position, `cur
      ensures Valid()
      ensures r == ReadCells(old(View()), n)
      ensures View() == if r.Ok? then old(View()).(pos := old(position) + n) else old(View())
    {
      hide Off, Linked, Holds, CursorAt, Blocks, BlockHolds, NodeSet;
      CapacityIsCells();
      if n > GetReadSize() {
        return Err(OutOfRange);
      }
      CursorNull();
      if cur == null {
        return Err(NullCursor);
      }
      CursorBlock();
      var npos := position % baseSize;
      var ncap := cur.size - npos;
      var left := n;
      var out := [];
      while left > 0
        invariant Linked() && Holds() && CursorAt(cur, position)
        invariant 0 <= left <= n && position == old(position) + n - left
        invariant out == cells[old(position)..position]
        invariant left > 0 ==> npos == position % baseSize && ncap == baseSize - npos
      {
        var m := if ncap >= left then left else ncap;
        CursorBlock();
        MemoryIsCells(position, cur.ptr, npos, m);
        Adjacent(cells, old(position), position, position + m);
        out := out + cur.ptr[npos..npos + m];
        Advance(npos, m);
        left := left - m;
        if left > 0 {
          CursorBlock();
          ncap := cur.size;
          npos := 0;
        }
      }
      r := Ok(out);
    }

    lemma Adjacent(s: seq<byte>, i: nat, j: nat, k: nat)
      requires i <= j <= k <= |s|
      ensures s[i..j] + s[j..k] == s[i..k]
    {
    }

    lemma CursorNull()
      requires Linked() && Holds() && position <= capacity && CursorAt(cur, position)
      ensures cur == null <==> position == capacity
    {
    }

    lemma ListNode(k: nat)
      requires Linked() && k < |nodes|
      ensures nodes[k].size == baseSize && root == nodes[0]
      ensures k + 1 < |nodes| ==> nodes[k].next == nodes[k + 1]
    {
    }

    method SetPosition(v: nat) returns (r: Result<()>)
      requires Valid()
      modifies `position, `size, `cur
      ensures Valid()
      ensures v > |cells| ==> r == Err(OutOfRange) && View() == old(View())
      ensures v <= |cells| ==> r == Ok(()) && View() == old(View()).(pos := v, size := Max(old(size), v))
    {
      hide Off, Linked, Holds, CursorAt;
      CapacityIsCells();
      if v > capacity {
        return Err(OutOfRange);
      }
      position := v;
      if position > size {
        size := position;
      }
      cur := root;
      var left := v;
      ghost var k := 0;
      OffStep(0, baseSize);
      ListNode(0);
      while left > cur.size
        invariant position == v && size == Max(old(size), v)
        invariant 0 <= k < |nodes| && cur == nodes[k] && 0 <= left && Off(k, baseSize) + left == v
        decreases left
      {
        ListNode(k);
        OffStep(k, baseSize);
        OffOrder(|nodes|, k + 1, baseSize);
        left := left - cur.size;
        cur := cur.next;
        k := k + 1;
      }
      ListNode(k);
      CursorAfter(k, left);
      if left == cur.size {
        cur := cur.next;
      }
      r := Ok(());
    }

    method Clear()
      requires Valid()
      modifies `position, `size, `capacity, `cur, `nodes, `cells, root
      ensures Valid() && Repr() <= old(Repr())
      ensures position == size == 0 && |cells| == baseSize && cells <= old(cells)
    {
      assert BlockHolds(0);
      OffStep(0, baseSize);
      CellOfOff(0, 0, baseSize);
      position, size := 0, 0;
      capacity := baseSize;
      cur := root;
      root.next := null;
      nodes, cells := [root], cells[..baseSize];
    }

    /** The positional read, which never moves the position. It starts in the cursor block, whatever block
        `at` lies in. */
    method ReadAt(n: nat, at: nat) returns (r: Result<seq<byte>>)
      requires Valid()
      ensures r == ReadCellsAt(View(), n, at)
    {
      hide Off, Linked, Holds, CursorAt;
      CapacityIsCells();
      if n > GetReadSize() {
        return Err(OutOfRange);
      }
      CursorNull();
      if cur == null {
        return Err(NullCursor);
      }
      ghost var start := position / baseSize * baseSize + at % baseSize;
      SameBlock(start, at % baseSize);
      var npos := at % baseSize;
      BlockAt(cur, start);
      var ncap := cur.size - npos;
      var node := cur;
      var left := n;
      var out := [];
      while left > 0
        invariant 0 <= left <= n && start + n - left <= capacity && out == cells[start..start + n - left]
        invariant left > 0 ==> node != null && CursorAt(node, start + n - left)
                               && npos == (start + n - left) % baseSize && ncap == baseSize - npos
      {
        ghost var p := start + n - left;
        var m := if ncap >= left then left else ncap;
        EndOfCells(node, p);
        BlockAt(node, p);
        MemoryIsCells(p, node.ptr, npos, m);
        out := out + node.ptr[npos..npos + m];
        left := left - m;
        if left > 0 {
          node := node.next;
          EndOfCells(node, p + m);
          if node == null {
            return Err(NullCursor);
          }
          BlockAt(node, p + m);
          ncap := node.size;
          npos := 0;
        }
      }
      r := Ok(out);
    }

    lemma EndOfCells(c: Node?, p: nat)
      requires baseSize >= 1 && p <= capacity && CursorAt(c, p) && Linked() && Holds()
      ensures c == null <==> p == capacity
    {
    }

    /** The cursor block is the block of every cell with the same block number. */
    lemma SameBlock(start: nat, npos: nat)
      requires Linked() && Holds() && position < capacity && CursorAt(cur, position) && npos < baseSize
      requires start == position / baseSize * baseSize + npos
      ensures start < capacity && CursorAt(cur, start) && start % baseSize == npos
    {
      CellOfOff(position / baseSize, npos, baseSize);
      OffOrder(position / baseSize, |nodes|, baseSize);
    }

    method ToString() returns (s: seq<byte>)
      requires Valid()
      ensures s == View().Readable()
    {
      hide Off, Linked, Holds, CursorAt, ReadCellsAt;
      CapacityIsCells();
      ValidView();
      if GetReadSize() == 0 {
        return [];
      }
      var r := ReadAt(GetReadSize(), position);
      ReadAtPosition(View(), GetReadSize(), position);
      s := r.value;
    }

    // ---------------------------------------------------------------- scatter and gather

    /** The region `v` is the memory of `v.len` cells from cell `p` on. */
    ghost predicate Region(v: IoVec, p: nat)
      requires baseSize >= 1
      reads `nodes, `capacity
    {
      v.len > 0 && v.off + v.len <= baseSize && LiesAt(p, v.base, v.off)
    }

    /** The regions, one behind the other, are the memory of the cells from cell `p` on. */
    ghost predicate Covers(iovs: seq<IoVec>, p: nat)
      requires baseSize >= 1
      reads `nodes, `capacity
    {
      forall i :: 0 <= i < |iovs| ==> Region(iovs[i], p + TotalLen(iovs[..i]))
    }

    lemma CoversNext(iovs: seq<IoVec>, v: IoVec, p: nat)
      requires baseSize >= 1 && Covers(iovs, p) && Region(v, p + TotalLen(iovs))
      ensures Covers(iovs + [v], p)
      ensures TotalLen(iovs + [v]) == TotalLen(iovs) + v.len
    {
      hide Region, TotalLen;
      var all := iovs + [v];
      assert all[..|iovs|] == iovs;
      TotalSnoc(iovs, v);
      forall i | 0 <= i < |all| ensures Region(all[i], p + TotalLen(all[..i])) {
        if i < |iovs| {
          assert all[..i] == iovs[..i] && all[i] == iovs[i];
        } else {
          assert all[i] == v && all[..i] == iovs;
        }
      }
    }

    lemma TotalSnoc(iovs: seq<IoVec>, v: IoVec)
      ensures TotalLen(iovs + [v]) == TotalLen(iovs) + v.len
    {
      assert (iovs + [v])[..|iovs|] == iovs;
    }

    /** The block at cell `p`, and the next one when `p` starts no later than its end. */
    lemma BlockAt(c: Node?, p: nat)
      requires Linked() && Holds() && p < capacity && CursorAt(c, p)
      ensures c != null && c.size == baseSize && LiesAt(p, c.ptr, p % baseSize)
      ensures var rest := baseSize - p % baseSize;
              rest > 0 && CursorAt(c.next, p + rest) && (p + rest) % baseSize == 0
    {
      hide Off;
      OffOfCell(p, baseSize);
      CursorAfter(p / baseSize, baseSize);
    }

    /** The common loop of getReadBuffers and getWriteBuffers. */
    method CollectBuffers(len: nat) returns (buffers: seq<IoVec>)
      requires Linked() && Holds() && CursorAt(cur, position) && len > 0 && position + len <= capacity
      ensures Covers(buffers, position) && TotalLen(buffers) == len
    {
      hide Off, Linked, Holds, CursorAt, LiesAt, Covers, TotalLen;
      CapacityIsCells();
      CoversNone(position);
      var node := cur;
      BlockAt(node, position);
      var npos := position % baseSize;
      var ncap := node.size - npos;
      var left := len;
      buffers := [];
      while left > 0
        invariant 0 <= left <= len && TotalLen(buffers) == len - left && Covers(buffers, position)
        invariant left > 0 ==> CursorAt(node, position + len - left) && node != null
                               && npos == (position + len - left) % baseSize && ncap == baseSize - npos
      {
        ghost var p := position + len - left;
        BlockAt(node, p);
        var iov;
        if ncap >= left {
          iov := IoVec(node.ptr, npos, left);
          left := 0;
        } else {
          iov := IoVec(node.ptr, npos, ncap);
          left := left - ncap;
          node := node.next;
          BlockAt(node, p + ncap);
          ncap := node.size;
          npos := 0;
        }
        CoversNext(buffers, iov, position);
        buffers := buffers + [iov];
      }
    }

    lemma CoversNone(p: nat)
      requires baseSize >= 1
      ensures Covers([], p) && TotalLen([]) == 0
    {
    }

    method GetReadBuffers(len: nat) returns (n: int, buffers: seq<IoVec>)
      requires Valid()
      ensures var m := if len > size - position then size - position else len;
              n == ToInt32(m) && TotalLen(buffers) == m && Covers(buffers, position)
    {
      hide Linked, Holds, CursorAt, Covers, TotalLen;
      CapacityIsCells();
      var m := if len > GetReadSize() then GetReadSize() else len;
      if m == 0 {
        CoversNone(position);
        return 0, [];
      }
      buffers := CollectBuffers(m);
      n := ToInt32(m);
    }

    method GetWriteBuffers(len: nat) returns (n: nat, buffers: seq<IoVec>)
      requires Valid()
      modifies `capacity, `nodes, `cells, `cur, NodeSet()
      ensures Valid() && fresh(Repr() - old(Repr()))
      ensures old(cells) <= cells
      ensures GrownTo(baseSize, |old(cells)|, position + len, |cells|)
      ensures n == len == TotalLen(buffers) && Covers(buffers, position)
    {
      hide Linked, Holds, CursorAt, Covers, NodeSet, Blocks, Repr, GrownTo, TotalLen;
      CapacityIsCells();
      if len == 0 {
        CoversNone(position);
        AlreadyGrown(baseSize, |cells|, position);
        return 0, [];
      }
      AddCapacity(len);
      GrownCovers(baseSize, |old(cells)|, position + len, |cells|);
      CapacityIsCells();
      buffers := CollectBuffers(len);
      n := len;
    }
    // ---------------------------------------------------------------- typed values

    /** writeFint8 to writeFuint64 and the length prefixes: `u` is the unsigned word of the value. */
    method WriteFint(w: Width, u: nat)
      requires Valid() && u < Pow2(w.Bits())
      modifies Repr()
      ensures Valid() && endian == old(endian) && fresh(Repr() - old(Repr()))
      ensures Written(old(View()), FintToWire(host, endian, u, w.Bytes()), View())
      ensures position == old(position) + w.Bytes() <= |cells|
      ensures var bs, n := cells[old(position)..position], w.Bytes();
              forall i :: 0 <= i < n ==>
                bs[i] == if endian == Big then u / Pow2(8 * (n - 1 - i)) % 256 else u / Pow2(8 * i) % 256
    {
      hide Linked, Holds, CursorAt, Written, Pow2, FintToWire;
      var value := u;
      if endian != host {
        value := ByteSwap(value, w.Bytes());
      }
      WireIs(u, w.Bytes(), value);
      Write(ToMemory(host, value, w.Bytes()));
      WrittenBytes(old(View()), u, w.Bytes());
    }

    lemma WireIs(u: nat, n: nat, value: nat)
      requires value == if endian != host then ByteSwap(u, n) else u
      ensures ToMemory(host, value, n) == FintToWire(host, endian, u, n)
    {
    }

    /** Byte by byte, what the writer of a fixed-width integer leaves in the cells. */
    lemma WrittenBytes(f: Flat, u: nat, n: nat)
      requires Written(f, FintToWire(host, endian, u, n), View()) && n > 0
      ensures position == f.pos + n <= |cells|
      ensures var bs := cells[f.pos..position];
              forall i :: 0 <= i < n ==>
                bs[i] == if endian == Big then u / Pow2(8 * (n - 1 - i)) % 256 else u / Pow2(8 * i) % 256
    {
      hide FintToWire, Pow2;
      var bs := FintToWire(host, endian, u, n);
      forall i | 0 <= i < n
        ensures bs[i] == if endian == Big then u / Pow2(8 * (n - 1 - i)) % 256 else u / Pow2(8 * i) % 256
      {
        WireBytes(host, endian, u, n, i);
      }
      assert cells[f.pos..position] == bs;
    }

    /** writeUint32 and writeUint64. */
    method WriteVarint(w: Width, u: nat)
      requires Valid() && u < Pow2(w.Bits()) && (w == W32 || w == W64)
      modifies Repr()
      ensures Valid() && endian == old(endian) && fresh(Repr() - old(Repr()))
      ensures Written(old(View()), VarintBytes(u), View())
    {
      hide Linked, Holds, CursorAt, Written, Pow2, VarintBytes;
      var tmp, i := FillVarint(u, w.Bits(), if w == W32 then 5 else 10);
      Write(tmp[..i]);
    }

    /** writeStringF16, writeStringF32, writeStringF64 and writeStringVint. */
    method WriteText(p: Width, s: seq<byte>)
      requires Valid()
      modifies Repr()
      ensures Valid() && endian == old(endian) && fresh(Repr() - old(Repr()))
      ensures Written(old(View()), FintToWire(host, endian, ToUnsigned(p.Bits(), |s|), p.Bytes()) + s, View())
    {
      hide Linked, Holds, CursorAt, Written, FintToWire, ToUnsigned;
      WriteFint(p, ToUnsigned(p.Bits(), |s|));
      ghost var mid := View();
      Write(s);
      WrittenTwice(old(View()), FintToWire(host, endian, ToUnsigned(p.Bits(), |s|), p.Bytes()), mid, s, View());
    }

    method WriteValue(k: Kind, v: Value)
      requires Valid() && InRange(k, v)
      modifies Repr()
      ensures Valid() && endian == old(endian) && fresh(Repr() - old(Repr()))
      ensures Written(old(View()), Encode(host, endian, k, v), View())
    {
      hide Linked, Holds, CursorAt, Written, FintToWire, VarintBytes, ToUnsigned, Pow2;
      match k
      case Fint(w, signed) => WriteFint(w, ToUnsigned(w.Bits(), v.n));
      case Varint(w, zigzag) => WriteVarint(w, VarintWord(w, zigzag, v.n));
      case Text(p) => WriteText(p, v.s);
    }

    /** readFint8 to readFuint64. */
    method ReadFint(w: Width) returns (r: Result<nat>)
      requires Valid()
      modifies `position, `cur
      ensures Valid()
      ensures var f, n := old(View()), w.Bytes();
              if n > f.size - f.pos then r == Err(OutOfRange) && View() == f
              else r == Ok(FintFromWire(host, endian, f.cells[f.pos..f.pos + n])) && View() == f.(pos := f.pos + n)
      ensures var f, n := old(View()), w.Bytes();
              r.Ok? ==> f.pos + n <= |f.cells|
                        && r.value == if endian == Big then BigSum(f.cells[f.pos..f.pos + n], n)
                                      else LittleSum(f.cells[f.pos..f.pos + n], n)
    {
      hide Linked, Holds, CursorAt, BigSum, LittleSum, FintFromWire;
      CapacityIsCells();
      var bs := Read(w.Bytes());
      match bs
      case Err(fault) => r := Err(fault);
      case Ok(mem) =>
        var v := FromMemory(host, mem);
        r := Ok(if endian == host then v else ByteSwap(v, |mem|));
        WireSum(host, endian, mem);
        ReadIs(mem, v);
    }

    lemma ReadIs(mem: seq<byte>, v: nat)
      requires v == FromMemory(host, mem)
      ensures FintFromWire(host, endian, mem) == if endian == host then v else ByteSwap(v, |mem|)
    {
    }

    /** The loops of readUint32 and readUint64. */
    method ReadVarintWord(w: Width) returns (r: Result<nat>)
      requires Valid()
      modifies `position, `cur
      ensures Valid()
      ensures var f := old(View());
              match ReadVarint(w.Bits(), f.Readable(), 0, 0)
              case None => r == Err(OutOfRange) && View() == f.(pos := f.size)
              case Some(p) => r == Ok(p.0) && View() == f.(pos := f.pos + p.1)
    {
      hide Linked, Holds, CursorAt, BlockHolds, Pow2, FintFromWire, ReadVarint, ShiftLeft, BitOr, BitAnd, ReadCells, Off;
      CapacityIsCells();
      ReadVarintUnfold(w.Bits(), View().Readable(), 0, 0);
      var result, i := 0, 0;
      while i < w.Bits()
        invariant Valid() && View() == old(View()).(pos := position) && old(position) <= position
        invariant ReadVarint(w.Bits(), old(View()).Readable(), 0, 0)
               == Later(ReadVarint(w.Bits(), View().Readable(), i, result), position - old(position))
        decreases w.Bits() - i
      {
        ReadVarintUnfold(w.Bits(), View().Readable(), i, result);
        NextReadable(View());
        var b := ReadFint(W8);
        if b.Err? {
          return b;
        }
        OneByte(host, endian, cells[position - 1..position]);
        if b.value < 0x80 {
          result := BitOr(result, ShiftLeft(w.Bits(), b.value, i));
          return Ok(result);
        } else {
          result := BitOr(result, ShiftLeft(w.Bits(), BitAnd(b.value, 0x7f), i));
        }
        i := i + 7;
      }
      ReadVarintUnfold(w.Bits(), View().Readable(), i, result);
      r := Ok(result);
    }
    /** readStringF16, readStringF32, readStringF64 and readStringVint. */
    method ReadText(p: Width) returns (r: Result<seq<byte>>)
      requires Valid()
      modifies `position, `cur
      ensures Valid()
      ensures View() == old(View()).(pos := position)
      ensures var f := old(View());
              match ReadTyped(host, endian, Text(p), f)
              case Err(fault) => r == Err(fault)
              case Ok(q) => r == Ok(q.0.s) && position == f.pos + q.1
    {
      hide Linked, Holds, CursorAt, FintFromWire, BigSum, LittleSum, BlockHolds, NodeSet, Blocks, ReadVarint;
      CapacityIsCells();
      ghost var f := View();
      var len := ReadFint(p);
      if len.Err? {
        return Err(len.fault);
      }
      CapacityIsCells();
      r := Read(len.value);
      TextPieces(f, p.Bytes(), len.value);
    }

    method ReadValue(k: Kind) returns (r: Result<Value>)
      requires Valid() && Supported(k)
      modifies `position, `cur
      ensures Valid()
      ensures View() == old(View()).(pos := position)
      ensures match ReadTyped(host, endian, k, old(View()))
              case Err(fault) => r == Err(fault)
              case Ok(q) => r == Ok(q.0) && position == old(position) + q.1
    {
      hide Linked, Holds, CursorAt, FintFromWire, ReadVarint, BigSum, LittleSum;
      CapacityIsCells();
      match k
      case Fint(w, signed) =>
        FintPiece(View(), w.Bytes());
        var u := ReadFint(w);
        r := if u.Err? then Err(u.fault) else Ok(Num(FintNumber(w, signed, u.value)));
      case Varint(w, zigzag) =>
        var u := ReadVarintWord(w);
        r := if u.Err? then Err(u.fault) else Ok(Num(VarintNumber(w, zigzag, u.value)));
      case Text(p) =>
        var s := ReadText(p);
        r := if s.Err? then Err(s.fault) else Ok(Str(s.value));
    }

    /** Matching reads, one after another. */
    method ReadAll(kinds: seq<Kind>) returns (r: Result<seq<Value>>)
      requires Valid() && forall i :: 0 <= i < |kinds| ==> Supported(kinds[i])
      modifies `position, `cur
      ensures Valid()
      ensures View() == old(View()).(pos := position)
      ensures match ReadAllTyped(host, endian, kinds, old(View()))
              case Err(fault) => r == Err(fault)
              case Ok(q) => r == Ok(q.0) && position == q.1
    {
      hide Linked, Holds, CursorAt, ReadTyped;
      CapacityIsCells();
      var values := [];
      var i := 0;
      assert kinds[0..] == kinds;
      PrependNothing(ReadAllTyped(host, endian, kinds, View()));
      while i < |kinds|
        invariant 0 <= i <= |kinds| && Valid() && View() == old(View()).(pos := position)
        invariant ReadAllTyped(host, endian, kinds, old(View()))
               == Prepend(values, ReadAllTyped(host, endian, kinds[i..], View()))
      {
        assert kinds[i..][1..] == kinds[i + 1..];
        var v := ReadValue(kinds[i]);
        if v.Err? {
          return Err(v.fault);
        }
        PrependTwice(values, v.value, ReadAllTyped(host, endian, kinds[i + 1..], View()));
        values := values + [v.value];
        i := i + 1;
      }
      assert values + [] == values;
      r := Ok(values);
    }
  }

  function Prepend(vs: seq<Value>, r: Result<(seq<Value>, nat)>): Result<(seq<Value>, nat)> {
    match r case Err(fault) => Err(fault) case Ok(q) => Ok((vs + q.0, q.1))
  }

  lemma PrependTwice(vs: seq<Value>, v: Value, r: Result<(seq<Value>, nat)>)
    ensures Prepend(vs, Prepend([v], r)) == Prepend(vs + [v], r)
  {
    if r.Ok? {
      assert vs + ([v] + r.value.0) == (vs + [v]) + r.value.0;
    }
  }

  lemma PrependNothing(r: Result<(seq<Value>, nat)>)
    ensures Prepend([], r) == r
  {
    if r.Ok? {
      assert [] + r.value.0 == r.value.0;
    }
  }

  lemma FintPiece(f: Flat, n: nat)
    requires f.pos <= f.size <= |f.cells|
    ensures |f.Readable()| == f.size - f.pos
    ensures n <= f.size - f.pos ==> f.Readable()[..n] == f.cells[f.pos..f.pos + n]
  {
  }

  lemma TextPieces(f: Flat, n: nat, len: nat)
    requires f.pos <= f.size <= |f.cells| && n <= f.size - f.pos
    ensures |f.Readable()| == f.size - f.pos
    ensures f.Readable()[..n] == f.cells[f.pos..f.pos + n]
    ensures n + len <= f.size - f.pos ==> f.Readable()[n..n + len] == f.cells[f.pos + n..f.pos + n + len]
  {
    if n + len <= f.size - f.pos {
      var a, b := f.Readable()[n..n + len], f.cells[f.pos + n..f.pos + n + len];
      assert |a| == |b| && forall i :: 0 <= i < len ==> a[i] == b[i];
    }
  }

  /** A varint result with `n` bytes read before it. */
  function Later(r: Option<(nat, nat)>, n: nat): Option<(nat, nat)> {
    match r case None => None case Some(p) => Some((p.0, p.1 + n))
  }

  lemma ReadVarintUnfold(bits: nat, bs: seq<byte>, i: nat, result: nat)
    ensures ReadVarint(bits, bs, i, result) ==
            if i >= bits then Some((result, 0))
            else if bs == [] then None
            else if bs[0] < 0x80 then Some((BitOr(result, ShiftLeft(bits, bs[0], i)), 1))
            else Later(ReadVarint(bits, bs[1..], i + 7, BitOr(result, ShiftLeft(bits, BitAnd(bs[0], 0x7f), i))), 1)
  {
  }

  lemma NextReadable(f: Flat)
    requires f.pos <= f.size <= |f.cells|
    ensures f.pos < f.size ==> f.Readable() != [] && f.Readable()[0] == f.cells[f.pos]
    ensures f.pos < f.size ==> f.Readable()[1..] == f.(pos := f.pos + 1).Readable()
    ensures f.pos == f.size ==> f.Readable() == []
  {
  }

  lemma OneByte(host: Order, e: Order, bs: seq<byte>)
    requires |bs| == 1
    ensures FintFromWire(host, e, bs) == bs[0]
  {
    FintFromWireMeaning(host, e, bs);
    assert InOrder(e, bs) == bs;
    assert FromLittle(bs) == bs[0] + 256 * FromLittle(bs[1..]);
  }
}
