/** The flat buffer a ByteArray stands for: all cells of its blocks in order, a position and a size. */
module FlatBuffer {
  import opened Bits

  /** std::out_of_range, and the null dereference of a read that starts where no block is left. */
  datatype Fault = OutOfRange | NullCursor

  datatype Result<+T> = Ok(value: T) | Err(fault: Fault)

  datatype Flat = Flat(base: nat, cells: seq<byte>, pos: nat, size: nat) {
    ghost predicate Inv() {
      base >= 1 && |cells| % base == 0 && base <= |cells| && pos <= size <= |cells|
    }

    /** What a reader at the position may still read. */
    function Readable(): seq<byte>
      requires pos <= size <= |cells|
    {
      cells[pos..size]
    }
  }

  /** What `read` of `n` bytes delivers. At the very end of the capacity even a zero-length read faults. */
  function ReadCells(f: Flat, n: nat): Result<seq<byte>>
    requires f.pos <= f.size <= |f.cells|
  {
    if n > f.size - f.pos then Err(OutOfRange)
    else if f.pos == |f.cells| then Err(NullCursor)
    else Ok(f.cells[f.pos..f.pos + n])
  }

  /** Where the positional `read` looks for cell `at`. */
  function StartOf(f: Flat, at: nat): nat
    requires f.base > 0
  {
    f.pos / f.base * f.base + at % f.base
  }

  /** What the positional `read` of `n` bytes at `at` delivers: it looks for them in the block of the position. */
  function ReadCellsAt(f: Flat, n: nat, at: nat): Result<seq<byte>>
    requires f.base > 0 && f.pos <= f.size <= |f.cells|
  {
    var start := StartOf(f, at);
    if n > f.size - f.pos then Err(OutOfRange)
    else if f.pos == |f.cells| then Err(NullCursor)
    else if start + n > |f.cells| then Err(NullCursor)
    else Ok(f.cells[start..start + n])
  }

  /** The positional read starts at the asked cell exactly when that cell lies in the block of the position; then
      it delivers the asked cells. */
  lemma ReadAtPosition(f: Flat, n: nat, at: nat)
    requires f.Inv() && n <= f.size - f.pos && f.pos < |f.cells| && at + n <= |f.cells|
    ensures StartOf(f, at) == at <==> at / f.base == f.pos / f.base
    ensures at / f.base == f.pos / f.base ==> ReadCellsAt(f, n, at) == Ok(f.cells[at..at + n])
  {
  }

  /** Whatever the cells hold, the positional read delivers the asked ones if and only if it asks for nothing or the first
      of them lies in the block of the position. */
  lemma ReadAtDeliversIff(f: Flat, n: nat, at: nat)
    requires f.Inv() && n <= f.size - f.pos && f.pos < |f.cells| && at + n <= |f.cells|
    ensures (forall cells: seq<byte> :: |cells| == |f.cells| ==> ReadCellsAt(f.(cells := cells), n, at) == Ok(cells[at..at + n]))
            <==> n == 0 || at / f.base == f.pos / f.base
  {
    hide ReadCellsAt, StartOf;
    var start := StartOf(f, at);
    SameStart(f, at);
    ReadAtPosition(f, n, at);
    StartInBlock(f, at);
    if start == at || n == 0 {
      forall cells: seq<byte> | |cells| == |f.cells| ensures ReadCellsAt(f.(cells := cells), n, at) == Ok(cells[at..at + n]) {
        DeliversAsked(f.(cells := cells), n, at, start);
      }
    } else {
      var cells: seq<byte> := seq(|f.cells|, i => if i == at then 1 else 0);
      DeliversOthers(f.(cells := cells), n, at, start);
    }
  }

  lemma DeliversAsked(f: Flat, n: nat, at: nat, start: nat)
    requires f.base > 0 && n <= f.size - f.pos && f.pos < |f.cells| && f.size <= |f.cells| && at + n <= |f.cells|
    requires start == StartOf(f, at) <= |f.cells| && (start == at || n == 0)
    ensures ReadCellsAt(f, n, at) == Ok(f.cells[at..at + n])
  {
    hide StartOf;
    assert f.cells[start..start + n] == f.cells[at..at + n];
  }

  /** The first of the asked cells is not the one delivered first. */
  lemma DeliversOthers(f: Flat, n: nat, at: nat, start: nat)
    requires f.base > 0 && 0 < n <= f.size - f.pos && f.pos < |f.cells| && f.size <= |f.cells| && at + n <= |f.cells|
    requires start == StartOf(f, at)
    requires start + n <= |f.cells| ==> f.cells[start] != f.cells[at]
    ensures ReadCellsAt(f, n, at) != Ok(f.cells[at..at + n])
  {
    hide StartOf;
    assert f.cells[at..at + n][0] == f.cells[at];
    assert start + n <= |f.cells| ==> f.cells[start..start + n][0] == f.cells[start];
  }

  /** The cells do not matter for where it looks. */
  lemma SameStart(f: Flat, at: nat)
    requires f.base > 0
    ensures forall cells :: StartOf(f.(cells := cells), at) == StartOf(f, at)
  {
  }

  lemma StartInBlock(f: Flat, at: nat)
    requires f.Inv() && f.pos < |f.cells|
    ensures StartOf(f, at) <= |f.cells|
  {
    var b, blocks, k := f.base, |f.cells| / f.base, f.pos / f.base;
    assert |f.cells| == blocks * b && f.pos == k * b + f.pos % b;
    assert b * (blocks - k) == blocks * b - k * b;
    MulMagnitude(b, blocks - k);
  }

  /** A buffer of two blocks with the position in the first: asking for the first cell of the second block delivers the
      first cell of the first. */
  lemma WrongBlockRead()
    ensures var f := Flat(2, [10, 11, 12, 13], 0, 4);
            f.Inv() && ReadCellsAt(f, 1, 2) == Ok([10]) && f.cells[2..3] == [12]
  {
    var cells: seq<byte> := [10, 11, 12, 13];
    assert cells[0..1] == [10] && cells[2..3] == [12];
  }

  function Max(a: int, b: int): int {
    if a > b then a else b
  }

  /** `cap'` is `cap` when that is enough, and the least multiple of the block size not below `need` otherwise. */
  ghost predicate GrownTo(base: nat, cap: nat, need: nat, cap': nat)
    requires base > 0
  {
    if need <= cap then cap' == cap else cap' % base == 0 && need <= cap' < need + base
  }

  /** The effect of writing `buf` at the position; new cells beyond the written ones hold anything. */
  ghost predicate Written(f: Flat, buf: seq<byte>, f': Flat)
  {
    var end := f.pos + |buf|;
    && f.Inv()
    && f'.Inv()
    && f'.base == f.base
    && f'.pos == end
    && f'.size == Max(f.size, end)
    && GrownTo(f.base, |f.cells|, end, |f'.cells|)
    && f'.cells[..f.pos] == f.cells[..f.pos]
    && f'.cells[f.pos..end] == buf
    && (end <= |f.cells| ==> f'.cells[end..] == f.cells[end..])
  }

  lemma AlreadyGrown(base: nat, cap: nat, need: nat)
    requires base > 0 && need <= cap
    ensures GrownTo(base, cap, need, cap)
  {
  }

  lemma GrownCovers(base: nat, cap: nat, need: nat, cap': nat)
    requires base > 0 && GrownTo(base, cap, need, cap')
    ensures cap' >= need && cap' >= cap
  {
  }

  lemma WrittenNothing(f: Flat)
    requires f.Inv()
    ensures Written(f, [], f)
  {
  }

  lemma GrownTwice(base: nat, cap: nat, need: nat, cap': nat, need': nat, cap'': nat)
    requires base > 0 && need <= need'
    requires GrownTo(base, cap, need, cap') && GrownTo(base, cap', need', cap'')
    ensures GrownTo(base, cap, need', cap'')
  {
  }

  /** Two writes in a row are one write of both. */
  lemma WrittenTwice(f: Flat, a: seq<byte>, g: Flat, b: seq<byte>, h: Flat)
    requires Written(f, a, g) && Written(g, b, h)
    ensures Written(f, a + b, h)
  {
    hide GrownTo;
    GrownTwice(f.base, |f.cells|, f.pos + |a|, |g.cells|, f.pos + |a| + |b|, |h.cells|);
    CellsTwice(f.cells, g.cells, h.cells, f.pos, f.pos + |a|, f.pos + |a| + |b|);
  }

  /** What the cells before, between and behind two stretches written one after the other hold. */
  lemma CellsTwice(f: seq<byte>, g: seq<byte>, h: seq<byte>, pos: nat, mid: nat, end: nat)
    requires pos <= mid <= end <= |h| && pos <= |f| && mid <= |g|
    requires g[..pos] == f[..pos] && h[..mid] == g[..mid]
    requires mid <= |f| ==> g[mid..] == f[mid..]
    requires end <= |g| ==> h[end..] == g[end..]
    ensures h[..pos] == f[..pos] && h[pos..end] == g[pos..mid] + h[mid..end]
    ensures end <= |f| ==> h[end..] == f[end..]
  {
    assert h[..pos] == h[..mid][..pos] == g[..mid][..pos];
    assert h[pos..mid] == h[..mid][pos..] == g[..mid][pos..];
    if end <= |f| {
      assert h[end..] == g[end..] == g[mid..][end - mid..];
      assert f[end..] == f[mid..][end - mid..];
    }
  }

  /** Seen from any earlier position, a write leaves the bytes before it and appends its own. */
  lemma WrittenExtends(f: Flat, buf: seq<byte>, g: Flat, from: nat)
    requires Written(f, buf, g) && from <= f.pos
    ensures g.cells[from..g.pos] == f.cells[from..f.pos] + buf
  {
  }
}
