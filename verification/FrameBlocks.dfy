/** Cutting a range of frames into globally aligned power-of-two blocks. */
module FrameBlocks {
  import opened OrderTree
  import opened OrderBytes

  const WORD_BITS: nat := 64

  datatype Block = Block(base: nat, order: nat)

  function End(b: Block): nat { b.base + Pow(b.order) }

  function TrailingZeros(x: nat): nat
    requires x > 0
  {
    if x % 2 == 1 then 0 else 1 + TrailingZeros(x / 2)
  }

  /** The order the start is aligned to; zero is aligned to everything. */
  function AlignOrder(start: nat): nat {
    if start == 0 then WORD_BITS - 1 else TrailingZeros(start)
  }

  /** Order of the first block of the range: as large as alignment and length allow. */
  function NextOrder(start: nat, end: nat): (k: nat)
    requires start < end
    ensures Pow(k) <= end - start
  {
    var a, l := AlignOrder(start), FloorOrder(end - start);
    var k := if a < l then a else l;
    PowGrows(k, l);
    k
  }

  function Blocks(start: nat, end: nat): seq<Block>
    requires start <= end
    decreases end - start
  {
    if start == end then []
    else
      var k := NextOrder(start, end);
      [Block(start, k)] + Blocks(start + Pow(k), end)
  }

  // ---- alignment ----------------------------------------------------------------------

  lemma {:induction false} AlignedTo(x: nat, k: nat)
    requires x > 0
    ensures Aligned(x, k) <==> k <= TrailingZeros(x)
    decreases k
  {
    if k > 0 && x % 2 == 0 { AlignedTo(x / 2, k - 1); }
  }

  lemma StartAligned(start: nat, k: nat)
    requires k <= AlignOrder(start)
    ensures Aligned(start, k)
  {
    if start == 0 { ZeroAligned(k); } else { AlignedTo(start, k); }
  }

  lemma {:induction false} AlignmentGrows(x: nat)
    requires x > 0
    ensures TrailingZeros(x + Pow(TrailingZeros(x))) > TrailingZeros(x)
    decreases x
  {
    if x % 2 == 0 {
      AlignmentGrows(x / 2);
      assert (x + Pow(TrailingZeros(x))) / 2 == x / 2 + Pow(TrailingZeros(x / 2));
    }
  }

  lemma {:induction false} AlignedDifference(x: nat, y: nat, k: nat)
    requires Aligned(x, k) && Aligned(y, k) && y <= x
    ensures Aligned(x - y, k)
    decreases k
  {
    if k > 0 {
      AlignedDifference(x / 2, y / 2, k - 1);
      assert (x - y) / 2 == x / 2 - y / 2;
    }
  }

  lemma {:induction false} FloorBelow(v: nat, k: nat)
    requires 0 < v < Pow(k)
    ensures FloorOrder(v) < k
  {
    if k <= FloorOrder(v) { PowGrows(k, FloorOrder(v)); }
  }

  // ---- the cut ------------------------------------------------------------------------

  /** Consecutive blocks from `start` to `end`, each aligned to its own size. */
  ghost predicate Tiles(bs: seq<Block>, start: nat, end: nat) {
    && |bs| > 0 && bs[0].base == start && End(bs[|bs| - 1]) == end
    && (forall i :: 0 <= i < |bs| ==> Aligned(bs[i].base, bs[i].order) && bs[i].order < WORD_BITS)
    && (forall i, j :: 0 <= i && j == i + 1 && j < |bs| ==> bs[j].base == End(bs[i]))
  }

  lemma {:induction false} CutTiles(start: nat, end: nat)
    requires start < end < Pow(WORD_BITS)
    ensures Tiles(Blocks(start, end), start, end)
    decreases end - start
  {
    hide Pow, TrailingZeros, FloorOrder, Aligned;
    var k := NextOrder(start, end);
    StartAligned(start, k);
    FloorBelow(end - start, WORD_BITS);
    var rest := Blocks(start + Pow(k), end);
    if start + Pow(k) < end {
      CutTiles(start + Pow(k), end);
    }
  }

  predicate RisesFrom(bs: seq<Block>, low: nat) {
    bs == [] || (bs[0].order >= low && RisesFrom(bs[1..], bs[0].order + 1))
  }

  predicate FallsFrom(bs: seq<Block>, high: nat) {
    bs == [] || (bs[0].order < high && FallsFrom(bs[1..], bs[0].order))
  }

  /** Once the length is what limits a block, every further block is smaller. */
  lemma {:induction false} CutFalls(start: nat, end: nat)
    requires start <= end < Pow(WORD_BITS) && (start < end ==> FloorOrder(end - start) <= AlignOrder(start))
    ensures FallsFrom(Blocks(start, end), if start < end then FloorOrder(end - start) + 1 else 0)
    decreases end - start
  {
    hide Pow, TrailingZeros, FloorOrder, Aligned;
    if start < end {
      var k := FloorOrder(end - start);
      var next := start + Pow(k);
      if next < end {
        FloorBelow(end - next, k);
        StartAligned(start, k);
        AlignedShift(start, k, k);
        AlignedTo(next, k);
      }
      CutFalls(next, end);
    }
  }

  /** Block orders strictly rise and then strictly fall. */
  lemma {:induction false} CutIsMountain(start: nat, end: nat) returns (peak: nat)
    requires start < end < Pow(WORD_BITS)
    ensures peak <= |Blocks(start, end)|
    ensures RisesFrom(Blocks(start, end)[..peak], AlignOrder(start))
    ensures FallsFrom(Blocks(start, end)[peak..], WORD_BITS)
    decreases end - start
  {
    hide Pow, TrailingZeros, FloorOrder, Aligned;
    var bs := Blocks(start, end);
    FloorBelow(end - start, WORD_BITS);
    if FloorOrder(end - start) <= AlignOrder(start) {
      CutFalls(start, end);
      FallsHigher(bs, FloorOrder(end - start) + 1, WORD_BITS);
      peak := 0;
      assert bs[peak..] == bs;
    } else {
      var k := AlignOrder(start);
      AlignmentGrows(start);
      PowGrows(k, FloorOrder(end - start));
      var p := CutIsMountain(start + Pow(k), end);
      var rest := Blocks(start + Pow(k), end);
      peak := p + 1;
      assert bs[..peak][1..] == rest[..p];
      assert bs[peak..] == rest[p..];
      RisesLower(rest[..p], AlignOrder(start + Pow(k)), k + 1);
    }
  }

  lemma FallsHigher(bs: seq<Block>, a: nat, b: nat)
    requires FallsFrom(bs, a) && a <= b
    ensures FallsFrom(bs, b)
  {}

  lemma RisesLower(bs: seq<Block>, a: nat, b: nat)
    requires RisesFrom(bs, a) && b <= a
    ensures RisesFrom(bs, b)
  {}

  lemma {:induction false} RiseLength(bs: seq<Block>, low: nat)
    requires RisesFrom(bs, low) && low <= WORD_BITS && forall i :: 0 <= i < |bs| ==> bs[i].order < WORD_BITS
    ensures |bs| + low <= WORD_BITS
    decreases |bs|
  {
    if bs != [] { RiseLength(bs[1..], bs[0].order + 1); }
  }

  lemma {:induction false} FallLength(bs: seq<Block>, high: nat)
    requires FallsFrom(bs, high)
    ensures |bs| <= high
    decreases |bs|
  {
    if bs != [] { FallLength(bs[1..], bs[0].order); }
  }

  /** At most twice the address width, for any range of word-sized bounds. */
  lemma CutLength(start: nat, end: nat)
    requires start < end < Pow(WORD_BITS)
    ensures |Blocks(start, end)| <= 2 * WORD_BITS
  {
    hide Pow, Blocks, RisesFrom, FallsFrom;
    var bs := Blocks(start, end);
    var p := CutIsMountain(start, end);
    CutTiles(start, end);
    RisesLower(bs[..p], AlignOrder(start), 0);
    RiseLength(bs[..p], 0);
    FallLength(bs[p..], WORD_BITS);
  }

  /** Bytes of the order trees of the blocks: two for every frame. */
  function TreeBytes(bs: seq<Block>): nat {
    if bs == [] then 0 else 2 * Pow(bs[0].order) + TreeBytes(bs[1..])
  }

  lemma {:induction false} CutBytes(start: nat, end: nat)
    requires start <= end
    ensures TreeBytes(Blocks(start, end)) == 2 * (end - start)
    decreases end - start
  {
    if start < end {
      var k := NextOrder(start, end);
      CutBytes(start + Pow(k), end);
      assert Blocks(start, end)[1..] == Blocks(start + Pow(k), end);
    }
  }

  /** The cutting loop. */
  method ForEachBlock(start: nat, end: nat) returns (bs: seq<Block>)
    requires start < end < Pow(WORD_BITS)
    ensures bs == Blocks(start, end) && Tiles(bs, start, end) && |bs| <= 2 * WORD_BITS
  {
    hide Pow, Tiles;
    bs := [];
    var at := start;
    while at < end
      invariant start <= at <= end && Blocks(start, end) == bs + Blocks(at, end)
    {
      var k := NextOrder(at, end);
      bs := bs + [Block(at, k)];
      at := at + Pow(k);
    }
    CutTiles(start, end);
    CutLength(start, end);
  }
}
