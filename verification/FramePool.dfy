/** The frame inventory: arenas of order trees in one byte table, refining a set of free frames. */
module FramePool {
  import opened Wrappers
  import opened OrderTree
  import opened OrderBytes
  import opened FrameBlocks
  import opened FrameInventory

  datatype AddRegionError = InvalidRange | Overlap | ArenaLimit | MetadataExhausted

  datatype AddResult = Added | Refused(error: AddRegionError)

  class FramePool {
    const metadata: array<nat>
    var metadataUsed: nat
    const arenas: array<Arena>
    var arenaCount: nat
    var freeFrames: nat
    /** The regions managed so far. */
    ghost var regions: nat

    ghost predicate Valid()
      reads this, metadata, arenas
    {
      && 0 < arenas.Length <= MAX_ARENAS && arenaCount <= arenas.Length
      && Sound(metadata[..], arenas[..arenaCount], metadataUsed)
      && freeFrames == |Inventory()| && arenaCount <= 2 * WORD_BITS * regions
    }

    ghost function Inventory(): set<nat>
      requires arenaCount <= arenas.Length
      reads this, metadata, arenas
    {
      FreeFrames(metadata[..], arenas[..arenaCount])
    }

    ghost function AllManaged(): set<nat>
      requires arenaCount <= arenas.Length
      reads this, arenas
    {
      Managed(arenas[..arenaCount])
    }

    constructor (bytes: nat, capacity: nat)
      requires 0 < capacity <= MAX_ARENAS
      ensures Valid() && Inventory() == {} && AllManaged() == {} && arenaCount == 0 && metadataUsed == 0 && regions == 0
      ensures metadata.Length == bytes && arenas.Length == capacity && fresh(metadata) && fresh(arenas)
    {
      metadata := new nat[bytes](i => UNAVAILABLE);
      arenas := new Arena[capacity](i => Arena(0, 0, 0));
      metadataUsed, arenaCount, freeFrames, regions := 0, 0, 0, 0;
    }

    // ---- one order tree -------------------------------------------------------------------

    /** The bytes a walk over the arena's tree may touch are in the table. */
    lemma NodeInTable(a: Arena, node: nat)
      requires Placed(metadata.Length, a) && node >= 1 && FloorOrder(node) <= a.order
      ensures a.start + node < metadata.Length
      ensures node > 1 ==>
              FloorOrder(node / 2) + 1 == FloorOrder(node) && a.start + 2 * (node / 2) + 1 < metadata.Length
    {
      PowGrows(FloorOrder(node), a.order);
    }

    /** Merges every ancestor of `node` from its children. */
    method UpdateAncestors(a: Arena, node: nat)
      requires Placed(metadata.Length, a) && node >= 1 && FloorOrder(node) <= a.order
               && a.start + node < metadata.Length
      modifies metadata
      ensures metadata[..] == Ascended(old(metadata[..]), a.start, node, a.order - FloorOrder(node))
    {
      hide Ascended, Placed, Pow, FloorOrder;
      var n := node;
      while n > 1
        invariant 1 <= n <= node && FloorOrder(n) <= a.order && a.start + n < metadata.Length
        invariant Ascended(metadata[..], a.start, n, a.order - FloorOrder(n))
                  == Ascended(old(metadata[..]), a.start, node, a.order - FloorOrder(node))
      {
        NodeInTable(a, n);
        AscendStep(metadata[..], a.start, n, a.order - FloorOrder(n));
        n := n / 2;
        var childOrder := a.order - FloorOrder(n) - 1;
        var left := metadata[a.start + n * 2];
        var right := metadata[a.start + n * 2 + 1];
        metadata[a.start + n] := if left == childOrder && right == childOrder then childOrder + 1
            else MaxAvailable(left, right);
      }
      AscendEnds(metadata[..], a.start, n, a.order - FloorOrder(n));
    }

    /** Hands the node's verdict down to its children before the walk goes below it. */
    method OpenNode(a: Arena, node: nat, order: nat, free: bool)
      requires order > 0 && Room(metadata.Length, a.start, node, order)
      modifies metadata
      ensures metadata[..] == OpenBytes(old(metadata[..]), a.start, node, order, free)
    {
      ghost var m := metadata[..];
      RoomBelow(|m|, a.start, node, order);
      RoomBelow(|m|, a.start, 2 * node, order - 1);
      RoomBelow(|m|, a.start, 2 * node + 1, order - 1);
      if metadata[a.start + node] == Full(free, order) {
        metadata[a.start + node * 2] := Full(free, order - 1);
        metadata[a.start + node * 2 + 1] := Full(free, order - 1);
      }
    }

    lemma RootOrder()
      ensures FloorOrder(1) == 0
    {}

    lemma ChildOrder(node: nat, right: bool)
      requires node >= 1
      ensures FloorOrder(2 * node + (if right then 1 else 0)) == FloorOrder(node) + 1
    {}

    /** Takes (`free` false) or releases (`free` true) one aligned block of the arena. */
    method PutBlock(a: Arena, base: nat, k: nat, free: bool)
      requires Placed(metadata.Length, a) && Within(a, base, k) && k <= a.order
      modifies metadata
      ensures metadata[..] == Written(old(metadata[..]), a, base, k, free)
    {
      hide PutBytes, OpenBytes, Room, Ascended, Aligned, Low, Bit, Full, Pow, FloorOrder;
      ghost var m := metadata[..];
      var d, node, order := base - a.base, 1, a.order;
      LowBound(d, a.order);
      RootOrder();
      RoomBelow(|m|, a.start, 1, a.order);
      AscendEnds(PutBytes(m, a.start, 1, a.order, d, k, free), a.start, 1, a.order);
      while order > k
        invariant k <= order <= a.order && node >= 1 && order + FloorOrder(node) == a.order
        invariant Room(metadata.Length, a.start, node, order) && a.start + node < metadata.Length
        invariant PutBytes(m, a.start, 1, a.order, d, k, free)
               == Ascended(PutBytes(metadata[..], a.start, node, order, Low(d, order), k, free), a.start, node, order)
      {
        NextDigit(d, order - 1);
        var right := Bit(d, order - 1);
        WalkDown(metadata[..], a.start, node, order, Low(d, order), k, free, right, Low(d, order - 1));
        ChildOrder(node, right);
        OpenNode(a, node, order, !free);
        order := order - 1;
        node := node * 2 + (if right then 1 else 0);
      }
      PutHereBytes(metadata[..], a.start, node, k, Low(d, k), free);
      metadata[a.start + node] := Full(free, k);
      UpdateAncestors(a, node);
    }

    /** Takes the lowest aligned free block of order `k` of the arena. */
    method TakeAny(a: Arena, k: nat) returns (base: nat)
      requires Placed(metadata.Length, a) && k <= a.order
      modifies metadata
      ensures base == a.base + Pick(ArenaTree(old(metadata[..]), a), a.order, k)
      ensures metadata[..] == Written(old(metadata[..]), a, base, k, false)
    {
      hide PutBytes, OpenBytes, Room, Ascended, Aligned, Full, Pow, FloorOrder, TreeOf, Pick, Available;
      ghost var m := metadata[..];
      ghost var off := Pick(ArenaTree(m, a), a.order, k);
      var node, order := 1, a.order;
      base := a.base;
      RootOrder();
      RoomBelow(|m|, a.start, 1, a.order);
      AscendEnds(PutBytes(m, a.start, 1, a.order, off, k, false), a.start, 1, a.order);
      while order > k
        invariant k <= order <= a.order && node >= 1 && order + FloorOrder(node) == a.order
        invariant Room(metadata.Length, a.start, node, order) && a.start + node < metadata.Length
        invariant base + Pick(TreeOf(metadata[..], a.start, node, order), order, k) == a.base + off
        invariant PutBytes(m, a.start, 1, a.order, off, k, false)
               == Ascended(PutBytes(metadata[..], a.start, node, order,
                                    Pick(TreeOf(metadata[..], a.start, node, order), order, k), k, false), a.start,
                                    node, order)
      {
        ghost var here := metadata[..];
        RoomBelow(|here|, a.start, node, order);
        RoomBelow(|here|, a.start, 2 * node, order - 1);
        OpenNode(a, node, order, true);
        var right := !Available(metadata[a.start + node * 2], k);
        ghost var c := 2 * node + if right then 1 else 0;
        PickDown(here, a.start, node, order, k, right, c);
        WalkDown(here, a.start, node, order, Pick(TreeOf(here, a.start, node, order), order, k), k, false, right,
                 Pick(TreeOf(metadata[..], a.start, c, order - 1), order - 1, k));
        ChildOrder(node, right);
        order := order - 1;
        node := node * 2 + (if right then 1 else 0);
        base := base + (if right then Pow(order) else 0);
      }
      PutHereBytes(metadata[..], a.start, node, k, Pick(TreeOf(metadata[..], a.start, node, k), k, k), false);
      PickHere(TreeOf(metadata[..], a.start, node, k), k);
      metadata[a.start + node] := UNAVAILABLE;
      UnavailableIsFull(k);
      UpdateAncestors(a, node);
    }

    lemma PickHere(t: Tree, k: nat)
      requires Shaped(t, k)
      ensures Pick(t, k, k) == 0
    {}

    lemma UnavailableIsFull(k: nat)
      ensures Full(false, k) == UNAVAILABLE
    {}

    /** Whether every frame of the block is free. */
    method BlockIsFree(a: Arena, base: nat, k: nat) returns (free: bool)
      requires SoundArena(metadata[..], a, metadataUsed) && Within(a, base, k)
      ensures free <==> AllAre(metadata[..], a, base, base + Pow(k), true)
    {
      hide TreeOf, Room, AllFree, SomeFree, Low, Bit, Pow, Aligned, Wf, AllAre;
      ghost var m := metadata[..];
      var d, node: nat, order: nat := base - a.base, 1, a.order;
      WithinBlock(|m|, a, base, k);
      LowBound(d, a.order);
      RoomBelow(|m|, a.start, 1, a.order);
      BlockVerdicts(m, a, base, k);
      while metadata[a.start + node] != order && metadata[a.start + node] != UNAVAILABLE && order != k
        invariant k <= order <= a.order && Room(|m|, a.start, node, order) && a.start + node < |m|
        invariant AllFree(ArenaTree(m, a), a.order, d, k)
                  == AllFree(TreeOf(m, a.start, node, order), order, Low(d, order), k)
        decreases order
      {
        NextDigit(d, order - 1);
        var right := Bit(d, order - 1);
        BlockDown(m, a.start, node, order, Low(d, order), k, right, Low(d, order - 1));
        order := order - 1;
        node := node * 2 + (if right then 1 else 0);
      }
      BlockHere(m, a.start, node, order, Low(d, order), k);
      free := metadata[a.start + node] == order;
    }

    /** Whether some frame of the block is free. */
    method BlockHasFree(a: Arena, base: nat, k: nat) returns (some: bool)
      requires SoundArena(metadata[..], a, metadataUsed) && Within(a, base, k)
      ensures some <==> !AllAre(metadata[..], a, base, base + Pow(k), false)
    {
      hide TreeOf, Room, AllFree, SomeFree, Low, Bit, Pow, Aligned, Wf, AllAre;
      ghost var m := metadata[..];
      var d, node: nat, order: nat := base - a.base, 1, a.order;
      WithinBlock(|m|, a, base, k);
      LowBound(d, a.order);
      RoomBelow(|m|, a.start, 1, a.order);
      BlockVerdicts(m, a, base, k);
      while metadata[a.start + node] != order && metadata[a.start + node] != UNAVAILABLE && order != k
        invariant k <= order <= a.order && Room(|m|, a.start, node, order) && a.start + node < |m|
        invariant SomeFree(ArenaTree(m, a), a.order, d, k)
               == SomeFree(TreeOf(m, a.start, node, order), order, Low(d, order), k)
        decreases order
      {
        NextDigit(d, order - 1);
        var right := Bit(d, order - 1);
        BlockDown(m, a.start, node, order, Low(d, order), k, right, Low(d, order - 1));
        order := order - 1;
        node := node * 2 + (if right then 1 else 0);
      }
      BlockHere(m, a.start, node, order, Low(d, order), k);
      some := metadata[a.start + node] != UNAVAILABLE;
    }

    /** What the two descents decide, frame by frame. */
    lemma BlockVerdicts(m: Bytes, a: Arena, base: nat, k: nat)
      requires Placed(|m|, a) && Wf(ArenaTree(m, a), a.order) && Within(a, base, k)
      ensures AllFree(ArenaTree(m, a), a.order, base - a.base, k) <==> AllAre(m, a, base, base + Pow(k), true)
      ensures SomeFree(ArenaTree(m, a), a.order, base - a.base, k) <==> !AllAre(m, a, base, base + Pow(k), false)
    {
      hide TreeOf, Room, AllFree, SomeFree, Pow, Aligned, Wf, Free;
      var t, d := ArenaTree(m, a), base - a.base;
      WithinBlock(|m|, a, base, k);
      AllFreeMeans(t, a.order, d, k);
      SomeFreeMeans(t, a.order, d, k);
      forall f: nat | base <= f < base + Pow(k) ensures FrameFree(m, a, f) <==> Free(t, a.order, f - a.base) {}
      if Uniform(t, a.order, d, k, true) {
        forall f | base <= f < base + Pow(k) ensures FrameFree(m, a, f) { assert Free(t, a.order, f - a.base); }
      } else {
        var g :| d <= g < d + Pow(k) && !Free(t, a.order, g);
        assert !FrameFree(m, a, g + a.base);
      }
      if !Uniform(t, a.order, d, k, false) {
        var g :| d <= g < d + Pow(k) && Free(t, a.order, g);
        assert FrameFree(m, a, g + a.base);
      }
    }

    // ---- ranges ---------------------------------------------------------------------------

    /** Sound state in terms of the current bytes and arenas. */
    ghost predicate Steady()
      reads this, metadata, arenas
    {
      arenaCount <= arenas.Length && Sound(metadata[..], arenas[..arenaCount], metadataUsed)
    }

    method FindArena(f: nat) returns (r: Option<nat>)
      requires Steady()
      ensures r.Some? ==> HeldBy(arenas[..arenaCount], r.value, f)
      ensures r.None? ==> f !in AllManaged()
    {
      hide Sound, Managed;
      var i := 0;
      while i < arenaCount
        invariant i <= arenaCount && forall j: nat :: j < i ==> !HeldBy(arenas[..arenaCount], j, f)
      {
        if f >= arenas[i].base && f < ArenaEnd(arenas[i]) { return Some(i); }
        i := i + 1;
      }
      if f in AllManaged() { var j := Holder(arenas[..arenaCount], f); }
      return None;
    }

    method RangeIsManaged(start: nat, end: nat) returns (all: bool)
      requires Steady()
      ensures all <==> Span(start, end) <= AllManaged()
    {
      hide Sound, Managed, HeldBy, Pow, Span;
      ghost var held := arenas[..arenaCount];
      SpanIs(start, end);
      var at := start;
      while at < end
        invariant start <= at && (start <= end ==> at <= end)
        invariant forall f: nat :: start <= f < at ==> f in Managed(held)
        decreases end - at
      {
        var found := FindArena(at);
        if found.None? { return false; }
        HolderCovers(held, found.value, at);
        var e := ArenaEnd(arenas[found.value]);
        at := if e < end then e else end;
      }
      all := true;
    }

    lemma HolderCovers(held: seq<Arena>, i: nat, f: nat)
      requires HeldBy(held, i, f)
      ensures i < |held| && held[i].base <= f < ArenaEnd(held[i])
      ensures forall g: nat :: f <= g < ArenaEnd(held[i]) ==> g in Managed(held)
    {
      forall g: nat | f <= g < ArenaEnd(held[i]) ensures g in Managed(held) { assert HeldBy(held, i, g); }
    }

    /** Whether the part of a range inside one arena is all free, or all not. */
    method SegmentIs(i: nat, lo: nat, hi: nat, free: bool) returns (all: bool)
      requires Steady() && i < arenaCount && arenas[i].base <= lo < hi <= ArenaEnd(arenas[i])
      ensures all <==> AllAre(metadata[..], arenas[i], lo, hi, free)
    {
      hide Pow, FrameFree, Within, NextOrder;
      assert SoundArena(metadata[..], arenas[..arenaCount][i], metadataUsed);
      all := true;
      var at := lo;
      while at < hi
        invariant lo <= at <= hi && (all <==> AllAre(metadata[..], arenas[i], lo, at, free))
      {
        var k := NextOrder(at, hi);
        NextWithin(arenas[i], at, hi);
        if free {
          var b := BlockIsFree(arenas[i], at, k);
          all := all && b;
        } else {
          var b := BlockHasFree(arenas[i], at, k);
          all := all && !b;
        }
        AllAreJoins(metadata[..], arenas[i], lo, at, at + Pow(k), free);
        at := at + Pow(k);
      }
    }

    lemma AllAreJoins(m: Bytes, a: Arena, lo: nat, mid: nat, hi: nat, free: bool)
      requires lo <= mid <= hi
      ensures AllAre(m, a, lo, hi, free) <==> AllAre(m, a, lo, mid, free) && AllAre(m, a, mid, hi, free)
    {}

    /** Whether the range is managed and all free, or managed and all not. */
    method RangeIsUniform(start: nat, end: nat, free: bool) returns (all: bool)
      requires Steady()
      ensures all <==> RangeIs(metadata[..], arenas[..arenaCount], start, end, free)
    {
      hide Sound, Managed, HeldBy, FreeFrames, Pow, AllAre;
      ghost var m, held := metadata[..], arenas[..arenaCount];
      var at := start;
      while at < end
        invariant start <= at && (start <= end ==> at <= end) && RangeIs(m, held, start, at, free)
        decreases end - at
      {
        var found := FindArena(at);
        if found.None? { return false; }
        HolderCovers(held, found.value, at);
        var e := ArenaEnd(arenas[found.value]);
        var stop := if e < end then e else end;
        var part := SegmentIs(found.value, at, stop, free);
        ArenaDecides(m, held, metadataUsed, found.value, at, stop, free);
        if !part { return false; }
        at := stop;
      }
      all := true;
    }

    /** Takes or releases the part of a range inside one arena, block by block. */
    method PutSegment(i: nat, lo: nat, hi: nat, free: bool)
      requires Steady() && i < arenaCount && arenas[i].base <= lo < hi <= ArenaEnd(arenas[i])
      requires RangeIs(metadata[..], arenas[..arenaCount], lo, hi, !free)
      modifies metadata
      ensures Steady() && Inventory() == Changed(old(Inventory()), lo, hi, free)
    {
      hide Pow, FrameFree, Within, NextOrder, FreeFrames, Managed, Sound, Written, Changed, Span;
      ghost var held := arenas[..arenaCount];
      ChangedNone(Inventory(), lo, free);
      var at := lo;
      while at < hi
        invariant lo <= at <= hi && Steady() && Inventory() == Changed(old(Inventory()), lo, at, free)
      {
        var k := NextOrder(at, hi);
        NextWithin(arenas[i], at, hi);
        StillThere(old(Inventory()), lo, at, free);
        NextBlock(metadata[..], held, metadataUsed, i, at, k, free);
        PutBlock(arenas[i], at, k, free);
        ChangedJoins(old(Inventory()), lo, at, at + Pow(k), free);
        at := at + Pow(k);
      }
    }

    lemma ChangedNone(s: set<nat>, lo: nat, free: bool)
      ensures Changed(s, lo, lo, free) == s
    {}

    lemma StillThere(s: set<nat>, lo: nat, at: nat, free: bool)
      requires lo <= at
      ensures at in Changed(s, lo, at, free) <==> at in s
    {
      SpanIs(lo, at);
    }

    lemma NextBlock(m: Bytes, held: seq<Arena>, used: nat, i: nat, at: nat, k: nat, free: bool)
      requires Sound(m, held, used) && i < |held| && Within(held[i], at, k) && k <= held[i].order
      requires (at in FreeFrames(m, held)) != free
      ensures Placed(|m|, held[i]) && Sound(Written(m, held[i], at, k, free), held, used)
      ensures FreeFrames(Written(m, held[i], at, k, free), held) == Changed(FreeFrames(m, held), at, at + Pow(k), free)
    {
      hide FrameFree, FreeFrames, Written, Aligned, Free, Wf, TreeOf, Span;
      assert SoundArena(m, held[i], used);
      assert HeldBy(held, i, at);
      OneHolder(held, m, used, i, at);
      WrittenSound(m, held, used, i, at, k, free);
    }

    /** Takes or releases a range that was checked beforehand. */
    method PutRange(start: nat, end: nat, free: bool)
      requires Steady() && start <= end && RangeIs(metadata[..], arenas[..arenaCount], start, end, !free)
      modifies metadata
      ensures Steady() && Inventory() == Changed(old(Inventory()), start, end, free)
    {
      hide Sound, Managed, HeldBy, FreeFrames, Pow, Changed;
      ghost var held := arenas[..arenaCount];
      ChangedNone(Inventory(), start, free);
      var at := start;
      while at < end
        invariant start <= at <= end && Steady() && Inventory() == Changed(old(Inventory()), start, at, free)
      {
        var found := FindArena(at);
        assert at in Managed(held);
        HolderCovers(held, found.value, at);
        var e := ArenaEnd(arenas[found.value]);
        var stop := if e < end then e else end;
        RestUntouched(old(metadata[..]), metadata[..], held, start, at, end, stop, free);
        PutSegment(found.value, at, stop, free);
        ChangedJoins(old(Inventory()), start, at, stop, free);
        at := stop;
      }
    }

    lemma RestUntouched(m0: Bytes, m: Bytes, held: seq<Arena>, start: nat, at: nat, end: nat, stop: nat, free: bool)
      requires start <= at <= stop <= end && RangeIs(m0, held, start, end, !free)
      requires FreeFrames(m, held) == Changed(FreeFrames(m0, held), start, at, free)
      ensures RangeIs(m, held, at, stop, !free)
    {
      hide FreeFrames, Managed, Span;
      SpanIs(start, at);
    }

    // ---- operations ------------------------------------------------------------------------

    /** Takes exactly the range, if all of it is free. */
    method AllocAt(base: nat, count: nat) returns (ok: bool)
      requires Valid()
      modifies this`freeFrames, metadata
      ensures Valid() && ok == (count > 0 && Span(base, base + count) <= old(Inventory()))
      ensures Inventory() == if ok then old(Inventory()) - Span(base, base + count) else old(Inventory())
      ensures !ok ==> metadata[..] == old(metadata[..]) && freeFrames == old(freeFrames)
    {
      hide Sound, Managed, FreeFrames, Pow, Span;
      if count == 0 { return false; }
      if base + count >= Pow(WORD_BITS) {
        PastTheEnd(metadata[..], arenas[..arenaCount], metadataUsed, base, count);
        return false;
      }
      ghost var held := arenas[..arenaCount];
      RangeIsSpan(metadata[..], held, metadataUsed, base, base + count);
      ok := RangeIsUniform(base, base + count, true);
      if ok {
        ChangedSize(Inventory(), base, base + count, false);
        PutRange(base, base + count, false);
        freeFrames := freeFrames - count;
      }
    }

    lemma RangeIsSpan(m: Bytes, held: seq<Arena>, used: nat, lo: nat, hi: nat)
      requires Sound(m, held, used)
      ensures RangeIs(m, held, lo, hi, true) <==> Span(lo, hi) <= FreeFrames(m, held)
      ensures RangeIs(m, held, lo, hi, false) <==> Span(lo, hi) <= Managed(held) && Span(lo, hi) !! FreeFrames(m, held)
      ensures FreeFrames(m, held) <= Managed(held)
    {
      hide Sound, Managed, FreeFrames, Pow, Span;
      SpanIs(lo, hi);
      forall f: nat | f in FreeFrames(m, held) ensures f in Managed(held) { FreeIsManaged(m, held, f); }
    }

    lemma FreeIsManaged(m: Bytes, held: seq<Arena>, f: nat)
      requires f in FreeFrames(m, held)
      ensures f in Managed(held)
    {
      var i := FreeHolder(m, held, f);
      assert HeldBy(held, i, f);
    }

    /** No frame number at or past the end of the word range is managed. */
    lemma PastTheEnd(m: Bytes, held: seq<Arena>, used: nat, base: nat, count: nat)
      requires Sound(m, held, used) && count > 0 && base + count >= Pow(WORD_BITS)
      ensures !(Span(base, base + count) <= Managed(held)) && !(Span(base, base + count) <= FreeFrames(m, held))
    {
      hide Wf, TreeOf, Aligned, Pow, FreeFrames, Managed;
      SpanIs(base, base + count);
      var last := base + count - 1;
      assert last in Span(base, base + count);
      if last in FreeFrames(m, held) { FreeIsManaged(m, held, last); }
      if last in Managed(held) {
        var i := Holder(held, last);
      }
    }

    /** Returns a range that is managed and not free. */
    method Dealloc(base: nat, count: nat)
      requires Valid() && count > 0
      requires Span(base, base + count) <= AllManaged() && Span(base, base + count) !! Inventory()
      modifies this`freeFrames, metadata
      ensures Valid() && Inventory() == old(Inventory()) + Span(base, base + count)
    {
      hide Sound, Managed, FreeFrames, Pow, Span;
      ghost var held := arenas[..arenaCount];
      RangeIsSpan(metadata[..], held, metadataUsed, base, base + count);
      ChangedSize(Inventory(), base, base + count, true);
      PutRange(base, base + count, true);
      freeFrames := freeFrames + count;
    }

    /** Publishes a range reserved at boot, if it is managed and none of it is free. */
    method ReleaseRange(start: nat, end: nat) returns (ok: bool)
      requires Valid()
      modifies this`freeFrames, metadata
      ensures Valid() && ok == (start < end && Span(start, end) <= AllManaged() && Span(start, end) !! old(Inventory()))
      ensures Inventory() == if ok then old(Inventory()) + Span(start, end) else old(Inventory())
      ensures !ok ==> metadata[..] == old(metadata[..]) && freeFrames == old(freeFrames)
    {
      hide Sound, Managed, FreeFrames, Pow, Span;
      ghost var held := arenas[..arenaCount];
      RangeIsSpan(metadata[..], held, metadataUsed, start, end);
      if start >= end { return false; }
      ok := RangeIsManaged(start, end);
      if !ok { return; }
      ok := RangeIsUniform(start, end, false);
      if !ok { return; }
      ChangedSize(Inventory(), start, end, true);
      PutRange(start, end, true);
      freeFrames := freeFrames + (end - start);
    }

    /** Takes the picked block of arena `i`. */
    method TakeFrom(i: nat, k: nat) returns (base: nat)
      requires Valid() && i < arenaCount && k <= arenas[i].order
      requires Placed(metadata.Length, arenas[i]) && Available(ArenaTree(metadata[..], arenas[i]).v, k)
      modifies this`freeFrames, metadata
      ensures Valid() && Inventory() == old(Inventory()) - Span(base, base + Pow(k))
      ensures Lowest(old(metadata[..]), arenas[i], base, k)
    {
      hide Sound, Managed, FreeFrames, Pow, Span, FrameFree, Written, Available, Pick, TreeOf, Placed, FreeBlock;
      ghost var m, held := metadata[..], arenas[..arenaCount];
      TakingPicked(m, held, metadataUsed, i, k);
      base := TakeAny(arenas[i], k);
      freeFrames := freeFrames - Pow(k);
    }

    ghost predicate Lowest(m: Bytes, a: Arena, base: nat, k: nat) {
      FreeBlock(m, a, base, k) && forall b: nat :: FreeBlock(m, a, b, k) ==> base <= b
    }

    lemma TakingPicked(m: Bytes, held: seq<Arena>, used: nat, i: nat, k: nat)
      requires Sound(m, held, used) && i < |held| && k <= held[i].order
      requires Placed(|m|, held[i]) && Available(ArenaTree(m, held[i]).v, k)
      ensures var base := held[i].base + Pick(ArenaTree(m, held[i]), held[i].order, k);
              && Lowest(m, held[i], base, k)
              && Sound(Written(m, held[i], base, k, false), held, used)
              && FreeFrames(Written(m, held[i], base, k, false), held)
                  == FreeFrames(m, held) - Span(base, base + Pow(k))
              && |FreeFrames(m, held) - Span(base, base + Pow(k))| == |FreeFrames(m, held)| - Pow(k)
    {
      hide Managed, FreeFrames, Pow, Span, FrameFree, Written, Available, Pick, TreeOf, Wf, Aligned, Free;
      var base := held[i].base + Pick(ArenaTree(m, held[i]), held[i].order, k);
      assert SoundArena(m, held[i], used);
      PickedBlock(m, held[i], used, k);
      ArenaDecides(m, held, used, i, base, base + Pow(k), true);
      ChangedSize(FreeFrames(m, held), base, base + Pow(k), false);
      NextBlock(m, held, used, i, base, k, false);
    }

    ghost predicate NoFreeBlock(m: Bytes, a: Arena, k: nat) {
      forall b: nat :: !FreeBlock(m, a, b, k)
    }

    lemma RootRefuses(m: Bytes, a: Arena, used: nat, k: nat)
      requires SoundArena(m, a, used) && (k > a.order || !Available(ArenaTree(m, a).v, k))
      ensures NoFreeBlock(m, a, k)
    {
      hide SoundArena, FreeBlock, Available;
      if b: nat :| FreeBlock(m, a, b, k) { NoBlock(m, a, used, k, b); }
    }

    /** The first arena that holds an aligned free block of the order. */
    method FindServing(order: nat) returns (r: Option<nat>)
      requires Steady()
      ensures r.Some? ==> r.value < arenaCount && Serves(metadata[..], arenas[r.value], order)
      ensures forall j ::
              0 <= j < (if r.Some? then r.value else arenaCount) ==> NoFreeBlock(metadata[..], arenas[j], order)
    {
      hide Managed, FreeFrames, Pow, Span, TreeOf, Wf, Aligned, NoFreeBlock;
      var at := 0;
      while at < arenaCount
        invariant at <= arenaCount && forall j :: 0 <= j < at ==> NoFreeBlock(metadata[..], arenas[j], order)
      {
        assert SoundArena(metadata[..], arenas[..arenaCount][at], metadataUsed);
        RootByte(metadata[..], arenas[at]);
        if arenas[at].order >= order && Available(metadata[arenas[at].start + 1], order) { return Some(at); }
        RootRefuses(metadata[..], arenas[at], metadataUsed, order);
        at := at + 1;
      }
      return None;
    }

    ghost predicate Serves(m: Bytes, a: Arena, k: nat) {
      k <= a.order && Placed(|m|, a) && Available(ArenaTree(m, a).v, k)
    }

    /** Takes 2^order aligned frames from the first arena that holds such a free block; misses only when none does. */
    method AllocOrder(order: nat) returns (r: Option<nat>, ghost i: nat)
      requires Valid()
      modifies this`freeFrames, metadata
      ensures Valid()
      ensures r.None? ==> forall j :: 0 <= j < arenaCount ==> NoFreeBlock(old(metadata[..]), arenas[j], order)
      ensures r.None? ==> metadata[..] == old(metadata[..]) && freeFrames == old(freeFrames)
      ensures r.Some? ==> i < arenaCount && Lowest(old(metadata[..]), arenas[i], r.value, order)
      ensures r.Some? ==> forall j :: 0 <= j < i ==> NoFreeBlock(old(metadata[..]), arenas[j], order)
      ensures r.Some? ==> Inventory() == old(Inventory()) - Span(r.value, r.value + Pow(order))
    {
      hide Managed, FreeFrames, Pow, Span, Sound, NoFreeBlock, Lowest;
      r, i := None, 0;
      if order >= WORD_BITS {
        forall j | 0 <= j < arenaCount
          ensures NoFreeBlock(metadata[..], arenas[j], order)
        {
          TooLarge(metadata[..], arenas[..arenaCount], metadataUsed, j, order);
        }
        return;
      }
      var found := FindServing(order);
      if found.Some? {
        i := found.value;
        var base := TakeFrom(found.value, order);
        r := Some(base);
      }
    }

    lemma TooLarge(m: Bytes, held: seq<Arena>, used: nat, j: nat, order: nat)
      requires Sound(m, held, used) && j < |held| && order >= WORD_BITS
      ensures NoFreeBlock(m, held[j], order)
    {
      hide NoFreeBlock, Pow;
      assert SoundArena(m, held[j], used);
      RootRefuses(m, held[j], used, order);
    }

    /** Takes the largest aligned free block of at most `max` frames. */
    method AllocLargest(max: nat) returns (r: Option<(nat, nat)>, ghost i: nat, ghost k: nat)
      requires Valid()
      modifies this`freeFrames, metadata
      ensures Valid()
      ensures r.None? ==> max == 0 || old(Inventory()) == {}
      ensures r.None? ==> metadata[..] == old(metadata[..]) && freeFrames == old(freeFrames)
      ensures r.Some? ==>
              i < arenaCount && r.value.1 == Pow(k) <= max && Lowest(old(metadata[..]), arenas[i], r.value.0, k)
      ensures r.Some? ==> Largest(old(metadata[..]), arenas[..arenaCount], k, FloorOrder(max))
      ensures r.Some? ==> Inventory() == old(Inventory()) - Span(r.value.0, r.value.0 + r.value.1)
    {
      hide Managed, FreeFrames, Pow, Span, Sound, Lowest, Largest, FloorOrder, Serves;
      r, i, k := None, 0, 0;
      if max == 0 { return; }
      var requested := FloorOrder(max);
      var index, order := FindLargest(requested);
      if index.Some? {
        FitsRequest(order, max);
        i, k := index.value, order;
        ServesMeans(metadata[..], arenas[i], order);
        var base := TakeFrom(index.value, order);
        r := Some((base, Pow(order)));
      }
    }

    lemma ServesMeans(m: Bytes, a: Arena, k: nat)
      requires Serves(m, a, k)
      ensures k <= a.order && Placed(|m|, a) && Available(ArenaTree(m, a).v, k)
    {}

    lemma FitsRequest(k: nat, max: nat)
      requires k <= FloorOrder(max) && max > 0
      ensures Pow(k) <= max
    {
      PowGrows(k, FloorOrder(max));
    }

    /** The arena holds no free block of an order above `k` and within the request. */
    ghost predicate Refuses(m: Bytes, a: Arena, k: nat, requested: nat) {
      forall o: nat :: k < o <= requested ==> NoFreeBlock(m, a, o)
    }

    ghost predicate Largest(m: Bytes, held: seq<Arena>, k: nat, requested: nat) {
      forall j :: 0 <= j < |held| ==> Refuses(m, held[j], k, requested)
    }

    ghost predicate Exhausted(m: Bytes, a: Arena) {
      Placed(|m|, a) && ArenaTree(m, a).v == UNAVAILABLE
    }

    method FindLargest(requested: nat) returns (index: Option<nat>, order: nat)
      requires Steady()
      ensures index.None? ==> Inventory() == {}
      ensures index.Some? ==>
              index.value < arenaCount && order <= requested && Serves(metadata[..], arenas[index.value], order)
      ensures index.Some? ==> Largest(metadata[..], arenas[..arenaCount], order, requested)
    {
      hide Managed, FreeFrames, Pow, Span, Wf, TreeOf, Aligned, Refuses;
      ghost var m, held := metadata[..], arenas[..arenaCount];
      index, order := None, 0;
      var at := 0;
      while at < arenaCount
        invariant at <= arenaCount
        invariant index.None? ==> forall j :: 0 <= j < at ==> Exhausted(m, held[j])
        invariant index.Some? ==> index.value < at && order <= requested && Serves(m, held[index.value], order)
        invariant index.Some? ==> forall j :: 0 <= j < at ==> Refuses(m, held[j], order, requested)
      {
        assert SoundArena(m, held[at], metadataUsed);
        RootByte(m, held[at]);
        WfBound(ArenaTree(m, held[at]), held[at].order);
        var state := metadata[arenas[at].start + 1];
        var offer := if state < requested then state else requested;
        if state != UNAVAILABLE && (index.None? || offer > order) {
          forall j | 0 <= j < at ensures Refuses(m, held[j], offer, requested) {
            if index.None? {
              RefusesAbove(m, held[j], metadataUsed, offer, requested);
            } else {
              RefusesMore(m, held[j], order, offer, requested);
            }
          }
          index, order := Some(at), offer;
        }
        if index.Some? { RefusesAbove(m, held[at], metadataUsed, order, requested); }
        at := at + 1;
      }
      if index.None? { EmptyInventory(m, held); }
    }

    lemma RefusesAbove(m: Bytes, a: Arena, used: nat, k: nat, requested: nat)
      requires SoundArena(m, a, used) && (Exhausted(m, a) || ArenaTree(m, a).v <= k || requested <= k)
      ensures Refuses(m, a, k, requested)
    {
      hide Wf, TreeOf, Aligned, NoFreeBlock;
      forall o: nat | k < o <= requested ensures NoFreeBlock(m, a, o) { RootRefuses(m, a, used, o); }
    }

    lemma RefusesMore(m: Bytes, a: Arena, k: nat, more: nat, requested: nat)
      requires Refuses(m, a, k, requested) && k <= more
      ensures Refuses(m, a, more, requested)
    {}

    lemma EmptyInventory(m: Bytes, held: seq<Arena>)
      requires forall j :: 0 <= j < |held| ==> Exhausted(m, held[j])
      ensures FreeFrames(m, held) == {}
    {
      hide FreeFrames, TreeOf, Pow;
      if f :| f in FreeFrames(m, held) {
        var j := FreeHolder(m, held, f);
        NothingFree(m, held[j], f);
      }
    }

    lemma RootByte(m: Bytes, a: Arena)
      requires Placed(|m|, a)
      ensures a.start + 1 < |m| && m[a.start + 1] == ArenaTree(m, a).v
    {
      RoomBelow(|m|, a.start, 1, a.order);
    }

    // ---- managed regions -------------------------------------------------------------------

    /** Whether the range meets an arena already there. */
    method Overlaps(start: nat, end: nat) returns (met: bool)
      requires Steady() && start < end
      ensures met <==> !(Span(start, end) !! AllManaged())
    {
      hide Managed, Span, Pow;
      ghost var held := arenas[..arenaCount];
      SpanIs(start, end);
      var i := 0;
      while i < arenaCount
        invariant i <= arenaCount && forall j: nat, f: nat :: j < i && start <= f < end ==> !HeldBy(held, j, f)
      {
        if start < ArenaEnd(arenas[i]) && arenas[i].base < end {
          CommonFrame(held, i, start, end);
          return true;
        }
        i := i + 1;
      }
      if f :| f in Span(start, end) && f in Managed(held) { var j := Holder(held, f); }
      met := false;
    }

    lemma CommonFrame(held: seq<Arena>, i: nat, start: nat, end: nat)
      requires i < |held| && start < end && start < ArenaEnd(held[i]) && held[i].base < end
      ensures !(Span(start, end) !! Managed(held))
    {
      SpanIs(start, end);
      var f := if start < held[i].base then held[i].base else start;
      assert HeldBy(held, i, f) && f in Managed(held) && f in Span(start, end);
    }

    /** Manages a further region, none of it free yet. */
    method AddManagedRegion(start: nat, end: nat) returns (r: AddResult)
      requires Valid() && end < Pow(WORD_BITS)
      modifies this`metadataUsed, this`arenaCount, this`regions, metadata, arenas
      ensures Valid() && Inventory() == old(Inventory())
      ensures regions == old(regions) + if r == Added then 1 else 0
      ensures old(regions) < 16 && arenas.Length == MAX_ARENAS ==> r != Refused(ArenaLimit)
      ensures r == if start >= end then Refused(InvalidRange)
                   else if !(Span(start, end) !! old(AllManaged())) then Refused(Overlap)
                   else if old(arenaCount) + |Blocks(start, end)| > arenas.Length then Refused(ArenaLimit)
                   else if old(metadataUsed) + 2 * (end - start) > metadata.Length then Refused(MetadataExhausted)
                   else Added
      ensures AllManaged() == if r == Added then old(AllManaged()) + Span(start, end) else old(AllManaged())
      ensures arenaCount <= old(arenaCount) + 2 * WORD_BITS
      ensures old(arenaCount) + 2 * WORD_BITS <= arenas.Length ==> r != Refused(ArenaLimit)
      ensures r == Added ==>
              arenaCount == old(arenaCount) + |Blocks(start, end)|
              && metadataUsed == old(metadataUsed) + 2 * (end - start)
    {
      hide Managed, Span, Pow, Sound, FreeFrames, Tiles;
      if start >= end { return Refused(InvalidRange); }
      var met := Overlaps(start, end);
      if met { return Refused(Overlap); }
      var bs := ForEachBlock(start, end);
      if arenaCount + |bs| > arenas.Length { return Refused(ArenaLimit); }
      if metadataUsed + 2 * (end - start) > metadata.Length { return Refused(MetadataExhausted); }
      regions := regions + 1;
      AddBlocks(start, end);
      r := Added;
    }

    /** One arena for every block of the range. */
    method AddBlocks(start: nat, end: nat)
      requires Valid() && start < end < Pow(WORD_BITS) && Span(start, end) !! AllManaged()
      requires arenaCount + |Blocks(start, end)| <= arenas.Length
               && arenaCount + |Blocks(start, end)| <= 2 * WORD_BITS * regions
      requires metadataUsed + 2 * (end - start) <= metadata.Length
      modifies this`metadataUsed, this`arenaCount, metadata, arenas
      ensures Valid() && Inventory() == old(Inventory()) && AllManaged() == old(AllManaged()) + Span(start, end)
      ensures arenaCount == old(arenaCount) + |Blocks(start, end)|
              && metadataUsed == old(metadataUsed) + 2 * (end - start)
    {
      hide Managed, Span, Pow, Sound, FreeFrames, NextOrder, Blocks;
      BlocksNext(end, end);
      SpanJoins(start, start, end);
      NoSpan(start);
      var at := start;
      while at < end
        invariant start <= at <= end && Valid() && Inventory() == old(Inventory())
        invariant AllManaged() == old(AllManaged()) + Span(start, at)
        invariant arenaCount + |Blocks(at, end)| == old(arenaCount) + |Blocks(start, end)|
        invariant metadataUsed + 2 * (end - at) == old(metadataUsed) + 2 * (end - start)
      {
        var k := NextOrder(at, end);
        BlocksNext(at, end);
        NextArena(old(AllManaged()), start, at, end);
        AddArena(at, k);
        SpanJoins(start, at, at + Pow(k));
        at := at + Pow(k);
      }
    }

    lemma BlocksNext(at: nat, end: nat)
      requires at <= end
      ensures at == end ==> |Blocks(at, end)| == 0
      ensures at < end ==> var next := at + Pow(NextOrder(at, end));
              next <= end && |Blocks(at, end)| == 1 + |Blocks(next, end)|
    {}

    lemma NoSpan(at: nat)
      ensures Span(at, at) == {}
    {}

    lemma NextArena(managed: set<nat>, start: nat, at: nat, end: nat)
      requires start <= at < end < Pow(WORD_BITS) && Span(start, end) !! managed
      ensures var k := NextOrder(at, end);
              && k <= MAX_ORDER && Aligned(at, k) && at + Pow(k) < Pow(WORD_BITS)
              && Span(at, at + Pow(k)) !! managed + Span(start, at)
    {
      hide Pow, Aligned, Span, FloorOrder, TrailingZeros;
      var k := NextOrder(at, end);
      StartAligned(at, k);
      FloorBelow(end - at, WORD_BITS);
      SpanIs(start, end);
      SpanIs(at, at + Pow(k));
      SpanIs(start, at);
    }

    /** Appends one arena whose order tree is filled as unavailable. */
    method AddArena(base: nat, k: nat)
      requires Valid() && k <= MAX_ORDER && Aligned(base, k) && base + Pow(k) < Pow(WORD_BITS)
      requires Span(base, base + Pow(k)) !! AllManaged()
      requires arenaCount < arenas.Length && arenaCount < 2 * WORD_BITS * regions
               && metadataUsed + 2 * Pow(k) <= metadata.Length
      modifies this`metadataUsed, this`arenaCount, metadata, arenas
      ensures Valid() && Inventory() == old(Inventory())
              && AllManaged() == old(AllManaged()) + Span(base, base + Pow(k))
      ensures arenaCount == old(arenaCount) + 1 && metadataUsed == old(metadataUsed) + 2 * Pow(k)
    {
      hide Managed, Span, Pow, Sound, FreeFrames, Aligned;
      var a := Arena(base, metadataUsed, k);
      var end := metadataUsed + 2 * Pow(k);
      Fill(metadataUsed, end);
      ArenaAdded(old(metadata[..]), metadata[..], arenas[..arenaCount], metadataUsed, a);
      arenas[arenaCount] := a;
      assert arenas[..arenaCount + 1] == old(arenas[..arenaCount]) + [a];
      metadataUsed, arenaCount := end, arenaCount + 1;
    }

    method Fill(lo: nat, hi: nat)
      requires lo <= hi <= metadata.Length
      modifies metadata
      ensures FilledFrom(old(metadata[..]), metadata[..], lo, hi)
    {
      var i := lo;
      while i < hi
        invariant lo <= i <= hi
        invariant forall j :: 0 <= j < lo ==> metadata[j] == old(metadata[j])
        invariant forall j :: lo <= j < i ==> metadata[j] == UNAVAILABLE
      {
        metadata[i] := UNAVAILABLE;
        i := i + 1;
      }
    }

    /** Manages a region whose frames are all free at once. */
    method AddRegion(start: nat, end: nat) returns (r: AddResult)
      requires Valid() && end < Pow(WORD_BITS)
      modifies this`metadataUsed, this`arenaCount, this`freeFrames, this`regions, metadata, arenas
      ensures Valid()
      ensures r == Added ==>
              start < end && AllManaged() == old(AllManaged()) + Span(start, end)
              && Inventory() == old(Inventory()) + Span(start, end)
      ensures r != Added ==> AllManaged() == old(AllManaged()) && Inventory() == old(Inventory())
    {
      hide Managed, Span, Pow, Sound, FreeFrames;
      RangeIsSpan(metadata[..], arenas[..arenaCount], metadataUsed, start, end);
      r := AddManagedRegion(start, end);
      if r == Added {
        var ok := ReleaseRange(start, end);
        assert ok;
      }
    }
  }
}
