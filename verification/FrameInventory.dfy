/** The inventory as a set of free frames, read from the arenas and their order trees. */
module FrameInventory {
  import opened OrderTree
  import opened OrderBytes
  import opened FrameBlocks

  const MAX_ARENAS: nat := 2048

  datatype Arena = Arena(base: nat, start: nat, order: nat)

  function ArenaEnd(a: Arena): nat { a.base + Pow(a.order) }

  function TableEnd(a: Arena): nat { a.start + 2 * Pow(a.order) }

  predicate Holds(a: Arena, f: nat) { a.base <= f < ArenaEnd(a) }

  /** An aligned arena whose order tree lies in the bytes. */
  predicate Placed(n: nat, a: Arena) {
    a.order <= MAX_ORDER && Aligned(a.base, a.order) && ArenaEnd(a) < Pow(WORD_BITS) && Room(n, a.start, 1, a.order)
  }

  function ArenaTree(m: Bytes, a: Arena): Tree
    requires Placed(|m|, a)
  {
    TreeOf(m, a.start, 1, a.order)
  }

  predicate FrameFree(m: Bytes, a: Arena, f: nat) {
    Placed(|m|, a) && Holds(a, f) && Free(ArenaTree(m, a), a.order, f - a.base)
  }

  predicate Apart(a: Arena, b: Arena) {
    && (TableEnd(a) <= b.start || TableEnd(b) <= a.start)
    && (ArenaEnd(a) <= b.base || ArenaEnd(b) <= a.base)
  }

  ghost predicate Sound(m: Bytes, arenas: seq<Arena>, used: nat) {
    && used <= |m|
    && (forall i :: 0 <= i < |arenas| ==> SoundArena(m, arenas[i], used))
    && (forall i, j :: 0 <= i < j < |arenas| ==> Apart(arenas[i], arenas[j]))
  }

  predicate SoundArena(m: Bytes, a: Arena, used: nat) {
    Placed(|m|, a) && Wf(ArenaTree(m, a), a.order) && TableEnd(a) <= used
  }

  predicate HeldBy(arenas: seq<Arena>, i: nat, f: nat) { i < |arenas| && Holds(arenas[i], f) }

  /** Every frame of every arena. */
  function Managed(arenas: seq<Arena>): set<nat> {
    set i: nat, f: nat | i < |arenas| && arenas[i].base <= f < ArenaEnd(arenas[i]) && HeldBy(arenas, i, f) :: f
  }

  predicate FreeBy(m: Bytes, arenas: seq<Arena>, i: nat, f: nat) { i < |arenas| && FrameFree(m, arenas[i], f) }

  /** The free frames. */
  function FreeFrames(m: Bytes, arenas: seq<Arena>): set<nat> {
    set i: nat, f: nat | i < |arenas| && arenas[i].base <= f < ArenaEnd(arenas[i]) && FreeBy(m, arenas, i, f) :: f
  }

  lemma Holder(arenas: seq<Arena>, f: nat) returns (i: nat)
    requires f in Managed(arenas)
    ensures HeldBy(arenas, i, f)
  {
    i :| HeldBy(arenas, i, f);
  }

  lemma FreeHolder(m: Bytes, arenas: seq<Arena>, f: nat) returns (i: nat)
    requires f in FreeFrames(m, arenas)
    ensures FreeBy(m, arenas, i, f)
  {
    i :| FreeBy(m, arenas, i, f);
  }

  function Span(lo: nat, hi: nat): set<nat>
    decreases hi
  {
    if lo >= hi then {} else Span(lo, hi - 1) + {hi - 1}
  }

  lemma {:induction false} SpanIs(lo: nat, hi: nat)
    ensures forall f: nat :: f in Span(lo, hi) <==> lo <= f < hi
    ensures lo <= hi ==> |Span(lo, hi)| == hi - lo
    decreases hi
  {
    if lo < hi {
      SpanIs(lo, hi - 1);
      assert hi - 1 !in Span(lo, hi - 1);
    }
  }

  lemma SpanJoins(lo: nat, mid: nat, hi: nat)
    requires lo <= mid <= hi
    ensures Span(lo, mid) + Span(mid, hi) == Span(lo, hi)
  {
    SpanIs(lo, mid);
    SpanIs(mid, hi);
    SpanIs(lo, hi);
  }

  /** A globally aligned block inside the arena. */
  predicate Within(a: Arena, b: nat, k: nat) {
    Aligned(b, k) && a.base <= b && b + Pow(k) <= ArenaEnd(a)
  }

  lemma WithinBlock(n: nat, a: Arena, b: nat, k: nat)
    requires Placed(n, a) && Within(a, b, k)
    ensures InBlock(b - a.base, k, a.order)
  {
    if k > a.order { PowGrows(a.order, k); }
    AlignedLess(a.base, a.order, k);
    AlignedDifference(b, a.base, k);
  }

  /** Bytes outside the node's own part of the table are not written. */
  lemma {:induction false} PutStaysInside(m: Bytes, s: nat, node: nat, order: nat, off: nat, k: nat, free: bool, i: nat)
    requires Room(|m|, s, node, order) && k <= order && i < |m| && (i < s || i >= s + (node + 1) * Pow(order))
    ensures PutBytes(m, s, node, order, off, k, free)[i] == m[i]
    decreases order
  {
    hide Pow, Merge, Full;
    RoomBelow(|m|, s, node, order);
    Grow(node + 1, Pow(order));
    if k < order {
      var o := OpenBytes(m, s, node, order, !free);
      RoomBelow(|o|, s, node, order);
      Halves(node, order);
      if off < Pow(order - 1) {
        PutStaysInside(o, s, 2 * node, order - 1, off, k, free, i);
      } else {
        PutStaysInside(o, s, 2 * node + 1, order - 1, off - Pow(order - 1), k, free, i);
      }
    }
  }

  lemma Halves(node: nat, order: nat)
    requires order > 0
    ensures (2 * node + 1) * Pow(order - 1) <= (2 * node + 2) * Pow(order - 1) == (node + 1) * Pow(order)
    ensures 2 * node + 2 <= (node + 1) * Pow(order)
  {
    var p := Pow(order - 1);
    assert (2 * node + 2) * p == (node + 1) * (2 * p);
    Grow(2 * node + 2, p);
  }

  function Written(m: Bytes, a: Arena, b: nat, k: nat, free: bool): (r: Bytes)
    requires Placed(|m|, a) && a.base <= b && k <= a.order
    ensures |r| == |m|
  {
    PutBytes(m, a.start, 1, a.order, b - a.base, k, free)
  }

  /** Every frame of the range is free in the arena, or every one is not. */
  ghost predicate AllAre(m: Bytes, a: Arena, lo: nat, hi: nat, free: bool) {
    forall f :: lo <= f < hi ==> FrameFree(m, a, f) == free
  }

  /** Writing one block in its own arena. */
  lemma WrittenHere(m: Bytes, a: Arena, used: nat, b: nat, k: nat, free: bool, f: nat)
    requires SoundArena(m, a, used) && Within(a, b, k) && k <= a.order && FrameFree(m, a, b) != free
    ensures SoundArena(Written(m, a, b, k, free), a, used)
    ensures FrameFree(Written(m, a, b, k, free), a, f) <==> if b <= f < b + Pow(k) then free else FrameFree(m, a, f)
  {
    hide Free, Wf, Put, PutBytes, TreeOf, Aligned;
    WithinBlock(|m|, a, b, k);
    PutBytesIsPut(m, a.start, 1, a.order, b - a.base, k, free);
    PutMeaning(ArenaTree(m, a), a.order, b - a.base, k, free, if Holds(a, f) then f - a.base else 0);
  }

  /** Writing one block leaves every other arena as it was. */
  lemma WrittenElsewhere(m: Bytes, a: Arena, used: nat, b: nat, k: nat, free: bool, c: Arena, f: nat)
    requires Placed(|m|, a) && a.base <= b && k <= a.order && Placed(|m|, c) && Apart(a, c)
    ensures Placed(|m|, c) && ArenaTree(Written(m, a, b, k, free), c) == ArenaTree(m, c)
    ensures FrameFree(Written(m, a, b, k, free), c, f) <==> FrameFree(m, c, f)
  {
    hide PutBytes, TreeOf, Aligned, Free, Wf;
    var r := Written(m, a, b, k, free);
    forall i | c.start <= i < c.start + (1 + 1) * Pow(c.order) ensures m[i] == r[i] {
      PutStaysInside(m, a.start, 1, a.order, b - a.base, k, free, i);
    }
    TreeFrame(m, r, c.start, 1, c.order);
  }

  /** One block taken or released: the inventory changes by exactly its frames. */
  lemma WrittenSound(m: Bytes, arenas: seq<Arena>, used: nat, i: nat, b: nat, k: nat, free: bool)
    requires Sound(m, arenas, used) && i < |arenas| && Within(arenas[i], b, k) && k <= arenas[i].order
    requires FrameFree(m, arenas[i], b) != free
    ensures Sound(Written(m, arenas[i], b, k, free), arenas, used)
    ensures FreeFrames(Written(m, arenas[i], b, k, free), arenas)
         == if free then FreeFrames(m, arenas) + Span(b, b + Pow(k)) else FreeFrames(m, arenas) - Span(b, b + Pow(k))
  {
    hide Free, Wf, PutBytes, TreeOf, Written, Placed, Span, Aligned;
    var a := arenas[i];
    var r := Written(m, a, b, k, free);
    forall j | 0 <= j < |arenas| ensures SoundArena(r, arenas[j], used) {
      if j == i {
        WrittenHere(m, a, used, b, k, free, b);
      } else {
        WrittenElsewhere(m, a, used, b, k, free, arenas[j], b);
      }
    }
    SpanIs(b, b + Pow(k));
    forall f: nat
      ensures f in FreeFrames(r, arenas) <==> if b <= f < b + Pow(k) then free else f in FreeFrames(m, arenas)
    {
      WrittenFrame(m, arenas, used, i, b, k, free, f);
    }
  }

  lemma WrittenFrame(m: Bytes, arenas: seq<Arena>, used: nat, i: nat, b: nat, k: nat, free: bool, f: nat)
    requires Sound(m, arenas, used) && i < |arenas| && Within(arenas[i], b, k) && k <= arenas[i].order
    requires FrameFree(m, arenas[i], b) != free
    ensures f in FreeFrames(Written(m, arenas[i], b, k, free), arenas)
       <==> if b <= f < b + Pow(k) then free else f in FreeFrames(m, arenas)
  {
    hide Free, Wf, PutBytes, TreeOf, Written, Placed, Aligned;
    var a := arenas[i];
    var r := Written(m, a, b, k, free);
    forall j: nat | j < |arenas|
      ensures FreeBy(r, arenas, j, f) <==> if j == i && b <= f < b + Pow(k) then free else FreeBy(m, arenas, j, f)
    {
      if j == i {
        WrittenHere(m, a, used, b, k, free, f);
      } else {
        WrittenElsewhere(m, a, used, b, k, free, arenas[j], f);
      }
    }
    if b <= f < b + Pow(k) {
      assert HeldBy(arenas, i, f);
      OneHolder(arenas, m, used, i, f);
      assert free ==> FreeBy(r, arenas, i, f);
    }
  }

  /** A frame is held by one arena only, so its own arena decides whether it is free. */
  lemma OneHolder(arenas: seq<Arena>, m: Bytes, used: nat, i: nat, f: nat)
    requires Sound(m, arenas, used) && HeldBy(arenas, i, f)
    ensures forall j: nat :: HeldBy(arenas, j, f) ==> j == i
    ensures forall j: nat :: FreeBy(m, arenas, j, f) ==> j == i
    ensures f in Managed(arenas)
    ensures f in FreeFrames(m, arenas) <==> FrameFree(m, arenas[i], f)
  {
    if FrameFree(m, arenas[i], f) { assert FreeBy(m, arenas, i, f); }
  }

  // ---- ranges -----------------------------------------------------------------------------

  /** Every frame of the range is managed, and free or not as said. */
  ghost predicate RangeIs(m: Bytes, arenas: seq<Arena>, lo: nat, hi: nat, free: bool) {
    forall f: nat :: lo <= f < hi ==> f in Managed(arenas) && (f in FreeFrames(m, arenas)) == free
  }

  function Changed(s: set<nat>, lo: nat, hi: nat, free: bool): set<nat> {
    if free then s + Span(lo, hi) else s - Span(lo, hi)
  }

  lemma ChangedJoins(s: set<nat>, lo: nat, mid: nat, hi: nat, free: bool)
    requires lo <= mid <= hi
    ensures Changed(Changed(s, lo, mid, free), mid, hi, free) == Changed(s, lo, hi, free)
  {
    SpanJoins(lo, mid, hi);
  }

  lemma ChangedSize(s: set<nat>, lo: nat, hi: nat, free: bool)
    requires lo <= hi && forall f: nat :: lo <= f < hi ==> (f in s) == !free
    ensures |Changed(s, lo, hi, free)| == if free then |s| + (hi - lo) else |s| - (hi - lo)
  {
    SpanIs(lo, hi);
    if free {
      assert s * Span(lo, hi) == {};
    } else {
      assert Span(lo, hi) <= s;
      assert s == (s - Span(lo, hi)) + Span(lo, hi);
    }
  }

  /** The part of the range one arena holds. */
  lemma ArenaDecides(m: Bytes, arenas: seq<Arena>, used: nat, i: nat, lo: nat, hi: nat, free: bool)
    requires Sound(m, arenas, used) && i < |arenas| && arenas[i].base <= lo && hi <= ArenaEnd(arenas[i])
    ensures AllAre(m, arenas[i], lo, hi, free) <==> RangeIs(m, arenas, lo, hi, free)
  {
    hide FrameFree, Managed, FreeFrames, Sound, FreeBy;
    forall f: nat | lo <= f < hi
      ensures f in Managed(arenas) && (f in FreeFrames(m, arenas) <==> FrameFree(m, arenas[i], f))
    {
      OneHolder(arenas, m, used, i, f);
    }
  }

  lemma NextWithin(a: Arena, at: nat, hi: nat)
    requires a.base <= at < hi <= ArenaEnd(a)
    ensures Within(a, at, NextOrder(at, hi)) && NextOrder(at, hi) <= a.order
  {
    hide Aligned, FloorOrder, TrailingZeros, Pow;
    var k := NextOrder(at, hi);
    StartAligned(at, k);
    if k > a.order { PowGrows(a.order, k); AtLeastOne(a.order); }
  }

  lemma AtLeastOne(k: nat)
    ensures Pow(k) < 2 * Pow(k)
  {}

  // ---- free blocks -------------------------------------------------------------------------

  ghost predicate FreeBlock(m: Bytes, a: Arena, b: nat, k: nat) {
    Within(a, b, k) && AllAre(m, a, b, b + Pow(k), true)
  }

  /** A root byte below `k` means the arena holds no aligned free block of order `k`. */
  lemma NoBlock(m: Bytes, a: Arena, used: nat, k: nat, b: nat)
    requires SoundArena(m, a, used) && FreeBlock(m, a, b, k)
    ensures k <= a.order && Available(ArenaTree(m, a).v, k)
  {
    BlockInTree(m, a, used, k, b);
    RootCovers(ArenaTree(m, a), a.order, b - a.base, k);
  }

  lemma BlockInTree(m: Bytes, a: Arena, used: nat, k: nat, b: nat)
    requires SoundArena(m, a, used) && FreeBlock(m, a, b, k)
    ensures InBlock(b - a.base, k, a.order) && Uniform(ArenaTree(m, a), a.order, b - a.base, k, true)
  {
    hide Free, Wf, TreeOf, Aligned, Pow;
    WithinBlock(|m|, a, b, k);
    var t, d := ArenaTree(m, a), b - a.base;
    forall f | d <= f < d + Pow(k) ensures Free(t, a.order, f) { assert FrameFree(m, a, f + a.base); }
  }

  /** A root byte of at least `k` means there is one, and the descent finds the lowest. */
  lemma PickedBlock(m: Bytes, a: Arena, used: nat, k: nat)
    requires SoundArena(m, a, used) && k <= a.order && Available(ArenaTree(m, a).v, k)
    ensures FreeBlock(m, a, a.base + Pick(ArenaTree(m, a), a.order, k), k)
    ensures forall b: nat :: FreeBlock(m, a, b, k) ==> a.base + Pick(ArenaTree(m, a), a.order, k) <= b
  {
    hide Free, Wf, TreeOf, Aligned, Pow, Pick;
    var t := ArenaTree(m, a);
    var d := Pick(t, a.order, k);
    PickFits(t, a.order, k);
    AlignedLess(a.base, a.order, k);
    AlignedSum(d, a.base, k);
    forall f | d + a.base <= f < d + a.base + Pow(k) ensures FrameFree(m, a, f) { assert Free(t, a.order, f - a.base); }
    forall b: nat | FreeBlock(m, a, b, k) ensures a.base + d <= b {
      BlockInTree(m, a, used, k, b);
      PickIsLowest(t, a.order, k, b - a.base);
    }
  }

  lemma {:induction false} AlignedSum(x: nat, y: nat, k: nat)
    requires Aligned(x, k) && Aligned(y, k)
    ensures Aligned(x + y, k)
    decreases k
  {
    if k > 0 {
      AlignedSum(x / 2, y / 2, k - 1);
      assert (x + y) / 2 == x / 2 + y / 2;
    }
  }

  /** An unavailable root byte means the arena has no free frame. */
  lemma NothingFree(m: Bytes, a: Arena, f: nat)
    requires Placed(|m|, a) && ArenaTree(m, a).v == UNAVAILABLE
    ensures !FrameFree(m, a, f)
  {}

  // ---- new arenas ---------------------------------------------------------------------------

  ghost predicate FilledFrom(m: Bytes, n: Bytes, used: nat, hi: nat) {
    && |m| == |n| && used <= hi <= |m| && (forall i :: 0 <= i < used ==> n[i] == m[i])
    && (forall i :: used <= i < hi ==> n[i] == UNAVAILABLE)
  }

  lemma FilledKeeps(m: Bytes, n: Bytes, used: nat, hi: nat, c: Arena, f: nat)
    requires FilledFrom(m, n, used, hi) && SoundArena(m, c, used)
    ensures SoundArena(n, c, hi) && (FrameFree(n, c, f) <==> FrameFree(m, c, f))
  {
    hide Free, Wf, Aligned, Pow;
    TreeFrame(m, n, c.start, 1, c.order);
  }

  /** A new arena next to the others: nothing of it is free yet. */
  lemma ArenaAdded(m: Bytes, n: Bytes, arenas: seq<Arena>, used: nat, a: Arena)
    requires Sound(m, arenas, used) && a.start == used && FilledFrom(m, n, used, TableEnd(a))
    requires a.order <= MAX_ORDER && Aligned(a.base, a.order) && ArenaEnd(a) < Pow(WORD_BITS)
    requires Span(a.base, ArenaEnd(a)) !! Managed(arenas)
    ensures Sound(n, arenas + [a], TableEnd(a))
    ensures FreeFrames(n, arenas + [a]) == FreeFrames(m, arenas)
    ensures Managed(arenas + [a]) == Managed(arenas) + Span(a.base, ArenaEnd(a))
  {
    hide Free, Aligned, Pow, TreeOf, Wf, Managed, FreeFrames, FilledFrom, Apart;
    var all := arenas + [a];
    assert Placed(|n|, a) && ArenaTree(n, a).v == UNAVAILABLE by { FreshArena(m, n, used, a); }
    forall j | 0 <= j < |all| ensures SoundArena(n, all[j], TableEnd(a)) {
      if j < |arenas| { FilledKeeps(m, n, used, TableEnd(a), arenas[j], 0); } else { EmptyIsSound(n, a); }
    }
    forall i, j | 0 <= i < j < |all| ensures Apart(all[i], all[j]) {
      if j == |arenas| { NewIsApart(m, arenas, used, a, i); }
    }
    AddedManaged(arenas, a);
    AddedFree(m, n, arenas, used, a);
  }

  lemma EmptyIsSound(n: Bytes, a: Arena)
    requires Placed(|n|, a) && ArenaTree(n, a).v == UNAVAILABLE
    ensures SoundArena(n, a, TableEnd(a))
  {}

  lemma FreshArena(m: Bytes, n: Bytes, used: nat, a: Arena)
    requires a.start == used && FilledFrom(m, n, used, TableEnd(a))
    requires a.order <= MAX_ORDER && Aligned(a.base, a.order) && ArenaEnd(a) < Pow(WORD_BITS)
    ensures Placed(|n|, a) && ArenaTree(n, a).v == UNAVAILABLE
  {
    hide Aligned;
    RoomBelow(|n|, a.start, 1, a.order);
  }

  lemma NewIsApart(m: Bytes, arenas: seq<Arena>, used: nat, a: Arena, i: nat)
    requires Sound(m, arenas, used) && a.start == used && i < |arenas| && Span(a.base, ArenaEnd(a)) !! Managed(arenas)
    ensures Apart(arenas[i], a)
  {
    hide Wf, TreeOf, Aligned;
    assert SoundArena(m, arenas[i], used);
    SpanIs(a.base, ArenaEnd(a));
    var f := if a.base < arenas[i].base then arenas[i].base else a.base;
    assert f in Span(a.base, ArenaEnd(a)) ==> !HeldBy(arenas, i, f);
  }

  lemma AddedManaged(arenas: seq<Arena>, a: Arena)
    ensures Managed(arenas + [a]) == Managed(arenas) + Span(a.base, ArenaEnd(a))
  {
    var all := arenas + [a];
    SpanIs(a.base, ArenaEnd(a));
    forall f: nat | f in Span(a.base, ArenaEnd(a)) ensures f in Managed(all) { assert HeldBy(all, |arenas|, f); }
    forall f: nat | f in Managed(arenas) ensures f in Managed(all) {
      var i := Holder(arenas, f);
      assert HeldBy(all, i, f);
    }
    forall f: nat | f in Managed(all) ensures f in Managed(arenas) + Span(a.base, ArenaEnd(a)) {
      var i := Holder(all, f);
      if i < |arenas| { assert HeldBy(arenas, i, f); }
    }
  }

  lemma AddedFree(m: Bytes, n: Bytes, arenas: seq<Arena>, used: nat, a: Arena)
    requires Sound(m, arenas, used) && FilledFrom(m, n, used, TableEnd(a))
    requires Placed(|n|, a) && ArenaTree(n, a).v == UNAVAILABLE
    ensures FreeFrames(n, arenas + [a]) == FreeFrames(m, arenas)
  {
    hide Pow, Free, Wf, TreeOf, Aligned, FilledFrom;
    var all := arenas + [a];
    forall f: nat | f in FreeFrames(m, arenas) ensures f in FreeFrames(n, all) {
      var i := FreeHolder(m, arenas, f);
      FilledKeeps(m, n, used, TableEnd(a), arenas[i], f);
      assert FreeBy(n, all, i, f);
    }
    forall f: nat | f in FreeFrames(n, all) ensures f in FreeFrames(m, arenas) {
      var i := FreeHolder(n, all, f);
      if i < |arenas| {
        FilledKeeps(m, n, used, TableEnd(a), arenas[i], f);
        assert FreeBy(m, arenas, i, f);
      } else {
        NothingFree(n, a, f);
      }
    }
  }
}
