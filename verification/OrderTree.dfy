/** The order tree of one arena: a full binary tree of bytes. A byte equal to the node's own order says
    the whole block is free, UNAVAILABLE says none of it is; below such a node the bytes mean nothing.
    Any other byte is the largest order free somewhere below. */
module OrderTree {

  const UNAVAILABLE: nat := 255

  const MAX_ORDER: nat := 63

  function Pow(k: nat): (p: nat)
    ensures p >= 1
  {
    if k == 0 then 1 else 2 * Pow(k - 1)
  }

  /** `x` is a multiple of 2^k. */
  predicate Aligned(x: nat, k: nat) {
    k == 0 || (x % 2 == 0 && Aligned(x / 2, k - 1))
  }

  datatype Tree = Tip(v: nat) | Fork(v: nat, left: Tree, right: Tree)

  predicate Shaped(t: Tree, order: nat) {
    if order == 0 then t.Tip? else t.Fork? && Shaped(t.left, order - 1) && Shaped(t.right, order - 1)
  }

  function MaxAvailable(l: nat, r: nat): nat {
    if l == UNAVAILABLE then r else if r == UNAVAILABLE then l else if l < r then r else l
  }

  /** The byte of a node of the given order over its children's bytes. */
  function Merge(order: nat, l: nat, r: nat): nat {
    if l + 1 == order && r + 1 == order then order else MaxAvailable(l, r)
  }

  predicate Available(v: nat, k: nat) { v != UNAVAILABLE && v >= k }

  predicate Wf(t: Tree, order: nat) {
    || t.v == order
    || t.v == UNAVAILABLE
    || (&& t.Fork? && order > 0 && Wf(t.left, order - 1) && Wf(t.right, order - 1)
        && t.v == Merge(order, t.left.v, t.right.v))
  }

  /** Whether the frame at offset `f` of the block is free. */
  predicate Free(t: Tree, order: nat, f: nat) {
    || t.v == order
    || (&& t.v != UNAVAILABLE && t.Fork? && order > 0
        && if f < Pow(order - 1) then Free(t.left, order - 1, f) else Free(t.right, order - 1, f - Pow(order - 1)))
  }

  /** The byte of a block that is wholly free, or wholly not. */
  function Full(free: bool, order: nat): nat { if free then order else UNAVAILABLE }

  function Marked(t: Tree, order: nat, v: nat): (m: Tree)
    requires Shaped(t, order)
    ensures Shaped(m, order) && m.v == v
  {
    match t
    case Tip(_) => Tip(v)
    case Fork(_, l, r) => Fork(v, l, r)
  }

  /** The node with its own verdict handed down to its children, if it has one. */
  function Opened(t: Tree, order: nat, free: bool): (o: Tree)
    requires order > 0 && Shaped(t, order)
    ensures o.Fork? && Shaped(o.left, order - 1) && Shaped(o.right, order - 1)
  {
    if t.v == Full(free, order) then
      Fork(t.v, Marked(t.left, order - 1, Full(free, order - 1)), Marked(t.right, order - 1, Full(free, order - 1)))
    else t
  }

  /** The tree after the block of order `k` at offset `off` is released, or taken. */
  function Put(t: Tree, order: nat, off: nat, k: nat, free: bool): (r: Tree)
    requires Shaped(t, order) && k <= order
    ensures Shaped(r, order)
    decreases order
  {
    if k == order then Marked(t, order, Full(free, k))
    else
      var o := Opened(t, order, !free);
      if off < Pow(order - 1) then
        var l := Put(o.left, order - 1, off, k, free);
        Fork(Merge(order, l.v, o.right.v), l, o.right)
      else
        var r := Put(o.right, order - 1, off - Pow(order - 1), k, free);
        Fork(Merge(order, o.left.v, r.v), o.left, r)
  }

  // ---- alignment ----------------------------------------------------------------------

  lemma {:induction false} AlignedFits(x: nat, k: nat, o: nat)
    requires Aligned(x, k) && k <= o && x < Pow(o)
    ensures x + Pow(k) <= Pow(o)
    decreases k
  {
    if k > 0 { AlignedFits(x / 2, k - 1, o - 1); }
  }

  lemma {:induction false} AlignedShift(x: nat, k: nat, o: nat)
    requires k <= o
    ensures Aligned(x + Pow(o), k) <==> Aligned(x, k)
    decreases k
  {
    if k > 0 {
      AlignedShift(x / 2, k - 1, o - 1);
      assert (x + Pow(o)) / 2 == x / 2 + Pow(o - 1);
    }
  }

  lemma {:induction false} AlignedLess(x: nat, k: nat, j: nat)
    requires Aligned(x, k) && j <= k
    ensures Aligned(x, j)
    decreases k
  {
    if j > 0 { AlignedLess(x / 2, k - 1, j - 1); }
  }

  lemma {:induction false} PowGrows(j: nat, k: nat)
    requires j <= k
    ensures Pow(j) <= Pow(k) && (j < k ==> 2 * Pow(j) <= Pow(k))
    decreases k - j
  {
    if j < k { PowGrows(j, k - 1); }
  }

  /** Offset of the block inside the half it lies in. */
  lemma HalfAligned(off: nat, k: nat, order: nat)
    requires Aligned(off, k) && k < order && off + Pow(k) <= Pow(order)
    ensures off < Pow(order - 1) ==> off + Pow(k) <= Pow(order - 1)
    ensures off >= Pow(order - 1) ==> Aligned(off - Pow(order - 1), k)
  {
    if off < Pow(order - 1) {
      AlignedFits(off, k, order - 1);
    } else {
      AlignedShift(off - Pow(order - 1), k, order - 1);
    }
  }

  // ---- what a tree says ---------------------------------------------------------------

  lemma {:induction false} WfBound(t: Tree, order: nat)
    requires Wf(t, order) && order <= MAX_ORDER
    ensures t.v <= order || t.v == UNAVAILABLE
    decreases order
  {
    if t.v != order && t.v != UNAVAILABLE {
      WfBound(t.left, order - 1);
      WfBound(t.right, order - 1);
    }
  }

  /** Only a wholly free block has no frame that is taken. */
  lemma {:induction false} TakenFrame(t: Tree, order: nat) returns (f: nat)
    requires Shaped(t, order) && Wf(t, order) && order <= MAX_ORDER && t.v != order
    ensures f < Pow(order) && !Free(t, order, f)
    decreases order
  {
    f := 0;
    if t.v != UNAVAILABLE {
      WfBound(t.left, order - 1);
      WfBound(t.right, order - 1);
      if t.left.v != order - 1 {
        f := TakenFrame(t.left, order - 1);
      } else {
        f := TakenFrame(t.right, order - 1);
        f := f + Pow(order - 1);
      }
    }
  }

  /** Only an unavailable block has no frame that is free. */
  lemma {:induction false} FreeFrame(t: Tree, order: nat) returns (f: nat)
    requires Shaped(t, order) && Wf(t, order) && order <= MAX_ORDER && t.v != UNAVAILABLE
    ensures f < Pow(order) && Free(t, order, f)
    decreases order
  {
    f := 0;
    if t.v != order {
      if t.left.v != UNAVAILABLE {
        f := FreeFrame(t.left, order - 1);
      } else {
        f := FreeFrame(t.right, order - 1);
        f := f + Pow(order - 1);
      }
    }
  }

  /** The block of order `k` at offset `off`, every frame of it free or every frame of it taken. */
  ghost predicate Uniform(t: Tree, order: nat, off: nat, k: nat, free: bool) {
    forall f :: off <= f < off + Pow(k) ==> Free(t, order, f) == free
  }

  ghost predicate InBlock(off: nat, k: nat, order: nat) {
    k <= order <= MAX_ORDER && Aligned(off, k) && off + Pow(k) <= Pow(order)
  }

  lemma HalfUniform(t: Tree, order: nat, off: nat, k: nat, free: bool)
    requires t.Fork? && order > 0 && t.v != order && t.v != UNAVAILABLE && Uniform(t, order, off, k, free)
    ensures off + Pow(k) <= Pow(order - 1) ==> Uniform(t.left, order - 1, off, k, free)
    ensures off >= Pow(order - 1) ==> Uniform(t.right, order - 1, off - Pow(order - 1), k, free)
  {
    var below: nat, h := order - 1, Pow(order - 1);
    if off + Pow(k) <= h {
      forall f | off <= f < off + Pow(k) ensures Free(t.left, below, f) == free { assert Free(t, order, f) == free; }
    }
    if off >= h {
      forall f | off - h <= f < off - h + Pow(k)
        ensures Free(t.right, below, f) == free
      {
        assert Free(t, order, f + h) == free;
      }
    }
  }

  /** The root byte is at least the order of every aligned free block inside. */
  lemma {:induction false} RootCovers(t: Tree, order: nat, off: nat, k: nat)
    requires Shaped(t, order) && Wf(t, order) && InBlock(off, k, order) && Uniform(t, order, off, k, true)
    ensures Available(t.v, k)
    decreases order
  {
    assert Free(t, order, off);
    if t.v != order {
      if k == order {
        var f := TakenFrame(t, order);
      } else {
        HalfAligned(off, k, order);
        HalfUniform(t, order, off, k, true);
        WfBound(t.left, order - 1);
        WfBound(t.right, order - 1);
        if off < Pow(order - 1) {
          RootCovers(t.left, order - 1, off, k);
        } else {
          RootCovers(t.right, order - 1, off - Pow(order - 1), k);
        }
      }
    }
  }

  /** Where the descent for a block of order `k` ends: left whenever the left half can serve it. */
  function Pick(t: Tree, order: nat, k: nat): nat
    requires Shaped(t, order) && k <= order
    decreases order
  {
    if k == order then 0
    else
      var o := Opened(t, order, true);
      if Available(o.left.v, k) then Pick(o.left, order - 1, k) else Pow(order - 1) + Pick(o.right, order - 1, k)
  }

  lemma OpenedSame(t: Tree, order: nat, free: bool, f: nat)
    requires Shaped(t, order) && Wf(t, order) && 0 < order <= MAX_ORDER && t.v != Full(!free, order) && f < Pow(order)
    ensures var o := Opened(t, order, free);
            && Wf(o.left, order - 1) && Wf(o.right, order - 1)
            && (Free(t, order, f) <==> FreeBelow(o, order, f))
  {}

  predicate FreeBelow(t: Tree, order: nat, f: nat)
    requires t.Fork? && order > 0
  {
    if f < Pow(order - 1) then Free(t.left, order - 1, f) else Free(t.right, order - 1, f - Pow(order - 1))
  }

  /** The block picked is aligned, inside, and free: a root byte of at least `k` is never a promise broken. */
  lemma PickFits(t: Tree, order: nat, k: nat)
    requires Shaped(t, order) && Wf(t, order) && k <= order <= MAX_ORDER && Available(t.v, k)
    ensures InBlock(Pick(t, order, k), k, order) && Uniform(t, order, Pick(t, order, k), k, true)
  {
    var off := Pick(t, order, k);
    PickInside(t, order, k);
    forall f | off <= f < off + Pow(k) ensures Free(t, order, f) { PickFree(t, order, k, f); }
  }

  lemma {:induction false} PickInside(t: Tree, order: nat, k: nat)
    requires Shaped(t, order) && k <= order <= MAX_ORDER
    ensures InBlock(Pick(t, order, k), k, order)
    decreases order
  {
    if k == order {
      ZeroAligned(k);
    } else {
      var o := Opened(t, order, true);
      PowGrows(k, order - 1);
      PickInside(o.left, order - 1, k);
      PickInside(o.right, order - 1, k);
      AlignedShift(Pick(o.right, order - 1, k), k, order - 1);
    }
  }

  lemma {:induction false} PickFree(t: Tree, order: nat, k: nat, f: nat)
    requires Shaped(t, order) && Wf(t, order) && k <= order <= MAX_ORDER && Available(t.v, k)
    requires Pick(t, order, k) <= f < Pick(t, order, k) + Pow(k)
    ensures Free(t, order, f)
    decreases order
  {
    WfBound(t, order);
    if k < order {
      var o, h := Opened(t, order, true), Pow(order - 1);
      PickInside(t, order, k);
      OneHalf(t, order, k);
      OpenedSame(t, order, true, f);
      if Available(o.left.v, k) {
        PickInside(o.left, order - 1, k);
        PickFree(o.left, order - 1, k, f);
      } else {
        PickFree(o.right, order - 1, k, f - h);
      }
    }
  }

  /** A node that promises a block has a half that does. */
  lemma OneHalf(t: Tree, order: nat, k: nat)
    requires Shaped(t, order) && Wf(t, order) && k < order <= MAX_ORDER && Available(t.v, k)
    ensures var o := Opened(t, order, true);
            Available(o.left.v, k) || Available(o.right.v, k)
  {
    if t.v != order {
      WfBound(t.left, order - 1);
      WfBound(t.right, order - 1);
    }
  }

  lemma {:induction false} ZeroAligned(k: nat)
    ensures Aligned(0, k)
  {
    if k > 0 { ZeroAligned(k - 1); }
  }

  /** No aligned free block of order `k` lies below the one picked. */
  lemma {:induction false} PickIsLowest(t: Tree, order: nat, k: nat, off: nat)
    requires Shaped(t, order) && Wf(t, order) && InBlock(off, k, order) && Uniform(t, order, off, k, true)
    ensures Pick(t, order, k) <= off
    decreases order
  {
    RootCovers(t, order, off, k);
    if k < order {
      var o := Opened(t, order, true);
      OpenedSame(t, order, true, 0);
      HalfAligned(off, k, order);
      OpenedUniform(t, order, off, k);
      if off < Pow(order - 1) {
        RootCovers(o.left, order - 1, off, k);
        PickIsLowest(o.left, order - 1, k, off);
      } else if Available(o.left.v, k) {
        PickFits(o.left, order - 1, k);
      } else {
        PickIsLowest(o.right, order - 1, k, off - Pow(order - 1));
      }
    }
  }

  lemma OpenedUniform(t: Tree, order: nat, off: nat, k: nat)
    requires Shaped(t, order) && Wf(t, order) && 0 < order <= MAX_ORDER && t.v != UNAVAILABLE
    requires off + Pow(k) <= Pow(order) && Uniform(t, order, off, k, true)
    ensures var o := Opened(t, order, true);
            && (off + Pow(k) <= Pow(order - 1) ==> Uniform(o.left, order - 1, off, k, true))
            && (off >= Pow(order - 1) ==> Uniform(o.right, order - 1, off - Pow(order - 1), k, true))
  {
    var o, below: nat, h := Opened(t, order, true), order - 1, Pow(order - 1);
    if off + Pow(k) <= h {
      forall f | off <= f < off + Pow(k) ensures Free(o.left, below, f) { OpenedSame(t, order, true, f); }
    }
    if off >= h {
      forall f | off - h <= f < off - h + Pow(k) ensures Free(o.right, below, f) { OpenedSame(t, order, true, f + h); }
    }
  }

  /** Taking or releasing a block changes exactly its frames, whatever stale bytes lie below. */
  lemma {:induction false} PutMeaning(t: Tree, order: nat, off: nat, k: nat, free: bool, f: nat)
    requires Shaped(t, order) && Wf(t, order) && InBlock(off, k, order) && f < Pow(order)
    requires Free(t, order, off) != free
    ensures Wf(Put(t, order, off, k, free), order)
    ensures Free(Put(t, order, off, k, free), order, f) <==> if off <= f < off + Pow(k) then free else Free(t, order, f)
    decreases order
  {
    hide Free, Wf, Merge, Opened;
    if k == order {
      PutHere(t, order, free, f);
    } else {
      var o, h := Opened(t, order, !free), Pow(order - 1);
      NotDecided(t, order, free, off);
      OpenedSame(t, order, !free, off);
      OpenedSame(t, order, !free, f);
      HalfAligned(off, k, order);
      if off < h {
        PutMeaning(o.left, order - 1, off, k, free, if f < h then f else 0);
      } else {
        PutMeaning(o.right, order - 1, off - h, k, free, if f < h then 0 else f - h);
      }
      Merged(Put(t, order, off, k, free), order, f);
    }
  }

  lemma NotDecided(t: Tree, order: nat, free: bool, f: nat)
    requires Free(t, order, f) != free && order <= MAX_ORDER
    ensures t.v != Full(free, order)
  {}

  lemma PutHere(t: Tree, order: nat, free: bool, f: nat)
    requires Shaped(t, order) && order <= MAX_ORDER
    ensures Wf(Put(t, order, 0, order, free), order) && Free(Put(t, order, 0, order, free), order, f) == free
  {}

  lemma Merged(r: Tree, order: nat, f: nat)
    requires r.Fork? && 0 < order <= MAX_ORDER && Wf(r.left, order - 1) && Wf(r.right, order - 1)
    requires r.v == Merge(order, r.left.v, r.right.v)
    ensures Wf(r, order)
    ensures Free(r, order, f) <==> FreeBelow(r, order, f)
  {
    WfBound(r.left, order - 1);
    WfBound(r.right, order - 1);
  }

  // ---- asking about one block -----------------------------------------------------------

  /** The verdict of the descent that asks whether every frame of a block is free. */
  predicate AllFree(t: Tree, order: nat, off: nat, k: nat) {
    || t.v == order
    || (&& t.v != UNAVAILABLE && k < order && t.Fork?
        && if off < Pow(order - 1) then AllFree(t.left, order - 1, off, k)
            else AllFree(t.right, order - 1, off - Pow(order - 1), k))
  }

  /** The verdict of the descent that asks whether some frame of a block is free. */
  predicate SomeFree(t: Tree, order: nat, off: nat, k: nat) {
    || t.v == order
    || (&& t.v != UNAVAILABLE
        && (k >= order || !t.Fork? || if off < Pow(order - 1) then SomeFree(t.left, order - 1, off, k)
                                      else SomeFree(t.right, order - 1, off - Pow(order - 1), k)))
  }

  lemma {:induction false} AllFreeMeans(t: Tree, order: nat, off: nat, k: nat)
    requires Shaped(t, order) && Wf(t, order) && InBlock(off, k, order)
    ensures AllFree(t, order, off, k) <==> Uniform(t, order, off, k, true)
    decreases order
  {
    if t.v == order {
    } else if t.v == UNAVAILABLE {
      assert !Free(t, order, off);
    } else if k == order {
      var f := TakenFrame(t, order);
    } else {
      HalfAligned(off, k, order);
      HalfOfBlock(t, order, off, k, true);
      if off < Pow(order - 1) {
        AllFreeMeans(t.left, order - 1, off, k);
      } else {
        AllFreeMeans(t.right, order - 1, off - Pow(order - 1), k);
      }
    }
  }

  lemma HalfOfBlock(t: Tree, order: nat, off: nat, k: nat, free: bool)
    requires t.Fork? && order > 0 && t.v != order && t.v != UNAVAILABLE
    requires off + Pow(k) <= Pow(order - 1) || off >= Pow(order - 1)
    ensures Uniform(t, order, off, k, free)
       <==> if off < Pow(order - 1) then Uniform(t.left, order - 1, off, k, free)
            else Uniform(t.right, order - 1, off - Pow(order - 1), k, free)
  {
    var below: nat, h := order - 1, Pow(order - 1);
    if Uniform(t, order, off, k, free) {
      HalfUniform(t, order, off, k, free);
    } else {
      var f :| off <= f < off + Pow(k) && Free(t, order, f) != free;
      assert if off < h then Free(t.left, below, f) != free else Free(t.right, below, f - h) != free;
    }
  }

  lemma {:induction false} SomeFreeMeans(t: Tree, order: nat, off: nat, k: nat)
    requires Shaped(t, order) && Wf(t, order) && InBlock(off, k, order)
    ensures SomeFree(t, order, off, k) <==> !Uniform(t, order, off, k, false)
    decreases order
  {
    if t.v == order {
      assert Free(t, order, off);
    } else if t.v == UNAVAILABLE {
    } else if k == order {
      var f := FreeFrame(t, order);
    } else {
      HalfAligned(off, k, order);
      HalfOfBlock(t, order, off, k, false);
      if off < Pow(order - 1) {
        SomeFreeMeans(t.left, order - 1, off, k);
      } else {
        SomeFreeMeans(t.right, order - 1, off - Pow(order - 1), k);
      }
    }
  }
}
