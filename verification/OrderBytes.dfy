/** An order tree kept in a byte table: node 1 is the root, the children of `node` are 2*node and 2*node+1,
    and `s` is where the table starts. Writing on the way down and merging on the way up is `Put`. */
module OrderBytes {
  import opened OrderTree

  type Bytes = seq<nat>

  /** The nodes below `node`, `order` levels deep, lie in the table. */
  predicate Room(n: nat, s: nat, node: nat, order: nat) {
    node >= 1 && s + (node + 1) * Pow(order) <= n
  }

  lemma RoomBelow(n: nat, s: nat, node: nat, order: nat)
    requires Room(n, s, node, order)
    ensures node >= 1 && s + node < n
    ensures order > 0 ==> Room(n, s, 2 * node, order - 1) && Room(n, s, 2 * node + 1, order - 1)
  {
    assert (node + 1) * Pow(order) >= node + 1 by { Grow(node + 1, Pow(order)); }
    if order > 0 {
      var p := Pow(order - 1);
      assert (2 * node + 2) * p == (node + 1) * (2 * p);
      assert (2 * node + 1) * p <= (2 * node + 2) * p;
    }
  }

  lemma Grow(a: nat, b: nat)
    requires b >= 1
    ensures a * b >= a
  {}

  function TreeOf(m: Bytes, s: nat, node: nat, order: nat): (t: Tree)
    requires Room(|m|, s, node, order)
    ensures Shaped(t, order)
    decreases order
  {
    RoomBelow(|m|, s, node, order);
    if order == 0 then Tip(m[s + node])
    else Fork(m[s + node], TreeOf(m, s, 2 * node, order - 1), TreeOf(m, s, 2 * node + 1, order - 1))
  }

  /** `n` is `k` or a node below it. */
  predicate Under(k: nat, n: nat) {
    n == k || (n > k && Under(k, n / 2))
  }

  lemma {:induction false} UnderParent(k: nat, n: nat)
    requires k >= 1 && (Under(2 * k, n) || Under(2 * k + 1, n))
    ensures Under(k, n) && n > k
    decreases n
  {
    if n != 2 * k && n != 2 * k + 1 { UnderParent(k, n / 2); }
  }

  lemma {:induction false} SiblingsApart(k: nat, n: nat)
    requires k >= 1
    ensures !(Under(2 * k, n) && Under(2 * k + 1, n))
    decreases n
  {
    if n > 2 * k + 1 { SiblingsApart(k, n / 2); }
  }

  ghost predicate AgreeUnder(a: Bytes, b: Bytes, s: nat, node: nat) {
    |a| == |b| && forall n :: Under(node, n) && s + n < |a| ==> a[s + n] == b[s + n]
  }

  ghost predicate AgreeElsewhere(a: Bytes, b: Bytes, s: nat, node: nat) {
    |a| == |b| && (forall i :: 0 <= i < |a| && i < s ==> a[i] == b[i])
    && forall n :: !Under(node, n) && 0 <= n && s + n < |a| ==> a[s + n] == b[s + n]
  }

  lemma {:induction false} SameTree(a: Bytes, b: Bytes, s: nat, node: nat, order: nat)
    requires Room(|a|, s, node, order) && AgreeUnder(a, b, s, node)
    ensures TreeOf(a, s, node, order) == TreeOf(b, s, node, order)
    decreases order
  {
    RoomBelow(|a|, s, node, order);
    assert Under(node, node);
    if order > 0 {
      var l, r := 2 * node, 2 * node + 1;
      forall n | Under(l, n) || Under(r, n) ensures Under(node, n) { UnderParent(node, n); }
      SameTree(a, b, s, l, order - 1);
      SameTree(a, b, s, r, order - 1);
    }
  }

  /** Bytes after the node's own verdict is written to its children, if it has one. */
  function OpenBytes(m: Bytes, s: nat, node: nat, order: nat, free: bool): (r: Bytes)
    requires Room(|m|, s, node, order) && order > 0
    ensures |r| == |m|
  {
    RoomBelow(|m|, s, node, order);
    RoomBelow(|m|, s, 2 * node, order - 1);
    RoomBelow(|m|, s, 2 * node + 1, order - 1);
    if m[s + node] == Full(free, order) then
      m[s + 2 * node := Full(free, order - 1)][s + 2 * node + 1 := Full(free, order - 1)]
    else m
  }

  /** Bytes after the block of order `k` at offset `off` below `node` is released, or taken. */
  function PutBytes(m: Bytes, s: nat, node: nat, order: nat, off: nat, k: nat, free: bool): (r: Bytes)
    requires Room(|m|, s, node, order) && k <= order
    ensures |r| == |m|
    decreases order
  {
    RoomBelow(|m|, s, node, order);
    if k == order then m[s + node := Full(free, k)]
    else
      var o := OpenBytes(m, s, node, order, !free);
      RoomBelow(|o|, s, node, order);
      RoomBelow(|o|, s, 2 * node, order - 1);
      RoomBelow(|o|, s, 2 * node + 1, order - 1);
      var r := if off < Pow(order - 1) then PutBytes(o, s, 2 * node, order - 1, off, k, free)
               else PutBytes(o, s, 2 * node + 1, order - 1, off - Pow(order - 1), k, free);
      r[s + node := Merge(order, r[s + 2 * node], r[s + 2 * node + 1])]
  }

  /** Bytes after every ancestor of `node`, a node of the given order, is merged again. */
  function Ascended(m: Bytes, s: nat, node: nat, order: nat): (r: Bytes)
    requires s + node < |m|
    decreases node
  {
    if node <= 1 || s + 2 * (node / 2) + 1 >= |m| then m
    else
      var p := node / 2;
      Ascended(m[s + p := Merge(order + 1, m[s + 2 * p], m[s + 2 * p + 1])], s, p, order + 1)
  }

  lemma AscendStep(m: Bytes, s: nat, node: nat, order: nat)
    requires node > 1 && s + node < |m| && s + 2 * (node / 2) + 1 < |m|
    ensures var p := node / 2;
            Ascended(m, s, node, order)
                == Ascended(m[s + p := Merge(order + 1, m[s + 2 * p], m[s + 2 * p + 1])], s, p, order + 1)
  {
    hide Merge;
  }

  lemma AscendEnds(m: Bytes, s: nat, node: nat, order: nat)
    requires node <= 1 && s + node < |m|
    ensures Ascended(m, s, node, order) == m
  {}

  lemma PutHereBytes(m: Bytes, s: nat, node: nat, k: nat, off: nat, free: bool)
    requires Room(|m|, s, node, k)
    ensures s + node < |m| && PutBytes(m, s, node, k, off, k, free) == m[s + node := Full(free, k)]
  {
    RoomBelow(|m|, s, node, k);
  }

  /** Going down to a child and merging on the way back is the operation on the parent. */
  lemma WalkDown(m: Bytes, s: nat, node: nat, order: nat, off: nat, k: nat, free: bool, right: bool, rel: nat)
    requires Room(|m|, s, node, order) && k < order && right == (off >= Pow(order - 1))
             && off == rel + (if right then Pow(order - 1) else 0)
    ensures var o := OpenBytes(m, s, node, order, !free);
            var c := 2 * node + if right then 1 else 0;
            && Room(|o|, s, c, order - 1) && s + node < |m| && s + c < |m|
            && Ascended(PutBytes(o, s, c, order - 1, rel, k, free), s, c, order - 1)
               == Ascended(PutBytes(m, s, node, order, off, k, free), s, node, order)
  {
    hide Merge, Full, OpenBytes, Ascended, Pow, Room;
    var o := OpenBytes(m, s, node, order, !free);
    RoomBelow(|m|, s, node, order);
    RoomBelow(|o|, s, 2 * node, order - 1);
    RoomBelow(|o|, s, 2 * node + 1, order - 1);
    var c := 2 * node + if right then 1 else 0;
    AscendStep(PutBytes(o, s, c, order - 1, rel, k, free), s, c, order - 1);
  }

  function PickIn(m: Bytes, s: nat, node: nat, order: nat, k: nat): nat
    requires Room(|m|, s, node, order) && k <= order
  {
    Pick(TreeOf(m, s, node, order), order, k)
  }

  /** The half the descent for a free block goes on with, and where it ends from there. */
  lemma PickDown(m: Bytes, s: nat, node: nat, order: nat, k: nat, right: bool, child: nat)
    requires Room(|m|, s, node, order) && k < order <= MAX_ORDER && child == 2 * node + (if right then 1 else 0)
    requires Room(|m|, s, 2 * node, order - 1) && Room(|m|, s, 2 * node + 1, order - 1)
             && Room(|m|, s, child, order - 1) && s + 2 * node < |m|
    requires right == !Available(OpenBytes(m, s, node, order, true)[s + 2 * node], k)
    ensures right == (PickIn(m, s, node, order, k) >= Pow(order - 1))
    ensures PickIn(m, s, node, order, k)
            == PickIn(OpenBytes(m, s, node, order, true), s, child, order - 1, k)
            + (if right then Pow(order - 1) else 0)
  {
    hide Opened, OpenBytes, Pow, Room, TreeOf, Pick, Shaped;
    OpenBytesIsOpened(m, s, node, order, true);
    var o := OpenBytes(m, s, node, order, true);
    TreeParts(o, s, node, order);
    var t := Opened(TreeOf(m, s, node, order), order, true);
    PickStep(TreeOf(m, s, node, order), order, k);
    PickInside(t.left, order - 1, k);
  }

  lemma TreeParts(m: Bytes, s: nat, node: nat, order: nat)
    requires Room(|m|, s, node, order) && order > 0 && s + 2 * node < |m|
    requires Room(|m|, s, 2 * node, order - 1) && Room(|m|, s, 2 * node + 1, order - 1)
    ensures var t := TreeOf(m, s, node, order);
            && t.Fork? && t.left == TreeOf(m, s, 2 * node, order - 1)
                && t.right == TreeOf(m, s, 2 * node + 1, order - 1) && t.left.v == m[s + 2 * node]
  {
    hide Room, Pow;
    RoomBelow(|m|, s, 2 * node, order - 1);
  }

  lemma PickStep(t: Tree, order: nat, k: nat)
    requires Shaped(t, order) && k < order
    ensures var o := Opened(t, order, true);
            Pick(t, order, k) == if Available(o.left.v, k) then Pick(o.left, order - 1, k)
                else Pow(order - 1) + Pick(o.right, order - 1, k)
  {}

  lemma BlockDown(m: Bytes, s: nat, node: nat, order: nat, off: nat, k: nat, right: bool, rel: nat)
    requires Room(|m|, s, node, order) && k < order && s + node < |m| && m[s + node] != order
             && m[s + node] != UNAVAILABLE
    requires right == (off >= Pow(order - 1)) && off == rel + (if right then Pow(order - 1) else 0)
    ensures var c := 2 * node + if right then 1 else 0;
            && Room(|m|, s, c, order - 1) && s + c < |m|
            && AllFree(TreeOf(m, s, node, order), order, off, k)
                == AllFree(TreeOf(m, s, c, order - 1), order - 1, rel, k)
            && SomeFree(TreeOf(m, s, node, order), order, off, k)
                == SomeFree(TreeOf(m, s, c, order - 1), order - 1, rel, k)
  {
    hide Pow, Room;
    RoomBelow(|m|, s, node, order);
    RoomBelow(|m|, s, 2 * node, order - 1);
    RoomBelow(|m|, s, 2 * node + 1, order - 1);
  }

  lemma BlockHere(m: Bytes, s: nat, node: nat, order: nat, off: nat, k: nat)
    requires Room(|m|, s, node, order) && s + node < |m|
             && (m[s + node] == order || m[s + node] == UNAVAILABLE || order == k) && k <= order <= MAX_ORDER
    ensures AllFree(TreeOf(m, s, node, order), order, off, k) == (m[s + node] == order)
    ensures SomeFree(TreeOf(m, s, node, order), order, off, k) == (m[s + node] != UNAVAILABLE)
  {
    RoomBelow(|m|, s, node, order);
  }

  lemma PutElsewhere(m: Bytes, s: nat, node: nat, order: nat, off: nat, k: nat, free: bool)
    requires Room(|m|, s, node, order) && k <= order
    ensures AgreeElsewhere(m, PutBytes(m, s, node, order, off, k, free), s, node)
  {
    var r := PutBytes(m, s, node, order, off, k, free);
    forall i | 0 <= i < |m| && i < s ensures m[i] == r[i] { PutMisses(m, s, node, order, off, k, free, i); }
    forall n | !Under(node, n) && 0 <= n && s + n < |m|
      ensures m[s + n] == r[s + n]
    {
      PutMisses(m, s, node, order, off, k, free, s + n);
    }
  }

  /** Neither a node outside the subtree nor a byte before the table. */
  ghost predicate Outside(i: nat, s: nat, node: nat) {
    i < s || !Under(node, i - s)
  }

  lemma OutsideBelow(i: nat, s: nat, node: nat)
    requires node >= 1 && Outside(i, s, node)
    ensures i != s + node && i != s + 2 * node && i != s + 2 * node + 1
    ensures Outside(i, s, 2 * node) && Outside(i, s, 2 * node + 1)
  {
    if i >= s {
      var n := i - s;
      if Under(2 * node, n) || Under(2 * node + 1, n) { UnderParent(node, n); }
    }
  }

  lemma OpenMisses(m: Bytes, s: nat, node: nat, order: nat, free: bool, i: nat)
    requires Room(|m|, s, node, order) && order > 0 && i < |m| && i != s + 2 * node && i != s + 2 * node + 1
    ensures OpenBytes(m, s, node, order, free)[i] == m[i]
  {
    RoomBelow(|m|, s, node, order);
    RoomBelow(|m|, s, 2 * node, order - 1);
    RoomBelow(|m|, s, 2 * node + 1, order - 1);
  }

  lemma {:induction false} PutMisses(m: Bytes, s: nat, node: nat, order: nat, off: nat, k: nat, free: bool, i: nat)
    requires Room(|m|, s, node, order) && k <= order && i < |m| && Outside(i, s, node)
    ensures PutBytes(m, s, node, order, off, k, free)[i] == m[i]
    decreases order
  {
    hide Outside, Merge, Full, Pow, Room, OpenBytes;
    RoomBelow(|m|, s, node, order);
    OutsideBelow(i, s, node);
    if k < order {
      var o := OpenBytes(m, s, node, order, !free);
      OpenMisses(m, s, node, order, !free, i);
      if off < Pow(order - 1) {
        PutMisses(o, s, 2 * node, order - 1, off, k, free, i);
      } else {
        PutMisses(o, s, 2 * node + 1, order - 1, off - Pow(order - 1), k, free, i);
      }
    }
  }

  /** The bytes written are those of the tree after the operation. */
  lemma {:induction false} PutBytesIsPut(m: Bytes, s: nat, node: nat, order: nat, off: nat, k: nat, free: bool)
    requires Room(|m|, s, node, order) && k <= order
    ensures TreeOf(PutBytes(m, s, node, order, off, k, free), s, node, order)
            == Put(TreeOf(m, s, node, order), order, off, k, free)
    decreases order
  {
    hide AgreeElsewhere, OpenBytes, Opened, Merge, Full;
    RoomBelow(|m|, s, node, order);
    if k == order {
      Rewritten(m, s, node, order, Full(free, k));
    } else {
      var o, h := OpenBytes(m, s, node, order, !free), Pow(order - 1);
      RoomBelow(|o|, s, node, order);
      OpenBytesIsOpened(m, s, node, order, !free);
      if off < h {
        PutBytesIsPut(o, s, 2 * node, order - 1, off, k, free);
        PutElsewhere(o, s, 2 * node, order - 1, off, k, free);
        var q := PutBytes(o, s, 2 * node, order - 1, off, k, free);
        OtherHalf(o, q, s, node, order, true);
        Joined(q, s, node, order);
      } else {
        PutBytesIsPut(o, s, 2 * node + 1, order - 1, off - h, k, free);
        PutElsewhere(o, s, 2 * node + 1, order - 1, off - h, k, free);
        var q := PutBytes(o, s, 2 * node + 1, order - 1, off - h, k, free);
        OtherHalf(o, q, s, node, order, false);
        Joined(q, s, node, order);
      }
    }
  }

  /** Merging a node from its children's bytes. */
  lemma Joined(q: Bytes, s: nat, node: nat, order: nat)
    requires Room(|q|, s, node, order) && order > 0
    ensures s + 2 * node + 1 < |q| && Room(|q|, s, 2 * node, order - 1) && Room(|q|, s, 2 * node + 1, order - 1)
    ensures var l, r := TreeOf(q, s, 2 * node, order - 1), TreeOf(q, s, 2 * node + 1, order - 1);
            TreeOf(q[s + node := Merge(order, q[s + 2 * node], q[s + 2 * node + 1])], s, node, order)
                == Fork(Merge(order, l.v, r.v), l, r)
  {
    RoomBelow(|q|, s, node, order);
    RoomBelow(|q|, s, 2 * node + 1, order - 1);
    Rewritten(q, s, node, order, Merge(order, q[s + 2 * node], q[s + 2 * node + 1]));
  }

  /** Writing a node's byte changes nothing below it. */
  lemma Rewritten(m: Bytes, s: nat, node: nat, order: nat, v: nat)
    requires Room(|m|, s, node, order)
    ensures s + node < |m| && TreeOf(m[s + node := v], s, node, order) == Marked(TreeOf(m, s, node, order), order, v)
  {
    RoomBelow(|m|, s, node, order);
    if order > 0 {
      var r := m[s + node := v];
      forall n | Under(2 * node, n) || Under(2 * node + 1, n) ensures n != node { UnderParent(node, n); }
      SameTree(m, r, s, 2 * node, order - 1);
      SameTree(m, r, s, 2 * node + 1, order - 1);
    }
  }

  lemma OtherHalf(a: Bytes, b: Bytes, s: nat, node: nat, order: nat, left: bool)
    requires Room(|a|, s, node, order) && order > 0 && AgreeElsewhere(a, b, s, if left then 2 * node else 2 * node + 1)
    ensures Room(|a|, s, 2 * node, order - 1) && Room(|a|, s, 2 * node + 1, order - 1)
    ensures left ==> TreeOf(a, s, 2 * node + 1, order - 1) == TreeOf(b, s, 2 * node + 1, order - 1)
    ensures !left ==> TreeOf(a, s, 2 * node, order - 1) == TreeOf(b, s, 2 * node, order - 1)
  {
    RoomBelow(|a|, s, node, order);
    var other := if left then 2 * node + 1 else 2 * node;
    forall n | Under(other, n) && s + n < |a| ensures a[s + n] == b[s + n] {
      SiblingsApart(node, n);
      assert n >= 0;
    }
    SameTree(a, b, s, other, order - 1);
  }

  lemma OpenBytesIsOpened(m: Bytes, s: nat, node: nat, order: nat, free: bool)
    requires Room(|m|, s, node, order) && order > 0
    ensures var o := OpenBytes(m, s, node, order, free);
            && Room(|o|, s, node, order) && TreeOf(o, s, node, order) == Opened(TreeOf(m, s, node, order), order, free)
  {
    var o := OpenBytes(m, s, node, order, free);
    RoomBelow(|m|, s, node, order);
    if m[s + node] == Full(free, order) {
      var x := m[s + 2 * node := Full(free, order - 1)];
      Rewritten(m, s, 2 * node, order - 1, Full(free, order - 1));
      SiblingWritten(m, s, node, order, true, Full(free, order - 1));
      RoomBelow(|x|, s, node, order);
      Rewritten(x, s, 2 * node + 1, order - 1, Full(free, order - 1));
      SiblingWritten(x, s, node, order, false, Full(free, order - 1));
    }
  }

  lemma SiblingWritten(m: Bytes, s: nat, node: nat, order: nat, left: bool, v: nat)
    requires Room(|m|, s, node, order) && order > 0
    ensures var c := if left then 2 * node else 2 * node + 1;
            var d := if left then 2 * node + 1 else 2 * node;
            && s + c < |m| && Room(|m|, s, d, order - 1)
                && TreeOf(m[s + c := v], s, d, order - 1) == TreeOf(m, s, d, order - 1)
  {
    RoomBelow(|m|, s, node, order);
    var c := if left then 2 * node else 2 * node + 1;
    RoomBelow(|m|, s, c, order - 1);
    var r := m[s + c := v];
    assert AgreeElsewhere(m, r, s, c);
    OtherHalf(m, r, s, node, order, left);
  }

  /** Bytes outside the table of an arena do not matter to its tree. */
  lemma {:induction false} TreeFrame(a: Bytes, b: Bytes, s: nat, node: nat, order: nat)
    requires Room(|a|, s, node, order) && |a| == |b|
             && forall i :: s <= i < s + (node + 1) * Pow(order) ==> a[i] == b[i]
    ensures TreeOf(a, s, node, order) == TreeOf(b, s, node, order)
    decreases order
  {
    RoomBelow(|a|, s, node, order);
    assert (node + 1) * Pow(order) >= node + 1 by { Grow(node + 1, Pow(order)); }
    if order > 0 {
      var p := Pow(order - 1);
      assert (2 * node + 2) * p == (node + 1) * (2 * p);
      assert (2 * node + 1) * p <= (2 * node + 2) * p;
      TreeFrame(a, b, s, 2 * node, order - 1);
      TreeFrame(a, b, s, 2 * node + 1, order - 1);
    }
  }

  // ---- binary digits --------------------------------------------------------------------

  /** Digit `o` of `x` in base two. */
  predicate Bit(x: nat, o: nat) {
    if o == 0 then x % 2 == 1 else Bit(x / 2, o - 1)
  }

  /** The low `o` digits of `x`. */
  function Low(x: nat, o: nat): (r: nat) {
    if o == 0 then 0 else 2 * Low(x / 2, o - 1) + x % 2
  }

  lemma {:induction false} LowBound(x: nat, o: nat)
    ensures Low(x, o) < Pow(o) && (x < Pow(o) ==> Low(x, o) == x)
    decreases o
  {
    if o > 0 { LowBound(x / 2, o - 1); }
  }

  /** The next digit says which half the offset falls into. */
  lemma {:induction false} NextDigit(x: nat, o: nat)
    ensures Low(x, o + 1) == Low(x, o) + (if Bit(x, o) then Pow(o) else 0)
    ensures Bit(x, o) <==> Low(x, o + 1) >= Pow(o)
    decreases o
  {
    if o > 0 { NextDigit(x / 2, o - 1); }
    LowBound(x, o);
  }

  function FloorOrder(v: nat): (k: nat)
    ensures v > 0 ==> Pow(k) <= v < 2 * Pow(k)
  {
    if v < 2 then 0 else 1 + FloorOrder(v / 2)
  }
}
