/** A binary min-heap of deadlines, described by the sequence of its keys. */
module TimerHeap {

  function Parent(i: nat): nat
    requires i > 0
  {
    (i - 1) / 2
  }

  predicate InOrder(k: seq<nat>, i: nat)
    requires 0 < i < |k|
  {
    k[Parent(i)] <= k[i]
  }

  ghost predicate Heap(k: seq<nat>) {
    forall i :: 0 < i < |k| ==> InOrder(k, i)
  }

  /** A heap but for the entry at `c`, which may be too small for its place. */
  ghost predicate HeapUnder(k: seq<nat>, c: nat) {
    && c < |k| && (forall i :: 0 < i < |k| && i != c ==> InOrder(k, i))
    && (c > 0 ==> forall i :: 0 < i < |k| && Parent(i) == c ==> k[Parent(c)] <= k[i])
  }

  /** A heap but for the entry at `p`, which may be too large for its place. */
  ghost predicate HeapOver(k: seq<nat>, p: nat) {
    && p < |k| && (forall i :: 0 < i < |k| && Parent(i) != p ==> InOrder(k, i))
    && (p > 0 ==> forall i :: 0 < i < |k| && Parent(i) == p ==> k[Parent(p)] <= k[i])
  }

  function Swap<T>(s: seq<T>, i: nat, j: nat): (r: seq<T>)
    requires i < |s| && j < |s|
    ensures |r| == |s|
  {
    s[i := s[j]][j := s[i]]
  }

  lemma UpStep(k: seq<nat>, c: nat)
    requires HeapUnder(k, c) && c > 0 && k[Parent(c)] > k[c]
    ensures HeapUnder(Swap(k, Parent(c), c), Parent(c))
  {
    var p := Parent(c);
    var q := Swap(k, p, c);
    forall i | 0 < i < |q| && i != p ensures InOrder(q, i) {
      if i != c { assert InOrder(k, i); }
      if p > 0 { assert InOrder(k, p); }
    }
    if p > 0 {
      assert InOrder(k, p);
      forall i | 0 < i < |q| && Parent(i) == p ensures q[Parent(p)] <= q[i] { if i != c { assert InOrder(k, i); } }
    }
  }

  lemma UpEnds(k: seq<nat>, c: nat)
    requires HeapUnder(k, c) && (c == 0 || k[Parent(c)] <= k[c])
    ensures Heap(k)
  {
    forall i | 0 < i < |k| ensures InOrder(k, i) { if i != c { assert InOrder(k, i); } }
  }

  lemma DownStep(k: seq<nat>, p: nat, c: nat)
    requires HeapOver(k, p) && 0 < c < |k| && Parent(c) == p && k[c] < k[p]
    requires forall i :: 0 < i < |k| && Parent(i) == p ==> k[c] <= k[i]
    ensures HeapOver(Swap(k, p, c), c)
  {
    var q := Swap(k, p, c);
    forall i | 0 < i < |q| && Parent(i) != c ensures InOrder(q, i) {
      if Parent(i) != p { assert InOrder(k, i); }
    }
    forall i | 0 < i < |q| && Parent(i) == c ensures q[Parent(c)] <= q[i] { assert InOrder(k, i); }
  }

  lemma DownEnds(k: seq<nat>, p: nat)
    requires HeapOver(k, p) && forall i :: 0 < i < |k| && Parent(i) == p ==> k[p] <= k[i]
    ensures Heap(k)
  {
    forall i | 0 < i < |k| ensures InOrder(k, i) { if Parent(i) != p { assert InOrder(k, i); } }
  }

  /** The first entry of a heap is a smallest one. */
  lemma {:induction false} FirstIsLeast(k: seq<nat>, i: nat)
    requires Heap(k) && i < |k|
    ensures k[0] <= k[i]
    decreases i
  {
    if i > 0 {
      FirstIsLeast(k, Parent(i));
      assert InOrder(k, i);
    }
  }

  /** Replacing one key leaves a heap that is wrong at that place only. */
  lemma Lowered(k: seq<nat>, c: nat, x: nat)
    requires Heap(k) && c < |k| && x <= k[c]
    ensures HeapUnder(k[c := x], c)
  {
    var q := k[c := x];
    forall i | 0 < i < |q| && i != c ensures InOrder(q, i) { assert InOrder(k, i); }
    if c > 0 {
      forall i | 0 < i < |q| && Parent(i) == c ensures q[Parent(c)] <= q[i] { assert InOrder(k, c) && InOrder(k, i); }
    }
  }

  lemma Pushed(k: seq<nat>, x: nat)
    requires Heap(k)
    ensures HeapUnder(k + [x], |k|)
  {
    var q := k + [x];
    forall i | 0 < i < |q| && i != |k| ensures InOrder(q, i) { assert InOrder(k, i); }
  }

  /** Dropping the last key, or putting it in the place of another. */
  lemma Shortened(k: seq<nat>, i: nat)
    requires Heap(k) && i < |k|
    ensures Heap(k[..|k| - 1])
    ensures i < |k| - 1 ==> var q := k[i := k[|k| - 1]][..|k| - 1];
              if i > 0 && q[i] < q[Parent(i)] then HeapUnder(q, i) else HeapOver(q, i)
  {
    var n := |k| - 1;
    var s := k[..n];
    forall j | 0 < j < n ensures InOrder(s, j) { assert InOrder(k, j); }
    if i < n {
      var q := k[i := k[n]][..n];
      assert q == s[i := k[n]];
      if i > 0 && q[i] < q[Parent(i)] {
        assert InOrder(k, i);
        Lowered(s, i, k[n]);
      } else {
        OverAt(s, i, k[n]);
      }
    }
  }

  lemma OverAt(k: seq<nat>, p: nat, x: nat)
    requires Heap(k) && p < |k| && (p > 0 ==> k[Parent(p)] <= x)
    ensures HeapOver(k[p := x], p)
  {
    var q := k[p := x];
    forall i | 0 < i < |q| && Parent(i) != p ensures InOrder(q, i) { assert InOrder(k, i); }
    if p > 0 {
      forall i | 0 < i < |q| && Parent(i) == p ensures q[Parent(p)] <= q[i] { assert InOrder(k, p) && InOrder(k, i); }
    }
  }

  /** A key may only rise: what is under it has to be put right. */
  lemma Raised(k: seq<nat>, p: nat, x: nat)
    requires Heap(k) && p < |k| && k[p] <= x
    ensures HeapOver(k[p := x], p)
  {
    if p > 0 { assert InOrder(k, p); }
    OverAt(k, p, x);
  }
}
