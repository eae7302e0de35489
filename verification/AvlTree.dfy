/**
  Balanced search trees with stored heights: rotations, rebalancing, insertion and removal, over the in-order sequence
  they stand for.
*/
module AvlTree {
  import opened Wrappers

  datatype Tree<V> = Nil | Node(left: Tree<V>, key: nat, value: V, height: nat, right: Tree<V>)

  /** Two runs with an entry between them. */
  function Join<X>(a: seq<X>, e: X, b: seq<X>): seq<X> { a + [e] + b }

  /** The entries in order. */
  function Items<V>(t: Tree<V>): (s: seq<(nat, V)>) {
    if t.Nil? then [] else Join(Items(t.left), (t.key, t.value), Items(t.right))
  }

  ghost predicate Ascending<V>(s: seq<(nat, V)>) { forall i, j :: 0 <= i < j < |s| ==> s[i].0 < s[j].0 }

  function Height<V>(t: Tree<V>): nat { if t.Nil? then 0 else t.height }

  /** Every height is right and no two sides differ by more than one. */
  predicate Avl<V>(t: Tree<V>) {
    t.Node? ==>
      && Avl(t.left) && Avl(t.right) && t.height == 1 + Max(Height(t.left), Height(t.right))
      && Height(t.left) <= Height(t.right) + 1 && Height(t.right) <= Height(t.left) + 1
  }

  function Update<V>(t: Tree<V>): Tree<V>
    requires t.Node?
  {
    t.(height := 1 + Max(Height(t.left), Height(t.right)))
  }

  function RotateLeft<V>(t: Tree<V>): (r: Tree<V>)
    requires t.Node? && t.right.Node?
  {
    Update(t.right.(left := Update(t.(right := t.right.left))))
  }

  function RotateRight<V>(t: Tree<V>): (r: Tree<V>)
    requires t.Node? && t.left.Node?
  {
    Update(t.left.(right := Update(t.(left := t.left.right))))
  }

  function Rebalance<V>(node: Tree<V>): (r: Tree<V>)
    requires node.Node? && Avl(node.left) && Avl(node.right)
  {
    var t := Update(node);
    if Height(t.left) > Height(t.right) + 1 then
      RotateRight(if Height(t.left.left) < Height(t.left.right) then t.(left := RotateLeft(t.left)) else t)
    else if Height(t.right) > Height(t.left) + 1 then
      RotateLeft(if Height(t.right.right) < Height(t.right.left) then t.(right := RotateRight(t.right)) else t)
    else t
  }

  lemma JoinAssoc<X>(a: seq<X>, e: X, b: seq<X>, f: X, c: seq<X>)
    ensures Join(Join(a, e, b), f, c) == Join(a, e, Join(b, f, c))
  {
    assert (a + [e] + b) + [f] + c == a + [e] + (b + [f] + c);
  }

  lemma RotateItems<V>(t: Tree<V>)
    requires t.Node?
    ensures t.right.Node? ==> Items(RotateLeft(t)) == Items(t)
    ensures t.left.Node? ==> Items(RotateRight(t)) == Items(t)
  {
    hide Join;
    if t.right.Node? {
      JoinAssoc(Items(t.left), (t.key, t.value), Items(t.right.left), (t.right.key, t.right.value),
                Items(t.right.right));
    }
    if t.left.Node? {
      JoinAssoc(Items(t.left.left), (t.left.key, t.left.value), Items(t.left.right), (t.key, t.value), Items(t.right));
    }
  }

  /** Rebalancing keeps the entries and repairs sides that are two apart. */
  lemma RebalanceItems<V>(node: Tree<V>)
    requires node.Node? && Avl(node.left) && Avl(node.right)
    ensures Items(Rebalance(node)) == Items(node)
  {
    var t := Update(node);
    assert Items(t) == Items(node);
    if Height(t.left) > Height(t.right) + 1 {
      RotateItems(t.left);
      var u := if Height(t.left.left) < Height(t.left.right) then t.(left := RotateLeft(t.left)) else t;
      RotateItems(u);
    } else if Height(t.right) > Height(t.left) + 1 {
      RotateItems(t.right);
      var u := if Height(t.right.right) < Height(t.right.left) then t.(right := RotateRight(t.right)) else t;
      RotateItems(u);
    }
  }

  lemma RebalanceAvl<V>(node: Tree<V>)
    requires node.Node? && Avl(node.left) && Avl(node.right) && Height(node.left) <= Height(node.right) + 2
             && Height(node.right) <= Height(node.left) + 2
    ensures Avl(Rebalance(node)) && Rebalance(node).Node?
    ensures var m := Max(Height(node.left), Height(node.right));
            var h := Height(Rebalance(node));
            if Height(node.left) <= Height(node.right) + 1
                && Height(node.right) <= Height(node.left) + 1 then h == m + 1 else m <= h <= m + 1
  {
    if Height(node.left) > Height(node.right) + 1 { LeftHeavy(node); }
    else if Height(node.right) > Height(node.left) + 1 { RightHeavy(node); }
  }

  lemma LeftHeavy<V>(node: Tree<V>)
    requires node.Node? && Avl(node.left) && Avl(node.right) && Height(node.left) == Height(node.right) + 2
    ensures Avl(Rebalance(node)) && Rebalance(node).Node?
            && Height(node.left) <= Height(Rebalance(node)) <= Height(node.left) + 1
  {
    var l := node.left;
    if Height(l.left) < Height(l.right) { assert Avl(l.right) && l.right.Node?; }
  }

  lemma RightHeavy<V>(node: Tree<V>)
    requires node.Node? && Avl(node.left) && Avl(node.right) && Height(node.right) == Height(node.left) + 2
    ensures Avl(Rebalance(node)) && Rebalance(node).Node?
            && Height(node.right) <= Height(Rebalance(node)) <= Height(node.right) + 1
  {
    var r := node.right;
    if Height(r.right) < Height(r.left) { assert Avl(r.left) && r.left.Node?; }
  }

  function Insert<V>(t: Tree<V>, key: nat, value: V): (r: Tree<V>)
    requires Avl(t)
    ensures Avl(r) && r.Node? && Height(t) <= Height(r) <= Height(t) + 1
  {
    if t.Nil? then Node(Nil, key, value, 1, Nil)
    else
      var n := if key < t.key then t.(left := Insert(t.left, key, value)) else t.(right := Insert(t.right, key, value));
      RebalanceAvl(n);
      Rebalance(n)
  }

  function TakeMin<V>(t: Tree<V>): (r: (Tree<V>, (nat, V)))
    requires Avl(t) && t.Node?
    ensures Avl(r.0) && Height(r.0) <= Height(t) <= Height(r.0) + 1
  {
    if t.left.Nil? then (t.right, (t.key, t.value))
    else
      var (left, min) := TakeMin(t.left);
      RebalanceAvl(t.(left := left));
      (Rebalance(t.(left := left)), min)
  }

  function Remove<V>(t: Tree<V>, key: nat): (r: (Tree<V>, Option<V>))
    requires Avl(t)
    ensures Avl(r.0) && Height(r.0) <= Height(t) <= Height(r.0) + 1
  {
    if t.Nil? then (Nil, None)
    else if key < t.key then
      var (left, removed) := Remove(t.left, key);
      RebalanceAvl(t.(left := left));
      (Rebalance(t.(left := left)), removed)
    else if key > t.key then
      var (right, removed) := Remove(t.right, key);
      RebalanceAvl(t.(right := right));
      (Rebalance(t.(right := right)), removed)
    else if t.left.Nil? then (t.right, Some(t.value))
    else if t.right.Nil? then (t.left, Some(t.value))
    else
      var (right, min) := TakeMin(t.right);
      var n := Node(t.left, min.0, min.1, t.height, right);
      RebalanceAvl(n);
      (Rebalance(n), Some(t.value))
  }

  // ---- what the operations do to the sequence ----------------------------------------------------------

  ghost predicate AllBelow<V>(s: seq<(nat, V)>, k: nat) { forall i :: 0 <= i < |s| ==> s[i].0 < k }

  ghost predicate AllAbove<V>(s: seq<(nat, V)>, k: nat) { forall i :: 0 <= i < |s| ==> k < s[i].0 }

  ghost predicate Absent<V>(s: seq<(nat, V)>, k: nat) { forall i :: 0 <= i < |s| ==> s[i].0 != k }

  /** The place of a key in a run. */
  ghost predicate Fits<V>(s: seq<(nat, V)>, i: nat, k: nat) {
    i <= |s| && (forall j :: 0 <= j < i ==> s[j].0 < k) && (forall j :: i <= j < |s| ==> k < s[j].0)
  }

  function PutAt<X>(s: seq<X>, i: nat, x: X): seq<X>
    requires i <= |s|
  {
    s[..i] + [x] + s[i..]
  }

  function CutAt<X>(s: seq<X>, i: nat): seq<X>
    requires i < |s|
  {
    s[..i] + s[i + 1..]
  }

  lemma JoinAscending<V>(a: seq<(nat, V)>, e: (nat, V), b: seq<(nat, V)>)
    ensures Ascending(Join(a, e, b)) <==> Ascending(a) && Ascending(b) && AllBelow(a, e.0) && AllAbove(b, e.0)
  {
    var s := a + [e] + b;
    if Ascending(s) {
      forall i | 0 <= i < |a| ensures a[i].0 < e.0 { assert s[i] == a[i] && s[|a|] == e; }
      forall i | 0 <= i < |b| ensures e.0 < b[i].0 { assert s[|a| + 1 + i] == b[i] && s[|a|] == e; }
      forall i, j | 0 <= i < j < |a| ensures a[i].0 < a[j].0 { assert s[i] == a[i] && s[j] == a[j]; }
      forall i, j | 0 <= i < j < |b|
        ensures b[i].0 < b[j].0
      {
        assert s[|a| + 1 + i] == b[i] && s[|a| + 1 + j] == b[j];
      }
    }
  }

  lemma JoinAbsent<V>(a: seq<(nat, V)>, e: (nat, V), b: seq<(nat, V)>, k: nat)
    ensures Absent(Join(a, e, b), k) <==> Absent(a, k) && e.0 != k && Absent(b, k)
  {
    var s := a + [e] + b;
    if Absent(s, k) {
      forall i | 0 <= i < |a| ensures a[i].0 != k { assert s[i] == a[i]; }
      assert s[|a|] == e;
      forall i | 0 <= i < |b| ensures b[i].0 != k { assert s[|a| + 1 + i] == b[i]; }
    }
  }

  /** A change on one side of a join, seen from the whole. */
  lemma JoinLeft<V>(a: seq<(nat, V)>, e: (nat, V), b: seq<(nat, V)>, i: nat, x: (nat, V))
    requires i <= |a|
    ensures i <= |Join(a, e, b)| && Join(PutAt(a, i, x), e, b) == PutAt(Join(a, e, b), i, x)
    ensures i < |a| ==>
            i < |Join(a, e, b)| && Join(CutAt(a, i), e, b) == CutAt(Join(a, e, b), i) && Join(a, e, b)[i] == a[i]
    ensures Fits(a, i, x.0) && x.0 < e.0 && AllAbove(b, e.0) ==> Fits(Join(a, e, b), i, x.0)
  {}

  lemma JoinRight<V>(a: seq<(nat, V)>, e: (nat, V), b: seq<(nat, V)>, j: nat, x: (nat, V))
    requires j <= |b|
    ensures var i := |a| + 1 + j; i <= |Join(a, e, b)| && Join(a, e, PutAt(b, j, x)) == PutAt(Join(a, e, b), i, x)
    ensures j < |b| ==> var i := |a| + 1 + j;
            i < |Join(a, e, b)| && Join(a, e, CutAt(b, j)) == CutAt(Join(a, e, b), i) && Join(a, e, b)[i] == b[j]
    ensures Fits(b, j, x.0) && x.0 > e.0 && AllBelow(a, e.0) ==> Fits(Join(a, e, b), |a| + 1 + j, x.0)
  {
    var i, s := |a| + 1 + j, Join(a, e, b);
    assert s[..i] == a + [e] + b[..j] && s[i..] == b[j..];
    assert (a + [e]) + (b[..j] + [x] + b[j..]) == (a + [e] + b[..j]) + [x] + b[j..];
    if j < |b| {
      assert s[i + 1..] == b[j + 1..];
      assert (a + [e]) + (b[..j] + b[j + 1..]) == (a + [e] + b[..j]) + b[j + 1..];
    }
    if Fits(b, j, x.0) && x.0 > e.0 && AllBelow(a, e.0) {
      forall q | 0 <= q < |s|
        ensures if q < i then s[q].0 < x.0 else x.0 < s[q].0
      {
        if q > |a| { assert s[q] == b[q - |a| - 1]; }
      }
    }
  }

  lemma JoinCut<X>(a: seq<X>, e: X, b: seq<X>)
    ensures |a| < |Join(a, e, b)| && Join(a, e, b)[|a|] == e && CutAt(Join(a, e, b), |a|) == a + b
  {
    assert Join(a, e, b)[..|a|] == a && Join(a, e, b)[|a| + 1..] == b;
  }

  /** An entry goes in at the one place that keeps the order; nothing else moves. */
  lemma {:induction false} InsertItems<V>(t: Tree<V>, key: nat, value: V) returns (i: nat)
    requires Avl(t) && Ascending(Items(t)) && Absent(Items(t), key)
    ensures Fits(Items(t), i, key) && Items(Insert(t, key, value)) == PutAt(Items(t), i, (key, value))
  {
    hide *;
    InsertNode(t, key, value);
    if t.Nil? { return 0; }
    var a, e, b := Items(t.left), (t.key, t.value), Items(t.right);
    JoinAscending(a, e, b);
    JoinAbsent(a, e, b, key);
    if key < t.key {
      i := InsertItems(t.left, key, value);
      FitsSize(a, i, key);
      RebalanceItems(t.(left := Insert(t.left, key, value)));
      JoinLeft(a, e, b, i, (key, value));
    } else {
      var j := InsertItems(t.right, key, value);
      FitsSize(b, j, key);
      RebalanceItems(t.(right := Insert(t.right, key, value)));
      i := |a| + 1 + j;
      JoinRight(a, e, b, j, (key, value));
    }
  }

  lemma InsertNode<V>(t: Tree<V>, key: nat, value: V)
    requires Avl(t)
    ensures t.Nil? ==> Fits(Items(t), 0, key) && Items(Insert(t, key, value)) == PutAt(Items(t), 0, (key, value))
    ensures t.Node? ==> Avl(t.left) && Avl(t.right) && Items(t) == Join(Items(t.left), (t.key, t.value), Items(t.right))
    ensures t.Node? && key < t.key ==> var n := t.(left := Insert(t.left, key, value));
            Avl(n.left) && Insert(t, key, value) == Rebalance(n)
                && Items(n) == Join(Items(n.left), (t.key, t.value), Items(t.right))
    ensures t.Node? && key >= t.key ==> var n := t.(right := Insert(t.right, key, value));
            Avl(n.right) && Insert(t, key, value) == Rebalance(n)
                && Items(n) == Join(Items(t.left), (t.key, t.value), Items(n.right))
  {}

  lemma FitsSize<V>(s: seq<(nat, V)>, i: nat, k: nat)
    requires Fits(s, i, k)
    ensures i <= |s|
  {}

  lemma {:induction false} TakeMinItems<V>(t: Tree<V>)
    requires Avl(t) && t.Node?
    ensures Items(t) == [TakeMin(t).1] + Items(TakeMin(t).0)
  {
    if t.left.Nil? {
      assert Join([], (t.key, t.value), Items(t.right)) == [(t.key, t.value)] + Items(t.right);
    } else {
      var (left, min) := TakeMin(t.left);
      TakeMinItems(t.left);
      RebalanceItems(t.(left := left));
      assert Join([min] + Items(left), (t.key, t.value), Items(t.right))
             == [min] + Join(Items(left), (t.key, t.value), Items(t.right));
    }
  }

  /** A key that is there goes out with its value; nothing else moves. */
  lemma {:induction false} RemoveItems<V>(t: Tree<V>, key: nat) returns (i: nat)
    requires Avl(t) && Ascending(Items(t))
    ensures Remove(t, key).1.None? ==> Items(Remove(t, key).0) == Items(t) && Absent(Items(t), key)
    ensures Remove(t, key).1.Some? ==>
            i < |Items(t)| && Items(t)[i] == (key, Remove(t, key).1.value)
            && Items(Remove(t, key).0) == CutAt(Items(t), i)
  {
    hide *;
    RemoveNode(t, key);
    if t.Nil? { return 0; }
    var a, e, b := Items(t.left), (t.key, t.value), Items(t.right);
    JoinAscending(a, e, b);
    JoinAbsent(a, e, b, key);
    if key < t.key {
      BelowAbsent(b, e.0, key);
      RebalanceItems(t.(left := Remove(t.left, key).0));
      i := RemoveItems(t.left, key);
      if Remove(t, key).1.Some? { JoinLeft(a, e, b, i, e); }
    } else if key > t.key {
      AboveAbsent(a, e.0, key);
      RebalanceItems(t.(right := Remove(t.right, key).0));
      var j := RemoveItems(t.right, key);
      i := |a| + 1 + j;
      if Remove(t, key).1.Some? { JoinRight(a, e, b, j, e); }
    } else {
      i := |a|;
      RemoveHere(t);
    }
  }

  lemma RemoveNode<V>(t: Tree<V>, key: nat)
    requires Avl(t)
    ensures t.Nil? ==> Remove(t, key) == (t, None) && Absent(Items(t), key)
    ensures t.Node? ==> Avl(t.left) && Avl(t.right) && Items(t) == Join(Items(t.left), (t.key, t.value), Items(t.right))
    ensures t.Node? && key < t.key ==> var n := t.(left := Remove(t.left, key).0);
            Avl(n.left) && Remove(t, key) == (Rebalance(n), Remove(t.left, key).1)
                && Items(n) == Join(Items(n.left), (t.key, t.value), Items(t.right))
    ensures t.Node? && key > t.key ==> var n := t.(right := Remove(t.right, key).0);
            Avl(n.right) && Remove(t, key) == (Rebalance(n), Remove(t.right, key).1)
                && Items(n) == Join(Items(t.left), (t.key, t.value), Items(n.right))
  {}

  lemma BelowAbsent<V>(s: seq<(nat, V)>, k: nat, key: nat)
    requires AllAbove(s, k) && key < k
    ensures Absent(s, key)
  {}

  lemma AboveAbsent<V>(s: seq<(nat, V)>, k: nat, key: nat)
    requires AllBelow(s, k) && key > k
    ensures Absent(s, key)
  {}

  lemma RemoveHere<V>(t: Tree<V>)
    requires Avl(t) && t.Node?
    ensures |Items(t.left)| < |Items(t)| && Items(t)[|Items(t.left)|] == (t.key, t.value)
    ensures Remove(t, t.key).1 == Some(t.value) && Items(Remove(t, t.key).0) == CutAt(Items(t), |Items(t.left)|)
  {
    hide Join, CutAt, Rebalance, TakeMin;
    var a, b := Items(t.left), Items(t.right);
    JoinCut(a, (t.key, t.value), b);
    if t.left.Nil? {
      assert a + b == b;
    } else if t.right.Nil? {
      assert a + b == a;
    } else {
      var (right, min) := TakeMin(t.right);
      TakeMinItems(t.right);
      RebalanceItems(Node(t.left, min.0, min.1, t.height, right));
      JoinFront(a, min, Items(right));
    }
  }

  lemma JoinFront<X>(a: seq<X>, e: X, b: seq<X>)
    ensures Join(a, e, b) == a + ([e] + b)
  {}

  // ---- how high a tree can be --------------------------------------------------------------------------

  function Pow2(n: nat): nat { if n == 0 then 1 else 2 * Pow2(n - 1) }

  lemma {:induction false} Pow2Grows(m: nat, n: nat)
    requires m <= n
    ensures 0 < Pow2(m) <= Pow2(n)
    decreases n
  {
    if m < n { Pow2Grows(m, n - 1); }
    else if n > 0 { Pow2Grows(m - 1, n - 1); }
  }

  lemma {:induction false} Dense<V>(t: Tree<V>)
    requires Avl(t)
    ensures |Items(t)| + 1 >= Pow2(Height(t) / 2)
  {
    if t.Node? {
      Dense(t.left);
      Dense(t.right);
      if t.height >= 2 {
        Pow2Grows((t.height - 2) / 2, Height(t.left) / 2);
        Pow2Grows((t.height - 2) / 2, Height(t.right) / 2);
        assert t.height / 2 - 1 == (t.height - 2) / 2;
      }
    }
  }

  /**
    A height fits a byte for any number of entries a 64-bit length can count, with room for the step before
    rebalancing.
  */
  lemma HeightFits<V>(t: Tree<V>)
    requires Avl(t) && |Items(t)| < 0x1_0000_0000_0000_0000
    ensures Height(t) <= 129
  {
    Dense(t);
    if Height(t) >= 130 {
      Pow2Grows(65, Height(t) / 2);
      PowerOf65();
    }
  }

  lemma PowerOf65()
    ensures Pow2(65) == 0x2_0000_0000_0000_0000
  {
    assert Pow2(13) == 8192;
    PowAdd(13, 13);
    PowAdd(26, 26);
    PowAdd(52, 13);
  }

  lemma {:induction false} PowAdd(m: nat, n: nat)
    ensures Pow2(m + n) == Pow2(m) * Pow2(n)
  {
    if m > 0 { PowAdd(m - 1, n); }
  }
}
