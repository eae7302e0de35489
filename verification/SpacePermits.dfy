/** Write permits: what a plan needs, whether the permits supplied are just those, and handing them out. */
module SpacePermits {
  import opened Wrappers
  import opened SpacePieces
  import opened SpaceReserve

  datatype Requirement = Requirement(id: nat, count: nat, newWrites: nat)

  function CountOf(xs: seq<nat>, x: nat): nat { multiset(xs)[x] }

  /** Writable replacements of an object among the first `n`, and those not inherited from a writable region. */
  function NewWrites(ts: seq<Template>, n: nat, id: nat): nat
    requires n <= |ts|
  {
    if n == 0 then 0
    else NewWrites(ts, n - 1, id)
         + (if WritableObject(ts[n - 1].body) == Some(id) && !ts[n - 1].successor then 1 else 0)
  }

  ghost predicate Tallied(reqs: seq<Requirement>, writes: seq<nat>) {
    && (forall i, j :: 0 <= i < j < |reqs| ==> reqs[i].id != reqs[j].id)
    && (forall i :: 0 <= i < |reqs| ==> reqs[i].count == CountOf(writes, reqs[i].id) > 0)
    && (forall x :: x in writes ==> Listed(reqs, x))
  }

  ghost predicate Listed(reqs: seq<Requirement>, x: nat) { exists i :: 0 <= i < |reqs| && reqs[i].id == x }

  method FindRequirement(reqs: seq<Requirement>, id: nat) returns (i: nat)
    ensures i <= |reqs| && (i < |reqs| ==> reqs[i].id == id) && (i == |reqs| ==> !Listed(reqs, id))
  {
    i := 0;
    while i < |reqs| && reqs[i].id != id
      invariant i <= |reqs| && forall j :: 0 <= j < i ==> reqs[j].id != id
    {
      i := i + 1;
    }
  }

  ghost predicate NewTallied(reqs: seq<Requirement>, ts: seq<Template>, n: nat)
    requires n <= |ts|
  {
    && (forall i :: 0 <= i < |reqs| ==> reqs[i].newWrites == NewWrites(ts, n, reqs[i].id))
    && (forall x :: !Listed(reqs, x) ==> NewWrites(ts, n, x) == 0)
  }

  /** One requirement for each object written, with how many permits and how many of them are new writers. */
  method PermitRequirements(ts: seq<Template>) returns (reqs: seq<Requirement>)
    ensures Tallied(reqs, Writes(TemplateBodies(ts)))
    ensures forall i :: 0 <= i < |reqs| ==> reqs[i].newWrites == NewWrites(ts, |ts|, reqs[i].id)
  {
    hide Tallied, Listed;
    reqs := [];
    ghost var bs := TemplateBodies(ts);
    var n := 0;
    assert bs[..0] == [];
    NoneTallied(ts);
    while n < |ts|
      invariant n <= |ts| && Tallied(reqs, Writes(bs[..n])) && NewTallied(reqs, ts, n)
    {
      assert bs[..n + 1][..n] == bs[..n] && bs[..n + 1][n] == ts[n].body;
      var w := WritableObject(ts[n].body);
      if w.Some? {
        var i := FindRequirement(reqs, w.value);
        var isNew := if ts[n].successor then 0 else 1;
        ghost var was := reqs;
        if i < |reqs| {
          reqs := reqs[i := Requirement(w.value, reqs[i].count + 1, reqs[i].newWrites + isNew)];
        } else {
          reqs := reqs + [Requirement(w.value, 1, isNew)];
        }
        TallyOne(was, reqs, Writes(bs[..n]), w.value, i);
        NewTallyOne(was, reqs, ts, n, w.value, i, isNew);
      } else {
        assert Writes(bs[..n]) + [] == Writes(bs[..n]);
        NewTallyNone(reqs, ts, n);
      }
      n := n + 1;
    }
    assert bs[..|ts|] == bs;
  }

  lemma NoneTallied(ts: seq<Template>)
    ensures Tallied([], Writes([])) && NewTallied([], ts, 0)
  {}

  lemma NewTallyOne(was: seq<Requirement>, reqs: seq<Requirement>, ts: seq<Template>, n: nat, x: nat, i: nat,
                    isNew: nat)
    requires n < |ts| && NewTallied(was, ts, n) && i <= |was| && WritableObject(ts[n].body) == Some(x)
             && isNew == if ts[n].successor then 0 else 1
    requires forall j, k :: 0 <= j < k < |was| ==> was[j].id != was[k].id
    requires i < |was| ==>
             was[i].id == x && reqs == was[i := Requirement(x, was[i].count + 1, was[i].newWrites + isNew)]
    requires i == |was| ==> !Listed(was, x) && reqs == was + [Requirement(x, 1, isNew)]
    requires forall y :: Listed(reqs, y) <==> Listed(was, y) || y == x
    ensures NewTallied(reqs, ts, n + 1)
  {
    hide Listed;
    forall j | 0 <= j < |reqs| ensures reqs[j].newWrites == NewWrites(ts, n + 1, reqs[j].id) {
      if j != i {
        assert reqs[j] == was[j] && was[j].newWrites == NewWrites(ts, n, was[j].id);
        if j < |was| { ListedAt(was, j); }
      }
    }
    forall y | !Listed(reqs, y) ensures NewWrites(ts, n + 1, y) == 0 {
      assert !Listed(was, y) && y != x;
    }
  }

  lemma ListedAt(reqs: seq<Requirement>, j: nat)
    requires j < |reqs|
    ensures Listed(reqs, reqs[j].id)
  {}

  lemma NewTallyNone(reqs: seq<Requirement>, ts: seq<Template>, n: nat)
    requires n < |ts| && NewTallied(reqs, ts, n) && WritableObject(ts[n].body) == None
    ensures NewTallied(reqs, ts, n + 1)
  {
    hide Listed;
  }

  lemma TallyOne(was: seq<Requirement>, reqs: seq<Requirement>, writes: seq<nat>, x: nat, i: nat)
    requires Tallied(was, writes) && i <= |was|
    requires i < |was| ==> was[i].id == x && |reqs| == |was| && reqs[i].id == x && reqs[i].count == was[i].count + 1
    requires i < |was| ==> forall j :: 0 <= j < |was| && j != i ==> reqs[j] == was[j]
    requires i == |was| ==>
             !Listed(was, x) && |reqs| == |was| + 1 && reqs[..i] == was && reqs[i].id == x && reqs[i].count == 1
    ensures Tallied(reqs, writes + [x])
    ensures forall j, k :: 0 <= j < k < |was| ==> was[j].id != was[k].id
    ensures forall y :: Listed(reqs, y) <==> Listed(was, y) || y == x
  {
    var all := writes + [x];
    assert multiset(all) == multiset(writes) + multiset{x};
    forall j | 0 <= j < |reqs| ensures reqs[j].count == CountOf(all, reqs[j].id) > 0 {
      if j < |was| {
        assert reqs[j].id == was[j].id;
        assert was[j].count == CountOf(writes, was[j].id) > 0;
      } else {
        assert x !in writes;
        assert multiset(writes)[x] == 0;
      }
    }
    forall a, b | 0 <= a < b < |reqs| ensures reqs[a].id != reqs[b].id {
      assert a < |was| ==> reqs[a].id == was[a].id;
      if b < |was| { assert reqs[b].id == was[b].id; }
    }
    forall y ensures Listed(reqs, y) <==> Listed(was, y) || y == x {
      if Listed(was, y) {
        var j :| 0 <= j < |was| && was[j].id == y;
        assert reqs[j].id == y;
      }
      if Listed(reqs, y) {
        var j :| 0 <= j < |reqs| && reqs[j].id == y;
        if j < |was| { assert was[j].id == y; }
      }
    }
    forall y | y in all ensures Listed(reqs, y) { assert y in writes || y == x; }
  }

  /** Whether the permits are exactly those required: the counts agree and none is left over. */
  method PermitsMatch(reqs: seq<Requirement>, permits: seq<nat>, ghost writes: seq<nat>) returns (same: bool)
    requires Tallied(reqs, writes)
    ensures same <==> multiset(permits) == multiset(writes)
  {
    var total, i := 0, 0;
    while i < |reqs|
      invariant i <= |reqs| && total == Total(reqs, i)
      invariant forall j :: 0 <= j < i ==> CountOf(permits, reqs[j].id) == reqs[j].count
    {
      var n := CountIn(permits, reqs[i].id);
      if n != reqs[i].count {
        assert multiset(permits)[reqs[i].id] != multiset(writes)[reqs[i].id];
        return false;
      }
      total := total + reqs[i].count;
      i := i + 1;
    }
    same := |permits| == total;
    Balanced(reqs, permits, writes);
  }

  function Total(reqs: seq<Requirement>, n: nat): nat
    requires n <= |reqs|
  {
    if n == 0 then 0 else Total(reqs, n - 1) + reqs[n - 1].count
  }

  method CountIn(xs: seq<nat>, x: nat) returns (n: nat)
    ensures n == CountOf(xs, x)
  {
    n := 0;
    var i := 0;
    while i < |xs|
      invariant i <= |xs| && n == CountOf(xs[..i], x)
    {
      assert xs[..i + 1] == xs[..i] + [xs[i]];
      if xs[i] == x { n := n + 1; }
      i := i + 1;
    }
    assert xs[..|xs|] == xs;
  }

  /** The objects of the first `n` requirements, each as often as required. */
  ghost function Spread(reqs: seq<Requirement>, n: nat): multiset<nat>
    requires n <= |reqs|
  {
    if n == 0 then multiset{} else Spread(reqs, n - 1)[reqs[n - 1].id := reqs[n - 1].count]
  }

  lemma {:induction false} SpreadIs(reqs: seq<Requirement>, n: nat)
    requires n <= |reqs| && forall i, j :: 0 <= i < j < |reqs| ==> reqs[i].id != reqs[j].id
    ensures |Spread(reqs, n)| == Total(reqs, n)
    ensures forall i :: 0 <= i < n ==> Spread(reqs, n)[reqs[i].id] == reqs[i].count
    ensures forall x :: (forall i :: 0 <= i < n ==> reqs[i].id != x) ==> Spread(reqs, n)[x] == 0
    decreases n
  {
    if n > 0 {
      SpreadIs(reqs, n - 1);
      var m, r := Spread(reqs, n - 1), reqs[n - 1];
      assert m[r.id] == 0;
      assert m[r.id := r.count] == m + multiset{}[r.id := r.count];
      Copies(r.id, r.count);
    }
  }

  lemma {:induction false} Copies(x: nat, n: nat)
    ensures |multiset{}[x := n]| == n
    decreases n
  {
    if n > 0 {
      Copies(x, n - 1);
      assert multiset{}[x := n] == multiset{}[x := n - 1] + multiset{x};
    }
  }

  lemma Balanced(reqs: seq<Requirement>, permits: seq<nat>, writes: seq<nat>)
    requires Tallied(reqs, writes) && forall j :: 0 <= j < |reqs| ==> CountOf(permits, reqs[j].id) == reqs[j].count
    ensures |permits| == Total(reqs, |reqs|) <==> multiset(permits) == multiset(writes)
  {
    var m := Spread(reqs, |reqs|);
    SpreadIs(reqs, |reqs|);
    forall x ensures m[x] == multiset(writes)[x] && m[x] <= multiset(permits)[x] {
      if Listed(reqs, x) {
        var i :| 0 <= i < |reqs| && reqs[i].id == x;
      } else {
        assert x !in writes;
      }
    }
    assert m == multiset(writes);
    assert m <= multiset(permits);
    SameSize(m, multiset(permits));
  }

  lemma SameSize(a: multiset<nat>, b: multiset<nat>)
    requires a <= b
    ensures |a| == |b| <==> a == b
  {
    assert b == a + (b - a);
  }
}
