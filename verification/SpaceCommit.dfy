/** Committing a reserved change: exactly its own effect on the ledger, and nothing for the others to notice. */
module SpaceCommit {
  import opened Wrappers
  import opened SpaceLedger
  import opened SpacePieces
  import opened SpaceState

  function RegionStart(r: Region): nat { r.body.range.start }

  function KeyIndex(rs: seq<Region>, k: nat): (i: nat)
    ensures i <= |rs| && (i < |rs| ==> rs[i].key == k) && (forall j :: 0 <= j < i ==> rs[j].key != k)
  {
    if rs == [] then 0 else if rs[0].key == k then 0 else 1 + KeyIndex(rs[1..], k)
  }

  function RemoveKey(rs: seq<Region>, k: nat): seq<Region> {
    var i := KeyIndex(rs, k);
    if i < |rs| then Drop(rs, i) else rs
  }

  /** The regions without the first `n` of the keys. */
  function Taken(rs: seq<Region>, keys: seq<nat>, n: nat): seq<Region>
    requires n <= |keys|
  {
    if n == 0 then rs else RemoveKey(Taken(rs, keys, n - 1), keys[n - 1])
  }

  lemma NoneTaken(rs: seq<Region>, keys: seq<nat>)
    ensures Taken(rs, keys, 0) == rs
  {}

  function CommitRegions(rs: seq<Region>, remove: seq<nat>, replacements: seq<Region>): seq<Region> {
    SortBy(Taken(rs, remove, |remove|) + replacements, RegionStart)
  }

  function CommitOf(s: Space, p: Prepared): Space
    requires Position(s.transactions, p.key, Reserved).Some?
  {
    PositionIs(s.transactions, p.key, Reserved);
    var i := Position(s.transactions, p.key, Reserved).value;
    var t := s.transactions[i];
    s.(regions := CommitRegions(s.regions, p.remove, p.replacements),
       transactions := s.transactions[i := t.(growth := 0, lease := None, stage := Committed)],
       reservedGrowth := if s.reservedGrowth >= t.growth then s.reservedGrowth - t.growth else 0,
       pending := s.pending - {p.key})
  }

  // ---- taking regions out ---------------------------------------------------------------------

  ghost predicate Plain(rs: seq<Region>) {
    Sorted(Bodies(rs)) && forall i, j :: 0 <= i < j < |rs| ==> rs[i].key != rs[j].key
  }

  lemma RemoveKeyIs(rs: seq<Region>, k: nat)
    requires Plain(rs) && HasKey(rs, k)
    ensures Plain(RemoveKey(rs, k)) && |RemoveKey(rs, k)| == |rs| - 1
    ensures forall r :: r in RemoveKey(rs, k) <==> r in rs && r.key != k
  {
    var i := KeyIndex(rs, k);
    DropKeepsPlain(rs, i);
    forall r ensures r in RemoveKey(rs, k) <==> r in rs && r.key != k { DropMember(rs, i, r); }
  }

  function Drop(rs: seq<Region>, i: nat): seq<Region>
    requires i < |rs|
  {
    rs[..i] + rs[i + 1..]
  }

  lemma DropKeepsPlain(rs: seq<Region>, i: nat)
    requires Plain(rs) && i < |rs|
    ensures Plain(Drop(rs, i))
  {
    var out := Drop(rs, i);
    forall a, b | 0 <= a < b < |out|
      ensures out[a].key != out[b].key && Bodies(out)[a].range.end <= Bodies(out)[b].range.start
    {
      var a0, b0 := if a < i then a else a + 1, if b < i then b else b + 1;
      assert out[a] == rs[a0] && out[b] == rs[b0];
      assert Bodies(rs)[a0].range.end <= Bodies(rs)[b0].range.start;
    }
    forall a | 0 <= a < |out| ensures Bodies(out)[a].range.start < Bodies(out)[a].range.end {
      var a0 := if a < i then a else a + 1;
      assert out[a] == rs[a0];
      assert Bodies(rs)[a0].range.start < Bodies(rs)[a0].range.end;
    }
  }

  lemma OtherKey(rs: seq<Region>, i: nat, j: nat)
    requires Plain(rs) && i < |rs| && j < |rs| && i != j
    ensures rs[i].key != rs[j].key
  {}

  lemma DropMember(rs: seq<Region>, i: nat, r: Region)
    requires Plain(rs) && i < |rs|
    ensures r in Drop(rs, i) <==> r in rs && r.key != rs[i].key
  {
    hide Plain;
    var out := Drop(rs, i);
    if r in out {
      var a :| 0 <= a < |out| && out[a] == r;
      var a0 := if a < i then a else a + 1;
      assert rs[a0] == r;
      OtherKey(rs, a0, i);
    }
    if r in rs && r.key != rs[i].key {
      var j :| 0 <= j < |rs| && rs[j] == r;
      assert r == out[if j < i then j else j - 1];
    }
  }

  ghost predicate Distinct(keys: seq<nat>) {
    forall i, j :: 0 <= i < j < |keys| ==> keys[i] != keys[j]
  }

  lemma {:induction false} TakenIs(rs: seq<Region>, keys: seq<nat>, n: nat)
    requires Plain(rs) && Distinct(keys) && n <= |keys| && Present(rs, keys)
    ensures Plain(Taken(rs, keys, n)) && |Taken(rs, keys, n)| == |rs| - n
    ensures forall r :: r in Taken(rs, keys, n) <==> r in rs && r.key !in keys[..n]
    decreases n
  {
    hide RemoveKey, Plain;
    if n > 0 {
      TakenIs(rs, keys, n - 1);
      var before, k := Taken(rs, keys, n - 1), keys[n - 1];
      StillThere(rs, before, keys, n - 1);
      RemoveKeyIs(before, k);
      assert keys[..n] == keys[..n - 1] + [k];
    }
  }

  lemma StillThere(rs: seq<Region>, before: seq<Region>, keys: seq<nat>, n: nat)
    requires n < |keys| && Distinct(keys) && Present(rs, keys)
             && forall r :: r in before <==> r in rs && r.key !in keys[..n]
    ensures HasKey(before, keys[n])
  {
    assert HasKey(rs, keys[n]);
    var j :| 0 <= j < |rs| && rs[j].key == keys[n];
    assert rs[j] in before;
  }

  // ---- putting replacements in -------------------------------------------------------------------

  lemma {:induction false} InsertSorted(rs: seq<Region>, r: Region)
    requires Sorted(Bodies(rs)) && r.body.range.start < r.body.range.end
    requires forall i :: 0 <= i < |rs| ==> !Overlaps(rs[i].body.range, r.body.range)
    ensures Sorted(Bodies(Insert(rs, r, RegionStart))) && |Insert(rs, r, RegionStart)| == |rs| + 1
    ensures forall q :: q in Insert(rs, r, RegionStart) <==> q in rs || q == r
    decreases |rs|
  {
    var n := |rs| - 1;
    if rs == [] || RegionStart(rs[n]) <= RegionStart(r) {
      AppendSorted(rs, r);
    } else {
      var before, last := rs[..n], rs[n];
      assert Bodies(before) == Bodies(rs)[..n];
      InsertSorted(before, r);
      var out := Insert(before, r, RegionStart);
      assert rs == before + [last];
      forall q | q in out ensures q.body.range.end <= last.body.range.start && q.body.range.start < q.body.range.end {
        if q != r {
          var j :| 0 <= j < |before| && before[j] == q;
          assert Bodies(rs)[j].range.end <= Bodies(rs)[n].range.start
                 && Bodies(rs)[j].range.start < Bodies(rs)[j].range.end;
        }
      }
      assert Bodies(rs)[n].range.start < Bodies(rs)[n].range.end;
      LastSorted(out, last);
    }
  }

  lemma AppendSorted(rs: seq<Region>, r: Region)
    requires Sorted(Bodies(rs)) && r.body.range.start < r.body.range.end
    requires rs != [] ==> RegionStart(rs[|rs| - 1]) <= RegionStart(r)
    requires forall i :: 0 <= i < |rs| ==> !Overlaps(rs[i].body.range, r.body.range)
    ensures Sorted(Bodies(rs + [r]))
  {
    forall i | 0 <= i < |rs|
      ensures rs[i].body.range.end <= r.body.range.start && rs[i].body.range.start < rs[i].body.range.end
    {
      assert Bodies(rs)[i].range.start < Bodies(rs)[i].range.end;
      if i < |rs| - 1 { assert Bodies(rs)[i].range.end <= Bodies(rs)[|rs| - 1].range.start; }
    }
    LastSorted(rs, r);
  }

  lemma LastSorted(rs: seq<Region>, last: Region)
    requires Sorted(Bodies(rs)) && last.body.range.start < last.body.range.end
    requires forall q :: q in rs ==> q.body.range.end <= last.body.range.start
    ensures Sorted(Bodies(rs + [last]))
  {
    var out := rs + [last];
    forall i, j | 0 <= i < j < |out| ensures Bodies(out)[i].range.end <= Bodies(out)[j].range.start {
      if j < |rs| { assert Bodies(rs)[i].range.end <= Bodies(rs)[j].range.start; } else { assert rs[i] in rs; }
    }
    forall i | 0 <= i < |out| ensures Bodies(out)[i].range.start < Bodies(out)[i].range.end {
      if i < |rs| { assert Bodies(rs)[i].range.start < Bodies(rs)[i].range.end; }
    }
  }

  ghost predicate Clear(rs: seq<Region>, qs: seq<Region>) {
    forall r, q :: r in rs && q in qs ==> !Overlaps(r.body.range, q.body.range)
  }

  /** A sorted ledger and sorted replacements that do not meet, together. */
  lemma {:induction false} JoinedIs(rs: seq<Region>, qs: seq<Region>, n: nat)
    requires Sorted(Bodies(rs)) && Sorted(Bodies(qs)) && Clear(rs, qs) && n <= |qs|
    ensures var out := SortBy(rs + qs[..n], RegionStart);
            && Sorted(Bodies(out)) && |out| == |rs| + n && (forall q :: q in out <==> q in rs || q in qs[..n])
    decreases n
  {
    hide Sorted, Bodies, Insert, Clear;
    if n == 0 {
      assert rs + qs[..0] == rs;
      AlreadySorted(rs);
    } else {
      JoinedIs(rs, qs, n - 1);
      var before, q := SortBy(rs + qs[..n - 1], RegionStart), qs[n - 1];
      assert (rs + qs[..n])[..|rs| + n - 1] == rs + qs[..n - 1];
      assert (rs + qs[..n])[|rs| + n - 1] == q;
      NextClear(rs, qs, n - 1, before);
      InsertSorted(before, q);
      assert qs[..n] == qs[..n - 1] + [q];
    }
  }

  lemma NextClear(rs: seq<Region>, qs: seq<Region>, n: nat, before: seq<Region>)
    requires Sorted(Bodies(qs)) && Clear(rs, qs) && n < |qs| && forall q :: q in before <==> q in rs || q in qs[..n]
    ensures qs[n].body.range.start < qs[n].body.range.end
    ensures forall i :: 0 <= i < |before| ==> !Overlaps(before[i].body.range, qs[n].body.range)
  {
    assert Bodies(qs)[n].range.start < Bodies(qs)[n].range.end;
    forall i | 0 <= i < |before| ensures !Overlaps(before[i].body.range, qs[n].body.range) {
      assert before[i] in before;
      if before[i] in qs[..n] {
        var j :| 0 <= j < n && qs[j] == before[i];
        assert Bodies(qs)[j].range.end <= Bodies(qs)[n].range.start;
      }
    }
  }

  lemma AlreadySorted(rs: seq<Region>)
    requires Sorted(Bodies(rs))
    ensures SortBy(rs, RegionStart) == rs
  {
    forall i, j | 0 <= i < j < |rs| ensures RegionStart(rs[i]) <= RegionStart(rs[j]) {
      assert Bodies(rs)[i].range.start < Bodies(rs)[i].range.end <= Bodies(rs)[j].range.start;
    }
    SortedStays(rs, RegionStart);
  }

  // ---- the commit -----------------------------------------------------------------------------

  lemma LedgerBy(rs: seq<Region>, r: Region, x: nat)
    requires Sorted(Bodies(rs)) && r in rs && Within(r.body.range, x)
    ensures Ledger(rs, x) == Some(At(r.body, x))
  {
    var i :| 0 <= i < |rs| && rs[i] == r;
    SortedIsApart(Bodies(rs));
    ViewAt(Bodies(rs), i, x);
  }

  lemma SortedIsApart(bs: seq<Body>)
    requires Sorted(bs)
    ensures Apart(bs)
  {}

  lemma LedgerFrom(rs: seq<Region>, x: nat) returns (r: Region)
    requires Ledger(rs, x).Some?
    ensures r in rs && Within(r.body.range, x) && Ledger(rs, x) == Some(At(r.body, x))
  {
    var i := ViewFrom(Bodies(rs), x);
    r := rs[i];
  }

  lemma SameRegion(rs: seq<Region>, a: Region, b: Region, x: nat)
    requires Sorted(Bodies(rs)) && a in rs && b in rs && Within(a.body.range, x) && Within(b.body.range, x)
    ensures a == b
  {
    var i :| 0 <= i < |rs| && rs[i] == a;
    var j :| 0 <= j < |rs| && rs[j] == b;
    assert Bodies(rs)[i].range == a.body.range && Bodies(rs)[j].range == b.body.range;
  }

  lemma LedgerPlain(s: Space)
    requires LedgerOk(s)
    ensures Plain(s.regions)
  {
    var rs := s.regions;
    forall i, j | 0 <= i < j < |rs| ensures rs[i].key != rs[j].key {
      assert RegionOk(s, rs[i]) && RegionOk(s, rs[j]);
      assert Bodies(rs)[i].range.start < Bodies(rs)[i].range.end <= Bodies(rs)[j].range.start;
    }
  }

  /** The regions the change takes out are those of the ledger with its keys. */
  lemma RemovedIs(s: Space, p: Prepared, r: Region)
    requires LedgerOk(s) && Known(s.deeds, p.remove) && CanCommit(s, p)
    ensures r in Deeded(s.deeds, p.remove) <==> r in s.regions && r.key in p.remove
  {
    var removed := Deeded(s.deeds, p.remove);
    if r in removed {
      var i :| 0 <= i < |removed| && removed[i] == r;
      assert HasKey(s.regions, p.remove[i]);
      var j :| 0 <= j < |s.regions| && s.regions[j].key == p.remove[i];
      assert RegionOk(s, s.regions[j]);
    }
    if r in s.regions && r.key in p.remove {
      var j :| 0 <= j < |s.regions| && s.regions[j] == r;
      assert RegionOk(s, s.regions[j]);
      var i :| 0 <= i < |p.remove| && p.remove[i] == r.key;
      assert removed[i] == r;
    }
  }

  /** Whether the regions taken out cover an address. */
  lemma RemovedView(s: Space, p: Prepared, x: nat)
    requires LedgerOk(s) && Known(s.deeds, p.remove) && CanCommit(s, p)
    ensures var removed := Deeded(s.deeds, p.remove);
            && (Ledger(removed, x).Some? ==> Ledger(removed, x) == Ledger(s.regions, x))
            && (forall r ::
                r in s.regions && Within(r.body.range, x) ==> (r.key in p.remove <==> Ledger(removed, x).Some?))
  {
    var removed := Deeded(s.deeds, p.remove);
    if Ledger(removed, x).Some? {
      var r := LedgerFrom(removed, x);
      RemovedIs(s, p, r);
      LedgerBy(s.regions, r, x);
      forall q | q in s.regions && Within(q.body.range, x) ensures q.key in p.remove { SameRegion(s.regions, r, q, x); }
    }
    forall q | q in s.regions && Within(q.body.range, x) && q.key in p.remove ensures Ledger(removed, x).Some? {
      RemovedIs(s, p, q);
      InsideSome(removed, q, x);
    }
  }

  lemma InsideSome(rs: seq<Region>, r: Region, x: nat)
    requires r in rs && Within(r.body.range, x)
    ensures Ledger(rs, x).Some?
  {
    if Ledger(rs, x).None? {
      var i :| 0 <= i < |rs| && rs[i] == r;
      NoneMeansNone(Bodies(rs), i, x);
    }
  }

  lemma {:induction false} NoneMeansNone(bs: seq<Body>, i: nat, x: nat)
    requires View(bs, x).None? && i < |bs|
    ensures !Within(bs[i].range, x)
    decreases |bs|
  {
    if i > 0 { NoneMeansNone(bs[1..], i - 1, x); }
  }

  /** Replacements only lie where the change took regions out, or in the room it reserved. */
  lemma ReplacedWhere(s: Space, t: Record, p: Prepared, q: Region, x: nat)
    requires PreparedOk(s, t, p) && q in p.replacements && Within(q.body.range, x)
    ensures if p.op.OpMap? then Within(t.footprint, x) else Ledger(Deeded(s.deeds, p.remove), x).Some?
  {
    var j :| 0 <= j < |p.replacements| && p.replacements[j] == q;
    assert Bodies(p.replacements)[j] == q.body;
    if !p.op.OpMap? {
      LedgerBy(p.replacements, q, x);
      assert View(Bodies(p.replacements), x) == Effect(p.op, x, Ledger(Deeded(s.deeds, p.remove), x));
    }
  }

  lemma ReplacementsClear(s: Space, t: Record, p: Prepared)
    requires LedgerOk(s) && PreparedOk(s, t, p) && CanCommit(s, p)
    ensures Clear(Taken(s.regions, p.remove, |p.remove|), p.replacements)
  {
    var left := Taken(s.regions, p.remove, |p.remove|);
    LedgerPlain(s);
    TakenIs(s.regions, p.remove, |p.remove|);
    assert p.remove[..|p.remove|] == p.remove;
    forall r, q | r in left && q in p.replacements ensures !Overlaps(r.body.range, q.body.range) {
      if Overlaps(r.body.range, q.body.range) { NoMeeting(s, t, p, r, q); }
    }
  }

  lemma NoMeeting(s: Space, t: Record, p: Prepared, r: Region, q: Region)
    requires LedgerOk(s) && PreparedOk(s, t, p) && CanCommit(s, p)
    requires r in s.regions && r.key !in p.remove && q in p.replacements
    ensures !Overlaps(r.body.range, q.body.range)
  {
    hide LedgerOk, Geometry, Mirrored, Ledger, Deeded, CanCommit;
    if Overlaps(r.body.range, q.body.range) {
      var x := Max(r.body.range.start, q.body.range.start);
      ReplacementRange(s, t, p, q);
      RangeOf(s, r);
      ReplacedWhere(s, t, p, q, x);
      if p.op.OpMap? {
        VacantAt(s.regions, t.footprint, r, x);
      } else {
        GeometryKnown(s, t, p);
        RemovedView(s, p, x);
      }
    }
  }

  lemma GeometryKnown(s: Space, t: Record, p: Prepared)
    requires PreparedOk(s, t, p)
    ensures Known(s.deeds, p.remove) && Distinct(p.remove) && Sorted(Bodies(p.replacements))
  {}

  lemma ReplacementRange(s: Space, t: Record, p: Prepared, q: Region)
    requires PreparedOk(s, t, p) && q in p.replacements
    ensures q.body.range.start < q.body.range.end
  {
    var j :| 0 <= j < |p.replacements| && p.replacements[j] == q;
    assert Bodies(p.replacements)[j] == q.body;
  }

  lemma RangeOf(s: Space, r: Region)
    requires LedgerOk(s) && r in s.regions
    ensures r.body.range.start < r.body.range.end
  {
    var j :| 0 <= j < |s.regions| && s.regions[j] == r;
    assert Bodies(s.regions)[j] == r.body;
  }

  lemma VacantAt(rs: seq<Region>, f: Range, r: Region, x: nat)
    requires Vacant(rs, f) && r in rs && Within(r.body.range, x)
    ensures !Within(f, x)
  {
    var j :| 0 <= j < |rs| && rs[j] == r;
    assert !Overlaps(rs[j].body.range, f);
  }

  /** The ledger after a commit: sorted, of the right length, the rest kept and the replacements in. */
  lemma CommitJoins(s: Space, t: Record, p: Prepared)
    requires LedgerOk(s) && PreparedOk(s, t, p) && CanCommit(s, p)
    ensures var rs := CommitRegions(s.regions, p.remove, p.replacements);
            && Sorted(Bodies(rs)) && |p.remove| <= |s.regions| && |rs| == |s.regions| - |p.remove| + |p.replacements|
            && (forall q :: q in rs <==> (q in s.regions && q.key !in p.remove) || q in p.replacements)
  {
    hide LedgerOk, Sorted, Clear, CanCommit, Plain;
    GeometryKnown(s, t, p);
    LedgerPlain(s);
    ReplacementsClear(s, t, p);
    TakenFacts(s, p);
    JoinedIs(Taken(s.regions, p.remove, |p.remove|), p.replacements, |p.replacements|);
    assert p.replacements[..|p.replacements|] == p.replacements;
  }

  lemma TakenFacts(s: Space, p: Prepared)
    requires Plain(s.regions) && Distinct(p.remove) && CanCommit(s, p)
    ensures var left := Taken(s.regions, p.remove, |p.remove|);
            && Sorted(Bodies(left)) && |p.remove| <= |s.regions| && |left| == |s.regions| - |p.remove|
            && (forall q :: q in left <==> q in s.regions && q.key !in p.remove)
  {
    TakenIs(s.regions, p.remove, |p.remove|);
    assert p.remove[..|p.remove|] == p.remove;
  }

  /** What the ledger says of each address after a commit. */
  lemma CommitView(s: Space, t: Record, p: Prepared, x: nat)
    requires LedgerOk(s) && PreparedOk(s, t, p) && CanCommit(s, p)
    ensures Ledger(CommitRegions(s.regions, p.remove, p.replacements), x)
         == if Ledger(Deeded(s.deeds, p.remove), x).Some? || View(Bodies(p.replacements), x).Some?
            then View(Bodies(p.replacements), x) else Ledger(s.regions, x)
  {
    hide LedgerOk, Sorted, CanCommit, CommitRegions, Ledger, Geometry, Mirrored, Deeded, Bodies, PreparedOk;
    var rs := CommitRegions(s.regions, p.remove, p.replacements);
    CommitJoins(s, t, p);
    GeometryKnown(s, t, p);
    RemovedView(s, p, x);
    if Ledger(rs, x).Some? {
      var r := LedgerFrom(rs, x);
      if r in p.replacements {
        ReplacementSeen(p.replacements, r, x);
      } else {
        KeptSeen(s, t, p, r, x);
      }
    } else {
      if View(Bodies(p.replacements), x).Some? {
        var q := SeenReplacement(p.replacements, x);
        LedgerBy(rs, q, x);
      }
      if Ledger(s.regions, x).Some? {
        var r := LedgerFrom(s.regions, x);
        if r.key !in p.remove { LedgerBy(rs, r, x); }
      }
    }
  }

  lemma ReplacementSeen(qs: seq<Region>, r: Region, x: nat)
    requires Sorted(Bodies(qs)) && r in qs && Within(r.body.range, x)
    ensures View(Bodies(qs), x) == Some(At(r.body, x))
  {
    LedgerBy(qs, r, x);
  }

  lemma SeenReplacement(qs: seq<Region>, x: nat) returns (r: Region)
    requires View(Bodies(qs), x).Some?
    ensures r in qs && Within(r.body.range, x)
  {
    r := LedgerFrom(qs, x);
  }

  lemma KeptSeen(s: Space, t: Record, p: Prepared, r: Region, x: nat)
    requires LedgerOk(s) && PreparedOk(s, t, p) && CanCommit(s, p)
    requires r in s.regions && r.key !in p.remove && Within(r.body.range, x)
    ensures Ledger(s.regions, x) == Some(At(r.body, x))
    ensures Ledger(Deeded(s.deeds, p.remove), x).None? && View(Bodies(p.replacements), x).None?
  {
    hide Geometry, Mirrored, Ledger, Deeded, CanCommit, Sorted;
    LedgerBy(s.regions, r, x);
    GeometryKnown(s, t, p);
    RemovedView(s, p, x);
    if View(Bodies(p.replacements), x).Some? {
      var q := SeenReplacement(p.replacements, x);
      NoMeeting(s, t, p, r, q);
    }
  }
}
