/** Every step a change takes keeps the space's invariant and does exactly what it promised. */
module SpaceRun {
  import opened Wrappers
  import opened SpaceLedger
  import opened SpacePieces
  import opened SpaceState
  import opened SpaceCommit

  /** Outside its footprint a commit changes nothing. */
  lemma CommitOutside(s: Space, t: Record, p: Prepared, x: nat)
    requires LedgerOk(s) && PreparedOk(s, t, p) && CanCommit(s, p) && !Within(t.footprint, x)
    ensures Ledger(CommitRegions(s.regions, p.remove, p.replacements), x) == Ledger(s.regions, x)
  {
    hide LedgerOk, CanCommit, CommitRegions, Ledger, Mirrored, Repainted;
    CommitView(s, t, p, x);
    RemovedView(s, p, x);
    if p.op.OpMap? {
      if View(Bodies(p.replacements), x).Some? {
        var q := SeenReplacement(p.replacements, x);
        ReplacedWhere(s, t, p, q, x);
      }
      NothingSeen(x);
      assert Deeded(s.deeds, p.remove) == [];
    } else {
      assert View(Bodies(p.replacements), x) == Effect(p.op, x, Ledger(Deeded(s.deeds, p.remove), x));
    }
  }

  /** What the ledger says of an address after the commit of a change, if it said `c` before. */
  function Outcome(p: Prepared, x: nat, c: Option<Cell>): Option<Cell> {
    if p.op.OpMap? then OrElse(Ledger(p.replacements, x), c) else Effect(p.op, x, c)
  }

  /** A commit changes what the ledger says exactly as its change asks for. */
  lemma CommitMeans(s: Space, t: Record, p: Prepared, x: nat)
    requires LedgerOk(s) && PreparedOk(s, t, p) && CanCommit(s, p)
    ensures Ledger(CommitRegions(s.regions, p.remove, p.replacements), x) == Outcome(p, x, Ledger(s.regions, x))
  {
    hide LedgerOk, CanCommit, CommitRegions, Mirrored, Repainted, View, Deeded;
    CommitView(s, t, p, x);
    RemovedView(s, p, x);
    var removed := Deeded(s.deeds, p.remove);
    if p.op.OpMap? {
      NothingTaken(removed, x);
    } else {
      assert View(Bodies(p.replacements), x) == Effect(p.op, x, Ledger(removed, x));
      if Within(p.op.range, x) && Idle(p.op, p.remove) {
        assert Repainted(Ledger(s.regions, x), p.op.protection) == Ledger(s.regions, x);
        NothingTaken(removed, x);
        NothingRepainted(p.op.protection);
      } else if Within(p.op.range, x) {
        assert Ledger(removed, x).Some?;
      }
    }
  }

  lemma NothingTaken(rs: seq<Region>, x: nat)
    requires rs == []
    ensures Ledger(rs, x) == None
  {}

  lemma NothingRepainted(p: Protection)
    ensures Repainted(None, p) == None
  {}

  /** Carrying out the intents turns the old translation of every address into the one the new ledger asks for. */
  lemma CommitTranslates(s: Space, t: Record, p: Prepared, x: nat)
    requires LedgerOk(s) && PreparedOk(s, t, p) && CanCommit(s, p)
    ensures Translate(Ledger(CommitRegions(s.regions, p.remove, p.replacements), x))
         == Apply(p.translations, x, Translate(Ledger(s.regions, x)))
  {
    hide LedgerOk, CanCommit, CommitRegions, Geometry, Ledger, Apply, Deeded, Bodies, Translate, View;
    GeometryKnown(s, t, p);
    var removed := Deeded(s.deeds, p.remove);
    CommitView(s, t, p, x);
    RemovedView(s, p, x);
    assert MirroredAt(removed, Bodies(p.replacements), p.translations, x);
    if Ledger(removed, x).None? {
      if View(Bodies(p.replacements), x).None? {
        ApplyUntouched(p.translations, x, Translate(Ledger(s.regions, x)));
      } else {
        NewGround(s, t, p, x);
      }
    }
  }

  lemma NewGround(s: Space, t: Record, p: Prepared, x: nat)
    requires LedgerOk(s) && PreparedOk(s, t, p)
    requires Ledger(Deeded(s.deeds, p.remove), x).None? && View(Bodies(p.replacements), x).Some?
    ensures Ledger(s.regions, x).None?
  {
    hide Mirrored, Deeded;
    var q := SeenReplacement(p.replacements, x);
    ReplacedWhere(s, t, p, q, x);
    if Ledger(s.regions, x).Some? {
      var r := LedgerFrom(s.regions, x);
      VacantAt(s.regions, t.footprint, r, x);
    }
  }

  // ---- counting growth -------------------------------------------------------------------------

  lemma {:induction false} GrowthUpdate(ts: seq<Record>, i: nat, t: Record)
    requires i < |ts|
    ensures GrowthOf(ts[i := t]) + ts[i].growth == GrowthOf(ts) + t.growth
    decreases |ts|
  {
    var n := |ts| - 1;
    if i < n {
      GrowthUpdate(ts[..n], i, t);
      assert ts[i := t][..n] == ts[..n][i := t];
    } else {
      assert ts[i := t][..n] == ts[..n];
    }
  }

  lemma {:induction false} GrowthDrop(ts: seq<Record>, i: nat)
    requires i < |ts|
    ensures GrowthOf(ts[..i] + ts[i + 1..]) + ts[i].growth == GrowthOf(ts)
    decreases |ts|
  {
    var n := |ts| - 1;
    var out := ts[..i] + ts[i + 1..];
    if i < n {
      GrowthDrop(ts[..n], i);
      assert out[..n - 1] == ts[..n][..i] + ts[..n][i + 1..];
    } else {
      assert out == ts[..n];
    }
  }

  // ---- other changes in flight ------------------------------------------------------------------

  lemma {:induction false} SegmentFrom(l: Lease, i: nat)
    requires Tiled(l) && i < |l.segments|
    ensures l.range.start <= l.segments[i].user.start
    decreases i
  {
    if i > 0 {
      SegmentFrom(l, i - 1);
      assert l.segments[i - 1].user.end == l.segments[i].user.start;
    }
  }

  lemma {:induction false} SegmentTo(l: Lease, i: nat)
    requires Tiled(l) && i < |l.segments|
    ensures l.segments[i].user.end <= l.range.end
    decreases |l.segments| - i
  {
    if i + 1 < |l.segments| {
      SegmentTo(l, i + 1);
      assert l.segments[i].user.end == l.segments[i + 1].user.start;
    }
  }

  /** What keeps a reserved change as it was: the ledger says the same where it matters. */
  ghost predicate SameWhere(a: seq<Region>, b: seq<Region>, f: Range) {
    forall x: nat :: Within(f, x) ==> Ledger(a, x) == Ledger(b, x)
  }

  lemma LeaseStays(a: seq<Region>, b: seq<Region>, l: Lease)
    requires Tiled(l) && LeaseHolds(a, l) && SameWhere(a, b, l.range)
    ensures LeaseHolds(b, l)
  {
    hide Ledger, Pinned, Tiled;
    forall i | 0 <= i < |l.segments| ensures SegmentHolds(b, l.segments[i]) {
      SegmentFrom(l, i);
      SegmentTo(l, i);
      assert SegmentHolds(a, l.segments[i]);
    }
  }

  lemma SettledStays(a: seq<Region>, b: seq<Region>, op: Op)
    requires Settled(op, a) && SameWhere(a, b, op.range)
    ensures Settled(op, b)
  {
    hide Ledger, Repainted;
  }

  lemma VacantStays(a: seq<Region>, b: seq<Region>, f: Range)
    requires Vacant(a, f) && Sorted(Bodies(b)) && SameWhere(a, b, f) && f.start < f.end
    ensures Vacant(b, f)
  {
    forall i | 0 <= i < |b| ensures !Overlaps(b[i].body.range, f) {
      if Overlaps(b[i].body.range, f) {
        var x := Max(b[i].body.range.start, f.start);
        assert Bodies(b)[i].range.start < Bodies(b)[i].range.end;
        LedgerBy(b, b[i], x);
        assert Within(f, x);
        var r := LedgerFrom(a, x);
        VacantAt(a, f, r, x);
      }
    }
  }

  /** A reserved change is not disturbed when the ledger says the same in its footprint and its lease. */
  lemma Undisturbed(s: Space, s': Space, t: Record, p: Prepared)
    requires PreparedOk(s, t, p) && s'.bounds == s.bounds && s'.deeds == s.deeds && Sorted(Bodies(s'.regions))
    requires SameWhere(s.regions, s'.regions, t.footprint)
             && (t.lease.Some? ==> SameWhere(s.regions, s'.regions, t.lease.value))
    ensures PreparedOk(s', t, p)
  {
    hide Geometry, Mirrored, Ledger, Sorted, LeaseHolds, Tiled, Settled, Vacant, SameWhere;
    InFootprint(s, t, p);
    if p.op.OpMap? { VacantStays(s.regions, s'.regions, t.footprint); }
    if Idle(p.op, p.remove) {
      Narrower(s.regions, s'.regions, t.footprint, p.op.range);
      SettledStays(s.regions, s'.regions, p.op);
    }
    if p.lease.Some? { LeaseStays(s.regions, s'.regions, p.lease.value); }
  }

  lemma InFootprint(s: Space, t: Record, p: Prepared)
    requires PreparedOk(s, t, p)
    ensures t.footprint.start < t.footprint.end && (p.op.OpProtect? ==> Contains(t.footprint, p.op.range))
  {}

  lemma Narrower(a: seq<Region>, b: seq<Region>, f: Range, g: Range)
    requires SameWhere(a, b, f) && Contains(f, g)
    ensures SameWhere(a, b, g)
  {}

  // ---- commit --------------------------------------------------------------------------------------

  /** The change is the one reserved under its key. */
  ghost predicate Live(s: Space, i: nat, p: Prepared) {
    i < |s.transactions| && s.transactions[i].stage == Reserved && p.key == s.transactions[i].key
    && p.key in s.pending && s.pending[p.key] == p
  }

  lemma LivePosition(s: Space, i: nat, p: Prepared)
    requires Inv(s) && Live(s, i, p)
    ensures Position(s.transactions, p.key, Reserved) == Some(i) && PreparedOk(s, s.transactions[i], p)
  {
    PositionIs(s.transactions, p.key, Reserved);
  }

  lemma CommitSameElsewhere(s: Space, i: nat, p: Prepared, f: Range)
    requires Inv(s) && Live(s, i, p) && CanCommit(s, p) && !Overlaps(f, s.transactions[i].footprint)
    ensures SameWhere(s.regions, CommitRegions(s.regions, p.remove, p.replacements), f)
  {
    hide Ledger, CommitRegions, LedgerOk, PreparedOk, CanCommit;
    LivePosition(s, i, p);
    forall x: nat | Within(f, x)
      ensures Ledger(s.regions, x) == Ledger(CommitRegions(s.regions, p.remove, p.replacements), x)
    {
      CommitOutside(s, s.transactions[i], p, x);
    }
  }

  lemma CommitOther(s: Space, i: nat, p: Prepared, j: nat)
    requires Inv(s) && Live(s, i, p) && CanCommit(s, p) && j < |s.transactions| && j != i
             && s.transactions[j].stage == Reserved
    requires Sorted(Bodies(CommitRegions(s.regions, p.remove, p.replacements)))
    ensures var t := s.transactions[j];
            t.key in s.pending && t.key != p.key
            && PreparedOk(s.(regions := CommitRegions(s.regions, p.remove, p.replacements)), t, s.pending[t.key])
  {
    hide Ledger, CommitRegions, LedgerOk, PreparedOk, CanCommit, Sorted, SameWhere;
    var t := s.transactions[j];
    assert if i < j then OutOfTheWay(s.transactions[i], t) else OutOfTheWay(t, s.transactions[i]);
    CommitSameElsewhere(s, i, p, t.footprint);
    if t.lease.Some? { CommitSameElsewhere(s, i, p, t.lease.value); }
    Undisturbed(s, s.(regions := CommitRegions(s.regions, p.remove, p.replacements)), t, s.pending[t.key]);
  }

  /** PreparedOk reads only the ledger, the deeds and the bounds. */
  lemma PreparedReads(s: Space, s': Space, t: Record, p: Prepared)
    requires PreparedOk(s, t, p) && s'.regions == s.regions && s'.deeds == s.deeds && s'.bounds == s.bounds
    ensures PreparedOk(s', t, p)
  {
    hide Geometry, Mirrored, LeaseHolds, Settled, Vacant, Tiled;
  }

  lemma CommitLedger(s: Space, i: nat, p: Prepared)
    requires Inv(s) && Live(s, i, p) && CanCommit(s, p)
    ensures Position(s.transactions, p.key, Reserved).Some? && LedgerOk(CommitOf(s, p))
    ensures |CommitOf(s, p).regions| <= |s.regions| + s.transactions[i].growth
  {
    hide CommitRegions, CanCommit, Geometry, Mirrored;
    LivePosition(s, i, p);
    CommitJoins(s, s.transactions[i], p);
    var s', rs := CommitOf(s, p), CommitRegions(s.regions, p.remove, p.replacements);
    forall k | 0 <= k < |rs| ensures RegionOk(s', rs[k]) {
      assert rs[k] in rs;
      if rs[k] in p.replacements {
        var m :| 0 <= m < |p.replacements| && p.replacements[m] == rs[k];
        assert RegionOk(s, p.replacements[m]);
      } else {
        var m :| 0 <= m < |s.regions| && s.regions[m] == rs[k];
        assert RegionOk(s, s.regions[m]);
      }
    }
  }

  /** A commit keeps the invariant, whatever else is in flight. */
  lemma CommitKeeps(s: Space, i: nat, p: Prepared)
    requires Inv(s) && Live(s, i, p) && CanCommit(s, p)
    ensures Position(s.transactions, p.key, Reserved).Some? && Inv(CommitOf(s, p))
  {
    hide CommitRegions, CanCommit, LedgerOk, PreparedOk;
    LivePosition(s, i, p);
    CommitLedger(s, i, p);
    var s', t := CommitOf(s, p), s.transactions[i];
    GrowthUpdate(s.transactions, i, t.(growth := 0, lease := None, stage := Committed));
    CommitRecords(s, i, p);
    forall j | 0 <= j < |s'.transactions| && s'.transactions[j].stage == Reserved
      ensures s'.transactions[j].key in s'.pending
              && PreparedOk(s', s'.transactions[j], s'.pending[s'.transactions[j].key])
    {
      LedgerSorted(s');
      CommitOther(s, i, p, j);
      PreparedReads(s.(regions := s'.regions), s', s.transactions[j], s.pending[s.transactions[j].key]);
    }
  }

  lemma LedgerSorted(s: Space)
    requires LedgerOk(s)
    ensures Sorted(Bodies(s.regions))
  {}

  lemma ReservedAt(ts: seq<Record>, k: nat) returns (a: nat)
    requires IsReserved(ts, k)
    ensures a < |ts| && ts[a].key == k && ts[a].stage == Reserved
  {
    a :| 0 <= a < |ts| && ts[a].key == k && ts[a].stage == Reserved;
  }

  lemma CommitRecords(s: Space, i: nat, p: Prepared)
    requires RecordsOk(s) && i < |s.transactions| && s.transactions[i].key == p.key
             && Position(s.transactions, p.key, Reserved) == Some(i)
    ensures RecordsOk(CommitOf(s, p))
  {
    hide CommitRegions;
    var s' := CommitOf(s, p);
    forall a, b | 0 <= a < b < |s'.transactions| ensures OutOfTheWay(s'.transactions[a], s'.transactions[b]) {
      assert OutOfTheWay(s.transactions[a], s.transactions[b]);
    }
    forall a | 0 <= a < |s'.transactions| ensures RecordOk(s', s'.transactions[a]) {
      assert RecordOk(s, s.transactions[a]);
    }
    forall k | k in s'.pending ensures IsReserved(s'.transactions, k) {
      var a := ReservedAt(s.transactions, k);
      assert s'.transactions[a].key == k;
    }
  }

  /** After a commit another reserved change can still commit exactly when the two take out no common region. */
  lemma CommitThenCommit(s: Space, i: nat, p: Prepared, j: nat, q: Prepared)
    requires Inv(s) && Live(s, i, p) && CanCommit(s, p) && Live(s, j, q) && i != j && CanCommit(s, q)
    ensures Position(s.transactions, p.key, Reserved).Some?
    ensures CanCommit(CommitOf(s, p), q) <==> forall k :: k in p.remove ==> k !in q.remove
  {
    hide CommitRegions, LedgerOk, Geometry, Mirrored;
    LivePosition(s, i, p);
    LivePosition(s, j, q);
    CommitJoins(s, s.transactions[i], p);
    var rs, after := s.regions, CommitRegions(s.regions, p.remove, p.replacements);
    if forall k :: k in p.remove ==> k !in q.remove {
      forall m | 0 <= m < |q.remove| ensures HasKey(after, q.remove[m]) {
        assert HasKey(rs, q.remove[m]);
        var n :| 0 <= n < |rs| && rs[n].key == q.remove[m];
        assert rs[n] in after;
      }
    } else {
      var k :| k in p.remove && k in q.remove;
      GoneForGood(s, i, p, k);
      var m :| 0 <= m < |q.remove| && q.remove[m] == k;
      assert !HasKey(after, q.remove[m]);
    }
  }

  /** A key taken out is not in the ledger any more, and replacements never carry an old key. */
  lemma GoneForGood(s: Space, i: nat, p: Prepared, k: nat)
    requires Inv(s) && Live(s, i, p) && CanCommit(s, p) && k in p.remove
    ensures !HasKey(CommitRegions(s.regions, p.remove, p.replacements), k)
  {
    hide CommitRegions, LedgerOk, Mirrored;
    LivePosition(s, i, p);
    CommitJoins(s, s.transactions[i], p);
  }

  /** As long as a change is reserved, every address of its lease is mapped writable to the byte its segment names. */
  lemma LeasePinned(s: Space, i: nat, p: Prepared, x: nat) returns (g: Segment)
    requires Inv(s) && Live(s, i, p) && p.lease.Some? && Within(p.lease.value.range, x)
    ensures g in p.lease.value.segments && Within(g.user, x) && Pinned(Ledger(s.regions, x), g, x)
  {
    hide LedgerOk, CountsOk, RecordsOk, Geometry, Mirrored, Ledger;
    LivePosition(s, i, p);
    var l := p.lease.value;
    var k := SegmentAt(l, |l.segments|, x);
    g := l.segments[k];
    assert SegmentHolds(s.regions, g);
  }

  lemma {:induction false} SegmentAt(l: Lease, n: nat, x: nat) returns (k: nat)
    requires Tiled(l) && 0 < n <= |l.segments| && l.range.start <= x < l.segments[n - 1].user.end
    ensures k < n && Within(l.segments[k].user, x)
    decreases n
  {
    if l.segments[n - 1].user.start <= x {
      k := n - 1;
    } else {
      assert n > 1 && l.segments[n - 2].user.end == l.segments[n - 1].user.start;
      k := SegmentAt(l, n - 1, x);
    }
  }
}
