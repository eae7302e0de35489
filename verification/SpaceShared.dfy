/** When reserved changes can all still commit: exactly when no two of them take out a common region. */
module SpaceShared {
  import opened Wrappers
  import opened SpaceLedger
  import opened SpacePieces
  import opened SpaceState
  import opened SpaceCommit
  import opened SpaceRun
  import opened SpaceReserve
  import opened SpaceCover
  import opened SpaceValid

  ghost predicate Share(p: Prepared, q: Prepared) { exists k :: k in p.remove && k in q.remove }

  /** Changes that take out a common region are both unmaps, of two parts of it. */
  lemma SharedMeansTwoUnmaps(s: Space, i: nat, p: Prepared, j: nat, q: Prepared)
    requires Inv(s) && Live(s, i, p) && Live(s, j, q) && i != j && CanCommit(s, p) && Share(p, q)
    ensures p.op.OpUnmap? && q.op.OpUnmap?
  {
    hide Mirrored, Faithful, Reached;
    var k :| k in p.remove && k in q.remove;
    LivePosition(s, i, p);
    LivePosition(s, j, q);
    assert if i < j then OutOfTheWay(s.transactions[i], s.transactions[j])
           else OutOfTheWay(s.transactions[j], s.transactions[i]);
    Claimed(s, s.transactions[i], p, k);
    Claimed(s, s.transactions[j], q, k);
    NonEmpty(s, p, k);
  }

  lemma Claimed(s: Space, t: Record, p: Prepared, k: nat)
    requires PreparedOk(s, t, p) && k in p.remove
    ensures k in s.deeds && !p.op.OpMap?
    ensures if p.op.OpProtect? then Contains(t.footprint, s.deeds[k].body.range)
            else Overlaps(s.deeds[k].body.range, t.footprint)
  {
    var m :| 0 <= m < |p.remove| && p.remove[m] == k;
    assert Deeded(s.deeds, p.remove)[m] == s.deeds[k];
  }

  lemma NonEmpty(s: Space, p: Prepared, k: nat)
    requires LedgerOk(s) && CanCommit(s, p) && k in p.remove
    ensures k in s.deeds && s.deeds[k].body.range.start < s.deeds[k].body.range.end
  {
    var m :| 0 <= m < |p.remove| && p.remove[m] == k;
    assert HasKey(s.regions, p.remove[m]);
    var n :| 0 <= n < |s.regions| && s.regions[n].key == k;
    assert RegionOk(s, s.regions[n]);
  }

  ghost predicate NoneShared(s: Space) {
    forall a, b :: a in s.pending && b in s.pending && a != b ==> !Share(s.pending[a], s.pending[b])
  }

  lemma KeyOfPending(s: Space, j: nat)
    requires Inv(s) && j < |s.transactions| && s.transactions[j].stage == Reserved
    ensures s.transactions[j].key in s.pending && Live(s, j, s.pending[s.transactions[j].key])
  {}

  /** After either of two changes that share a region commits, the other cannot. */
  lemma SharedStops(s: Space, i: nat, p: Prepared, j: nat, q: Prepared)
    requires Inv(s) && Live(s, i, p) && Live(s, j, q) && i != j && CanCommit(s, p) && CanCommit(s, q) && Share(p, q)
    ensures Position(s.transactions, p.key, Reserved).Some? && !CanCommit(CommitOf(s, p), q)
  {
    CommitThenCommit(s, i, p, j, q);
    var k :| k in p.remove && k in q.remove;
  }

  // ---- two unmaps of one region ------------------------------------------------------------------

  /** A mapping of three pages. */
  function MappedRegion(): Region {
    Region(1, Body(1, Range(0, 12288), AddressSpace, Mapping(Anonymous(1, false), 0, ReadWrite, ReadWrite)), None)
  }

  const BOUNDS: Range := Range(0, 65536)
  const LIMITS: Limits := Limits(8, 8, 8, 8, 8)

  /** A space with that one mapping and no change in flight. */
  predicate JustMapped(s: Space) {
    && s.bounds == BOUNDS && s.limits == LIMITS && s.regions == [MappedRegion()] && s.transactions == []
    && s.reservedGrowth == 0
  }

  /** The change that unmaps part of the mapping, with the fragment it retires. */
  function UnmapPart(s: Space, range: Range): Validated
    requires s.regions == [MappedRegion()]
  {
    var part := Fragment(Body(1, range, AddressSpace, Mapping(Anonymous(1, false), range.start, ReadWrite, ReadWrite)),
                         true);
    UnmapChange(s, 0, 1, range, [part])
  }

  lemma PageOfMapping(s: Space, range: Range)
    requires s.regions == [MappedRegion()] && Inv(s) && s.bounds == BOUNDS && Paged(range) && range.end <= 12288
    ensures ValidatedOk(s.deeds, s.bounds, UnmapPart(s, range))
  {
    hide Inv, LedgerOk, ValidatedOk;
    LedgerSorted0(s);
    forall x | range.start <= x < range.end ensures Fault(Ledger(s.regions, x), AddressSpace, false) == None {
      CellAt(s.regions, 0, x, AddressSpace, false);
    }
    UnmapValid(s, 0, 1, range, AddressSpace, UnmapPart(s, range).plan.retiring);
  }

  lemma LedgerSorted0(s: Space)
    requires Inv(s)
    ensures LedgerOk(s) && Sorted(Bodies(s.regions))
  {}

  lemma UnmapAdmitted(s: Space, range: Range)
    requires s.regions == [MappedRegion()] && Inv(s) && s.limits == LIMITS && Paged(range) && range.end <= 12288
    requires |s.transactions| <= 1 && s.reservedGrowth <= 1
             && (|s.transactions| == 1 ==>
                 s.transactions[0].lease == None && !Overlaps(s.transactions[0].footprint, range))
    requires range.start == 0 || range.end == 12288
    ensures Refusal(s, UnmapPart(s, range), []) == None
  {
    var v := UnmapPart(s, range);
    assert v.plan.remove == [1] && v.snapshot == [1];
    assert HasKey(s.regions, 1);
    var r := s.regions[0];
    assert UnmapPieces(s.regions, 0, 0, range) == [];
    assert v.plan.replacements == LeftPiece(r, range) + RightPiece(r, range);
    assert Writes(TemplateBodies(v.plan.replacements)) == [] by {
      var bs := TemplateBodies(v.plan.replacements);
      if |bs| == 1 { assert bs[..0] == []; }
    }
  }

  /** Two changes admitted one after the other that take out a common region: one commit stops the other. */
  lemma SecondIsStopped(s: Space, v: Validated, w: Validated, k: nat)
    requires Inv(s) && ValidatedOk(s.deeds, s.bounds, v) && Refusal(s, v, []) == None && k in v.plan.remove
             && k in w.plan.remove
    requires ValidatedOk(ReserveOf(s, v).deeds, s.bounds, w) && Refusal(ReserveOf(s, v), w, []) == None
    ensures var s2 := ReserveOf(ReserveOf(s, v), w);
            var p, q := PreparedFrom(s, v), PreparedFrom(ReserveOf(s, v), w);
            && Inv(s2) && CanCommit(s2, p) && CanCommit(s2, q) && Position(s2.transactions, p.key, Reserved).Some?
            && !CanCommit(CommitOf(s2, p), q)
  {
    hide Inv, ValidatedOk, Refusal, CommitRegions, Entered, Materialized, Position;
    var s1 := ReserveOf(s, v);
    var s2, p, q := ReserveOf(s1, w), PreparedFrom(s, v), PreparedFrom(s1, w);
    ReserveKeeps(s, v, []);
    ReserveKeeps(s1, w, []);
    ReservedCanCommit(s, v, []);
    ReservedCanCommit(s1, w, []);
    var n := |s.transactions|;
    assert Live(s2, n, p) && Live(s2, n + 1, q);
    SharedStops(s2, n, p, n + 1, q);
  }

  /** Unmapping the first and the last page of one mapping: both reserve, the first commits, the second cannot. */
  lemma TwoUnmapsOfOneMapping(s: Space)
    requires Inv(s) && JustMapped(s)
    ensures var v, w := UnmapPart(s, Range(0, 4096)), UnmapPart(s, Range(8192, 12288));
            && ValidatedOk(s.deeds, s.bounds, v) && ValidatedOk(s.deeds, s.bounds, w)
            && ValidatedOk(ReserveOf(s, v).deeds, s.bounds, w)
            && Refusal(s, v, []) == None && Refusal(ReserveOf(s, v), w, []) == None
            && var s2 := ReserveOf(ReserveOf(s, v), w);
            var p, q := PreparedFrom(s, v), PreparedFrom(ReserveOf(s, v), w);
            && CanCommit(s2, p) && CanCommit(s2, q) && Position(s2.transactions, p.key, Reserved).Some?
            && !CanCommit(CommitOf(s2, p), q)
  {
    hide Inv, ValidatedOk, Refusal, CanCommit, Position, CommitOf, PreparedFrom, ReserveOf, UnmapPart;
    var v, w := UnmapPart(s, Range(0, 4096)), UnmapPart(s, Range(8192, 12288));
    PageOfMapping(s, Range(0, 4096));
    PageOfMapping(s, Range(8192, 12288));
    UnmapAdmitted(s, Range(0, 4096));
    ReserveKeeps(s, v, []);
    UnmapFootprint(s, Range(0, 4096));
    UnmapFootprint(s, Range(8192, 12288));
    NextUnmap(s, v);
    SecondIsStopped(s, v, w, 1);
  }

  lemma NextUnmap(s: Space, v: Validated)
    requires JustMapped(s) && v.plan.footprint == Range(0, 4096) && v.lease == None && v.growth <= 1
             && Inv(ReserveOf(s, v))
    ensures ValidatedOk(ReserveOf(s, v).deeds, s.bounds, UnmapPart(s, Range(8192, 12288)))
    ensures Refusal(ReserveOf(s, v), UnmapPart(s, Range(8192, 12288)), []) == None
  {
    hide Inv, ValidatedOk, Refusal, Entered, UnmapPart;
    var s1 := ReserveOf(s, v);
    SameChange(s, s1, Range(8192, 12288));
    PageOfMapping(s1, Range(8192, 12288));
    UnmapAdmitted(s1, Range(8192, 12288));
  }

  lemma SameChange(s: Space, s1: Space, range: Range)
    requires s1.regions == s.regions == [MappedRegion()]
    ensures UnmapPart(s1, range) == UnmapPart(s, range)
  {}

  lemma UnmapFootprint(s: Space, range: Range)
    requires s.regions == [MappedRegion()] && Paged(range) && range.end <= 12288
             && (range.start == 0 || range.end == 12288)
    ensures var v := UnmapPart(s, range);
            v.plan.footprint == range && v.lease == None && v.view == None && v.plan.remove == [1] && v.growth <= 1
  {
    assert UnmapPieces(s.regions, 0, 0, range) == [];
    assert UnmapPart(s, range).plan.remove == [1];
  }
}
