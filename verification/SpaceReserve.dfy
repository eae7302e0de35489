/** Reserving a validated change, and giving it up again. */
module SpaceReserve {
  import opened Wrappers
  import opened SpaceLedger
  import opened SpacePieces
  import opened SpaceState
  import opened SpaceCommit
  import opened SpaceRun

  /** A change in flight that stands in the way of a footprint or a lease. */
  predicate InTheWay(t: Record, footprint: Range, lease: Option<Range>) {
    || Overlaps(t.footprint, footprint)
    || (t.lease.Some? && Overlaps(t.lease.value, footprint))
    || (lease.Some? && (Overlaps(t.footprint, lease.value) || (t.lease.Some? && Overlaps(t.lease.value, lease.value))))
  }

  ghost predicate AnyInTheWay(ts: seq<Record>, footprint: Range, lease: Option<Range>) {
    exists i :: 0 <= i < |ts| && InTheWay(ts[i], footprint, lease)
  }

  predicate StillWritable(r: Region, g: Segment) {
    r.key == g.region && r.body.kind.Mapping? && r.body.kind.current == ReadWrite && Contains(r.body.range, g.user)
  }

  ghost predicate SegmentCurrent(rs: seq<Region>, g: Segment) { exists j :: 0 <= j < |rs| && StillWritable(rs[j], g) }

  ghost predicate RangeEmpty(s: Space, r: Range) {
    && !(exists i :: 0 <= i < |s.regions| && Overlaps(s.regions[i].body.range, r))
    && !(exists i :: 0 <= i < |s.transactions| && Overlaps(s.transactions[i].footprint, r))
  }

  ghost predicate PlanStillValid(s: Space, v: Validated) {
    && (v.plan.remove == [] && v.plan.op.OpMap? ==> RangeEmpty(s, v.plan.footprint))
    && (v.lease.Some? ==>
        forall i :: 0 <= i < |v.lease.value.segments| ==> SegmentCurrent(s.regions, v.lease.value.segments[i]))
  }

  /** Objects the replacements write to, once for each. */
  function Writes(bs: seq<Body>): seq<nat> {
    if bs == [] then []
    else
      var w := WritableObject(bs[|bs| - 1]);
      Writes(bs[..|bs| - 1]) + (if w.Some? then [w.value] else [])
  }

  /** The permits regions hold, in order. */
  function PermitsOf(rs: seq<Region>): seq<nat> {
    if rs == [] then []
    else PermitsOf(rs[..|rs| - 1]) + (if rs[|rs| - 1].permit.Some? then [rs[|rs| - 1].permit.value] else [])
  }

  function LeaseRange(l: Option<Lease>): Option<Range> { if l.Some? then Some(l.value.range) else None }

  /** Why a reservation is refused, if it is. */
  ghost function Refusal(s: Space, v: Validated, permits: seq<nat>): Option<ChangeError> {
    if |s.transactions| >= s.limits.maxTransactions then Some(TransactionLimit)
    else if !Present(s.regions, v.snapshot) || !PlanStillValid(s, v) then Some(Stale)
    else if AnyInTheWay(s.transactions, v.plan.footprint, LeaseRange(v.lease)) then Some(Busy)
    else if multiset(permits) != multiset(Writes(TemplateBodies(v.plan.replacements))) then Some(PermitMismatch)
    else if |s.regions| + s.reservedGrowth + v.growth > s.limits.maxRegions then Some(RegionLimit)
    else None
  }

  function Resolved(t: Template, allocation: nat): Body {
    if t.minted then t.body.(allocation := allocation) else t.body
  }

  /** The replacements with their keys, allocation and permits. */
  function Materialized(s: Space, ts: seq<Template>): (rs: seq<Region>)
    ensures |rs| == |ts|
    ensures forall i ::
            0 <= i < |ts| ==>
            rs[i] == Region(s.nextRegion + i, Resolved(ts[i], s.nextAllocation), WritableObject(ts[i].body))
  {
    seq(|ts|, i requires 0 <= i < |ts| =>
        Region(s.nextRegion + i, Resolved(ts[i], s.nextAllocation), WritableObject(ts[i].body)))
  }

  /** The deeds with the first `n` regions entered. */
  function Entered(deeds: map<nat, Region>, rs: seq<Region>, n: nat): map<nat, Region>
    requires n <= |rs|
  {
    if n == 0 then deeds else Entered(deeds, rs, n - 1)[rs[n - 1].key := rs[n - 1]]
  }

  function PreparedFrom(s: Space, v: Validated): Prepared {
    Prepared(s.nextChange, v.plan.op, v.plan.remove, Materialized(s, v.plan.replacements), v.plan.retiring,
             v.plan.translations, v.lease)
  }

  function RecordFrom(s: Space, v: Validated): Record {
    Record(s.nextChange, v.plan.footprint, LeaseRange(v.lease), Reserved, v.growth)
  }

  function ReserveOf(s: Space, v: Validated): Space {
    var p := PreparedFrom(s, v);
    s.(transactions := s.transactions + [RecordFrom(s, v)],
       reservedGrowth := s.reservedGrowth + v.growth,
       nextRegion := s.nextRegion + |v.plan.replacements| + |v.plan.retiring|,
       nextAllocation := s.nextAllocation + (if v.plan.op.OpMap? then 1 else 0),
       nextChange := s.nextChange + 1,
       deeds := Entered(s.deeds, p.replacements, |p.replacements|),
       pending := s.pending[p.key := p])
  }

  // ---- deeds only grow ---------------------------------------------------------------------------

  lemma {:induction false} EnteredIs(deeds: map<nat, Region>, rs: seq<Region>, n: nat, next: nat)
    requires n <= |rs| && (forall i :: 0 <= i < |rs| ==> rs[i].key == next + i)
    requires forall k :: k in deeds ==> k < next && deeds[k].key == k
    ensures var d := Entered(deeds, rs, n);
            && (forall k :: k in d ==> k < next + n && d[k].key == k)
            && (forall k :: k in deeds ==> k in d && d[k] == deeds[k])
            && (forall i :: 0 <= i < n ==> rs[i].key in d && d[rs[i].key] == rs[i])
    decreases n
  {
    if n > 0 { EnteredIs(deeds, rs, n - 1, next); }
  }

  ghost predicate Extends(d: map<nat, Region>, deeds: map<nat, Region>) {
    forall k :: k in deeds ==> k in d && d[k] == deeds[k]
  }

  lemma SameDeeds(d: map<nat, Region>, deeds: map<nat, Region>, keys: seq<nat>)
    requires Extends(d, deeds) && Known(deeds, keys)
    ensures Known(d, keys) && Deeded(d, keys) == Deeded(deeds, keys)
  {}

  lemma GeometryGrows(d: map<nat, Region>, deeds: map<nat, Region>, bounds: Range, op: Op, remove: seq<nat>,
                      bodies: seq<Body>, footprint: Range)
    requires Extends(d, deeds) && Geometry(deeds, bounds, op, remove, bodies, footprint)
    ensures Geometry(d, bounds, op, remove, bodies, footprint)
  {
    hide Faithful, Reached, Sorted, Paged;
    SameDeeds(d, deeds, remove);
  }

  lemma PreparedGrows(s: Space, s': Space, t: Record, p: Prepared)
    requires PreparedOk(s, t, p) && Extends(s'.deeds, s.deeds) && s'.bounds == s.bounds && s'.regions == s.regions
    ensures PreparedOk(s', t, p)
  {
    hide Geometry, Mirrored, LeaseHolds, Tiled, Settled, Vacant;
    KnownIn(s, t, p);
    SameDeeds(s'.deeds, s.deeds, p.remove);
    GeometryGrows(s'.deeds, s.deeds, s.bounds, p.op, p.remove, Bodies(p.replacements), t.footprint);
    forall i | 0 <= i < |p.replacements|
      ensures RegionOk(s', p.replacements[i])
    {
      assert RegionOk(s, p.replacements[i]);
    }
  }

  lemma KnownIn(s: Space, t: Record, p: Prepared)
    requires PreparedOk(s, t, p)
    ensures Known(s.deeds, p.remove)
  {}

  // ---- the reserved change is sound -----------------------------------------------------------------

  /** A region still in the ledger is the one its deed names. */
  lemma DeedInLedger(s: Space, k: nat)
    requires LedgerOk(s) && HasKey(s.regions, k)
    ensures k in s.deeds && s.deeds[k] in s.regions
  {
    var j :| 0 <= j < |s.regions| && s.regions[j].key == k;
    assert RegionOk(s, s.regions[j]);
  }

  lemma LeaseTaken(s: Space, g: Segment)
    requires LedgerOk(s) && SegmentKnown(s.deeds, g) && SegmentCurrent(s.regions, g)
    ensures SegmentHolds(s.regions, g)
  {
    hide Sorted;
    var j :| 0 <= j < |s.regions| && StillWritable(s.regions[j], g);
    assert RegionOk(s, s.regions[j]);
    forall x: nat | Within(g.user, x)
      ensures Pinned(Ledger(s.regions, x), g, x)
    {
      LedgerBy(s.regions, s.regions[j], x);
    }
  }

  lemma SettledTaken(s: Space, v: Validated)
    requires LedgerOk(s) && Known(s.deeds, v.snapshot) && Present(s.regions, v.snapshot) && v.plan.op.OpProtect?
    requires Settled(v.plan.op, Deeded(s.deeds, v.snapshot)) && SnapshotCovers(s.deeds, v)
    ensures Settled(v.plan.op, s.regions)
  {
    hide Sorted, Repainted, LedgerOk;
    var snap := Deeded(s.deeds, v.snapshot);
    forall x: nat | Within(v.plan.op.range, x)
      ensures Repainted(Ledger(s.regions, x), v.plan.op.protection) == Ledger(s.regions, x)
    {
      var r := LedgerFrom(snap, x);
      var i :| 0 <= i < |snap| && snap[i] == r;
      assert HasKey(s.regions, v.snapshot[i]);
      DeedInLedger(s, v.snapshot[i]);
      LedgerSorted(s);
      LedgerBy(s.regions, r, x);
    }
  }

  /** Bodies that differ in allocation and owner at most. */
  ghost predicate SameShape(a: seq<Body>, b: seq<Body>) {
    |a| == |b| && forall i :: 0 <= i < |a| ==> a[i].range == b[i].range && a[i].kind == b[i].kind
  }

  lemma {:induction false} ShapeTranslates(a: seq<Body>, b: seq<Body>, x: nat)
    requires SameShape(a, b)
    ensures Translate(View(a, x)) == Translate(View(b, x)) && (View(a, x).None? <==> View(b, x).None?)
    decreases |a|
  {
    if a != [] && !Within(a[0].range, x) { ShapeTranslates(a[1..], b[1..], x); }
  }

  lemma ShapeMirrors(removed: seq<Region>, a: seq<Body>, b: seq<Body>, todo: seq<Intent>)
    requires SameShape(a, b) && Mirrored(removed, a, todo)
    ensures Mirrored(removed, b, todo)
  {
    hide Translate, View, Apply, Ledger;
    forall x: nat ensures MirroredAt(removed, b, todo, x) {
      assert MirroredAt(removed, a, todo, x);
      ShapeTranslates(a, b, x);
    }
  }

  /** Minting an allocation moves no replacement, and only a new mapping has one minted. */
  lemma MaterializedBodies(s: Space, v: Validated)
    requires forall i :: 0 <= i < |v.plan.replacements| ==> TemplateOk(v.plan.op, v.plan.replacements[i])
    ensures SameShape(TemplateBodies(v.plan.replacements), Bodies(Materialized(s, v.plan.replacements)))
    ensures !v.plan.op.OpMap? ==> Bodies(Materialized(s, v.plan.replacements)) == TemplateBodies(v.plan.replacements)
  {
    var rs, ts := Materialized(s, v.plan.replacements), v.plan.replacements;
    forall i | 0 <= i < |rs|
      ensures Bodies(rs)[i].range == ts[i].body.range && Bodies(rs)[i].kind == ts[i].body.kind
      ensures !v.plan.op.OpMap? ==> Bodies(rs)[i] == ts[i].body
    {
      assert TemplateOk(v.plan.op, ts[i]);
    }
  }

  lemma ReservedGeometry(s: Space, v: Validated)
    requires ValidatedOk(s.deeds, s.bounds, v)
    ensures Geometry(s.deeds, s.bounds, v.plan.op, v.plan.remove, Bodies(Materialized(s, v.plan.replacements)),
                     v.plan.footprint)
    ensures Mirrored(Deeded(s.deeds, v.plan.remove), Bodies(Materialized(s, v.plan.replacements)), v.plan.translations)
  {
    hide Mirrored, Faithful, Reached, Deeded;
    MaterializedBodies(s, v);
    var a, b := TemplateBodies(v.plan.replacements), Bodies(Materialized(s, v.plan.replacements));
    ShapeMirrors(Deeded(s.deeds, v.plan.remove), a, b, v.plan.translations);
    ShapeSorted(a, b);
    MapFaithful(v.plan.op, Deeded(s.deeds, v.plan.remove), a, b);
    forall i | 0 <= i < |b|
      ensures Contains(s.bounds, b[i].range) && Paged(b[i].range)
    {
      assert Contains(s.bounds, a[i].range) && Paged(a[i].range);
    }
    if v.plan.op.OpMap? {
      forall i | 0 <= i < |b|
        ensures Contains(v.plan.footprint, b[i].range)
      {
        assert Contains(v.plan.footprint, a[i].range);
      }
    }
  }

  lemma ShapeSorted(a: seq<Body>, b: seq<Body>)
    requires SameShape(a, b) && Sorted(a)
    ensures Sorted(b)
  {
    forall i, j | 0 <= i < j < |b|
      ensures b[i].range.end <= b[j].range.start
    {
      assert a[i].range.end <= a[j].range.start;
    }
    forall i | 0 <= i < |b| ensures b[i].range.start < b[i].range.end { assert a[i].range.start < a[i].range.end; }
  }

  lemma MapFaithful(op: Op, removed: seq<Region>, a: seq<Body>, b: seq<Body>)
    requires Faithful(op, removed, a) && (!op.OpMap? ==> a == b)
    ensures Faithful(op, removed, b)
  {}

  /** What holds of the new change in the new state. */
  lemma ReservedOk(s: Space, v: Validated, permits: seq<nat>)
    requires Inv(s) && ValidatedOk(s.deeds, s.bounds, v) && Refusal(s, v, permits) == None
    ensures PreparedOk(ReserveOf(s, v), RecordFrom(s, v), PreparedFrom(s, v))
  {
    hide Geometry, Mirrored, Sorted, Settled, LeaseHolds, SegmentHolds, SegmentKnown, ChangesOk, RecordsOk, Known,
         Deeded, Writes, RegionOk;
    var s', p, t := ReserveOf(s, v), PreparedFrom(s, v), RecordFrom(s, v);
    ReservedGeometry(s, v);
    DeedsAfter(s, v);
    GeometryGrows(s'.deeds, s.deeds, s.bounds, p.op, p.remove, Bodies(p.replacements), t.footprint);
    RemoveKnown(s, v);
    SameDeeds(s'.deeds, s.deeds, p.remove);
    forall i | 0 <= i < |p.replacements|
      ensures RegionOk(s', p.replacements[i]) && p.replacements[i].key !in p.remove
    {
      ReplacementOk(s, v, i);
    }
    if Idle(p.op, p.remove) { SettledTaken(s, v); }
    if v.lease.Some? {
      forall i | 0 <= i < |v.lease.value.segments| ensures SegmentHolds(s.regions, v.lease.value.segments[i]) {
        assert SegmentKnown(s.deeds, v.lease.value.segments[i]);
        assert SegmentCurrent(s.regions, v.lease.value.segments[i]);
        LeaseTaken(s, v.lease.value.segments[i]);
      }
      AllSegments(s.regions, v.lease.value);
    }
    if p.op.OpMap? { MapRemovesNothing(s, v); }
  }

  lemma AllSegments(rs: seq<Region>, l: Lease)
    requires forall i :: 0 <= i < |l.segments| ==> SegmentHolds(rs, l.segments[i])
    ensures LeaseHolds(rs, l)
  {}

  lemma MapRemovesNothing(s: Space, v: Validated)
    requires ValidatedOk(s.deeds, s.bounds, v) && v.plan.op.OpMap?
    ensures v.plan.remove == []
  {}

  lemma RemoveKnown(s: Space, v: Validated)
    requires ValidatedOk(s.deeds, s.bounds, v)
    ensures Known(s.deeds, v.plan.remove)
  {}

  lemma DeedsAfter(s: Space, v: Validated)
    requires LedgerOk(s)
    ensures Extends(ReserveOf(s, v).deeds, s.deeds)
    ensures forall k ::
            k in ReserveOf(s, v).deeds ==> k < ReserveOf(s, v).nextRegion && ReserveOf(s, v).deeds[k].key == k
    ensures var rs := PreparedFrom(s, v).replacements;
            forall i :: 0 <= i < |rs| ==>
              rs[i].key in ReserveOf(s, v).deeds && ReserveOf(s, v).deeds[rs[i].key] == rs[i]
  {
    EnteredIs(s.deeds, PreparedFrom(s, v).replacements, |PreparedFrom(s, v).replacements|, s.nextRegion);
  }

  lemma ReplacementOk(s: Space, v: Validated, i: nat)
    requires LedgerOk(s) && ValidatedOk(s.deeds, s.bounds, v) && i < |v.plan.replacements|
    ensures var r := PreparedFrom(s, v).replacements[i];
            RegionOk(ReserveOf(s, v), r) && r.key !in v.plan.remove
  {
    hide Mirrored, Faithful, Reached, SegmentKnown, Settled, SnapshotCovers, Tiled, Sorted;
    DeedsAfter(s, v);
    assert TemplateOk(v.plan.op, v.plan.replacements[i]);
    var b := TemplateBodies(v.plan.replacements)[i];
    assert Contains(s.bounds, b.range) && Paged(b.range);
  }

  /** A reservation that is not refused keeps the invariant. */
  lemma ReserveKeeps(s: Space, v: Validated, permits: seq<nat>)
    requires Inv(s) && ValidatedOk(s.deeds, s.bounds, v) && Refusal(s, v, permits) == None
    ensures Inv(ReserveOf(s, v))
  {
    hide PreparedOk, ValidatedOk, Sorted, Writes, PlanStillValid, Present, Entered;
    var s', t := ReserveOf(s, v), RecordFrom(s, v);
    ReservedOk(s, v, permits);
    DeedsAfter(s, v);
    assert s'.transactions[..|s.transactions|] == s.transactions;
    forall i | 0 <= i < |s'.regions| ensures RegionOk(s', s'.regions[i]) { assert RegionOk(s, s.regions[i]); }
    FootprintOk(s, v);
    ReserveRecords(s, v);
    forall j | 0 <= j < |s'.transactions| && s'.transactions[j].stage == Reserved
      ensures s'.transactions[j].key in s'.pending
              && PreparedOk(s', s'.transactions[j], s'.pending[s'.transactions[j].key])
    {
      if j < |s.transactions| {
        assert RecordOk(s, s.transactions[j]);
        PreparedGrows(s, s', s.transactions[j], s.pending[s.transactions[j].key]);
      }
    }
  }

  lemma FootprintOk(s: Space, v: Validated)
    requires ValidatedOk(s.deeds, s.bounds, v)
    ensures Contains(s.bounds, v.plan.footprint) && Paged(v.plan.footprint)
  {}

  lemma ReserveRecords(s: Space, v: Validated)
    requires RecordsOk(s) && !AnyInTheWay(s.transactions, v.plan.footprint, LeaseRange(v.lease))
    requires Contains(s.bounds, v.plan.footprint) && Paged(v.plan.footprint)
    ensures RecordsOk(ReserveOf(s, v))
  {
    var s' := ReserveOf(s, v);
    forall a, b | 0 <= a < b < |s'.transactions| ensures OutOfTheWay(s'.transactions[a], s'.transactions[b]) {
      if b < |s.transactions| {
        assert OutOfTheWay(s.transactions[a], s.transactions[b]);
      } else {
        assert RecordOk(s, s.transactions[a]);
        assert !InTheWay(s.transactions[a], v.plan.footprint, LeaseRange(v.lease));
      }
    }
    forall a | 0 <= a < |s'.transactions| ensures RecordOk(s', s'.transactions[a]) {
      if a < |s.transactions| { assert RecordOk(s, s.transactions[a]); }
    }
    forall k | k in s'.pending ensures IsReserved(s'.transactions, k) {
      if k == s.nextChange {
        assert s'.transactions[|s.transactions|].key == k;
      } else {
        var a := ReservedAt(s.transactions, k);
        assert s'.transactions[a].key == k;
      }
    }
  }

  /** A freshly reserved change can commit at once. */
  lemma ReservedCanCommit(s: Space, v: Validated, permits: seq<nat>)
    requires Inv(s) && ValidatedOk(s.deeds, s.bounds, v) && Refusal(s, v, permits) == None
    ensures CanCommit(ReserveOf(s, v), PreparedFrom(s, v))
  {
    hide Inv, Geometry, Mirrored, Writes;
    forall i | 0 <= i < |v.plan.remove| ensures HasKey(s.regions, v.plan.remove[i]) {
      assert v.plan.remove[i] in v.snapshot;
      var j :| 0 <= j < |v.snapshot| && v.snapshot[j] == v.plan.remove[i];
      assert HasKey(s.regions, v.snapshot[j]);
    }
  }

  // ---- the later stages --------------------------------------------------------------------------

  function RollbackOf(s: Space, p: Prepared): Space
    requires Position(s.transactions, p.key, Reserved).Some?
  {
    PositionIs(s.transactions, p.key, Reserved);
    var i := Position(s.transactions, p.key, Reserved).value;
    var g := s.transactions[i].growth;
    s.(transactions := s.transactions[..i] + s.transactions[i + 1..],
       reservedGrowth := if s.reservedGrowth >= g then s.reservedGrowth - g else 0,
       pending := s.pending - {p.key})
  }

  function AdvanceOf(s: Space, key: nat, from: Stage, to: Stage): Space
    requires Position(s.transactions, key, from).Some?
  {
    PositionIs(s.transactions, key, from);
    var i := Position(s.transactions, key, from).value;
    s.(transactions := s.transactions[i := s.transactions[i].(stage := to)])
  }

  function CompleteOf(s: Space, key: nat): Space
    requires Position(s.transactions, key, Retired).Some?
  {
    PositionIs(s.transactions, key, Retired);
    var i := Position(s.transactions, key, Retired).value;
    s.(transactions := s.transactions[..i] + s.transactions[i + 1..])
  }

  lemma DropRecord(s: Space, i: nat, keys: set<nat>)
    requires Inv(s) && i < |s.transactions| && s.transactions[i].key in keys
             && (forall k :: k in keys ==> k == s.transactions[i].key || k !in s.pending)
    ensures GrowthOf(s.transactions) >= s.transactions[i].growth
    ensures Inv(s.(transactions := s.transactions[..i] + s.transactions[i + 1..],
                   reservedGrowth := s.reservedGrowth - s.transactions[i].growth, pending := s.pending - keys))
  {
    hide PreparedOk, LedgerOk;
    GrowthDrop(s.transactions, i);
    var s' := s.(transactions := s.transactions[..i] + s.transactions[i + 1..],
                 reservedGrowth := s.reservedGrowth - s.transactions[i].growth, pending := s.pending - keys);
    LedgerReads(s, s');
    DropRecords(s, s', i, keys);
    forall j | 0 <= j < |s'.transactions| && s'.transactions[j].stage == Reserved
      ensures s'.transactions[j].key in s'.pending
              && PreparedOk(s', s'.transactions[j], s'.pending[s'.transactions[j].key])
    {
      var j0 := if j < i then j else j + 1;
      assert s'.transactions[j] == s.transactions[j0];
      assert if j0 < i then OutOfTheWay(s.transactions[j0], s.transactions[i])
             else OutOfTheWay(s.transactions[i], s.transactions[j0]);
      PreparedReads(s, s', s.transactions[j0], s.pending[s.transactions[j0].key]);
    }
  }

  lemma LedgerReads(s: Space, s': Space)
    requires LedgerOk(s) && s'.regions == s.regions && s'.deeds == s.deeds && s'.bounds == s.bounds
             && s'.nextRegion == s.nextRegion
    ensures LedgerOk(s')
  {
    forall i | 0 <= i < |s'.regions| ensures RegionOk(s', s'.regions[i]) { assert RegionOk(s, s.regions[i]); }
  }

  lemma DropRecords(s: Space, s': Space, i: nat, keys: set<nat>)
    requires RecordsOk(s) && i < |s.transactions| && s'.nextChange == s.nextChange && s'.bounds == s.bounds
             && s.transactions[i].key in keys
    requires s'.transactions == s.transactions[..i] + s.transactions[i + 1..] && s'.pending == s.pending - keys
    ensures RecordsOk(s')
  {
    hide OutOfTheWay, RecordOk;
    forall a, b | 0 <= a < b < |s'.transactions| ensures OutOfTheWay(s'.transactions[a], s'.transactions[b]) {
      var a0, b0 := if a < i then a else a + 1, if b < i then b else b + 1;
      assert s'.transactions[a] == s.transactions[a0] && s'.transactions[b] == s.transactions[b0];
      assert OutOfTheWay(s.transactions[a0], s.transactions[b0]);
    }
    forall a | 0 <= a < |s'.transactions| ensures RecordOk(s', s'.transactions[a]) {
      var a0 := if a < i then a else a + 1;
      assert s'.transactions[a] == s.transactions[a0];
      assert RecordOk(s, s.transactions[a0]);
      RecordReads(s, s', s.transactions[a0]);
    }
    forall k | k in s'.pending ensures IsReserved(s'.transactions, k) {
      var a0 := ReservedAt(s.transactions, k);
      assert s'.transactions[if a0 < i then a0 else a0 - 1] == s.transactions[a0];
    }
  }

  lemma RecordReads(s: Space, s': Space, t: Record)
    requires RecordOk(s, t) && s'.nextChange == s.nextChange && s'.bounds == s.bounds
    ensures RecordOk(s', t)
  {}

  /** Rolling back gives the room and the footprint back and touches nothing else. */
  lemma RollbackKeeps(s: Space, i: nat, p: Prepared)
    requires Inv(s) && Live(s, i, p)
    ensures Position(s.transactions, p.key, Reserved).Some? && Inv(RollbackOf(s, p))
            && RollbackOf(s, p).regions == s.regions
  {
    hide Inv, LedgerOk, PreparedOk;
    LivePosition(s, i, p);
    DropRecord(s, i, {p.key});
    GrowthCovers(s);
  }

  lemma GrowthCovers(s: Space)
    requires Inv(s)
    ensures s.reservedGrowth == GrowthOf(s.transactions)
  {}

  lemma AdvanceKeeps(s: Space, key: nat, from: Stage, to: Stage)
    requires Inv(s) && Position(s.transactions, key, from).Some? && from != Reserved && to != Reserved
    ensures Inv(AdvanceOf(s, key, from, to)) && AdvanceOf(s, key, from, to).regions == s.regions
  {
    hide PreparedOk, LedgerOk;
    PositionIs(s.transactions, key, from);
    var i := Position(s.transactions, key, from).value;
    var s' := AdvanceOf(s, key, from, to);
    GrowthUpdate(s.transactions, i, s.transactions[i].(stage := to));
    LedgerReads(s, s');
    AdvanceRecords(s, s', i, to);
    forall j | 0 <= j < |s'.transactions| && s'.transactions[j].stage == Reserved
      ensures s'.transactions[j].key in s'.pending
              && PreparedOk(s', s'.transactions[j], s'.pending[s'.transactions[j].key])
    {
      PreparedReads(s, s', s.transactions[j], s.pending[s.transactions[j].key]);
    }
  }

  lemma AdvanceRecords(s: Space, s': Space, i: nat, to: Stage)
    requires RecordsOk(s) && i < |s.transactions| && s.transactions[i].stage != Reserved && to != Reserved
    requires s'.nextChange == s.nextChange && s'.bounds == s.bounds && s'.pending == s.pending
             && s'.transactions == s.transactions[i := s.transactions[i].(stage := to)]
    ensures RecordsOk(s')
  {
    forall a, b | 0 <= a < b < |s'.transactions| ensures OutOfTheWay(s'.transactions[a], s'.transactions[b]) {
      assert OutOfTheWay(s.transactions[a], s.transactions[b]);
    }
    forall a | 0 <= a < |s'.transactions|
      ensures RecordOk(s', s'.transactions[a])
    {
      assert RecordOk(s, s.transactions[a]);
    }
    forall k | k in s'.pending ensures IsReserved(s'.transactions, k) {
      var a := ReservedAt(s.transactions, k);
      assert s'.transactions[a].key == k;
    }
  }

  lemma CompleteKeeps(s: Space, key: nat)
    requires Inv(s) && Position(s.transactions, key, Retired).Some?
    ensures Inv(CompleteOf(s, key)) && CompleteOf(s, key).regions == s.regions
  {
    hide PreparedOk, LedgerOk, GrowthOf;
    PositionIs(s.transactions, key, Retired);
    var i := Position(s.transactions, key, Retired).value;
    assert RecordOk(s, s.transactions[i]);
    NotPending(s, i);
    DropRecord(s, i, {key});
    assert s.pending - {key} == s.pending;
  }

  /** Only reserved changes are pending. */
  lemma NotPending(s: Space, i: nat)
    requires Inv(s) && i < |s.transactions| && s.transactions[i].stage != Reserved
    ensures s.transactions[i].key !in s.pending
  {
    hide LedgerOk, ChangesOk;
    if s.transactions[i].key in s.pending {
      var a := ReservedAt(s.transactions, s.transactions[i].key);
    }
  }
}
