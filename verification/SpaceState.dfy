/** The state of one address space, the changes in flight over it, and what a change does when it commits. */
module SpaceState {
  import opened Wrappers
  import opened SpaceLedger
  import opened SpacePieces

  datatype Op = OpMap | OpUnmap(range: Range) | OpProtect(range: Range, protection: Protection)

  /** What the page table has to do. */
  datatype Intent =
    | Install(range: Range, source: Source, offset: nat, protection: Protection)
    | Remove(range: Range)
    | Protect(range: Range, from: Protection, to: Protection)

  /** A fragment whose backing is released, or only its permit is, once the change is synchronized. */
  datatype Fragment = Fragment(body: Body, release: bool)

  datatype Plan = Plan(op: Op, remove: seq<nat>, replacements: seq<Template>, retiring: seq<Fragment>,
                       translations: seq<Intent>, footprint: Range)

  datatype Segment = Segment(region: nat, user: Range, source: Source, offset: nat)

  /** A user range pinned writable until the change commits. */
  datatype Lease = Lease(range: Range, segments: seq<Segment>)

  /** `view` is the object and the maximum protection a new mapping was authorized for. */
  datatype Validated = Validated(plan: Plan, snapshot: seq<nat>, lease: Option<Lease>, growth: nat,
                                 view: Option<(nat, Protection)>)

  datatype Stage = Reserved | Committed | Published | Synchronized | Retiring | Retired

  datatype Record = Record(key: nat, footprint: Range, lease: Option<Range>, stage: Stage, growth: nat)

  datatype Prepared = Prepared(key: nat, op: Op, remove: seq<nat>, replacements: seq<Region>, retiring: seq<Fragment>,
                               translations: seq<Intent>, lease: Option<Lease>)

  datatype Payload = Payload(key: nat, translations: seq<Intent>, retiring: seq<Fragment>, permits: seq<nat>)

  datatype Limits = Limits(maxRegions: nat, maxTransactions: nat, maxPages: nat, maxLeaseBytes: nat,
                           maxLeaseSegments: nat)

  /** `deeds` remembers what every region key ever minted stands for; `pending` holds the reserved changes. */
  datatype Space = Space(bounds: Range, limits: Limits, regions: seq<Region>, transactions: seq<Record>,
                         nextAllocation: nat, nextRegion: nat, nextChange: nat, reservedGrowth: nat,
                         deeds: map<nat, Region>, pending: map<nat, Prepared>)

  // ---- translations -----------------------------------------------------------------------

  datatype Leaf = Leaf(source: Source, offset: nat, protection: Protection)

  /** What the page table should hold for an address. */
  function Translate(c: Option<Cell>): Option<Leaf> {
    if c.Some? && c.value.kind.Mapping? then Some(Leaf(c.value.kind.source, c.value.kind.offset, c.value.kind.current))
        else None
  }

  function ApplyOne(i: Intent, x: nat, t: Option<Leaf>): Option<Leaf> {
    if !Within(i.range, x) then t
    else
      match i
      case Install(r, source, offset, protection) => Some(Leaf(source, offset + (x - r.start), protection))
      case Remove(_) => None
      case Protect(_, _, to) => if t.Some? then Some(t.value.(protection := to)) else None
  }

  /** The page table's answer after the intents are carried out in order. */
  function Apply(todo: seq<Intent>, x: nat, t: Option<Leaf>): Option<Leaf> {
    if todo == [] then t else ApplyOne(todo[|todo| - 1], x, Apply(todo[..|todo| - 1], x, t))
  }

  ghost predicate Untouched(todo: seq<Intent>, x: nat) {
    forall i :: 0 <= i < |todo| ==> !Within(todo[i].range, x)
  }

  lemma {:induction false} ApplyUntouched(todo: seq<Intent>, x: nat, t: Option<Leaf>)
    requires Untouched(todo, x)
    ensures Apply(todo, x, t) == t
    decreases |todo|
  {
    if todo != [] { ApplyUntouched(todo[..|todo| - 1], x, t); }
  }

  // ---- plans ---------------------------------------------------------------------------------

  ghost predicate Known(deeds: map<nat, Region>, keys: seq<nat>) {
    (forall i :: 0 <= i < |keys| ==> keys[i] in deeds) && (forall i, j :: 0 <= i < j < |keys| ==> keys[i] != keys[j])
  }

  /** The regions the keys stand for. */
  function Deeded(deeds: map<nat, Region>, keys: seq<nat>): (rs: seq<Region>)
    requires forall i :: 0 <= i < |keys| ==> keys[i] in deeds
    ensures |rs| == |keys| && forall i :: 0 <= i < |keys| ==> rs[i] == deeds[keys[i]]
  {
    seq(|keys|, i requires 0 <= i < |keys| => deeds[keys[i]])
  }

  /** What the change makes of an address that said `c` before. */
  function Effect(op: Op, x: nat, c: Option<Cell>): Option<Cell> {
    match op
    case OpMap => c
    case OpUnmap(r) => if Within(r, x) then None else c
    case OpProtect(r, p) => if Within(r, x) then Repainted(c, p) else c
  }

  /** The replacements say of every address what the change should make of the regions taken out. */
  ghost predicate Faithful(op: Op, removed: seq<Region>, bodies: seq<Body>) {
    op.OpMap? || forall x: nat :: View(bodies, x) == Effect(op, x, Ledger(removed, x))
  }

  /** The regions taken out cover the whole range of the change. */
  ghost predicate Reached(op: Op, removed: seq<Region>) {
    op.OpMap? || forall x: nat :: Within(op.range, x) ==> Ledger(removed, x).Some?
  }

  ghost predicate Geometry(deeds: map<nat, Region>, bounds: Range, op: Op, remove: seq<nat>, bodies: seq<Body>,
                           footprint: Range) {
    && Known(deeds, remove) && Sorted(bodies) && Contains(bounds, footprint) && Paged(footprint)
    && (forall i :: 0 <= i < |bodies| ==> Contains(bounds, bodies[i].range) && Paged(bodies[i].range))
    && Faithful(op, Deeded(deeds, remove), bodies) && (Idle(op, remove) || Reached(op, Deeded(deeds, remove)))
    && Claims(op, Deeded(deeds, remove), footprint)
    && match op
       case OpMap => remove == [] && forall i :: 0 <= i < |bodies| ==> Contains(footprint, bodies[i].range)
       case OpUnmap(r) => footprint == r
       case OpProtect(r, _) => Contains(footprint, r)
  }

  /** An unmap's footprint meets every region it takes out; a protect's holds all of them. */
  ghost predicate Claims(op: Op, removed: seq<Region>, footprint: Range) {
    forall i :: 0 <= i < |removed| ==> if op.OpProtect? then
        Contains(footprint, removed[i].body.range) else Overlaps(removed[i].body.range, footprint)
  }

  /**
    The intents turn the old translation of the regions taken out into that of the replacements, and touch no other
    address.
  */
  ghost predicate Mirrored(removed: seq<Region>, bodies: seq<Body>, todo: seq<Intent>) {
    forall x: nat :: MirroredAt(removed, bodies, todo, x)
  }

  ghost predicate MirroredAt(removed: seq<Region>, bodies: seq<Body>, todo: seq<Intent>, x: nat) {
    && Translate(View(bodies, x)) == Apply(todo, x, Translate(Ledger(removed, x)))
    && (Ledger(removed, x).None? && View(bodies, x).None? ==> Untouched(todo, x))
  }

  function Growth(replacements: nat, removed: nat): nat {
    if replacements > removed then replacements - removed else 0
  }

  /** A change that found nothing to do: the range already has the protection. */
  predicate Idle(op: Op, remove: seq<nat>) { op.OpProtect? && remove == [] }

  ghost predicate Settled(op: Op, rs: seq<Region>) {
    op.OpProtect? && forall x: nat :: Within(op.range, x) ==> Repainted(Ledger(rs, x), op.protection) == Ledger(rs, x)
  }

  predicate Lawful(b: Body) {
    b.kind.Mapping? ==> Permits(b.kind.maximum, b.kind.current)
  }

  // ---- leases ----------------------------------------------------------------------------------

  /** The address is mapped writable to the byte the segment names. */
  predicate Pinned(c: Option<Cell>, g: Segment, x: nat)
    requires Within(g.user, x)
  {
    && c.Some? && c.value.kind.Mapping? && c.value.kind.current == ReadWrite
    && c.value.kind.source == g.source && c.value.kind.offset == g.offset + (x - g.user.start)
  }

  ghost predicate SegmentHolds(rs: seq<Region>, g: Segment) {
    forall x: nat :: Within(g.user, x) ==> Pinned(Ledger(rs, x), g, x)
  }

  ghost predicate LeaseHolds(rs: seq<Region>, l: Lease) {
    forall i :: 0 <= i < |l.segments| ==> SegmentHolds(rs, l.segments[i])
  }

  /** Segments follow one another over the whole leased range. */
  ghost predicate Tiled(l: Lease) {
    && l.range.start < l.range.end && |l.segments| > 0
    && l.segments[0].user.start == l.range.start && l.segments[|l.segments| - 1].user.end == l.range.end
    && (forall i :: 0 <= i < |l.segments| ==> l.segments[i].user.start < l.segments[i].user.end)
    && (forall i, j :: 0 <= i && j == i + 1 && j < |l.segments| ==> l.segments[i].user.end == l.segments[j].user.start)
  }

  /** The region a segment was taken from, as it was then and, keys being never reused, still is. */
  ghost predicate SegmentKnown(deeds: map<nat, Region>, g: Segment) {
    g.region in deeds && var b := deeds[g.region].body;
    && Contains(b.range, g.user) && g.user.start < g.user.end && b.kind.Mapping? && b.kind.current == ReadWrite
    && b.kind.source == g.source && g.offset == b.kind.offset + (g.user.start - b.range.start)
  }

  // ---- what validation promises -----------------------------------------------------------------

  ghost predicate Subset(a: seq<nat>, b: seq<nat>) { forall k :: k in a ==> k in b }

  ghost predicate ValidatedOk(deeds: map<nat, Region>, bounds: Range, v: Validated) {
    && Known(deeds, v.snapshot) && Subset(v.plan.remove, v.snapshot)
    && Geometry(deeds, bounds, v.plan.op, v.plan.remove, TemplateBodies(v.plan.replacements), v.plan.footprint)
    && Mirrored(Deeded(deeds, v.plan.remove), TemplateBodies(v.plan.replacements), v.plan.translations)
    && v.growth == Growth(|v.plan.replacements|, |v.plan.remove|)
    && (forall i :: 0 <= i < |v.plan.replacements| ==> TemplateOk(v.plan.op, v.plan.replacements[i]))
    && (forall i :: 0 <= i < |v.plan.replacements| ==> Authorized(deeds, v, v.plan.replacements[i].body))
    && (Idle(v.plan.op, v.plan.remove) ==> Settled(v.plan.op, Deeded(deeds, v.snapshot)) && SnapshotCovers(deeds, v))
    && (v.lease.Some? ==>
        Tiled(v.lease.value)
        && forall i :: 0 <= i < |v.lease.value.segments| ==> SegmentKnown(deeds, v.lease.value.segments[i]))
  }

  predicate SameView(a: Kind, b: Kind) { a.Mapping? && b.Mapping? && a.source == b.source && a.maximum == b.maximum }

  /** The body maps what some region mapped before, under the same maximum. */
  ghost predicate Descends(deeds: map<nat, Region>, b: Body) {
    b.kind.Guard? || exists k :: k in deeds && SameView(deeds[k].body.kind, b.kind)
  }

  /** A new object view was authorized; every other one descends from a region. */
  ghost predicate Authorized(deeds: map<nat, Region>, v: Validated, b: Body) {
    if v.plan.op.OpMap? then b.kind.Mapping? && b.kind.source.Object? ==>
        v.view == Some((b.kind.source.id, b.kind.maximum))
    else Descends(deeds, b)
  }

  ghost predicate SnapshotCovers(deeds: map<nat, Region>, v: Validated)
    requires Known(deeds, v.snapshot) && v.plan.op.OpProtect?
  {
    forall x: nat :: Within(v.plan.op.range, x) ==> Ledger(Deeded(deeds, v.snapshot), x).Some?
  }

  predicate TemplateOk(op: Op, t: Template) { Lawful(t.body) && t.minted == op.OpMap? }

  // ---- the invariant ------------------------------------------------------------------------------

  ghost predicate LedgerOk(s: Space) {
    && Sorted(Bodies(s.regions))
    && (forall i :: 0 <= i < |s.regions| ==> RegionOk(s, s.regions[i]))
    && (forall k :: k in s.deeds ==> k < s.nextRegion && s.deeds[k].key == k)
  }

  predicate RegionOk(s: Space, r: Region) {
    && Contains(s.bounds, r.body.range) && Paged(r.body.range) && r.key in s.deeds && s.deeds[r.key] == r
    && r.permit == WritableObject(r.body) && Lawful(r.body)
  }

  function GrowthOf(ts: seq<Record>): nat {
    if ts == [] then 0 else GrowthOf(ts[..|ts| - 1]) + ts[|ts| - 1].growth
  }

  ghost predicate CountsOk(s: Space) {
    && s.reservedGrowth == GrowthOf(s.transactions) && |s.regions| + s.reservedGrowth <= s.limits.maxRegions
    && |s.transactions| <= s.limits.maxTransactions
  }

  /** Two changes in flight keep out of each other's way. */
  predicate OutOfTheWay(a: Record, b: Record) {
    && a.key != b.key && !Overlaps(a.footprint, b.footprint)
    && (a.lease.Some? ==> !Overlaps(a.lease.value, b.footprint))
    && (b.lease.Some? ==> !Overlaps(b.lease.value, a.footprint))
    && (a.lease.Some? && b.lease.Some? ==> !Overlaps(a.lease.value, b.lease.value))
  }

  predicate RecordOk(s: Space, t: Record) {
    && t.key < s.nextChange && Contains(s.bounds, t.footprint) && Paged(t.footprint)
    && (t.stage != Reserved ==> t.growth == 0 && t.lease == None)
  }

  ghost predicate IsReserved(ts: seq<Record>, k: nat) {
    exists i :: 0 <= i < |ts| && ts[i].key == k && ts[i].stage == Reserved
  }

  ghost predicate RecordsOk(s: Space) {
    && (forall i, j :: 0 <= i < j < |s.transactions| ==> OutOfTheWay(s.transactions[i], s.transactions[j]))
    && (forall i :: 0 <= i < |s.transactions| ==> RecordOk(s, s.transactions[i]))
    && (forall k :: k in s.pending ==> IsReserved(s.transactions, k))
  }

  /** A reserved change can still do exactly what it was validated to do. */
  ghost predicate PreparedOk(s: Space, t: Record, p: Prepared) {
    && p.key == t.key && t.stage == Reserved
    && Geometry(s.deeds, s.bounds, p.op, p.remove, Bodies(p.replacements), t.footprint)
    && Mirrored(Deeded(s.deeds, p.remove), Bodies(p.replacements), p.translations)
    && t.growth == Growth(|p.replacements|, |p.remove|)
    && (forall i :: 0 <= i < |p.replacements| ==> RegionOk(s, p.replacements[i]) && p.replacements[i].key !in p.remove)
    && (p.op.OpMap? ==> Vacant(s.regions, t.footprint))
    && (Idle(p.op, p.remove) ==> Settled(p.op, s.regions))
    && (p.lease.Some? ==>
        t.lease == Some(p.lease.value.range) && Tiled(p.lease.value) && LeaseHolds(s.regions, p.lease.value))
    && (p.lease.None? ==> t.lease == None)
  }

  ghost predicate Vacant(rs: seq<Region>, r: Range) {
    forall i :: 0 <= i < |rs| ==> !Overlaps(rs[i].body.range, r)
  }

  ghost predicate ChangesOk(s: Space) {
    forall i :: 0 <= i < |s.transactions| && s.transactions[i].stage == Reserved ==>
      s.transactions[i].key in s.pending && PreparedOk(s, s.transactions[i], s.pending[s.transactions[i].key])
  }

  ghost predicate Inv(s: Space) {
    LedgerOk(s) && CountsOk(s) && RecordsOk(s) && ChangesOk(s)
  }

  function EmptySpace(bounds: Range, limits: Limits): Space { Space(bounds, limits, [], [], 1, 1, 1, 0, map[], map[]) }

  lemma EmptyOk(bounds: Range, limits: Limits)
    ensures Inv(EmptySpace(bounds, limits))
  {}

  /** Every region the change takes out is still in the ledger: otherwise its commit stops the kernel. */
  ghost predicate CanCommit(s: Space, p: Prepared) {
    Present(s.regions, p.remove)
  }

  ghost predicate HasKey(rs: seq<Region>, k: nat) { exists j :: 0 <= j < |rs| && rs[j].key == k }

  ghost predicate Present(rs: seq<Region>, keys: seq<nat>) {
    forall i :: 0 <= i < |keys| ==> HasKey(rs, keys[i])
  }

  function Position(ts: seq<Record>, key: nat, stage: Stage): Option<nat> {
    if ts == [] then None
    else
      var n := |ts| - 1;
      var before := Position(ts[..n], key, stage);
      if before.Some? then before
      else if ts[n].key == key && ts[n].stage == stage then Some(n) else None
  }

  lemma {:induction false} PositionIs(ts: seq<Record>, key: nat, stage: Stage)
    ensures var p := Position(ts, key, stage);
            && (p.Some? ==> p.value < |ts| && ts[p.value].key == key && ts[p.value].stage == stage)
            && (p.None? ==> forall i :: 0 <= i < |ts| ==> !(ts[i].key == key && ts[i].stage == stage))
    decreases |ts|
  {
    if ts != [] { PositionIs(ts[..|ts| - 1], key, stage); }
  }
}
