/** The tests a reservation goes through, each a walk over the regions or the changes in flight. */
module SpaceChecks {
  import opened Wrappers
  import opened SpaceLedger
  import opened SpacePieces
  import opened SpaceState
  import opened SpaceReserve
  import opened SpacePermits

  /** Whether a change in flight stands in the way. */
  method Conflicts(ts: seq<Record>, footprint: Range, lease: Option<Range>) returns (busy: bool)
    ensures busy == AnyInTheWay(ts, footprint, lease)
  {
    for i := 0 to |ts|
      invariant forall j :: 0 <= j < i ==> !InTheWay(ts[j], footprint, lease)
    {
      if InTheWay(ts[i], footprint, lease) { return true; }
    }
    return false;
  }

  method FindKey(rs: seq<Region>, k: nat) returns (found: bool)
    ensures found == HasKey(rs, k)
  {
    for j := 0 to |rs|
      invariant forall m :: 0 <= m < j ==> rs[m].key != k
    {
      if rs[j].key == k { return true; }
    }
    return false;
  }

  /** Whether every region a plan was made from is still there. */
  method SnapshotValid(rs: seq<Region>, keys: seq<nat>) returns (valid: bool)
    ensures valid == Present(rs, keys)
  {
    for i := 0 to |keys|
      invariant forall j :: 0 <= j < i ==> HasKey(rs, keys[j])
    {
      var found := FindKey(rs, keys[i]);
      if !found { return false; }
    }
    return true;
  }

  method SegmentStands(rs: seq<Region>, g: Segment) returns (stands: bool)
    ensures stands == SegmentCurrent(rs, g)
  {
    for j := 0 to |rs|
      invariant forall m :: 0 <= m < j ==> !StillWritable(rs[m], g)
    {
      if StillWritable(rs[j], g) { return true; }
    }
    return false;
  }

  method RangeIsEmpty(s: Space, r: Range) returns (empty: bool)
    ensures empty == RangeEmpty(s, r)
  {
    for i := 0 to |s.regions|
      invariant forall j :: 0 <= j < i ==> !Overlaps(s.regions[j].body.range, r)
    {
      if Overlaps(s.regions[i].body.range, r) { return false; }
    }
    for i := 0 to |s.transactions|
      invariant forall j :: 0 <= j < i ==> !Overlaps(s.transactions[j].footprint, r)
    {
      if Overlaps(s.transactions[i].footprint, r) { return false; }
    }
    return true;
  }

  /** Whether a new mapping still has its place and a lease its writable regions. */
  method StillValid(s: Space, v: Validated) returns (valid: bool)
    ensures valid == PlanStillValid(s, v)
  {
    hide RangeEmpty, SegmentCurrent;
    if v.plan.remove == [] && v.plan.op.OpMap? {
      var empty := RangeIsEmpty(s, v.plan.footprint);
      if !empty { return false; }
    }
    if v.lease.Some? {
      for i := 0 to |v.lease.value.segments|
        invariant forall j :: 0 <= j < i ==> SegmentCurrent(s.regions, v.lease.value.segments[j])
      {
        var stands := SegmentStands(s.regions, v.lease.value.segments[i]);
        if !stands { return false; }
      }
    }
    return true;
  }

  /** Why a reservation is refused, if it is; the tests are made in this order. */
  method CheckReservation(s: Space, v: Validated, permits: seq<nat>) returns (refusal: Option<ChangeError>)
    ensures refusal == Refusal(s, v, permits)
  {
    hide Present, PlanStillValid, AnyInTheWay, Writes, Tallied, TemplateBodies;
    if |s.transactions| >= s.limits.maxTransactions { return Some(TransactionLimit); }
    var present := SnapshotValid(s.regions, v.snapshot);
    if !present { return Some(Stale); }
    var valid := StillValid(s, v);
    if !valid { return Some(Stale); }
    var busy := Conflicts(s.transactions, v.plan.footprint, LeaseRange(v.lease));
    if busy { return Some(Busy); }
    var requirements := PermitRequirements(v.plan.replacements);
    var same := PermitsMatch(requirements, permits, Writes(TemplateBodies(v.plan.replacements)));
    if !same { return Some(PermitMismatch); }
    if |s.regions| + s.reservedGrowth + v.growth > s.limits.maxRegions { return Some(RegionLimit); }
    return None;
  }
}
