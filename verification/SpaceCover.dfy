/** Which regions a range covers, and where a new mapping fits. */
module SpaceCover {
  import opened Wrappers
  import opened SpaceLedger
  import opened SpacePieces

  /** Why an address may not be changed, if so. */
  function Fault(c: Option<Cell>, authority: Owner, mappingsOnly: bool): Option<ChangeError> {
    if c.None? then Some(NotCovered)
    else if c.value.owner != authority then Some(OwnerDenied)
    else if mappingsOnly && c.value.kind.Guard? then Some(GuardHit)
    else None
  }

  predicate Admits(r: Region, authority: Owner, mappingsOnly: bool) {
    r.body.owner == authority && (mappingsOnly ==> r.body.kind.Mapping?)
  }

  /** Regions `lo..hi` are those that meet the range, and together they cover it. */
  ghost predicate Covers(rs: seq<Region>, lo: nat, hi: nat, range: Range) {
    && lo < hi <= |rs| && rs[lo].body.range.start <= range.start && range.end <= rs[hi - 1].body.range.end
    && (forall i :: lo <= i < hi ==> Meets(rs[i], range))
    && (forall i :: 0 <= i < |rs| && !(lo <= i < hi) ==> !Meets(rs[i], range))
  }

  /** No address before `y` has a fault. */
  ghost predicate FaultFree(rs: seq<Region>, start: nat, y: nat, authority: Owner, mappingsOnly: bool) {
    forall x :: start <= x < y ==> Fault(Ledger(rs, x), authority, mappingsOnly) == None
  }

  /** The regions under a range: all of it must be covered and owned; the first address at fault decides the error. */
  method CoveredIndices(rs: seq<Region>, range: Range, authority: Owner, mappingsOnly: bool)
    returns (r: Result<(nat, nat), ChangeError>, ghost y: nat)
    requires Sorted(Bodies(rs)) && range.start < range.end
    ensures r.Ok? ==>
            Covers(rs, r.value.0, r.value.1, range) && FaultFree(rs, range.start, range.end, authority, mappingsOnly)
    ensures r.Ok? ==> forall i :: r.value.0 <= i < r.value.1 ==> Admits(rs[i], authority, mappingsOnly)
    ensures r.Err? ==> Within(range, y) && FaultFree(rs, range.start, y, authority, mappingsOnly)
    ensures r.Err? ==> Fault(Ledger(rs, y), authority, mappingsOnly) == Some(r.error)
  {
    hide Ledger, Fault, FaultFree, Sorted, Bodies;
    var cursor, i, lo := range.start, 0, 0;
    NoFaultYet(rs, range.start, authority, mappingsOnly);
    while i < |rs|
      invariant i <= |rs| && range.start <= cursor < range.end
                && FaultFree(rs, range.start, cursor, authority, mappingsOnly)
      invariant forall j :: 0 <= j < i ==> rs[j].body.range.end <= cursor
      invariant lo <= i && forall j :: 0 <= j < lo ==> !Meets(rs[j], range)
      invariant forall j :: lo <= j < i ==> Meets(rs[j], range) && Admits(rs[j], authority, mappingsOnly)
      invariant if lo == i then cursor == range.start
                else rs[lo].body.range.start <= range.start && rs[i - 1].body.range.end == cursor
    {
      InOrder(rs, i);
      if rs[i].body.range.end <= cursor {
        assert lo == i;
        i, lo := i + 1, i + 1;
        continue;
      }
      if rs[i].body.range.start > cursor {
        GapAt(rs, i, cursor, authority, mappingsOnly);
        return Err(NotCovered), cursor;
      }
      CellAt(rs, i, cursor, authority, mappingsOnly);
      if rs[i].body.owner != authority { return Err(OwnerDenied), cursor; }
      if mappingsOnly && rs[i].body.kind.Guard? { return Err(GuardHit), cursor; }
      var next := Min(rs[i].body.range.end, range.end);
      MoreFaultFree(rs, i, range.start, cursor, next, authority, mappingsOnly);
      if next == range.end {
        RestApart(rs, i, range);
        return Ok((lo, i + 1)), 0;
      }
      cursor, i := next, i + 1;
    }
    GapAt(rs, i, cursor, authority, mappingsOnly);
    return Err(NotCovered), cursor;
  }

  lemma NoFaultYet(rs: seq<Region>, start: nat, authority: Owner, mappingsOnly: bool)
    ensures FaultFree(rs, start, start, authority, mappingsOnly)
  {}

  lemma InOrder(rs: seq<Region>, i: nat)
    requires Sorted(Bodies(rs)) && i < |rs|
    ensures rs[i].body.range.start < rs[i].body.range.end
    ensures i > 0 ==> rs[i - 1].body.range.end <= rs[i].body.range.start
  {
    assert Bodies(rs)[i].range.start < Bodies(rs)[i].range.end;
    if i > 0 { assert Bodies(rs)[i - 1].range.end <= Bodies(rs)[i].range.start; }
  }

  lemma RestApart(rs: seq<Region>, i: nat, range: Range)
    requires Sorted(Bodies(rs)) && i < |rs| && range.end <= rs[i].body.range.end
    ensures forall j :: i < j < |rs| ==> !Meets(rs[j], range)
  {
    forall j | i < j < |rs| ensures !Meets(rs[j], range) {
      assert Bodies(rs)[i].range.end <= Bodies(rs)[j].range.start;
    }
  }

  lemma SortedApart(bs: seq<Body>)
    requires Sorted(bs)
    ensures Apart(bs)
  {}

  lemma GapAt(rs: seq<Region>, i: nat, x: nat, authority: Owner, mappingsOnly: bool)
    requires Sorted(Bodies(rs)) && i <= |rs| && (i < |rs| ==> x < rs[i].body.range.start)
    requires forall j :: 0 <= j < i ==> rs[j].body.range.end <= x
    ensures Fault(Ledger(rs, x), authority, mappingsOnly) == Some(NotCovered)
  {
    forall j | 0 <= j < |rs| ensures !Within(Bodies(rs)[j].range, x) {
      if i < j { assert Bodies(rs)[i].range.end <= Bodies(rs)[j].range.start; InOrder(rs, i); }
    }
    ViewNone(Bodies(rs), x);
  }

  lemma CellAt(rs: seq<Region>, i: nat, x: nat, authority: Owner, mappingsOnly: bool)
    requires Sorted(Bodies(rs)) && i < |rs| && Within(rs[i].body.range, x)
    ensures Ledger(rs, x) == Some(At(rs[i].body, x))
    ensures Fault(Ledger(rs, x), authority, mappingsOnly)
         == if rs[i].body.owner != authority then Some(OwnerDenied)
            else if mappingsOnly && rs[i].body.kind.Guard? then Some(GuardHit) else None
  {
    SortedApart(Bodies(rs));
    ViewAt(Bodies(rs), i, x);
  }

  lemma MoreFaultFree(rs: seq<Region>, i: nat, start: nat, y: nat, z: nat, authority: Owner, mappingsOnly: bool)
    requires Sorted(Bodies(rs)) && i < |rs| && rs[i].body.range.start <= y && z <= rs[i].body.range.end
    requires Admits(rs[i], authority, mappingsOnly) && FaultFree(rs, start, y, authority, mappingsOnly)
    ensures FaultFree(rs, start, z, authority, mappingsOnly)
  {
    hide Ledger, Fault;
    forall x | start <= x < z ensures Fault(Ledger(rs, x), authority, mappingsOnly) == None {
      if y <= x { CellAt(rs, i, x, authority, mappingsOnly); }
    }
  }

  // ---- holes --------------------------------------------------------------------------------

  ghost predicate Clear(obstacles: seq<Range>, r: Range) {
    forall i :: 0 <= i < |obstacles| ==> !Overlaps(obstacles[i], r)
  }

  ghost predicate Fits(bounds: Range, obstacles: seq<Range>, start: nat, bytes: nat) {
    bounds.start <= start && start + bytes <= bounds.end && Clear(obstacles, Range(start, start + bytes))
  }

  function RangeStart(r: Range): nat { r.start }

  /** The lowest place in the bounds that meets no obstacle. */
  method FindHole(bounds: Range, obstacles0: seq<Range>, bytes: nat) returns (r: Result<Range, ChangeError>)
    requires bytes > 0 && bounds.start <= bounds.end
    requires OnPage(bounds.start)
             && forall i :: 0 <= i < |obstacles0| ==> Contains(bounds, obstacles0[i]) && Paged(obstacles0[i])
    ensures r.Ok? ==>
            r.value.end == r.value.start + bytes && OnPage(r.value.start)
            && Fits(bounds, obstacles0, r.value.start, bytes)
    ensures r.Ok? ==> forall s: nat :: Fits(bounds, obstacles0, s, bytes) ==> r.value.start <= s
    ensures r.Err? ==> r.error == Conflict && forall s: nat :: !Fits(bounds, obstacles0, s, bytes)
  {
    hide OnPage;
    var obstacles := SortBy(obstacles0, RangeStart);
    SameObstacles(obstacles0);
    var cursor, i := bounds.start, 0;
    while i < |obstacles|
      invariant i <= |obstacles| && bounds.start <= cursor && OnPage(cursor)
      invariant forall j :: 0 <= j < i ==> obstacles[j].end <= cursor
      invariant forall s: nat :: Fits(bounds, obstacles0, s, bytes) ==> cursor <= s
    {
      var o := obstacles[i];
      assert o in obstacles0;
      if o.end > cursor {
        if o.start > cursor && o.start - cursor >= bytes {
          assert Fits(bounds, obstacles0, cursor, bytes) by { BeforeRest(obstacles0, obstacles, i, cursor, bytes); }
          return Ok(Range(cursor, cursor + bytes));
        }
        forall s: nat | Fits(bounds, obstacles0, s, bytes) ensures o.end <= s {
          assert !Overlaps(o, Range(s, s + bytes));
        }
        cursor := Max(cursor, o.end);
      }
      i := i + 1;
    }
    if cursor + bytes <= bounds.end {
      AfterAll(obstacles0, obstacles, cursor, bytes);
      r := Ok(Range(cursor, cursor + bytes));
    } else {
      r := Err(Conflict);
    }
  }

  lemma SameObstacles(obstacles: seq<Range>)
    ensures var s := SortBy(obstacles, RangeStart);
            && (forall o :: o in s <==> o in obstacles)
                && (forall i, j :: 0 <= i < j < |s| ==> s[i].start <= s[j].start)
  {
    var s := SortBy(obstacles, RangeStart);
    SortHolds(obstacles, RangeStart);
    forall o ensures o in s <==> o in obstacles { assert o in multiset(s) <==> o in multiset(obstacles); }
    forall i, j | 0 <= i < j < |s| ensures s[i].start <= s[j].start { assert RangeStart(s[i]) <= RangeStart(s[j]); }
  }

  lemma AfterAll(obstacles0: seq<Range>, obstacles: seq<Range>, cursor: nat, bytes: nat)
    requires (forall j :: 0 <= j < |obstacles| ==> obstacles[j].end <= cursor)
             && forall o :: o in obstacles <==> o in obstacles0
    ensures Clear(obstacles0, Range(cursor, cursor + bytes))
  {
    forall k | 0 <= k < |obstacles0| ensures !Overlaps(obstacles0[k], Range(cursor, cursor + bytes)) {
      assert obstacles0[k] in obstacles0;
      assert obstacles0[k] in obstacles;
    }
  }

  lemma BeforeRest(obstacles0: seq<Range>, obstacles: seq<Range>, i: nat, cursor: nat, bytes: nat)
    requires i < |obstacles| && cursor + bytes <= obstacles[i].start
             && forall j :: 0 <= j < i ==> obstacles[j].end <= cursor
    requires (forall o :: o in obstacles <==> o in obstacles0)
             && forall j, k :: 0 <= j < k < |obstacles| ==> obstacles[j].start <= obstacles[k].start
    ensures Clear(obstacles0, Range(cursor, cursor + bytes))
  {
    forall k | 0 <= k < |obstacles0| ensures !Overlaps(obstacles0[k], Range(cursor, cursor + bytes)) {
      assert obstacles0[k] in obstacles;
      var j :| 0 <= j < |obstacles| && obstacles[j] == obstacles0[k];
      if j > i { assert obstacles[i].start <= obstacles[j].start; }
    }
  }
}
