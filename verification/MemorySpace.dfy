/** One address space: validators that only read, and the steps of a change that update the ledger in place. */
module MemorySpace {
  import opened Wrappers
  import opened SpaceLedger
  import opened SpacePieces
  import opened SpaceState
  import opened SpaceCommit
  import opened SpaceRun
  import opened SpaceCover
  import opened SpaceReserve
  import opened SpaceValid
  import opened SpaceMap
  import opened SpaceChecks

  datatype FaultClass = FreeAddress | GuardAddress | MappedAddress(protection: Protection)

  class MemorySpace {
    const bounds: Range
    const limits: Limits
    var regions: seq<Region>
    var transactions: seq<Record>
    var nextAllocation: nat
    var nextRegion: nat
    var nextChange: nat
    var reservedGrowth: nat
    ghost var deeds: map<nat, Region>
    ghost var pending: map<nat, Prepared>

    ghost function State(): Space
      reads this
    {
      Space(bounds, limits, regions, transactions, nextAllocation, nextRegion, nextChange, reservedGrowth, deeds,
            pending)
    }

    /** The fields the source has, without the two kept for proof. */
    function Books(): Space
      reads this
    {
      Space(bounds, limits, regions, transactions, nextAllocation, nextRegion, nextChange, reservedGrowth, map[], map[])
    }

    ghost predicate Valid()
      reads this
    {
      Inv(State())
    }

    constructor (b: Range, l: Limits)
      ensures Valid() && regions == [] && transactions == [] && bounds == b && limits == l
    {
      bounds, limits := b, l;
      regions, transactions := [], [];
      nextAllocation, nextRegion, nextChange, reservedGrowth := 1, 1, 1, 0;
      deeds, pending := map[], map[];
    }

    method ClassifyFault(address: nat) returns (f: FaultClass)
      requires Valid()
      ensures f == match Ledger(regions, address)
                   case None => FreeAddress
                   case Some(c) => if c.kind.Guard? then GuardAddress else MappedAddress(c.kind.current)
    {
      hide Ledger, CountsOk, RecordsOk, ChangesOk;
      var i := 0;
      while i < |regions|
        invariant i <= |regions| && forall j :: 0 <= j < i ==> !Within(regions[j].body.range, address)
      {
        if Within(regions[i].body.range, address) {
          LedgerBy(regions, regions[i], address);
          return if regions[i].body.kind.Guard? then GuardAddress else MappedAddress(regions[i].body.kind.current);
        }
        i := i + 1;
      }
      if Ledger(regions, address).Some? { var r := LedgerFrom(regions, address); }
      return FreeAddress;
    }

    // ---- validation -----------------------------------------------------------------------------

    function Pages(r: Range): nat
      requires r.start <= r.end
    {
      (r.end - r.start) / PAGE_SIZE
    }

    /** Why a range may not be changed at all, if so. */
    ghost function RangeRefusal(range: Range): Option<ChangeError>
      requires range.start <= range.end
      reads this
    {
      if !Contains(bounds, range) then Some(OutOfBounds)
      else if Pages(range) > limits.maxPages then Some(PageLimit)
      else if AnyInTheWay(transactions, range, None) then Some(Busy)
      else None
    }

    method CheckRange(range: Range) returns (refusal: Option<ChangeError>)
      requires range.start <= range.end
      ensures refusal == RangeRefusal(range)
    {
      if !Contains(bounds, range) { return Some(OutOfBounds); }
      if Pages(range) > limits.maxPages { return Some(PageLimit); }
      var busy := Conflicts(transactions, range, None);
      return if busy then Some(Busy) else None;
    }

    method ValidateUnmap(range: Range, authority: Owner) returns (r: Result<Validated, ChangeError>, ghost y: nat)
      requires Valid() && Paged(range)
      ensures RangeRefusal(range).Some? ==> r == Err(RangeRefusal(range).value)
      ensures r.Ok? ==> ValidatedOk(deeds, bounds, r.value) && r.value.plan.op == OpUnmap(range) && r.value.view == None
      ensures r.Ok? <==>
                && RangeRefusal(range).None? && FaultFree(regions, range.start, range.end, authority, false)
                && |regions| + reservedGrowth + One(Splits(regions, range)) <= limits.maxRegions
      ensures RangeRefusal(range).None? && r.Err? ==>
                if FaultFree(regions, range.start, range.end, authority, false) then r.error == RegionLimit
                else Within(range, y) && FaultFree(regions, range.start, y, authority, false)
                     && Fault(Ledger(regions, y), authority, false) == Some(r.error)
    {
      hide Splits, Inv, LedgerOk, ValidatedOk, FaultFree, Fault, Ledger, Covers, AnyMapping, UnmapPieces, AnyInTheWay;
      LedgerFacts();
      var refusal := CheckRange(range);
      y := 0;
      if refusal.Some? { return Err(refusal.value), 0; }
      var found;
      found, y := CoveredIndices(regions, range, authority, false);
      if found.Err? {
        SomeFault(range, y, authority, false);
        return Err(found.error), y;
      }
      var lo, hi := found.value.0, found.value.1;
      CoversFacts(regions, lo, hi, range);
      UnmapGrowth(regions, lo, hi, range);
      var v := PlanUnmap(range, lo, hi);
      UnmapValid(State(), lo, hi, range, authority, v.plan.retiring);
      if |regions| + reservedGrowth + v.growth > limits.maxRegions { return Err(RegionLimit), 0; }
      return Ok(v), 0;
    }

    lemma LedgerFacts()
      requires Valid()
      ensures LedgerOk(State()) && Sorted(Bodies(regions))
    {}

    /** Cuts the covered regions one by one. */
    method PlanUnmap(range: Range, lo: nat, hi: nat) returns (v: Validated)
      requires Sorted(Bodies(regions)) && range.start < range.end && lo < hi <= |regions|
      requires forall i :: lo <= i < hi ==> Meets(regions[i], range)
      ensures v == UnmapChange(State(), lo, hi, range, v.plan.retiring)
    {
      hide Sorted, LeftPiece, RightPiece, Meets;
      var remove: seq<nat>, replacements: seq<Template>, retiring: seq<Fragment>, some := [], [], [], false;
      var i := lo;
      while i < hi
        invariant lo <= i <= hi && remove == KeysOf(regions, lo, i)
                  && replacements == UnmapPieces(regions, lo, i, range)
        invariant some <==> AnyMapping(regions, lo, i)
      {
        var region := regions[i];
        remove := remove + [region.key];
        replacements := replacements + LeftPiece(region, range) + RightPiece(region, range);
        retiring := retiring + [RetireFrom(region, range, true)];
        some := some || region.body.kind.Mapping?;
        i := i + 1;
      }
      UnmapNeat(regions, lo, hi, range);
      NeatStays(replacements);
      replacements := SortBy(replacements, TemplateStart);
      v := Validated(Plan(OpUnmap(range), remove, replacements, retiring, UnmapIntents(some, range), range), remove,
                     None,
                     Growth(|replacements|, |remove|), None);
    }

    lemma NeatStays(ts: seq<Template>)
      requires Neat(ts)
      ensures SortBy(ts, TemplateStart) == ts
    {
      forall i, j | 0 <= i < j < |ts| ensures TemplateStart(ts[i]) <= TemplateStart(ts[j]) {
        assert TemplateBodies(ts)[i].range.start < TemplateBodies(ts)[i].range.end <= TemplateBodies(ts)[j].range.start;
      }
      SortedStays(ts, TemplateStart);
    }

    /** The fragment of a region that leaves the ledger. */
    function RetireFrom(r: Region, range: Range, release: bool): Fragment {
      var cut := Cut(r.body.range, range);
      Fragment(Body(r.body.allocation, cut, r.body.owner, Shifted(r.body.kind, cut.start - r.body.range.start)),
               release)
    }

    method ValidateProtect(range: Range, protection: Protection, authority: Owner)
        returns (r: Result<Validated, ChangeError>, ghost y: nat, ghost lo: nat, ghost hi: nat)
      requires Valid() && Paged(range)
      ensures RangeRefusal(range).Some? ==> r == Err(RangeRefusal(range).value)
      ensures r.Ok? ==>
              ValidatedOk(deeds, bounds, r.value) && r.value.plan.op == OpProtect(range, protection)
              && r.value.view == None
      ensures r.Ok? ==> FaultFree(regions, range.start, range.end, authority, true)
      ensures RangeRefusal(range).None? && r.Err? && r.error in {NotCovered, OwnerDenied, GuardHit} ==>
                Within(range, y) && FaultFree(regions, range.start, y, authority, true)
                    && Fault(Ledger(regions, y), authority, true) == Some(r.error)
      ensures RangeRefusal(range).None? && FaultFree(regions, range.start, range.end, authority, true) ==>
                (r == Err(PermissionDenied)
                 <==> exists x :: Within(range, x) && Bars(Ledger(regions, x), protection))
      ensures RangeRefusal(range).None? && r.Err? ==>
                r.error in {NotCovered, OwnerDenied, GuardHit}
                || FaultFree(regions, range.start, range.end, authority, true)
      ensures RangeRefusal(range).None? && FaultFree(regions, range.start, range.end, authority, true)
              && r != Err(PermissionDenied) ==>
                && Covers(regions, lo, hi, range)
                && (if AllSame(regions, lo, hi, protection) then r.Ok?
                    else r.Ok? == PlanRefusal(ProtectPlan(range, protection, lo, hi)).None?
                         && (r.Err? ==> Some(r.error) == PlanRefusal(ProtectPlan(range, protection, lo, hi))))
    {
      hide Inv, LedgerOk, ValidatedOk, FaultFree, Fault, Ledger, Covers, AnyInTheWay, Allows, AllSame, Bars,
           ProtectPlan, ProtectKeys, ProtectReplacements, ProtectIntents;
      LedgerFacts();
      var refusal := CheckRange(range);
      y, lo, hi := 0, 0, 0;
      if refusal.Some? { return Err(refusal.value), 0, 0, 0; }
      var found;
      found, y := CoveredIndices(regions, range, authority, true);
      if found.Err? {
        FaultIs(y, authority, found.error);
        SomeFault(range, y, authority, true);
        return Err(found.error), y, 0, 0;
      }
      var first, last := found.value.0, found.value.1;
      lo, hi := first, last;
      CoversFacts(regions, lo, hi, range);
      NoneBarred(regions, lo, hi, range, protection);
      var allowed, same := ScanProtections(first, last, protection);
      if !allowed { return Err(PermissionDenied), 0, lo, hi; }
      if same {
        IdleValid(State(), lo, hi, range, protection, authority);
        return Ok(Validated(Plan(OpProtect(range, protection), [], [], [], [], range), KeysOf(regions, first, last),
                            None, 0, None)), 0, lo, hi;
      }
      var v, left, right := PlanProtect(range, protection, first, last);
      ProtectValid(State(), lo, hi, left, right, range, protection, authority, v.plan.retiring);
      var busy := Conflicts(transactions, v.plan.footprint, None);
      if busy { return Err(Busy), 0, lo, hi; }
      if |regions| + reservedGrowth + v.growth > limits.maxRegions { return Err(RegionLimit), 0, lo, hi; }
      return Ok(v), 0, lo, hi;
    }

    /** Why a plan that found its regions cannot be admitted, if so. */
    ghost function PlanRefusal(v: Validated): Option<ChangeError>
      reads this
    {
      if AnyInTheWay(transactions, v.plan.footprint, None) then Some(Busy)
      else if |regions| + reservedGrowth + v.growth > limits.maxRegions then Some(RegionLimit)
      else None
    }

    /** The plan for a protect of the regions found, with every neighbour that merges. */
    ghost function ProtectPlan(range: Range, p: Protection, lo: nat, hi: nat): Validated
      requires lo < hi <= |regions|
      reads this
    {
      var pieces := ProtectPieces(regions, lo, hi, range, p);
      ProtectChange(State(), lo, hi, MergesLeft(lo, pieces), MergesRight(hi, pieces), range, p, [])
    }

    predicate MergesLeft(lo: nat, pieces: seq<Template>)
      requires lo <= |regions|
      reads this
    {
      lo > 0 && pieces != [] && regions[lo - 1].permit.None? && Mergeable(regions[lo - 1], pieces[0])
    }

    predicate MergesRight(hi: nat, pieces: seq<Template>)
      requires hi <= |regions|
      reads this
    {
      hi < |regions| && pieces != [] && regions[hi].permit.None? && Mergeable(regions[hi], pieces[|pieces| - 1])
    }

    lemma FaultIs(y: nat, authority: Owner, error: ChangeError)
      requires Fault(Ledger(regions, y), authority, true) == Some(error)
      ensures error in {NotCovered, OwnerDenied, GuardHit}
    {}

    lemma SomeFault(range: Range, y: nat, authority: Owner, mappingsOnly: bool)
      requires Within(range, y) && Fault(Ledger(regions, y), authority, mappingsOnly).Some?
      ensures !FaultFree(regions, range.start, range.end, authority, mappingsOnly)
    {}

    method ScanProtections(lo: nat, hi: nat, p: Protection) returns (allowed: bool, same: bool)
      requires lo <= hi <= |regions| && forall i :: lo <= i < hi ==> Admits(regions[i], regions[i].body.owner, true)
      ensures allowed <==> forall i :: lo <= i < hi ==> Allows(regions[i], p)
      ensures same <==> AllSame(regions, lo, hi, p)
    {
      allowed, same := true, true;
      var i := lo;
      while i < hi
        invariant lo <= i <= hi && (allowed <==> forall j :: lo <= j < i ==> Allows(regions[j], p))
                  && (same <==> AllSame(regions, lo, i, p))
      {
        assert Admits(regions[i], regions[i].body.owner, true);
        allowed := allowed && Permits(regions[i].body.kind.maximum, p);
        same := same && regions[i].body.kind.current == p;
        i := i + 1;
      }
    }

    /** Whether a neighbour and a template of the plan can become one. */
    predicate Mergeable(r: Region, t: Template) {
      var whole := TemplateFrom(r, r.body.range, None);
      if r.body.range.end == t.body.range.start then SpacePieces.Compatible(whole, t)
      else t.body.range.end == r.body.range.start && SpacePieces.Compatible(t, whole)
    }

    /** Cuts and reprotects the covered regions, takes in a neighbour on either side if it merges, and coalesces. */
    method PlanProtect(range: Range, p: Protection, lo: nat, hi: nat) returns (v: Validated, left: bool, right: bool)
      requires Sorted(Bodies(regions)) && range.start < range.end && Covers(regions, lo, hi, range)
      ensures (left ==> lo > 0) && (right ==> hi < |regions|) && lo < hi <= |regions|
      ensures v == ProtectChange(State(), lo, hi, left, right, range, p, v.plan.retiring)
      ensures v.plan.footprint == ProtectPlan(range, p, lo, hi).plan.footprint
              && v.growth == ProtectPlan(range, p, lo, hi).growth
    {
      hide Sorted, ProtectPieces, Covers, SpacePieces.Compatible, Neighbour, Neat, ProtectIntents, Normalized,
           Mergeable, KeysOf, SortBy, ProtectPlan;
      CoversFacts(regions, lo, hi, range);
      var remove, pieces, retiring, translations := CutForProtect(range, p, lo, hi);
      PiecesNeat(regions, lo, hi, false, false, range, p);
      left, right := MergesLeft(lo, pieces), MergesRight(hi, pieces);
      PiecesNeat(regions, lo, hi, left, right, range, p);
      FlankedSort(regions, lo, hi, left, right, range, p);
      remove := remove + (if left then [regions[lo - 1].key] else []) + (if right then [regions[hi].key] else []);
      var all := SortBy(pieces + (if left then Neighbour(regions[lo - 1]) else [])
                        + (if right then Neighbour(regions[hi]) else []), TemplateStart);
      var ts := Normalize(all);
      ProtectFootprint(regions, lo, hi, left, right, range, p);
      var footprint := Range(ts[0].body.range.start, ts[|ts| - 1].body.range.end);
      v := Validated(Plan(OpProtect(range, p), remove, ts, retiring, translations, footprint), remove, None,
                     Growth(|ts|, |remove|), None);
      PlanIs(range, p, lo, hi, left, right, retiring);
    }

    lemma PlanIs(range: Range, p: Protection, lo: nat, hi: nat, left: bool, right: bool, retiring: seq<Fragment>)
      requires lo < hi <= |regions| && (left ==> lo > 0) && (right ==> hi < |regions|)
      requires left == MergesLeft(lo, ProtectPieces(regions, lo, hi, range, p))
               && right == MergesRight(hi, ProtectPieces(regions, lo, hi, range, p))
      ensures ProtectChange(State(), lo, hi, left, right, range, p, retiring)
           == var v := ProtectPlan(range, p, lo, hi); v.(plan := v.plan.(retiring := retiring))
    {
      hide ProtectPieces, ProtectReplacements, ProtectKeys, ProtectIntents;
    }

    method CutForProtect(range: Range, p: Protection, lo: nat, hi: nat)
      returns (remove: seq<nat>, pieces: seq<Template>, retiring: seq<Fragment>, translations: seq<Intent>)
      requires lo < hi <= |regions| && forall i :: lo <= i < hi ==> Meets(regions[i], range)
      ensures remove == KeysOf(regions, lo, hi) && pieces == ProtectPieces(regions, lo, hi, range, p)
      ensures translations == ProtectIntents(regions, lo, hi, range, p)
    {
      hide LeftPiece, MiddlePiece, RightPiece, Meets;
      remove, pieces, retiring, translations := [], [], [], [];
      var i := lo;
      while i < hi
        invariant lo <= i <= hi && remove == KeysOf(regions, lo, i) && pieces == ProtectPieces(regions, lo, i, range, p)
        invariant translations == ProtectIntents(regions, lo, i, range, p)
      {
        var region := regions[i];
        remove := remove + [region.key];
        pieces := pieces + LeftPiece(region, range) + MiddlePiece(region, range, p) + RightPiece(region, range);
        retiring := retiring + [RetireFrom(region, range, false)];
        if region.body.kind.Mapping? && region.body.kind.current != p {
          translations := translations + [Protect(Cut(region.body.range, range), region.body.kind.current, p)];
        } else {
          assert translations + [] == translations;
        }
        i := i + 1;
      }
    }

    /** Sorting puts the neighbours at the two ends. */
    lemma FlankedSort(rs: seq<Region>, lo: nat, hi: nat, left: bool, right: bool, range: Range, p: Protection)
      requires lo < hi <= |rs| && (left ==> lo > 0) && (right ==> hi < |rs|)
      requires Neat(Pieces(rs, lo, hi, left, right, range, p)) && Neat(ProtectPieces(rs, lo, hi, range, p))
      ensures SortBy(ProtectPieces(rs, lo, hi, range, p) + (if left then Neighbour(rs[lo - 1]) else [])
                     + (if right then Neighbour(rs[hi]) else []), TemplateStart)
           == Pieces(rs, lo, hi, left, right, range, p)
    {
      hide ProtectPieces, Neighbour;
      var mid, l, r := ProtectPieces(rs, lo, hi, range, p), if left then Neighbour(rs[lo - 1])
          else [], if right then Neighbour(rs[hi]) else [];
      NeighbourOne(rs, lo, hi, left, right);
      EndsSort(mid, l, r);
    }

    lemma NeighbourOne(rs: seq<Region>, lo: nat, hi: nat, left: bool, right: bool)
      ensures left && 0 < lo <= |rs| ==> |Neighbour(rs[lo - 1])| == 1
      ensures right && hi < |rs| ==> |Neighbour(rs[hi])| == 1
    {}

    lemma EndsSort(mid: seq<Template>, l: seq<Template>, r: seq<Template>)
      requires |l| <= 1 && |r| <= 1 && Neat(l + mid + r) && Neat(mid)
      ensures SortBy(mid + l + r, TemplateStart) == l + mid + r
    {
      hide SortBy, Insert, Neat;
      NeatStays(mid);
      StartsAscend(l + mid + r);
      if |l| == 1 {
        forall i | 0 <= i < |mid|
          ensures TemplateStart(l[0]) < TemplateStart(mid[i])
        {
          assert (l + mid + r)[i + 1] == mid[i] && (l + mid + r)[0] == l[0];
        }
        FrontSort(mid, l[0]);
        assert l == [l[0]];
      } else {
        assert mid + l == mid && l + mid == mid;
      }
      if |r| == 1 {
        var lm := l + mid;
        if lm != [] { assert (l + mid + r)[|lm| - 1] == lm[|lm| - 1] && (l + mid + r)[|lm|] == r[0]; }
        BackSort(mid + l, lm, r[0]);
        assert r == [r[0]];
      } else {
        assert mid + l + r == mid + l && l + mid + r == l + mid;
      }
    }

    lemma StartsAscend(ts: seq<Template>)
      requires Neat(ts)
      ensures forall i, j :: 0 <= i < j < |ts| ==> TemplateStart(ts[i]) < TemplateStart(ts[j])
    {
      forall i, j | 0 <= i < j < |ts| ensures TemplateStart(ts[i]) < TemplateStart(ts[j]) {
        assert TemplateBodies(ts)[i].range.start < TemplateBodies(ts)[i].range.end <= TemplateBodies(ts)[j].range.start;
      }
    }

    lemma FrontSort(mid: seq<Template>, t: Template)
      requires SortBy(mid, TemplateStart) == mid
               && forall i :: 0 <= i < |mid| ==> TemplateStart(t) < TemplateStart(mid[i])
      ensures SortBy(mid + [t], TemplateStart) == [t] + mid
    {
      assert (mid + [t])[..|mid|] == mid && (mid + [t])[|mid|] == t;
      InsertFront(mid, t, TemplateStart);
    }

    lemma BackSort(s: seq<Template>, sorted: seq<Template>, t: Template)
      requires SortBy(s, TemplateStart) == sorted
               && (sorted == [] || TemplateStart(sorted[|sorted| - 1]) <= TemplateStart(t))
      ensures SortBy(s + [t], TemplateStart) == sorted + [t]
    {
      assert (s + [t])[..|s|] == s && (s + [t])[|s|] == t;
    }

    /** Merges each template into the one before it when the two are compatible. */
    method Normalize(ts: seq<Template>) returns (out: seq<Template>)
      ensures out == Normalized(ts, |ts|)
    {
      hide SpacePieces.Compatible, Merged, Normalized;
      out := [];
      var n := 0;
      NormalizedStep(ts, 0);
      while n < |ts|
        invariant n <= |ts| && out == Normalized(ts, n)
      {
        NormalizedStep(ts, n);
        if out != [] && SpacePieces.Compatible(out[|out| - 1], ts[n]) {
          out := out[|out| - 1 := Merged(out[|out| - 1], ts[n])];
        } else {
          out := out + [ts[n]];
        }
        n := n + 1;
      }
    }

    lemma NormalizedStep(ts: seq<Template>, n: nat)
      requires n <= |ts|
      ensures Normalized(ts, 0) == []
      ensures n < |ts| ==> var out := Normalized(ts, n);
              Normalized(ts, n + 1) == if out != []
                  && SpacePieces.Compatible(out[|out| - 1], ts[n]) then out[|out| - 1 := Merged(out[|out| - 1], ts[n])]
                  else out + [ts[n]]
    {
      if n < |ts| {
        var out := Normalized(ts, n);
        if out != [] {
          assert out[|out| - 1 := Merged(out[|out| - 1], ts[n])] == out[..|out| - 1] + [Merged(out[|out| - 1], ts[n])];
        }
      }
    }

    /** Why a lease is refused before its regions are looked at, if so. */
    ghost function LeaseRefusal(range: Range, mutation: Range): Option<ChangeError>
      requires range.start < range.end
      reads this
    {
      if range.end - range.start > limits.maxLeaseBytes then Some(LeaseTooLarge)
      else if !Contains(bounds, range) then Some(OutOfBounds)
      else if AnyInTheWay(transactions, mutation, Some(range)) then Some(Busy)
      else None
    }

    /** More regions from `lo` on meet the range than a lease may have segments. */
    ghost predicate Crowded(lo: nat, range: Range)
      reads this
    {
      && lo + limits.maxLeaseSegments < |regions|
      && forall i :: lo <= i <= lo + limits.maxLeaseSegments ==> Meets(regions[i], range)
    }

    /** A lease is admitted: nothing refuses it, all of its range is writable, and its regions are few enough. */
    ghost predicate Leasable(range: Range, mutation: Range)
      requires range.start < range.end
      reads this
    {
      && LeaseRefusal(range, mutation).None? && AllWritable(range) && forall l: nat :: !Crowded(l, range)
    }

    ghost predicate AllWritable(range: Range)
      reads this
    {
      forall x: nat :: Within(range, x) ==> Writable(Ledger(regions, x))
    }

    /** What a refused lease is refused for. */
    ghost predicate LeaseFault(range: Range, mutation: Range, error: ChangeError, y: nat)
      requires range.start < range.end
      reads this
    {
      if LeaseRefusal(range, mutation).Some? then LeaseRefusal(range, mutation) == Some(error)
      else (error == LeaseInvalid && Within(range, y) && !Writable(Ledger(regions, y)))
           || (error == LeaseTooLarge && Crowded(y, range))
    }

    /** The segments of a user range that must stay writable until the change commits. */
    method ValidateUserWriteLease(range: Range, mutation: Range)
        returns (r: Result<(Lease, seq<nat>), ChangeError>, ghost y: nat)
      requires Valid() && range.start < range.end
      ensures r.Ok? <==> Leasable(range, mutation)
      ensures r.Err? ==> LeaseFault(range, mutation, r.error, y)
      ensures r.Ok? ==> r.value.0.range == range && LeaseKnown(deeds, Some(r.value.0)) && Known(deeds, r.value.1)
      ensures r.Ok? ==>
              Contains(bounds, range) && !AnyInTheWay(transactions, mutation, Some(range))
              && LeaseHolds(regions, r.value.0)
    {
      hide Inv, LeaseKnown, Known, LeaseHolds, AnyInTheWay, Crowded, Writable, Ledger;
      y := 0;
      if range.end - range.start > limits.maxLeaseBytes { return Err(LeaseTooLarge), 0; }
      if !Contains(bounds, range) { return Err(OutOfBounds), 0; }
      var busy := Conflicts(transactions, mutation, Some(range));
      if busy { return Err(Busy), 0; }
      r, y := CollectSegments(range);
      if r.Err? && r.error == LeaseInvalid { assert !AllWritable(range); }
    }

    /** Walks the regions from the start of the range on, as long as each is writable and follows the last. */
    method CollectSegments(range: Range) returns (r: Result<(Lease, seq<nat>), ChangeError>, ghost y: nat)
      requires Valid() && range.start < range.end
      ensures r.Err? ==>
                (r.error == LeaseInvalid && Within(range, y) && !Writable(Ledger(regions, y)))
                || (r.error == LeaseTooLarge && Crowded(y, range))
      ensures r.Ok? ==> r.value.0.range == range && LeaseKnown(deeds, Some(r.value.0)) && Known(deeds, r.value.1)
                        && LeaseHolds(regions, r.value.0)
      ensures r.Ok? ==> AllWritable(range) && forall l: nat :: !Crowded(l, range)
    {
      hide AllWritable, Inv, LedgerOk, Known, SegmentKnown, SegmentHolds, Sorted, Bodies, KeysOf, Partly, LeaseKnown,
           LeaseHolds, Writable, Ledger, Secured, Crowded, Meets;
      LedgerFacts();
      var segments: seq<Segment>, cursor, i, lo := [], range.start, 0, 0;
      NoSegments(range.start);
      while i < |regions|
        invariant lo <= i <= |regions| && range.start <= cursor < range.end && |segments| == i - lo
        invariant Secured(segments) && Partly(segments, range.start, cursor)
        invariant if lo == i then cursor == range.start else regions[i - 1].body.range.end == cursor
        invariant forall j :: 0 <= j < i ==> regions[j].body.range.end <= cursor
        invariant forall j :: 0 <= j < lo ==> regions[j].body.range.end <= range.start
        invariant |segments| <= limits.maxLeaseSegments && forall j :: lo <= j < i ==> Meets(regions[j], range)
      {
        InOrder(regions, i);
        if regions[i].body.range.end <= cursor {
          i, lo := i + 1, i + 1;
          continue;
        }
        if regions[i].body.range.start > cursor {
          NothingWritable(i, cursor);
          return Err(LeaseInvalid), cursor;
        }
        var k := regions[i].body.kind;
        if k.Guard? || k.current != ReadWrite {
          NotWritable(i, cursor);
          return Err(LeaseInvalid), cursor;
        }
        var end := Min(regions[i].body.range.end, range.end);
        MeetsAt(i, range, cursor);
        if |segments| >= limits.maxLeaseSegments {
          CrowdedHere(lo, range);
          return Err(LeaseTooLarge), lo;
        }
        var g := Segment(regions[i].key, Range(cursor, end), k.source,
                         k.offset + (cursor - regions[i].body.range.start));
        SegmentTaken(i, g);
        SegmentAdded(segments, g, range.start);
        segments := segments + [g];
        i := i + 1;
        if end == range.end {
          KeysKnown(State(), lo, i);
          SegmentsDone(segments, range);
          FewEnough(lo, i, range);
          return Ok((Lease(range, segments), KeysOf(regions, lo, i))), 0;
        }
        cursor := end;
      }
      NothingWritable(i, cursor);
      return Err(LeaseInvalid), cursor;
    }

    /** Each segment is known and names what is there. */
    ghost predicate Secured(gs: seq<Segment>)
      reads this
    {
      forall j :: 0 <= j < |gs| ==> SegmentKnown(deeds, gs[j]) && SegmentHolds(regions, gs[j])
    }

    lemma NoSegments(start: nat)
      ensures Secured([]) && Partly([], start, start)
    {}

    lemma SegmentAdded(gs: seq<Segment>, g: Segment, start: nat)
      requires Secured(gs) && Partly(gs, start, g.user.start) && g.user.start < g.user.end
      requires SegmentKnown(deeds, g) && SegmentHolds(regions, g)
      ensures Secured(gs + [g]) && Partly(gs + [g], start, g.user.end)
    {
      hide SegmentKnown, SegmentHolds;
    }

    lemma SegmentsDone(gs: seq<Segment>, range: Range)
      requires Secured(gs) && Partly(gs, range.start, range.end) && gs != [] && range.start < range.end
      ensures LeaseKnown(deeds, Some(Lease(range, gs))) && LeaseHolds(regions, Lease(range, gs)) && AllWritable(range)
    {
      hide SegmentKnown, SegmentHolds, Ledger;
      forall x: nat | Within(range, x) ensures Writable(Ledger(regions, x)) {
        var k := SegmentAt(Lease(range, gs), |gs|, x);
        HoldsWritable(gs[k], x);
      }
    }

    lemma HoldsWritable(g: Segment, x: nat)
      requires SegmentHolds(regions, g) && Within(g.user, x)
      ensures Writable(Ledger(regions, x))
    {
      hide Ledger;
    }

    lemma CrowdedEnds(l: nat, range: Range)
      requires Crowded(l, range)
      ensures Meets(regions[l], range) && Meets(regions[l + limits.maxLeaseSegments], range)
    {}

    lemma CrowdedHere(lo: nat, range: Range)
      requires lo + limits.maxLeaseSegments < |regions|
               && forall j :: lo <= j < lo + limits.maxLeaseSegments + 1 ==> Meets(regions[j], range)
      ensures Crowded(lo, range)
    {}

    lemma MeetsAt(i: nat, range: Range, x: nat)
      requires i < |regions| && Within(regions[i].body.range, x) && Within(range, x)
      ensures Meets(regions[i], range)
    {}

    /** Regions from `lo` up to `hi` are all that meet the range, and they are no more than a lease may have. */
    lemma FewEnough(lo: nat, hi: nat, range: Range)
      requires Sorted(Bodies(regions)) && lo < hi <= |regions| && hi - lo <= limits.maxLeaseSegments
      requires (forall j :: 0 <= j < lo ==> regions[j].body.range.end <= range.start)
               && range.end <= regions[hi - 1].body.range.end
      ensures forall l: nat :: !Crowded(l, range)
    {
      hide Sorted, Bodies;
      RestApart(regions, hi - 1, range);
      forall l: nat ensures !Crowded(l, range) {
        if Crowded(l, range) { CrowdedEnds(l, range); }
      }
    }

    static ghost predicate Writable(c: Option<Cell>) {
      c.Some? && c.value.kind.Mapping? && c.value.kind.current == ReadWrite
    }

    lemma NothingWritable(i: nat, x: nat)
      requires Sorted(Bodies(regions)) && i <= |regions| && (i < |regions| ==> x < regions[i].body.range.start)
      requires forall j :: 0 <= j < i ==> regions[j].body.range.end <= x
      ensures !Writable(Ledger(regions, x))
    {
      GapAt(regions, i, x, AddressSpace, false);
    }

    lemma NotWritable(i: nat, x: nat)
      requires Sorted(Bodies(regions)) && i < |regions| && Within(regions[i].body.range, x)
      requires regions[i].body.kind.Guard? || regions[i].body.kind.current != ReadWrite
      ensures !Writable(Ledger(regions, x))
    {
      CellAt(regions, i, x, regions[i].body.owner, false);
    }

    /** Segments in a row from `start` to `cursor`. */
    ghost predicate Partly(gs: seq<Segment>, start: nat, cursor: nat) {
      && (if gs == [] then cursor == start else gs[0].user.start == start && gs[|gs| - 1].user.end == cursor)
      && (forall i :: 0 <= i < |gs| ==> gs[i].user.start < gs[i].user.end)
      && (forall i, j :: 0 <= i && j == i + 1 && j < |gs| ==> gs[i].user.end == gs[j].user.start)
    }

    lemma SegmentTaken(i: nat, g: Segment)
      requires LedgerOk(State()) && i < |regions| && regions[i].body.kind.Mapping?
               && regions[i].body.kind.current == ReadWrite
      requires g.region == regions[i].key && Contains(regions[i].body.range, g.user) && g.user.start < g.user.end
      requires g.source == regions[i].body.kind.source
               && g.offset == regions[i].body.kind.offset + (g.user.start - regions[i].body.range.start)
      ensures SegmentKnown(deeds, g) && SegmentHolds(regions, g)
    {
      hide Ledger;
      assert RegionOk(State(), regions[i]);
      forall x: nat | Within(g.user, x) ensures Pinned(Ledger(regions, x), g, x) { LedgerBy(regions, regions[i], x); }
    }

    /** Everything in the way of a new mapping. */
    function Obstacles(): seq<Range>
      reads this
    {
      seq(|regions|, i requires 0 <= i < |regions| reads this => regions[i].body.range)
      + seq(|transactions|, i requires 0 <= i < |transactions| reads this => transactions[i].footprint)
    }

    method ChoosePlace(q: MapRequest, before: nat, bytes: nat) returns (r: Result<Range, ChangeError>)
      requires Valid() && Paged(bounds) && bytes > 0 && OnPage(before) && OnPage(bytes)
      ensures r.Ok? ==> Paged(r.value) && r.value.end == r.value.start + bytes
      ensures r.Ok? && q.placement.Anywhere? ==>
              Fits(bounds, Obstacles(), r.value.start, bytes)
              && forall s: nat :: Fits(bounds, Obstacles(), s, bytes) ==> r.value.start <= s
      ensures r.Ok? && q.placement.FixedEmpty? ==> r.value.start + before == q.placement.usableStart
      ensures q.placement.Anywhere? && r.Err? ==>
              r.error == Conflict && forall s: nat :: !Fits(bounds, Obstacles(), s, bytes)
      ensures q.placement.FixedEmpty? ==>
              var at := q.placement.usableStart;
              r == if !OnPage(at) then Err(Unaligned) else if at < before then Err(OutOfBounds)
                   else Ok(Range(at - before, at - before + bytes))
    {
      hide OnPage, Fits, Obstacles;
      if q.placement.Anywhere? {
        ObstaclesInside();
        r := FindHole(bounds, Obstacles(), bytes);
        if r.Ok? { OnPageSum(r.value.start, bytes); }
      } else {
        var at := q.placement.usableStart;
        if !OnPage(at) { return Err(Unaligned); }
        if at < before { return Err(OutOfBounds); }
        OnPageSum(at, before);
        OnPageSum(at - before, bytes);
        r := Ok(Range(at - before, at - before + bytes));
      }
    }

    lemma ObstaclesInside()
      requires Valid()
      ensures forall i :: 0 <= i < |Obstacles()| ==> Contains(bounds, Obstacles()[i]) && Paged(Obstacles()[i])
    {
      hide OnPage, ChangesOk, CountsOk;
      var all := Obstacles();
      forall i | 0 <= i < |all| ensures Contains(bounds, all[i]) && Paged(all[i]) {
        if i < |regions| {
          assert RegionOk(State(), regions[i]);
        } else {
          assert RecordOk(State(), transactions[i - |regions|]);
        }
      }
    }

    /** Why a place cannot take a new mapping, if so. */
    function PlaceRefusal(place: Range): Option<ChangeError>
      reads this
    {
      if !Contains(bounds, place) then Some(OutOfBounds)
      else if exists i :: 0 <= i < |transactions| && Overlaps(transactions[i].footprint, place) then Some(Busy)
      else if exists i :: 0 <= i < |regions| && Overlaps(regions[i].body.range, place) then Some(Conflict)
      else None
    }

    function Size(q: MapRequest): nat { Rounded(q.guardBefore) + Rounded(q.bytes) + Rounded(q.guardAfter) }

    /** Why a request is refused whatever its lease, if so. */
    ghost function MapRefusal(q: MapRequest): Option<ChangeError>
      reads this
    {
      if !Permits(q.maximum, q.current) then Some(PermissionDenied)
      else if q.bytes == 0 then Some(EmptyRange)
      else if Size(q) / PAGE_SIZE > limits.maxPages then Some(PageLimit)
      else if PlacementRefusal(q).Some? then PlacementRefusal(q)
      else BackingFault(q, Rounded(q.bytes))
    }

    /** Why no place can be had for a request, if so. */
    ghost function PlacementRefusal(q: MapRequest): Option<ChangeError>
      reads this
    {
      match q.placement
      case Anywhere => if forall s: nat :: !Fits(bounds, Obstacles(), s, Size(q)) then Some(Conflict) else None
      case FixedEmpty(at) =>
        if !OnPage(at) then Some(Unaligned)
        else if at < Rounded(q.guardBefore) then Some(OutOfBounds)
        else PlaceRefusal(Range(at - Rounded(q.guardBefore), at - Rounded(q.guardBefore) + Size(q)))
    }

    lemma HoleIsClear(start: nat, bytes: nat)
      requires Fits(bounds, Obstacles(), start, bytes)
      ensures PlaceRefusal(Range(start, start + bytes)) == None
    {
      var all, r := Obstacles(), Range(start, start + bytes);
      assert forall i :: 0 <= i < |regions| ==> all[i] == regions[i].body.range;
      assert forall i :: 0 <= i < |transactions| ==> all[|regions| + i] == transactions[i].footprint;
      assert forall i :: 0 <= i < |all| ==> !Overlaps(all[i], r);
    }

    /** The place a request gets: the one it names, or the lowest hole. */
    ghost predicate IsPlace(q: MapRequest, place: Range)
      reads this
    {
      && place.end == place.start + Size(q)
      && match q.placement
         case FixedEmpty(at) => place.start + Rounded(q.guardBefore) == at
         case Anywhere =>
           Fits(bounds, Obstacles(), place.start, Size(q))
           && forall s: nat :: Fits(bounds, Obstacles(), s, Size(q)) ==> place.start <= s
    }

    method ValidateMap(q: MapRequest) returns (r: Result<Validated, ChangeError>, ghost place: Range, ghost y: nat)
      requires Valid() && Paged(bounds) && (q.result.Some? ==> q.result.value.start < q.result.value.end)
      ensures r.Ok? ==> ValidatedOk(deeds, bounds, r.value) && r.value.plan.op == OpMap && r.value.view == ViewOf(q)
      ensures r.Ok? ==> r.value.plan.footprint == place && PlaceRefusal(place) == None
      ensures MapRefusal(q).Some? ==> r == Err(MapRefusal(q).value)
      ensures MapRefusal(q).None? ==>
                && IsPlace(q, place)
                && (r.Ok? <==> (q.result.Some? ==> Leasable(q.result.value, place))
                               && |regions| + reservedGrowth + MapGrowth(q) <= limits.maxRegions)
                && (r.Err? ==> if q.result.Some? && !Leasable(q.result.value, place)
                               then LeaseFault(q.result.value, place, r.error, y) else r.error == RegionLimit)
    {
      hide Inv, ValidatedOk, OnPage, Rounded, LeaseKnown, Known, Fits, MapTemplates, Obstacles, BackingFault, Leasable,
           LeaseFault;
      place, y := Range(0, 0), 0;
      if !Permits(q.maximum, q.current) { r := Err(PermissionDenied); return; }
      if q.bytes == 0 { r := Err(EmptyRange); return; }
      var usable, before, after := Rounded(q.bytes), Rounded(q.guardBefore), Rounded(q.guardAfter);
      OnPageSum(before, usable);
      OnPageSum(before + usable, after);
      var bytes := before + usable + after;
      if bytes / PAGE_SIZE > limits.maxPages { r := Err(PageLimit); return; }
      var chosen := ChoosePlace(q, before, bytes);
      if chosen.Err? { r := Err(chosen.error); return; }
      var at := chosen.value;
      place := at;
      if q.placement.Anywhere? { HoleIsClear(at.start, bytes); }
      var refusal := PlaceRefusal(at);
      if refusal.Some? { r := Err(refusal.value); return; }
      OnPageSum(at.start, before);
      OnPageSum(at.start + before, usable);
      var mapped := Range(at.start + before, at.start + before + usable);
      var fault := BackingFault(q, usable);
      if fault.Some? { r := Err(fault.value); return; }
      var snapshot: seq<nat>, lease: Option<Lease> := [], None;
      NothingKnown(deeds);
      NoLease(deeds);
      if q.result.Some? {
        var pinned;
        pinned, y := ValidateUserWriteLease(q.result.value, at);
        if pinned.Err? { r := Err(pinned.error); return; }
        lease, snapshot := Some(pinned.value.0), pinned.value.1;
      }
      var v := MapChange(q, at, mapped, snapshot, lease);
      MapValid(deeds, bounds, q, at, mapped, snapshot, lease);
      GrowthOf(q, at, mapped);
      if |regions| + reservedGrowth + v.growth > limits.maxRegions { r := Err(RegionLimit); return; }
      r := Ok(v);
    }

    /** One region for the mapping and one for each guard. */
    function MapGrowth(q: MapRequest): nat { 1 + One(q.guardBefore > 0) + One(q.guardAfter > 0) }

    lemma GrowthOf(q: MapRequest, place: Range, usable: Range)
      requires usable.start == place.start + Rounded(q.guardBefore) && place.end == usable.end + Rounded(q.guardAfter)
      ensures |MapTemplates(place, usable, q.owner, MapKind(q))| == MapGrowth(q)
    {
      hide OnPage;
    }

    lemma NoLease(deeds: map<nat, Region>)
      ensures LeaseKnown(deeds, None)
    {}

    // ---- the steps of a change ------------------------------------------------------------------------

    lemma RefusalReads(v: Validated, permits: seq<nat>)
      ensures Refusal(Books(), v, permits) == Refusal(State(), v, permits)
    {}

    /** Reserves the change, or refuses it and leaves everything as it was. */
    method Reserve(v: Validated, permits: seq<nat>) returns (r: Result<Prepared, ChangeError>)
      requires Valid() && ValidatedOk(deeds, bounds, v)
      modifies this
      ensures Valid()
      ensures Refusal(old(State()), v, permits).Some? ==>
              r == Err(Refusal(old(State()), v, permits).value) && State() == old(State())
      ensures Refusal(old(State()), v, permits).None? ==>
              r == Ok(PreparedFrom(old(State()), v)) && State() == ReserveOf(old(State()), v)
      ensures r.Ok? ==> CanCommit(State(), r.value)
    {
      hide Inv, ValidatedOk, Refusal, Entered, Materialized, CanCommit;
      RefusalReads(v, permits);
      var refusal := CheckReservation(Books(), v, permits);
      if refusal.Some? { return Err(refusal.value); }
      ReserveKeeps(State(), v, permits);
      ReservedCanCommit(State(), v, permits);
      PermitsAgree(State(), v, permits);
      var replacements := Materialize(v.plan.replacements, permits);
      var p := Prepared(nextChange, v.plan.op, v.plan.remove, replacements, v.plan.retiring, v.plan.translations,
                        v.lease);
      deeds := Entered(deeds, replacements, |replacements|);
      pending := pending[p.key := p];
      transactions := transactions + [Record(nextChange, v.plan.footprint, LeaseRange(v.lease), Reserved, v.growth)];
      reservedGrowth := reservedGrowth + v.growth;
      nextRegion := nextRegion + |replacements| + |v.plan.retiring|;
      nextAllocation := nextAllocation + (if v.plan.op.OpMap? then 1 else 0);
      nextChange := nextChange + 1;
      r := Ok(p);
    }

    lemma PermitsAgree(s: Space, v: Validated, permits: seq<nat>)
      requires Refusal(s, v, permits).None?
      ensures multiset(permits) == multiset(Writes(TemplateBodies(v.plan.replacements)))
    {}

    /** Gives every replacement its key, its allocation and, if it writes an object, one of the permits supplied. */
    method Materialize(ts: seq<Template>, permits: seq<nat>) returns (rs: seq<Region>)
      requires multiset(permits) == multiset(Writes(TemplateBodies(ts)))
      ensures rs == Materialized(State(), ts)
    {
      hide Writes, WritableObject, Resolved;
      rs := [];
      var supplied := permits;
      var i := 0;
      ghost var bs := TemplateBodies(ts);
      AllLeft(bs, permits);
      while i < |ts|
        invariant i <= |ts| && |rs| == i && StillOwed(bs, i, supplied)
        invariant forall j ::
                  0 <= j < i ==>
                  rs[j] == Region(nextRegion + j, Resolved(ts[j], nextAllocation), WritableObject(ts[j].body))
      {
        OneOwed(bs, i, supplied);
        var permit := WritableObject(ts[i].body);
        if permit.Some? { supplied := TakePermit(supplied, permit.value); }
        rs := rs + [Region(nextRegion + i, Resolved(ts[i], nextAllocation), permit)];
        i := i + 1;
      }
    }

    /** The permits left are those the templates from `i` on still need. */
    ghost predicate StillOwed(bs: seq<Body>, i: nat, supplied: seq<nat>)
      requires i <= |bs|
    {
      multiset(supplied) + multiset(Writes(bs[..i])) == multiset(Writes(bs))
    }

    lemma AllLeft(bs: seq<Body>, permits: seq<nat>)
      requires multiset(permits) == multiset(Writes(bs))
      ensures StillOwed(bs, 0, permits)
    {
      assert bs[..0] == [];
    }

    lemma OneOwed(bs: seq<Body>, i: nat, supplied: seq<nat>)
      requires i < |bs| && StillOwed(bs, i, supplied)
      ensures var w := WritableObject(bs[i]);
              && (w.Some? ==> w.value in multiset(supplied))
              && (w.None? ==> StillOwed(bs, i + 1, supplied))
              && (w.Some? ==>
                  forall rest ::
                      multiset(rest) + multiset{w.value} == multiset(supplied) ==> StillOwed(bs, i + 1, rest))
    {
      hide Writes, WritableObject;
      WritesStep(bs, i);
      WritesGrow(bs, i + 1);
      var w := WritableObject(bs[i]);
      if w.Some? {
        MustBeLeft(multiset(supplied), multiset(Writes(bs[..i])), multiset(Writes(bs)), w.value);
        forall rest | multiset(rest) + multiset{w.value} == multiset(supplied) ensures StillOwed(bs, i + 1, rest) {
          assert multiset(rest) + (multiset(Writes(bs[..i])) + multiset{w.value})
                 == multiset(supplied) + multiset(Writes(bs[..i]));
        }
      }
    }

    lemma MustBeLeft(left: multiset<nat>, gone: multiset<nat>, all: multiset<nat>, w: nat)
      requires left + gone == all && gone + multiset{w} <= all
      ensures w in left
    {
      assert (gone + multiset{w})[w] <= all[w];
    }

    lemma WritesStep(bs: seq<Body>, i: nat)
      requires i < |bs|
      ensures var w := WritableObject(bs[i]);
              multiset(Writes(bs[..i + 1]))
                  == multiset(Writes(bs[..i])) + (if w.Some? then multiset{w.value} else multiset{})
    {
      assert bs[..i + 1][..i] == bs[..i];
    }

    lemma {:induction false} WritesGrow(bs: seq<Body>, n: nat)
      requires n <= |bs|
      ensures multiset(Writes(bs[..n])) <= multiset(Writes(bs))
      decreases |bs| - n
    {
      if n < |bs| {
        WritesStep(bs, n);
        WritesGrow(bs, n + 1);
      } else {
        assert bs[..n] == bs;
      }
    }

    method TakePermit(permits: seq<nat>, id: nat) returns (rest: seq<nat>)
      requires id in multiset(permits)
      ensures multiset(rest) + multiset{id} == multiset(permits)
    {
      var i := 0;
      while permits[i] != id
        invariant i < |permits| && forall j :: 0 <= j < i ==> permits[j] != id
        decreases |permits| - i
      {
        assert id in permits;
        i := i + 1;
      }
      rest := permits[..i] + permits[i + 1..];
      assert permits == permits[..i] + [id] + permits[i + 1..];
    }

    /** The reserved change under this token. */
    ghost predicate Holds(p: Prepared)
      reads this
    {
      p.key in pending && pending[p.key] == p
    }

    lemma TokenIsLive(p: Prepared) returns (i: nat)
      requires Valid() && Holds(p)
      ensures Live(State(), i, p) && Position(transactions, p.key, Reserved) == Some(i)
              && PreparedOk(State(), transactions[i], p)
    {
      i := ReservedAt(transactions, p.key);
      LivePosition(State(), i, p);
    }

    method FindTransaction(key: nat, stage: Stage) returns (i: nat)
      requires Position(transactions, key, stage).Some?
      ensures Some(i) == Position(transactions, key, stage) && i < |transactions| && transactions[i].key == key
              && transactions[i].stage == stage
    {
      hide Position;
      PositionIs(transactions, key, stage);
      i := 0;
      while !(transactions[i].key == key && transactions[i].stage == stage)
        invariant i < |transactions|
                  && forall j :: 0 <= j < i ==> !(transactions[j].key == key && transactions[j].stage == stage)
        decreases |transactions| - i
      {
        i := i + 1;
      }
      FirstPosition(transactions, key, stage, i);
    }

    lemma {:induction false} FirstPosition(ts: seq<Record>, key: nat, stage: Stage, i: nat)
      requires i < |ts| && ts[i].key == key && ts[i].stage == stage
               && forall j :: 0 <= j < i ==> !(ts[j].key == key && ts[j].stage == stage)
      ensures Position(ts, key, stage) == Some(i)
      decreases |ts|
    {
      var n := |ts| - 1;
      PositionIs(ts[..n], key, stage);
      if i < n { FirstPosition(ts[..n], key, stage, i); }
    }

    /** Gives the change up: its room and footprint are free again and its permits go back to the caller. */
    method Rollback(p: Prepared) returns (permits: seq<nat>)
      requires Valid() && Holds(p)
      modifies this
      ensures Position(old(transactions), p.key, Reserved).Some? && State() == RollbackOf(old(State()), p) && Valid()
              && regions == old(regions)
      ensures permits == PermitsOf(p.replacements)
    {
      hide Inv, PreparedOk, Live;
      ghost var at := TokenIsLive(p);
      RollbackKeeps(State(), at, p);
      GrowthCovers(State());
      GrowthDrop(transactions, at);
      var i := FindTransaction(p.key, Reserved);
      reservedGrowth := reservedGrowth - transactions[i].growth;
      transactions := transactions[..i] + transactions[i + 1..];
      pending := pending - {p.key};
      permits := CollectPermits(p.replacements);
    }

    method CollectPermits(rs: seq<Region>) returns (permits: seq<nat>)
      ensures permits == PermitsOf(rs)
    {
      permits := [];
      var i := 0;
      while i < |rs|
        invariant i <= |rs| && permits == PermitsOf(rs[..i])
      {
        assert rs[..i + 1][..i] == rs[..i];
        if rs[i].permit.Some? { permits := permits + [rs[i].permit.value]; }
        i := i + 1;
      }
      assert rs[..|rs|] == rs;
    }

    /**
      Takes the regions out, puts the replacements in: the ledger changes exactly as the change asks, nothing else
      does.
    */
    method Commit(p: Prepared) returns (c: Payload)
      requires Valid() && Holds(p) && CanCommit(State(), p)
      modifies this
      ensures Position(old(transactions), p.key, Reserved).Some? && State() == CommitOf(old(State()), p) && Valid()
      ensures forall x: nat :: Ledger(regions, x) == Outcome(p, x, old(Ledger(regions, x)))
      ensures forall x: nat ::
              Translate(Ledger(regions, x)) == Apply(p.translations, x, Translate(old(Ledger(regions, x))))
      ensures c.key == p.key && c.translations == p.translations && c.retiring == p.retiring
      ensures (forall i :: 0 <= i < |p.remove| ==> p.remove[i] in deeds)
              && c.permits == PermitsOf(Deeded(deeds, p.remove))
    {
      hide Inv, PreparedOk, Live, CanCommit, LedgerOk, Ledger, Apply, Translate, Outcome;
      ghost var was := State();
      ghost var at := TokenIsLive(p);
      CommitKeeps(was, at, p);
      CommitGrowth(was, at);
      forall x: nat
        ensures Ledger(CommitRegions(was.regions, p.remove, p.replacements), x) == Outcome(p, x, Ledger(was.regions, x))
      {
        LedgerOf(was);
        CommitMeans(was, was.transactions[at], p, x);
      }
      forall x: nat
        ensures Translate(Ledger(CommitRegions(was.regions, p.remove, p.replacements), x))
                == Apply(p.translations, x, Translate(Ledger(was.regions, x)))
      {
        LedgerOf(was);
        CommitTranslates(was, was.transactions[at], p, x);
      }
      var i := FindTransaction(p.key, Reserved);
      var permits := TakeRegions(p);
      regions := SortBy(regions + p.replacements, RegionStart);
      reservedGrowth := reservedGrowth - transactions[i].growth;
      transactions := transactions[i := transactions[i].(growth := 0, lease := None, stage := Committed)];
      pending := pending - {p.key};
      c := Payload(p.key, p.translations, p.retiring, permits);
    }

    lemma LedgerOf(s: Space)
      requires Inv(s)
      ensures LedgerOk(s)
    {}

    lemma CommitGrowth(s: Space, i: nat)
      requires Inv(s) && i < |s.transactions|
      ensures s.reservedGrowth >= s.transactions[i].growth
    {
      GrowthDrop(s.transactions, i);
    }

    /** Takes the regions with the change's keys out, one key at a time. */
    method TakeRegions(p: Prepared) returns (permits: seq<nat>)
      requires Valid() && Holds(p) && CanCommit(State(), p)
      modifies this`regions
      ensures regions == Taken(old(regions), p.remove, |p.remove|)
      ensures (forall i :: 0 <= i < |p.remove| ==> p.remove[i] in deeds)
              && permits == PermitsOf(Deeded(deeds, p.remove))
    {
      hide Inv, LedgerOk, Plain, Geometry, Mirrored, Taken, CanCommit, Distinct;
      ghost var was := State();
      ghost var at := TokenIsLive(p);
      GeometryKnown(was, transactions[at], p);
      LedgerOf(was);
      LedgerPlain(was);
      ghost var removed := Deeded(deeds, p.remove);
      NoneTaken(regions, p.remove);
      permits := [];
      var n := 0;
      while n < |p.remove|
        invariant n <= |p.remove| && regions == Taken(was.regions, p.remove, n) && permits == PermitsOf(removed[..n])
      {
        var permit := TakeRegion(p, n, was);
        assert removed[..n + 1][..n] == removed[..n];
        if permit.Some? { permits := permits + [permit.value]; }
        n := n + 1;
      }
      assert removed[..|p.remove|] == removed;
    }

    method TakeRegion(p: Prepared, n: nat, ghost was: Space) returns (permit: Option<nat>)
      requires LedgerOk(was) && Plain(was.regions) && Distinct(p.remove) && Known(was.deeds, p.remove)
               && CanCommit(was, p)
      requires n < |p.remove| && regions == Taken(was.regions, p.remove, n)
      modifies this`regions
      ensures regions == Taken(was.regions, p.remove, n + 1) && permit == Deeded(was.deeds, p.remove)[n].permit
    {
      hide LedgerOk, Plain, Distinct;
      TakenIs(was.regions, p.remove, n);
      StillThere(was.regions, regions, p.remove, n);
      var j := FindRegion(p.remove[n]);
      TakenContent(was, p, n, regions[j]);
      permit := regions[j].permit;
      regions := regions[..j] + regions[j + 1..];
    }

    method FindRegion(key: nat) returns (j: nat)
      requires HasKey(regions, key)
      ensures j < |regions| && j == KeyIndex(regions, key) && regions[j].key == key
    {
      j := 0;
      while regions[j].key != key
        invariant j < |regions| && forall i :: 0 <= i < j ==> regions[i].key != key
        decreases |regions| - j
      {
        j := j + 1;
      }
    }

    lemma TakenContent(s: Space, p: Prepared, n: nat, r: Region)
      requires LedgerOk(s) && Known(s.deeds, p.remove) && n < |p.remove| && r.key == p.remove[n] && CanCommit(s, p)
               && r in Taken(s.regions, p.remove, n)
      requires forall q :: q in Taken(s.regions, p.remove, n) ==> q in s.regions
      ensures r == Deeded(s.deeds, p.remove)[n]
    {
      var j :| 0 <= j < |s.regions| && s.regions[j] == r;
      assert RegionOk(s, s.regions[j]);
    }

    /** Moves a change to its next stage. */
    method Advance(key: nat, from: Stage, to: Stage)
      requires Valid() && Position(transactions, key, from).Some? && from != Reserved && to != Reserved
      modifies this`transactions
      ensures State() == AdvanceOf(old(State()), key, from, to) && Valid()
    {
      hide Inv;
      AdvanceKeeps(State(), key, from, to);
      var i := FindTransaction(key, from);
      transactions := transactions[i := transactions[i].(stage := to)];
    }

    method Publish(c: Payload)
      requires Valid() && Position(transactions, c.key, Committed).Some?
      modifies this`transactions
      ensures State() == AdvanceOf(old(State()), c.key, Committed, Published) && Valid()
    {
      Advance(c.key, Committed, Published);
    }

    method Synchronize(c: Payload)
      requires Valid() && Position(transactions, c.key, Published).Some?
      modifies this`transactions
      ensures State() == AdvanceOf(old(State()), c.key, Published, Synchronized) && Valid()
    {
      Advance(c.key, Published, Synchronized);
    }

    /** Hands out the fragments and permits to retire; the token keeps none of them. */
    method BeginRetire(c: Payload) returns (c': Payload, fragments: seq<Fragment>, permits: seq<nat>)
      requires Valid() && Position(transactions, c.key, Synchronized).Some?
      modifies this`transactions
      ensures State() == AdvanceOf(old(State()), c.key, Synchronized, Retiring) && Valid()
      ensures c' == c.(retiring := [], permits := []) && fragments == c.retiring && permits == c.permits
    {
      Advance(c.key, Synchronized, Retiring);
      c', fragments, permits := c.(retiring := [], permits := []), c.retiring, c.permits;
    }

    method FinishRetire(c: Payload, fragments: seq<Fragment>, permits: seq<nat>)
      requires Valid() && Position(transactions, c.key, Retiring).Some? && fragments == [] && permits == []
      modifies this`transactions
      ensures State() == AdvanceOf(old(State()), c.key, Retiring, Retired) && Valid()
    {
      Advance(c.key, Retiring, Retired);
    }

    /** The change is over; its footprint may be changed again. */
    method Complete(c: Payload)
      requires Valid() && Position(transactions, c.key, Retired).Some?
      modifies this`transactions
      ensures State() == CompleteOf(old(State()), c.key) && Valid()
    {
      hide Inv;
      CompleteKeeps(State(), c.key);
      var i := FindTransaction(c.key, Retired);
      transactions := transactions[..i] + transactions[i + 1..];
    }

    /** Takes the last region out of a space with no change in flight. */
    method DrainOne() returns (r: Option<(Fragment, Option<nat>)>)
      requires Valid() && transactions == []
      modifies this`regions
      ensures Valid() && (r.None? <==> old(regions) == [])
      ensures r.Some? ==>
              regions == old(regions)[..|old(regions)| - 1]
              && r.value == (Fragment(old(regions)[|regions|].body, true), old(regions)[|regions|].permit)
      ensures r.None? ==> regions == []
    {
      if regions == [] { return None; }
      var last := regions[|regions| - 1];
      PopKeeps(State());
      regions := regions[..|regions| - 1];
      r := Some((Fragment(last.body, true), last.permit));
    }

    lemma PopKeeps(s: Space)
      requires Inv(s) && s.transactions == [] && s.regions != []
      ensures Inv(s.(regions := s.regions[..|s.regions| - 1]))
    {
      var n := |s.regions| - 1;
      var s' := s.(regions := s.regions[..n]);
      PartSorted(s.regions, 0, n);
      assert s.regions[0..n] == s.regions[..n];
      forall i | 0 <= i < n ensures RegionOk(s', s'.regions[i]) { assert RegionOk(s, s.regions[i]); }
    }
  }
}
