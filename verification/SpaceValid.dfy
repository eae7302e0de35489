/** What the validated plans of an unmap, a protect and a map do, address by address. */
module SpaceValid {
  import opened Wrappers
  import opened SpaceLedger
  import opened SpacePieces
  import opened SpaceState
  import opened SpaceCommit
  import opened SpaceRun
  import opened SpaceCover

  function KeysOf(rs: seq<Region>, lo: nat, n: nat): (ks: seq<nat>)
    requires lo <= n <= |rs|
    ensures |ks| == n - lo && forall i :: 0 <= i < n - lo ==> ks[i] == rs[lo + i].key
  {
    if n == lo then [] else KeysOf(rs, lo, n - 1) + [rs[n - 1].key]
  }

  lemma KeysKnown(s: Space, lo: nat, hi: nat)
    requires LedgerOk(s) && lo <= hi <= |s.regions|
    ensures Known(s.deeds, KeysOf(s.regions, lo, hi)) && Deeded(s.deeds, KeysOf(s.regions, lo, hi)) == s.regions[lo..hi]
  {
    LedgerPlain(s);
    forall i | lo <= i < hi ensures s.regions[i].key in s.deeds && s.deeds[s.regions[i].key] == s.regions[i] {
      assert RegionOk(s, s.regions[i]);
    }
  }

  // ---- pieces stay lawful and in bounds -------------------------------------------------------

  ghost predicate PieceOk(s: Space, t: Template) {
    Contains(s.bounds, t.body.range) && Paged(t.body.range) && Lawful(t.body) && !t.minted && Descends(s.deeds, t.body)
  }

  ghost predicate PiecesOk(s: Space, ts: seq<Template>) {
    forall i :: 0 <= i < |ts| ==> PieceOk(s, ts[i])
  }

  lemma DescendsFrom(s: Space, r: Region, b: Body)
    requires RegionOk(s, r) && (b.kind.Guard? || SameView(r.body.kind, b.kind))
    ensures Descends(s.deeds, b)
  {
    assert r.key in s.deeds;
  }

  lemma RegionPieces(s: Space, r: Region, range: Range, p: Protection)
    requires RegionOk(s, r) && Meets(r, range) && Paged(range)
    ensures PiecesOk(s, LeftPiece(r, range)) && PiecesOk(s, RightPiece(r, range))
    ensures (r.body.kind.Mapping? ==> Permits(r.body.kind.maximum, p)) ==> PiecesOk(s, MiddlePiece(r, range, p))
  {}

  lemma {:induction false} UnmapPiecesOk(s: Space, lo: nat, n: nat, range: Range)
    requires LedgerOk(s) && lo <= n <= |s.regions| && Paged(range)
             && forall i :: lo <= i < n ==> Meets(s.regions[i], range)
    ensures PiecesOk(s, UnmapPieces(s.regions, lo, n, range))
    decreases n - lo
  {
    hide OnPage, PieceOk, LeftPiece, RightPiece;
    if n > lo {
      UnmapPiecesOk(s, lo, n - 1, range);
      assert RegionOk(s, s.regions[n - 1]);
      RegionPieces(s, s.regions[n - 1], range, ReadOnly);
    }
  }

  lemma {:induction false} ProtectPiecesOk(s: Space, lo: nat, n: nat, range: Range, p: Protection)
    requires LedgerOk(s) && lo <= n <= |s.regions| && Paged(range)
    requires forall i :: lo <= i < n ==> Meets(s.regions[i], range) && Allows(s.regions[i], p)
    ensures PiecesOk(s, ProtectPieces(s.regions, lo, n, range, p))
    decreases n - lo
  {
    hide OnPage, PieceOk, LeftPiece, RightPiece, MiddlePiece;
    if n > lo {
      ProtectPiecesOk(s, lo, n - 1, range, p);
      assert RegionOk(s, s.regions[n - 1]);
      RegionPieces(s, s.regions[n - 1], range, p);
    }
  }

  predicate Allows(r: Region, p: Protection) { r.body.kind.Mapping? ==> Permits(r.body.kind.maximum, p) }

  /** An address whose mapping may never have the protection. */
  predicate Bars(c: Option<Cell>, p: Protection) {
    c.Some? && c.value.kind.Mapping? && !Permits(c.value.kind.maximum, p)
  }

  /** The regions found allow a protection exactly when every address of the range does. */
  lemma NoneBarred(rs: seq<Region>, lo: nat, hi: nat, range: Range, p: Protection)
    requires Sorted(Bodies(rs)) && Covers(rs, lo, hi, range) && range.start < range.end
    ensures (forall i :: lo <= i < hi ==> Allows(rs[i], p))
       <==> (forall x :: Within(range, x) ==> !Bars(Ledger(rs, x), p))
  {
    hide Sorted, Ledger, Bodies, Permits;
    if forall i :: lo <= i < hi ==> Allows(rs[i], p) {
      forall x | Within(range, x) ensures !Bars(Ledger(rs, x), p) {
        if Ledger(rs, x).Some? {
          var r := LedgerFrom(rs, x);
          var i :| 0 <= i < |rs| && rs[i] == r;
          assert Meets(rs[i], range);
        }
      }
    }
    if forall x :: Within(range, x) ==> !Bars(Ledger(rs, x), p) {
      forall i | lo <= i < hi ensures Allows(rs[i], p) {
        assert Meets(rs[i], range);
        InOrder(rs, i);
        var x := Max(rs[i].body.range.start, range.start);
        CellAt(rs, i, x, rs[i].body.owner, false);
        assert !Bars(Ledger(rs, x), p);
      }
    }
  }

  /** What a covered range covers is in the regions found. */
  lemma CoveredSome(rs: seq<Region>, lo: nat, hi: nat, range: Range, authority: Owner, only: bool, x: nat)
    requires Sorted(Bodies(rs)) && Covers(rs, lo, hi, range) && FaultFree(rs, range.start, range.end, authority, only)
             && Within(range, x)
    ensures Ledger(rs[lo..hi], x).Some? && Ledger(rs[lo..hi], x) == Ledger(rs, x)
  {
    assert Fault(Ledger(rs, x), authority, only) == None;
    var i := ViewFrom(Bodies(rs), x);
    assert Meets(rs[i], range);
    assert rs[lo..hi][i - lo] == rs[i];
    PartSorted(rs, lo, hi);
    LedgerBy(rs[lo..hi], rs[i], x);
  }

  lemma PartSorted(rs: seq<Region>, lo: nat, hi: nat)
    requires Sorted(Bodies(rs)) && lo <= hi <= |rs|
    ensures Sorted(Bodies(rs[lo..hi]))
  {
    var part := rs[lo..hi];
    forall i, j | 0 <= i < j < |part| ensures Bodies(part)[i].range.end <= Bodies(part)[j].range.start {
      assert Bodies(rs)[lo + i].range.end <= Bodies(rs)[lo + j].range.start;
    }
    forall i | 0 <= i < |part| ensures Bodies(part)[i].range.start < Bodies(part)[i].range.end {
      assert Bodies(rs)[lo + i].range.start < Bodies(rs)[lo + i].range.end;
    }
  }

  // ---- unmap -------------------------------------------------------------------------------------

  predicate AnyMapping(rs: seq<Region>, lo: nat, n: nat)
    requires lo <= n <= |rs|
  {
    exists i :: lo <= i < n && rs[i].body.kind.Mapping?
  }

  function UnmapIntents(some: bool, range: Range): seq<Intent> { if some then [Remove(range)] else [] }

  lemma UnmapFaithful(rs: seq<Region>, lo: nat, hi: nat, range: Range, authority: Owner)
    requires Sorted(Bodies(rs)) && Covers(rs, lo, hi, range) && range.start < range.end
    requires FaultFree(rs, range.start, range.end, authority, false)
    ensures Faithful(OpUnmap(range), rs[lo..hi], TemplateBodies(UnmapPieces(rs, lo, hi, range)))
    ensures Reached(OpUnmap(range), rs[lo..hi])
  {
    hide Ledger, UnmapPieces, TemplateBodies, View;
    forall x: nat
      ensures View(TemplateBodies(UnmapPieces(rs, lo, hi, range)), x)
              == Effect(OpUnmap(range), x, Ledger(rs[lo..hi], x))
    {
      UnmapView(rs, lo, hi, range, x);
    }
    forall x: nat | Within(range, x)
      ensures Ledger(rs[lo..hi], x).Some?
    {
      CoveredSome(rs, lo, hi, range, authority, false, x);
    }
  }

  lemma UnmapMirrored(rs: seq<Region>, lo: nat, hi: nat, range: Range, authority: Owner)
    requires Sorted(Bodies(rs)) && Covers(rs, lo, hi, range) && range.start < range.end
    requires FaultFree(rs, range.start, range.end, authority, false)
    ensures Mirrored(rs[lo..hi], TemplateBodies(UnmapPieces(rs, lo, hi, range)),
                     UnmapIntents(AnyMapping(rs, lo, hi), range))
  {
    hide Ledger, UnmapPieces, TemplateBodies, View, FaultFree, Covers;
    CoversFacts(rs, lo, hi, range);
    var todo := UnmapIntents(AnyMapping(rs, lo, hi), range);
    forall x: nat ensures MirroredAt(rs[lo..hi], TemplateBodies(UnmapPieces(rs, lo, hi, range)), todo, x) {
      UnmapView(rs, lo, hi, range, x);
      RemoveApplied(AnyMapping(rs, lo, hi), range, x, Translate(Ledger(rs[lo..hi], x)));
      if Within(range, x) {
        CoveredSome(rs, lo, hi, range, authority, false, x);
        if !AnyMapping(rs, lo, hi) { NoMapping(rs, lo, hi, x); }
      }
    }
  }

  lemma CoversFacts(rs: seq<Region>, lo: nat, hi: nat, range: Range)
    requires Covers(rs, lo, hi, range)
    ensures lo < hi <= |rs| && (forall i :: lo <= i < hi ==> Meets(rs[i], range))
    ensures rs[lo].body.range.start <= range.start && range.end <= rs[hi - 1].body.range.end
  {}

  lemma RemoveApplied(some: bool, range: Range, x: nat, t: Option<Leaf>)
    ensures Apply(UnmapIntents(some, range), x, t) == if some && Within(range, x) then None else t
    ensures !Within(range, x) ==> Untouched(UnmapIntents(some, range), x)
  {
    if some {
      var todo := [Remove(range)];
      assert todo[..0] == [];
    }
  }

  lemma NoMapping(rs: seq<Region>, lo: nat, hi: nat, x: nat)
    requires lo <= hi <= |rs| && !AnyMapping(rs, lo, hi)
    ensures Translate(Ledger(rs[lo..hi], x)) == None
  {
    if Ledger(rs[lo..hi], x).Some? {
      var i := ViewFrom(Bodies(rs[lo..hi]), x);
      assert !rs[lo + i].body.kind.Mapping?;
    }
  }

  lemma PiecesValid(s: Space, op: Op, ts: seq<Template>)
    requires PiecesOk(s, ts) && !op.OpMap?
    ensures forall i :: 0 <= i < |ts| ==> TemplateOk(op, ts[i]) && Descends(s.deeds, ts[i].body)
    ensures forall i ::
            0 <= i < |ts| ==> Contains(s.bounds, TemplateBodies(ts)[i].range) && Paged(TemplateBodies(ts)[i].range)
  {
    forall i | 0 <= i < |ts|
      ensures TemplateOk(op, ts[i]) && Descends(s.deeds, ts[i].body) && Contains(s.bounds, TemplateBodies(ts)[i].range)
              && Paged(TemplateBodies(ts)[i].range)
    {
      assert PieceOk(s, ts[i]);
    }
  }

  function UnmapChange(s: Space, lo: nat, hi: nat, range: Range, retiring: seq<Fragment>): Validated
    requires lo <= hi <= |s.regions|
  {
    var keys, pieces := KeysOf(s.regions, lo, hi), UnmapPieces(s.regions, lo, hi, range);
    Validated(Plan(OpUnmap(range), keys, pieces, retiring, UnmapIntents(AnyMapping(s.regions, lo, hi), range), range),
              keys, None, Growth(|pieces|, |keys|), None)
  }

  /** The range lies strictly inside one region, so that unmapping it leaves two pieces of one. */
  ghost predicate Splits(rs: seq<Region>, range: Range) {
    exists i :: 0 <= i < |rs| && rs[i].body.range.start < range.start && range.end < rs[i].body.range.end
  }

  /** Only the first region can leave a piece on the left and only the last one a piece on the right. */
  lemma {:induction false} UnmapCount(rs: seq<Region>, lo: nat, n: nat, hi: nat, range: Range)
    requires Sorted(Bodies(rs)) && Covers(rs, lo, hi, range) && range.start < range.end && lo < n <= hi
    ensures |UnmapPieces(rs, lo, n, range)|
         == One(rs[lo].body.range.start < range.start) + One(n == hi && range.end < rs[hi - 1].body.range.end)
    decreases n
  {
    hide Sorted, Bodies;
    var i := n - 1;
    assert Meets(rs[i], range) && Meets(rs[lo], range);
    InOrder(rs, i);
    if n < hi { assert Meets(rs[n], range); InOrder(rs, n); }
    if lo < i { UnmapCount(rs, lo, i, hi, range); RegionsApart(rs, lo, i); }
    else { assert UnmapPieces(rs, lo, lo, range) == []; }
  }

  lemma RegionsApart(rs: seq<Region>, i: nat, j: nat)
    requires Sorted(Bodies(rs)) && i < j < |rs|
    ensures rs[i].body.range.end <= rs[j].body.range.start
  {
    assert Bodies(rs)[i].range.end <= Bodies(rs)[j].range.start;
  }

  /** An unmap needs room for one more region exactly when it splits one. */
  lemma UnmapGrowth(rs: seq<Region>, lo: nat, hi: nat, range: Range)
    requires Sorted(Bodies(rs)) && Covers(rs, lo, hi, range) && range.start < range.end
    ensures Growth(|UnmapPieces(rs, lo, hi, range)|, hi - lo) == One(Splits(rs, range))
  {
    hide Sorted, Bodies, UnmapPieces;
    UnmapCount(rs, lo, hi, hi, range);
    var left, right := rs[lo].body.range.start < range.start, range.end < rs[hi - 1].body.range.end;
    assert Meets(rs[lo], range) && Meets(rs[hi - 1], range);
    if Splits(rs, range) {
      var i :| 0 <= i < |rs| && rs[i].body.range.start < range.start && range.end < rs[i].body.range.end;
      assert Meets(rs[i], range);
      if lo < i { RegionsApart(rs, lo, i); }
      if i < hi - 1 { RegionsApart(rs, i, hi - 1); }
    }
    if left && right && hi == lo + 1 { assert Splits(rs, range); }
  }

  /** The plan of an unmap keeps its promises. */
  lemma UnmapValid(s: Space, lo: nat, hi: nat, range: Range, authority: Owner, retiring: seq<Fragment>)
    requires LedgerOk(s) && Paged(range) && Contains(s.bounds, range) && Covers(s.regions, lo, hi, range)
    requires FaultFree(s.regions, range.start, range.end, authority, false)
    ensures ValidatedOk(s.deeds, s.bounds, UnmapChange(s, lo, hi, range, retiring))
    ensures Neat(UnmapPieces(s.regions, lo, hi, range))
  {
    hide Covers, FaultFree, UnmapPieces, Faithful, Mirrored, Reached, Ledger, PiecesOk, Known, Deeded, KeysOf,
         AnyMapping, UnmapIntents;
    CoversFacts(s.regions, lo, hi, range);
    KeysKnown(s, lo, hi);
    UnmapNeat(s.regions, lo, hi, range);
    UnmapPiecesOk(s, lo, hi, range);
    PiecesValid(s, OpUnmap(range), UnmapPieces(s.regions, lo, hi, range));
    UnmapFaithful(s.regions, lo, hi, range, authority);
    UnmapMirrored(s.regions, lo, hi, range, authority);
  }

  // ---- protect -------------------------------------------------------------------------------------

  /** One intent for every covered region whose protection changes. */
  function ProtectIntents(rs: seq<Region>, lo: nat, n: nat, range: Range, p: Protection): seq<Intent>
    requires lo <= n <= |rs|
  {
    if n == lo then []
    else ProtectIntents(rs, lo, n - 1, range, p) + OneIntent(rs[n - 1], range, p)
  }

  function OneIntent(r: Region, range: Range, p: Protection): seq<Intent> {
    if r.body.kind.Mapping?
        && r.body.kind.current != p then [Protect(Cut(r.body.range, range), r.body.kind.current, p)] else []
  }

  lemma OneIntentApplied(r: Region, range: Range, p: Protection, x: nat)
    ensures !Within(r.body.range, x) ==> forall t :: Apply(OneIntent(r, range, p), x, t) == t
    ensures Within(r.body.range, x) && Within(range, x) ==>
              Apply(OneIntent(r, range, p), x, Translate(Some(At(r.body, x))))
                  == Translate(Repainted(Some(At(r.body, x)), p))
  {
    var todo := OneIntent(r, range, p);
    if |todo| == 1 { assert todo[..0] == []; }
  }

  lemma {:induction false} ApplyConcat(a: seq<Intent>, b: seq<Intent>, x: nat, t: Option<Leaf>)
    ensures Apply(a + b, x, t) == Apply(b, x, Apply(a, x, t))
    decreases |b|
  {
    if b == [] {
      assert a + b == a;
    } else {
      ApplyConcat(a, b[..|b| - 1], x, t);
      assert (a + b)[..|a + b| - 1] == a + b[..|b| - 1];
    }
  }

  /** Intents for regions that do not hold an address leave it alone. */
  lemma {:induction false} IntentsElsewhere(rs: seq<Region>, lo: nat, n: nat, range: Range, p: Protection, x: nat)
    requires lo <= n <= |rs| && (!Within(range, x) || forall i :: lo <= i < n ==> !Within(rs[i].body.range, x))
    ensures Untouched(ProtectIntents(rs, lo, n, range, p), x)
    decreases n - lo
  {
    if n > lo { IntentsElsewhere(rs, lo, n - 1, range, p, x); }
  }

  /** The intents give every address in the range the new protection, and each names the protection it finds. */
  lemma {:induction false} IntentsApplied(rs: seq<Region>, lo: nat, n: nat, range: Range, p: Protection, i: nat, x: nat)
    requires Sorted(Bodies(rs)) && lo <= i < n <= |rs| && Within(range, x) && Within(rs[i].body.range, x)
    ensures Apply(ProtectIntents(rs, lo, n, range, p), x, Translate(Some(At(rs[i].body, x))))
         == Translate(Repainted(Some(At(rs[i].body, x)), p))
    decreases n - lo
  {
    hide Apply, Translate, Repainted, OneIntent, At;
    var t, before, last := Translate(Some(At(rs[i].body, x))), ProtectIntents(rs, lo, n - 1, range, p),
        OneIntent(rs[n - 1], range, p);
    ApplyConcat(before, last, x, t);
    OneIntentApplied(rs[n - 1], range, p, x);
    if i < n - 1 {
      IntentsApplied(rs, lo, n - 1, range, p, i, x);
      assert Bodies(rs)[i].range.end <= Bodies(rs)[n - 1].range.start;
    } else {
      forall j | lo <= j < n - 1 ensures !Within(rs[j].body.range, x) {
        assert Bodies(rs)[j].range.end <= Bodies(rs)[n - 1].range.start;
      }
      IntentsElsewhere(rs, lo, n - 1, range, p, x);
      ApplyUntouched(before, x, t);
    }
  }

  /** A neighbour taken in whole. */
  function Neighbour(r: Region): seq<Template> { [TemplateFrom(r, r.body.range, None)] }

  lemma NeighbourSeen(r: Region, x: nat)
    ensures Seen(Neighbour(r), x) == Ledger([r], x)
  {
    SeenOne(TemplateFrom(r, r.body.range, None), x);
    LedgerOne(r, x);
  }

  /** The regions a protect takes out: those covered, and a neighbour on either side if it can be merged. */
  function Flanks(rs: seq<Region>, lo: nat, hi: nat, left: bool, right: bool): seq<Region>
    requires lo <= hi <= |rs| && (left ==> lo > 0) && (right ==> hi < |rs|)
  {
    rs[lo..hi] + (if left then [rs[lo - 1]] else []) + (if right then [rs[hi]] else [])
  }

  function Pieces(rs: seq<Region>, lo: nat, hi: nat, left: bool, right: bool, range: Range,
                  p: Protection): seq<Template>
    requires lo <= hi <= |rs| && (left ==> lo > 0) && (right ==> hi < |rs|)
  {
    (if left then Neighbour(rs[lo - 1]) else []) + ProtectPieces(rs, lo, hi, range, p)
        + (if right then Neighbour(rs[hi]) else [])
  }

  lemma PiecesSeen(rs: seq<Region>, lo: nat, hi: nat, left: bool, right: bool, range: Range, p: Protection, x: nat)
    requires Sorted(Bodies(rs)) && Covers(rs, lo, hi, range) && range.start < range.end && (left ==> lo > 0)
             && (right ==> hi < |rs|)
    ensures Seen(Pieces(rs, lo, hi, left, right, range, p), x)
            == Effect(OpProtect(range, p), x, Ledger(Flanks(rs, lo, hi, left, right), x))
  {
    hide Seen, Ledger, ProtectPieces, Covers;
    CoversFacts(rs, lo, hi, range);
    var l := if left then Neighbour(rs[lo - 1]) else [];
    var r := if right then Neighbour(rs[hi]) else [];
    var lr, rr := if left then [rs[lo - 1]] else [], if right then [rs[hi]] else [];
    SeenConcat(l + ProtectPieces(rs, lo, hi, range, p), r, x);
    SeenConcat(l, ProtectPieces(rs, lo, hi, range, p), x);
    LedgerConcat(rs[lo..hi] + lr, rr, x);
    LedgerConcat(rs[lo..hi], lr, x);
    ProtectView(rs, lo, hi, range, p, x);
    NothingSeen(x);
    if left { NeighbourSeen(rs[lo - 1], x); OutsideRange(rs, lo, hi, range, lo - 1, x); }
    if right { NeighbourSeen(rs[hi], x); OutsideRange(rs, lo, hi, range, hi, x); }
  }

  lemma OutsideRange(rs: seq<Region>, lo: nat, hi: nat, range: Range, i: nat, x: nat)
    requires Sorted(Bodies(rs)) && Covers(rs, lo, hi, range) && i < |rs| && !(lo <= i < hi)
    ensures Ledger([rs[i]], x).Some? ==> !Within(range, x) && Ledger(rs[lo..hi], x) == None
  {
    LedgerOne(rs[i], x);
    if Ledger([rs[i]], x).Some? {
      assert !Meets(rs[i], range);
      if Ledger(rs[lo..hi], x).Some? {
        var j := ViewFrom(Bodies(rs[lo..hi]), x);
        SameRegion(rs, rs[i], rs[lo + j], x);
      }
    }
  }

  lemma PiecesNeat(rs: seq<Region>, lo: nat, hi: nat, left: bool, right: bool, range: Range, p: Protection)
    requires Sorted(Bodies(rs)) && Covers(rs, lo, hi, range) && range.start < range.end && (left ==> lo > 0)
             && (right ==> hi < |rs|)
    ensures Neat(Pieces(rs, lo, hi, left, right, range, p)) && Neat(ProtectPieces(rs, lo, hi, range, p))
            && ProtectPieces(rs, lo, hi, range, p) != []
  {
    hide ProtectPieces, Sorted, Neat;
    CoversFacts(rs, lo, hi, range);
    ProtectNeat(rs, lo, hi, range, p);
    InOrder(rs, lo);
    InOrder(rs, hi - 1);
    OrderedEnds(rs, lo, hi - 1);
    var from, to := rs[lo].body.range.start, rs[hi - 1].body.range.end;
    var l := if left then Neighbour(rs[lo - 1]) else [];
    var start := if left then rs[lo - 1].body.range.start else from;
    if left { InOrder(rs, lo - 1); NeighbourNeat(rs[lo - 1], start, from); } else { NothingNeat(); }
    NeatConcat(l, ProtectPieces(rs, lo, hi, range, p), start, from, to);
    if right { InOrder(rs, hi); NeighbourNeat(rs[hi], to, rs[hi].body.range.end); } else { NothingNeat(); }
    NeatConcat(l + ProtectPieces(rs, lo, hi, range, p), if right then Neighbour(rs[hi])
               else [], start, to, if right then rs[hi].body.range.end else to);
  }

  lemma OrderedEnds(rs: seq<Region>, i: nat, j: nat)
    requires Sorted(Bodies(rs)) && i <= j < |rs|
    ensures rs[i].body.range.start < rs[j].body.range.end
  {
    assert Bodies(rs)[i].range.start < Bodies(rs)[i].range.end;
    if i < j { assert Bodies(rs)[i].range.end <= Bodies(rs)[j].range.start < Bodies(rs)[j].range.end; }
  }

  lemma NeighbourNeat(r: Region, lo: nat, hi: nat)
    requires lo <= r.body.range.start < r.body.range.end <= hi
    ensures Neat(Neighbour(r)) && Inside(Neighbour(r), lo, hi)
  {}

  lemma PiecesAllOk(s: Space, lo: nat, hi: nat, left: bool, right: bool, range: Range, p: Protection)
    requires LedgerOk(s) && lo <= hi <= |s.regions| && Paged(range) && (left ==> lo > 0) && (right ==> hi < |s.regions|)
    requires forall i :: lo <= i < hi ==> Meets(s.regions[i], range) && Allows(s.regions[i], p)
    ensures PiecesOk(s, Pieces(s.regions, lo, hi, left, right, range, p))
  {
    hide OnPage, ProtectPieces, PieceOk;
    ProtectPiecesOk(s, lo, hi, range, p);
    if left { NeighbourOk(s, lo - 1); }
    if right { NeighbourOk(s, hi); }
  }

  lemma NeighbourOk(s: Space, i: nat)
    requires LedgerOk(s) && i < |s.regions|
    ensures PiecesOk(s, Neighbour(s.regions[i]))
  {
    hide OnPage, Descends;
    assert RegionOk(s, s.regions[i]);
    DescendsFrom(s, s.regions[i], Neighbour(s.regions[i])[0].body);
  }

  lemma {:induction false} NormalizedOk(s: Space, ts: seq<Template>, n: nat)
    requires n <= |ts| && PiecesOk(s, ts)
    ensures PiecesOk(s, Normalized(ts, n))
    decreases n
  {
    hide OnPage, Compatible, PieceOk, Merged;
    if n > 0 {
      NormalizedOk(s, ts, n - 1);
      var out := Normalized(ts, n - 1);
      assert PieceOk(s, ts[n - 1]);
      if out != [] && Compatible(out[|out| - 1], ts[n - 1]) { MergedOk(s, out[|out| - 1], ts[n - 1]); }
    }
  }

  lemma MergedOk(s: Space, l: Template, r: Template)
    requires PieceOk(s, l) && PieceOk(s, r) && Compatible(l, r)
    ensures PieceOk(s, Merged(l, r))
  {
    hide OnPage;
    if l.body.kind.Mapping? {
      var k :| k in s.deeds && SameView(s.deeds[k].body.kind, l.body.kind);
      assert SameView(s.deeds[k].body.kind, Merged(l, r).body.kind);
    }
  }

  function ProtectKeys(rs: seq<Region>, lo: nat, hi: nat, left: bool, right: bool): seq<nat>
    requires lo <= hi <= |rs| && (left ==> lo > 0) && (right ==> hi < |rs|)
  {
    KeysOf(rs, lo, hi) + (if left then [rs[lo - 1].key] else []) + (if right then [rs[hi].key] else [])
  }

  lemma ProtectKnown(s: Space, lo: nat, hi: nat, left: bool, right: bool)
    requires LedgerOk(s) && lo < hi <= |s.regions| && (left ==> lo > 0) && (right ==> hi < |s.regions|)
    ensures Known(s.deeds, ProtectKeys(s.regions, lo, hi, left, right))
    ensures Deeded(s.deeds, ProtectKeys(s.regions, lo, hi, left, right)) == Flanks(s.regions, lo, hi, left, right)
  {
    hide RegionOk, Sorted;
    LedgerPlain(s);
    KeysKnown(s, lo, hi);
    if left { OwnDeed(s, lo - 1); }
    if right { OwnDeed(s, hi); }
    var keys := ProtectKeys(s.regions, lo, hi, left, right);
    forall i, j | 0 <= i < j < |keys| ensures keys[i] != keys[j] {
      OtherKey(s.regions, KeyAt(lo, hi, left, i), KeyAt(lo, hi, left, j));
    }
    assert Deeded(s.deeds, keys) == Flanks(s.regions, lo, hi, left, right);
  }

  /** Index of the region whose key is at place `i` of a protect's keys. */
  function KeyAt(lo: nat, hi: nat, left: bool, i: nat): nat
    requires lo <= hi && (left ==> lo > 0)
  {
    if i < hi - lo then lo + i else if left && i == hi - lo then lo - 1 else hi
  }

  lemma OwnDeed(s: Space, i: nat)
    requires LedgerOk(s) && i < |s.regions|
    ensures s.regions[i].key in s.deeds && s.deeds[s.regions[i].key] == s.regions[i]
  {
    assert RegionOk(s, s.regions[i]);
  }

  function ProtectReplacements(rs: seq<Region>, lo: nat, hi: nat, left: bool, right: bool, range: Range,
                               p: Protection): seq<Template>
    requires lo <= hi <= |rs| && (left ==> lo > 0) && (right ==> hi < |rs|)
  {
    var all := Pieces(rs, lo, hi, left, right, range, p);
    Normalized(all, |all|)
  }

  function ProtectChange(s: Space, lo: nat, hi: nat, left: bool, right: bool, range: Range, p: Protection,
                         retiring: seq<Fragment>): Validated
    requires lo <= hi <= |s.regions| && (left ==> lo > 0) && (right ==> hi < |s.regions|)
  {
    var keys, ts := ProtectKeys(s.regions, lo, hi, left, right),
        ProtectReplacements(s.regions, lo, hi, left, right, range, p);
    var footprint := if ts == [] then range else Range(ts[0].body.range.start, ts[|ts| - 1].body.range.end);
    Validated(Plan(OpProtect(range, p), keys, ts, retiring, ProtectIntents(s.regions, lo, hi, range, p), footprint),
              keys, None, Growth(|ts|, |keys|), None)
  }

  lemma ProtectFaithful(rs: seq<Region>, lo: nat, hi: nat, left: bool, right: bool, range: Range, p: Protection,
                        authority: Owner)
    requires Sorted(Bodies(rs)) && Covers(rs, lo, hi, range) && range.start < range.end && (left ==> lo > 0)
             && (right ==> hi < |rs|)
    requires FaultFree(rs, range.start, range.end, authority, true)
    ensures Faithful(OpProtect(range, p), Flanks(rs, lo, hi, left, right),
                     TemplateBodies(ProtectReplacements(rs, lo, hi, left, right, range, p)))
    ensures Reached(OpProtect(range, p), Flanks(rs, lo, hi, left, right))
  {
    hide Ledger, Pieces, Normalized, Covers, FaultFree, Flanks, View, TemplateBodies;
    CoversFacts(rs, lo, hi, range);
    var all := Pieces(rs, lo, hi, left, right, range, p);
    PiecesNeat(rs, lo, hi, left, right, range, p);
    assert all[..|all|] == all;
    forall x: nat
      ensures View(TemplateBodies(Normalized(all, |all|)), x)
              == Effect(OpProtect(range, p), x, Ledger(Flanks(rs, lo, hi, left, right), x))
    {
      NormalizedSame(all, |all|, x);
      PiecesSeen(rs, lo, hi, left, right, range, p, x);
    }
    forall x: nat | Within(range, x) ensures Ledger(Flanks(rs, lo, hi, left, right), x).Some? {
      CoveredSome(rs, lo, hi, range, authority, true, x);
      FlanksSee(rs, lo, hi, left, right, x);
    }
  }

  lemma FlanksSee(rs: seq<Region>, lo: nat, hi: nat, left: bool, right: bool, x: nat)
    requires lo <= hi <= |rs| && (left ==> lo > 0) && (right ==> hi < |rs|)
    ensures Ledger(rs[lo..hi], x).Some? ==> Ledger(Flanks(rs, lo, hi, left, right), x) == Ledger(rs[lo..hi], x)
  {
    var l, r := if left then [rs[lo - 1]] else [], if right then [rs[hi]] else [];
    LedgerConcat(rs[lo..hi] + l, r, x);
    LedgerConcat(rs[lo..hi], l, x);
  }

  lemma ProtectMirrored(rs: seq<Region>, lo: nat, hi: nat, left: bool, right: bool, range: Range, p: Protection,
                        authority: Owner)
    requires Sorted(Bodies(rs)) && Covers(rs, lo, hi, range) && range.start < range.end && (left ==> lo > 0)
             && (right ==> hi < |rs|)
    requires FaultFree(rs, range.start, range.end, authority, true)
    requires Faithful(OpProtect(range, p), Flanks(rs, lo, hi, left, right),
                      TemplateBodies(ProtectReplacements(rs, lo, hi, left, right, range, p)))
    ensures Mirrored(Flanks(rs, lo, hi, left, right),
                     TemplateBodies(ProtectReplacements(rs, lo, hi, left, right, range, p)),
                     ProtectIntents(rs, lo, hi, range, p))
  {
    hide Ledger, ProtectReplacements, Covers, FaultFree, Flanks, View, TemplateBodies, ProtectIntents, Apply,
         Translate, Repainted, Untouched;
    CoversFacts(rs, lo, hi, range);
    var removed, bodies, todo := Flanks(rs, lo, hi, left, right),
        TemplateBodies(ProtectReplacements(rs, lo, hi, left, right, range, p)), ProtectIntents(rs, lo, hi, range, p);
    forall x: nat ensures MirroredAt(removed, bodies, todo, x) {
      assert View(bodies, x) == Effect(OpProtect(range, p), x, Ledger(removed, x));
      if Within(range, x) {
        CoveredSome(rs, lo, hi, range, authority, true, x);
        FlanksSee(rs, lo, hi, left, right, x);
        var i := RegionAt(rs, lo, hi, x);
        IntentsApplied(rs, lo, hi, range, p, i, x);
      } else {
        IntentsElsewhere(rs, lo, hi, range, p, x);
        ApplyUntouched(todo, x, Translate(Ledger(removed, x)));
      }
    }
  }

  lemma RegionAt(rs: seq<Region>, lo: nat, hi: nat, x: nat) returns (i: nat)
    requires lo <= hi <= |rs| && Ledger(rs[lo..hi], x).Some?
    ensures lo <= i < hi && Within(rs[i].body.range, x) && Ledger(rs[lo..hi], x) == Some(At(rs[i].body, x))
  {
    i := ViewFrom(Bodies(rs[lo..hi]), x);
    i := lo + i;
  }

  /** The footprint of a protect holds its range. */
  lemma ProtectFootprint(rs: seq<Region>, lo: nat, hi: nat, left: bool, right: bool, range: Range, p: Protection)
    requires Sorted(Bodies(rs)) && Covers(rs, lo, hi, range) && range.start < range.end && (left ==> lo > 0)
             && (right ==> hi < |rs|)
    ensures var ts := ProtectReplacements(rs, lo, hi, left, right, range, p);
            && Neat(ts) && ts != [] && ts[0].body.range.start <= range.start && range.end <= ts[|ts| - 1].body.range.end
            && Claims(OpProtect(range, p), Flanks(rs, lo, hi, left, right),
                      Range(ts[0].body.range.start, ts[|ts| - 1].body.range.end))
  {
    hide Covers, Neat, Normalized, ProtectPieces, Sorted;
    CoversFacts(rs, lo, hi, range);
    PiecesNeat(rs, lo, hi, left, right, range, p);
    var all := Pieces(rs, lo, hi, left, right, range, p);
    NormalizedNeat(all, |all|);
    OuterEnds(rs, lo, hi, range, p);
    InOrder(rs, lo);
    if left { InOrder(rs, lo - 1); }
    if right { InOrder(rs, hi); }
    FlanksInside(rs, lo, hi, left, right);
  }

  lemma FlanksInside(rs: seq<Region>, lo: nat, hi: nat, left: bool, right: bool)
    requires Sorted(Bodies(rs)) && lo < hi <= |rs| && (left ==> lo > 0) && (right ==> hi < |rs|)
    ensures var whole :=
            Range(rs[if left then lo - 1 else lo].body.range.start, rs[if right then hi else hi - 1].body.range.end);
            forall r :: r in Flanks(rs, lo, hi, left, right) ==> Contains(whole, r.body.range)
  {
    hide Sorted, Bodies;
    var a, b := if left then lo - 1 else lo, if right then hi else hi - 1;
    forall r | r in Flanks(rs, lo, hi, left, right)
      ensures Contains(Range(rs[a].body.range.start, rs[b].body.range.end), r.body.range)
    {
      var i :| a <= i <= b && rs[i] == r;
      if a < i { OrderedStarts(rs, a, i); }
      if i < b { OrderedStarts(rs, i, b); }
    }
  }

  lemma OrderedStarts(rs: seq<Region>, i: nat, j: nat)
    requires Sorted(Bodies(rs)) && i < j < |rs|
    ensures rs[i].body.range.start <= rs[j].body.range.start && rs[i].body.range.end <= rs[j].body.range.end
  {
    assert Bodies(rs)[i].range.start < Bodies(rs)[i].range.end <= Bodies(rs)[j].range.start < Bodies(rs)[j].range.end;
  }

  lemma {:induction false} OuterEnds(rs: seq<Region>, lo: nat, n: nat, range: Range, p: Protection)
    requires lo < n <= |rs| && forall i :: lo <= i < n ==> Meets(rs[i], range)
    ensures var ts := ProtectPieces(rs, lo, n, range, p);
            && ts != [] && ts[0].body.range.start == rs[lo].body.range.start
                && ts[|ts| - 1].body.range.end == rs[n - 1].body.range.end
    decreases n
  {
    if n - 1 > lo { OuterEnds(rs, lo, n - 1, range, p); }
  }

  /** The plan of a protect keeps its promises. */
  lemma ProtectValid(s: Space, lo: nat, hi: nat, left: bool, right: bool, range: Range, p: Protection,
                     authority: Owner, retiring: seq<Fragment>)
    requires LedgerOk(s) && Paged(range) && Contains(s.bounds, range) && Covers(s.regions, lo, hi, range)
    requires (left ==> lo > 0) && (right ==> hi < |s.regions|)
             && FaultFree(s.regions, range.start, range.end, authority, true)
    requires forall i :: lo <= i < hi ==> Allows(s.regions[i], p)
    ensures ValidatedOk(s.deeds, s.bounds, ProtectChange(s, lo, hi, left, right, range, p, retiring))
  {
    hide Covers, FaultFree, ProtectReplacements, Faithful, Mirrored, Reached, Ledger, PiecesOk, Known, Deeded,
         ProtectKeys, Flanks, ProtectIntents, Pieces, Sorted, OnPage, LedgerOk, Descends, TemplateOk;
    CoversFacts(s.regions, lo, hi, range);
    ProtectKnown(s, lo, hi, left, right);
    NotIdle(s.regions, lo, hi, left, right);
    LedgerSorted(s);
    ProtectFaithful(s.regions, lo, hi, left, right, range, p, authority);
    ProtectMirrored(s.regions, lo, hi, left, right, range, p, authority);
    ProtectFootprint(s.regions, lo, hi, left, right, range, p);
    ReplacementsOk(s, lo, hi, left, right, range, p);
    var ts := ProtectReplacements(s.regions, lo, hi, left, right, range, p);
    PiecesValid(s, OpProtect(range, p), ts);
    assert TemplateBodies(ts)[0] == ts[0].body && TemplateBodies(ts)[|ts| - 1] == ts[|ts| - 1].body;
  }

  lemma NotIdle(rs: seq<Region>, lo: nat, hi: nat, left: bool, right: bool)
    requires lo < hi <= |rs| && (left ==> lo > 0) && (right ==> hi < |rs|)
    ensures ProtectKeys(rs, lo, hi, left, right) != []
  {
    assert rs[lo].key == ProtectKeys(rs, lo, hi, left, right)[0];
  }

  lemma ReplacementsOk(s: Space, lo: nat, hi: nat, left: bool, right: bool, range: Range, p: Protection)
    requires LedgerOk(s) && lo <= hi <= |s.regions| && Paged(range) && (left ==> lo > 0) && (right ==> hi < |s.regions|)
    requires forall i :: lo <= i < hi ==> Meets(s.regions[i], range) && Allows(s.regions[i], p)
    ensures PiecesOk(s, ProtectReplacements(s.regions, lo, hi, left, right, range, p))
  {
    hide PiecesOk, Pieces, Normalized, LedgerOk;
    PiecesAllOk(s, lo, hi, left, right, range, p);
    var all := Pieces(s.regions, lo, hi, left, right, range, p);
    NormalizedOk(s, all, |all|);
  }

  // ---- a protect with nothing to do ---------------------------------------------------------------

  predicate AllSame(rs: seq<Region>, lo: nat, n: nat, p: Protection)
    requires lo <= n <= |rs|
  {
    forall i :: lo <= i < n ==> rs[i].body.kind.Mapping? && rs[i].body.kind.current == p
  }

  function IdleChange(s: Space, lo: nat, hi: nat, range: Range, p: Protection): Validated
    requires lo <= hi <= |s.regions|
  {
    Validated(Plan(OpProtect(range, p), [], [], [], [], range), KeysOf(s.regions, lo, hi), None, 0, None)
  }

  lemma IdleValid(s: Space, lo: nat, hi: nat, range: Range, p: Protection, authority: Owner)
    requires LedgerOk(s) && Paged(range) && Contains(s.bounds, range) && Covers(s.regions, lo, hi, range)
    requires FaultFree(s.regions, range.start, range.end, authority, true) && AllSame(s.regions, lo, hi, p)
    ensures ValidatedOk(s.deeds, s.bounds, IdleChange(s, lo, hi, range, p))
  {
    hide FaultFree, Ledger, Covers, LedgerOk, Repainted;
    CoversFacts(s.regions, lo, hi, range);
    KeysKnown(s, lo, hi);
    LedgerSorted(s);
    var v := IdleChange(s, lo, hi, range, p);
    assert Deeded(s.deeds, v.plan.remove) == [] && TemplateBodies(v.plan.replacements) == [];
    forall x: nat ensures View([], x) == Effect(v.plan.op, x, Ledger([], x)) && MirroredAt([], [], [], x) {
      NothingSeen(x);
      NothingRepainted(p);
    }
    forall x: nat | Within(range, x)
      ensures Ledger(s.regions[lo..hi], x).Some?
              && Repainted(Ledger(s.regions[lo..hi], x), p) == Ledger(s.regions[lo..hi], x)
    {
      CoveredSome(s.regions, lo, hi, range, authority, true, x);
      var i := RegionAt(s.regions, lo, hi, x);
      SamePaint(s.regions[i], p, x);
    }
  }

  lemma SamePaint(r: Region, p: Protection, x: nat)
    requires r.body.kind.Mapping? && r.body.kind.current == p && Within(r.body.range, x)
    ensures Repainted(Some(At(r.body, x)), p) == Some(At(r.body, x))
  {}
}
