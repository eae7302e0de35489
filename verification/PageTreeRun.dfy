/** A whole Map: every segment of the run in order, and why its preflight is exact. */
module PageTreeRun {
  import opened Wrappers
  import opened Pte
  import opened PageTree
  import opened PageTreeEdit
  import opened PageTreeMap

  /** The pages `vpn` up to `end`, going to `ppn` on. */
  datatype Run = Run(vpn: nat, ppn: nat, end: nat, flags: nat)

  function First(top: nat, r: Run): (g: Segment)
    requires r.vpn < r.end
    ensures Aligned(g) && g.level <= top && g.vpn == r.vpn && g.vpn + Pages(g.level) <= r.end
  {
    Segment(r.vpn, SegLevel(top, r.vpn, r.ppn, r.end), r.ppn, r.flags)
  }

  function Rest(top: nat, r: Run): (q: Run)
    requires r.vpn < r.end
    ensures r.vpn < q.vpn <= q.end == r.end
  {
    var p := Pages(First(top, r).level);
    r.(vpn := r.vpn + p, ppn := r.ppn + p)
  }

  /** The run fits a root table of level `top`, and its physical pages can be encoded. */
  predicate Fits(top: nat, r: Run) {
    r.vpn <= r.end <= 512 * Pages(top) && r.ppn + (r.end - r.vpn) <= MAX_PPN && ValidLeafFlags(r.flags)
  }

  function MapRun(top: nat, t: seq<Entry>, r: Run, s: Supply): (q: EditedTable)
    requires |t| == ENTRIES && r.end <= 512 * Pages(top)
    ensures |q.table| == ENTRIES
    decreases r.end - r.vpn
  {
    if r.vpn >= r.end then EditedTable(t, s)
    else
      var q := MapTable(top, t, 0, First(top, r), s);
      MapRun(top, q.table, Rest(top, r), q.supply)
  }

  /** Every segment of the run finds its place in `t`, outside the shared root slots. */
  predicate RunOk(top: nat, t: seq<Entry>, shared: set<nat>, r: Run)
    requires |t| == ENTRIES && r.end <= 512 * Pages(top)
    decreases r.end - r.vpn
  {
    r.vpn >= r.end ||
    (&& SlotOf(0, Pages(top), r.vpn) !in shared
     && TableOk(top, t, 0, First(top, r))
     && RunOk(top, t, shared, Rest(top, r)))
  }

  // ---- which tables exist -----------------------------------------------------------

  /** Whether the path of `vpn` has a table at level `l`. */
  predicate Has(level: nat, t: seq<Entry>, base: nat, vpn: nat, l: nat)
    requires |t| == ENTRIES && base <= vpn < base + 512 * Pages(level) && l <= level
    decreases level
  {
    SlotInTable(base, Pages(level), vpn);
    var i := SlotOf(base, Pages(level), vpn);
    l == level ||
    (t[i].Branch? && |t[i].table| == ENTRIES && Has(level - 1, t[i].table, SlotBase(base, Pages(level), i), vpn, l))
  }

  /** A table is named by its level and the number of the stretch it covers. */
  function Key(l: nat, vpn: nat): (nat, nat) { (l, SlotOf(0, Pages(l + 1), vpn)) }

  function SegMissing(top: nat, t: seq<Entry>, g: Segment): set<(nat, nat)>
    requires |t| == ENTRIES && g.vpn < 512 * Pages(top)
  {
    set l: nat | g.level <= l < top && !Has(top, t, 0, g.vpn, l) :: Key(l, g.vpn)
  }

  /** Names of the tables the run lacks in `t`, each once. */
  function RunMissing(top: nat, t: seq<Entry>, r: Run): set<(nat, nat)>
    requires |t| == ENTRIES && r.end <= 512 * Pages(top)
    decreases r.end - r.vpn
  {
    if r.vpn >= r.end then {}
    else SegMissing(top, t, First(top, r)) + RunMissing(top, t, Rest(top, r))
  }

  lemma {:induction false} LacksIsHas(level: nat, t: seq<Entry>, base: nat, g: Segment, l: nat)
    requires |t| == ENTRIES && InTable(level, base, g) && TableOk(level, t, base, g) && g.level <= l <= level
    ensures Has(level, t, base, g.vpn, l) <==> l >= g.level + TableLacks(level, t, base, g)
  {
    SegSlot(level, base, g);
    var i := SlotOf(base, Pages(level), g.vpn);
    if g.level < level && t[i].Branch? {
      if l < level { LacksIsHas(level - 1, t[i].table, SlotBase(base, Pages(level), i), g, l); }
      else { LacksIsHas(level - 1, t[i].table, SlotBase(base, Pages(level), i), g, level - 1); }
    }
  }

  lemma DivDiv(x: nat, p: nat)
    requires p > 0
    ensures x / (512 * p) == (x / p) / 512
  {
    var q := x / p;
    var d := q / 512;
    DivBounds(x, p);
    ScaleUp(d * 512, q, p);
    ScaleUp(q + 1, d * 512 + 512, p);
    Regroup(d, p);
    SlotUnique(0, 512 * p, x, d);
  }

  lemma ScaleUp(i: nat, j: nat, p: nat)
    requires i <= j
    ensures i * p <= j * p
  {
    if i < j { MulMono(i, j, p); }
  }

  lemma Regroup(d: nat, p: nat)
    ensures (d * 512) * p == d * (512 * p) && (d * 512 + 512) * p == d * (512 * p) + 512 * p
  {}

  /** Pages in one stretch of a lower level share every stretch above it. */
  lemma {:induction false} Coarser(l: nat, level: nat, x: nat, y: nat)
    requires l <= level && x / Pages(l) == y / Pages(l)
    ensures x / Pages(level) == y / Pages(level)
    decreases level - l
  {
    if l < level {
      DivDiv(x, Pages(l));
      DivDiv(y, Pages(l));
      Coarser(l + 1, level, x, y);
    }
  }

  lemma SlotIsStretch(level: nat, base: nat, x: nat, y: nat)
    requires base % (512 * Pages(level)) == 0
    requires base <= x < base + 512 * Pages(level) && base <= y < base + 512 * Pages(level)
    ensures SlotOf(base, Pages(level), x) == SlotOf(base, Pages(level), y) <==> x / Pages(level) == y / Pages(level)
  {
    var p := Pages(level);
    AlignedSum(base, 0, p);
    var m := base / p;
    assert base == m * p;
    StretchOf(base, p, m, x);
    StretchOf(base, p, m, y);
  }

  lemma StretchOf(base: nat, p: nat, m: nat, z: nat)
    requires p > 0 && base == m * p && base <= z
    ensures z / p == m + SlotOf(base, p, z)
  {
    var i := SlotOf(base, p, z);
    SlotUnique(base, p, z, i);
    assert (m + i) * p == m * p + i * p;
    SlotUnique(0, p, z, m + i);
  }

  lemma {:induction false} EntryMapHas(level: nat, e: Entry, b: nat, g: Segment, s: Supply, vpn: nat, l: nat)
    requires InSlot(level, b, g) && EntryOk(level, e, b, g) && Lacks(level, e, b, g) <= |s.frames|
    requires b <= vpn < b + Pages(level) && l < level
    ensures var u := MapEntry(level, e, b, g, s).entry;
            (u.Branch? && |u.table| == ENTRIES && Has(level - 1, u.table, b, vpn, l)) <==>
            ((e.Branch? && |e.table| == ENTRIES && Has(level - 1, e.table, b, vpn, l))
             || (g.level <= l && Key(l, vpn) == Key(l, g.vpn)))
    decreases level, 0
  {
    if level > g.level {
      UnderOk(level, e, b, g);
      UnderLacks(level, e, b, g);
      if l < level - 1 {
        TableMapHas(level - 1, Under(level, e), b, g, if e.Branch? then s else Pop(s), vpn, l);
        SlotInTable(b, Pages(level - 1), vpn);
      } else {
        SameSlotKey(level, b, g.vpn, vpn);
      }
    }
  }

  lemma SameSlotKey(level: nat, b: nat, x: nat, y: nat)
    requires level > 0 && b % Pages(level) == 0 && b <= x < b + Pages(level) && b <= y < b + Pages(level)
    ensures Key(level - 1, x) == Key(level - 1, y)
  {
    var m := b / Pages(level);
    assert b == m * Pages(level);
    SlotUnique(0, Pages(level), x, m);
    SlotUnique(0, Pages(level), y, m);
  }

  /** Writing a segment adds exactly the tables on its own path. */
  lemma {:induction false} TableMapHas(level: nat, t: seq<Entry>, base: nat, g: Segment, s: Supply, vpn: nat, l: nat)
    requires |t| == ENTRIES && InTable(level, base, g) && TableOk(level, t, base, g)
             && TableLacks(level, t, base, g) <= |s.frames|
    requires base <= vpn < base + 512 * Pages(level) && l < level
    ensures Has(level, MapTable(level, t, base, g, s).table, base, vpn, l)
       <==> Has(level, t, base, vpn, l) || (g.level <= l && Key(l, vpn) == Key(l, g.vpn))
    decreases level, 1
  {
    SegSlot(level, base, g);
    SlotInTable(base, Pages(level), vpn);
    var i := SlotOf(base, Pages(level), g.vpn);
    SlotIsStretch(level, base, g.vpn, vpn);
    if SlotOf(base, Pages(level), vpn) == i {
      EntryMapHas(level, t[i], SlotBase(base, Pages(level), i), g, s, vpn, l);
    } else if Key(l, vpn) == Key(l, g.vpn) {
      Coarser(l + 1, level, vpn, g.vpn);
    }
  }

  // ---- the whole run ----------------------------------------------------------------

  lemma FirstInTable(top: nat, r: Run)
    requires r.vpn < r.end <= 512 * Pages(top)
    ensures InTable(top, 0, First(top, r))
  {}

  /** Writing one segment leaves a run clear of it admissible. */
  lemma {:induction false} KeepsRunOk(top: nat, t: seq<Entry>, shared: set<nat>, g: Segment, r: Run, s: Supply)
    requires |t| == ENTRIES && r.end <= 512 * Pages(top)
    requires InTable(top, 0, g) && TableOk(top, t, 0, g) && TableLacks(top, t, 0, g) <= |s.frames|
    requires g.vpn + Pages(g.level) <= r.vpn || r.end <= g.vpn
    requires RunOk(top, t, shared, r)
    ensures RunOk(top, MapTable(top, t, 0, g, s).table, shared, r)
    decreases r.end - r.vpn
  {
    if r.vpn < r.end {
      FirstInTable(top, r);
      TableMapKeepsOk(top, t, 0, g, First(top, r), s);
      KeepsRunOk(top, t, shared, g, Rest(top, r), s);
    }
  }

  /** Tables present in `t`: those of `t0` and those named by `made`. */
  ghost predicate Grown(top: nat, t0: seq<Entry>, t: seq<Entry>, made: set<(nat, nat)>)
    requires |t0| == ENTRIES && |t| == ENTRIES
  {
    forall vpn: nat, l: nat | vpn < 512 * Pages(top) && l < top ::
      Has(top, t, 0, vpn, l) <==> Has(top, t0, 0, vpn, l) || Key(l, vpn) in made
  }

  function PathKeys(top: nat, g: Segment): set<(nat, nat)> {
    set l: nat | g.level <= l < top :: Key(l, g.vpn)
  }

  function KeySpan(vpn: nat, lo: nat, hi: nat): set<(nat, nat)> {
    set l: nat | lo <= l < hi :: Key(l, vpn)
  }

  lemma {:induction false} KeysCount(vpn: nat, lo: nat, hi: nat)
    requires lo <= hi
    ensures |KeySpan(vpn, lo, hi)| == hi - lo
    decreases hi - lo
  {
    if lo < hi {
      KeysCount(vpn, lo, hi - 1);
      assert KeySpan(vpn, lo, hi) == KeySpan(vpn, lo, hi - 1) + {Key(hi - 1, vpn)};
    } else {
      assert KeySpan(vpn, lo, hi) == {};
    }
  }

  /** The tables a segment takes now are the ones missing at first and not made since. */
  lemma SegUse(top: nat, t0: seq<Entry>, t: seq<Entry>, made: set<(nat, nat)>, g: Segment)
    requires |t0| == ENTRIES && |t| == ENTRIES && Grown(top, t0, t, made)
    requires InTable(top, 0, g) && TableOk(top, t, 0, g)
    ensures |SegMissing(top, t0, g) - made| == TableLacks(top, t, 0, g)
  {
    var n := TableLacks(top, t, 0, g);
    LacksIsHas(top, t, 0, g, top);
    forall l | g.level <= l < top ensures Has(top, t, 0, g.vpn, l) <==> l >= g.level + n {
      LacksIsHas(top, t, 0, g, l);
    }
    KeysCount(g.vpn, g.level, g.level + n);
    forall l: nat | g.level <= l < top ensures Key(l, g.vpn) in SegMissing(top, t0, g) - made <==> l < g.level + n {}
    assert SegMissing(top, t0, g) - made == KeySpan(g.vpn, g.level, g.level + n);
  }

  lemma GrowsBySegment(top: nat, t0: seq<Entry>, t: seq<Entry>, made: set<(nat, nat)>, g: Segment, s: Supply)
    requires |t0| == ENTRIES && |t| == ENTRIES && Grown(top, t0, t, made)
    requires InTable(top, 0, g) && TableOk(top, t, 0, g) && TableLacks(top, t, 0, g) <= |s.frames|
    ensures Grown(top, t0, MapTable(top, t, 0, g, s).table, made + PathKeys(top, g))
  {
    forall vpn: nat, l: nat | vpn < 512 * Pages(top) && l < top
      ensures Has(top, MapTable(top, t, 0, g, s).table, 0, vpn, l)
         <==> Has(top, t0, 0, vpn, l) || Key(l, vpn) in made + PathKeys(top, g)
    {
      TableMapHas(top, t, 0, g, s, vpn, l);
    }
  }

  lemma SplitMissing(a: set<(nat, nat)>, b: set<(nat, nat)>, path: set<(nat, nat)>, made: set<(nat, nat)>)
    requires a <= path && b * path <= a
    ensures |(a + b) - made| == |a - made| + |b - (made + path)|
  {
    assert (a + b) - made == (a - made) + (b - (made + path));
  }

  lemma {:induction false} MissingOnPath(top: nat, t: seq<Entry>, g: Segment, r: Run, k: (nat, nat))
    requires |t| == ENTRIES && InTable(top, 0, g) && r.end <= 512 * Pages(top)
    requires k in RunMissing(top, t, r) && k in PathKeys(top, g)
    ensures k in SegMissing(top, t, g)
    decreases r.end - r.vpn
  {
    if r.vpn < r.end {
      var h := First(top, r);
      FirstInTable(top, r);
      if k in SegMissing(top, t, h) {
        SameKeySameHas(top, t, 0, h.vpn, g.vpn, k.0);
      } else {
        MissingOnPath(top, t, g, Rest(top, r), k);
      }
    }
  }

  /** Whether a table exists depends only on its name. */
  lemma {:induction false} SameKeySameHas(level: nat, t: seq<Entry>, base: nat, x: nat, y: nat, l: nat)
    requires |t| == ENTRIES && base % (512 * Pages(level)) == 0 && l < level && Key(l, x) == Key(l, y)
    requires base <= x < base + 512 * Pages(level) && base <= y < base + 512 * Pages(level)
    ensures Has(level, t, base, x, l) <==> Has(level, t, base, y, l)
    decreases level
  {
    Coarser(l + 1, level, x, y);
    SlotIsStretch(level, base, x, y);
    SlotInTable(base, Pages(level), x);
    SlotInTable(base, Pages(level), y);
    var i := SlotOf(base, Pages(level), x);
    SlotAligned(level, base, i);
    if l < level - 1 && t[i].Branch? && |t[i].table| == ENTRIES {
      SameKeySameHas(level - 1, t[i].table, SlotBase(base, Pages(level), i), x, y, l);
    }
  }

  /** A supply with its last `n` tables gone. */
  function Less(s: Supply, n: nat): Supply
    requires n <= |s.frames|
  {
    s.(frames := s.frames[..|s.frames| - n])
  }

  lemma LessLess(s: Supply, n: nat, m: nat)
    requires n + m <= |s.frames|
    ensures Less(Less(s, n), m) == Less(s, n + m)
  {}

  /** Publishing a run takes exactly the tables missing from the tree it was checked against. */
  lemma {:induction false} RunUse(top: nat, t0: seq<Entry>, t: seq<Entry>, shared: set<nat>, made: set<(nat, nat)>,
                                  r: Run, s: Supply)
    requires |t0| == ENTRIES && |t| == ENTRIES && r.end <= 512 * Pages(top)
    requires Grown(top, t0, t, made) && RunOk(top, t, shared, r)
    requires |RunMissing(top, t0, r) - made| <= |s.frames|
    ensures MapRun(top, t, r, s).supply == Less(s, |RunMissing(top, t0, r) - made|)
    decreases r.end - r.vpn
  {
    if r.vpn < r.end {
      var g, q := First(top, r), Rest(top, r);
      RunStep(top, t0, t, shared, made, r, s);
      var u := MapTable(top, t, 0, g, s);
      RunUse(top, t0, u.table, shared, made + PathKeys(top, g), q, u.supply);
      LessLess(s, TableLacks(top, t, 0, g), |RunMissing(top, t0, q) - (made + PathKeys(top, g))|);
    } else {
      assert RunMissing(top, t0, r) - made == {};
    }
  }

  /** One step of a run: what it takes, what it leaves, and that the rest can go on. */
  lemma RunStep(top: nat, t0: seq<Entry>, t: seq<Entry>, shared: set<nat>, made: set<(nat, nat)>, r: Run, s: Supply)
    requires |t0| == ENTRIES && |t| == ENTRIES && r.vpn < r.end <= 512 * Pages(top)
    requires Grown(top, t0, t, made) && RunOk(top, t, shared, r)
    requires |RunMissing(top, t0, r) - made| <= |s.frames|
    ensures var g := First(top, r);
            var u := MapTable(top, t, 0, g, s);
            && InTable(top, 0, g) && TableOk(top, t, 0, g) && SlotOf(0, Pages(top), g.vpn) !in shared
            && TableLacks(top, t, 0, g) <= |s.frames|
            && u.supply == Less(s, TableLacks(top, t, 0, g))
            && |RunMissing(top, t0, r) - made|
                == TableLacks(top, t, 0, g) + |RunMissing(top, t0, Rest(top, r)) - (made + PathKeys(top, g))|
            && Grown(top, t0, u.table, made + PathKeys(top, g))
            && RunOk(top, u.table, shared, Rest(top, r))
  {
    hide MapTable, RunMissing, TableLacks, Grown, Has;
    var g, q := First(top, r), Rest(top, r);
    FirstInTable(top, r);
    StepCount(top, t0, t, made, r);
    TableMapUse(top, t, 0, g, s);
    GrowsBySegment(top, t0, t, made, g, s);
    KeepsRunOk(top, t, shared, g, q, s);
  }

  lemma StepCount(top: nat, t0: seq<Entry>, t: seq<Entry>, made: set<(nat, nat)>, r: Run)
    requires |t0| == ENTRIES && |t| == ENTRIES && r.vpn < r.end <= 512 * Pages(top)
    requires Grown(top, t0, t, made) && TableOk(top, t, 0, First(top, r))
    ensures var g := First(top, r);
            |RunMissing(top, t0, r) - made|
                == TableLacks(top, t, 0, g) + |RunMissing(top, t0, Rest(top, r)) - (made + PathKeys(top, g))|
  {
    var g, q := First(top, r), Rest(top, r);
    FirstInTable(top, r);
    SegUse(top, t0, t, made, g);
    forall k | k in RunMissing(top, t0, q) * PathKeys(top, g) ensures k in SegMissing(top, t0, g) {
      MissingOnPath(top, t0, g, q, k);
    }
    SplitMissing(SegMissing(top, t0, g), RunMissing(top, t0, q), PathKeys(top, g), made);
  }

  function FlatAt(top: nat, t: seq<Entry>, vpn: nat): Option<Target>
    requires |t| == ENTRIES && vpn < 512 * Pages(top)
  {
    Forget(Lookup(top, t, 0, vpn))
  }

  /** The flat map of a page after the run is mapped. */
  function Mapping(r: Run, vpn: nat, was: Option<Target>): Option<Target> {
    if r.vpn <= vpn < r.end then Some(Target(r.ppn + (vpn - r.vpn), r.flags)) else was
  }

  lemma StepFlat(top: nat, t: seq<Entry>, r: Run, s: Supply, vpn: nat)
    requires |t| == ENTRIES && r.vpn < r.end <= 512 * Pages(top) && vpn < 512 * Pages(top)
    requires TableOk(top, t, 0, First(top, r)) && TableLacks(top, t, 0, First(top, r)) <= |s.frames|
    ensures Mapping(Rest(top, r), vpn, FlatAt(top, MapTable(top, t, 0, First(top, r), s).table, vpn))
         == Mapping(r, vpn, FlatAt(top, t, vpn))
  {
    TableMapFlat(top, t, 0, First(top, r), s, vpn);
  }

  /** The run is mapped as asked and nothing else changes. */
  lemma {:induction false} RunFlat(top: nat, t0: seq<Entry>, t: seq<Entry>, shared: set<nat>, made: set<(nat, nat)>,
                                   r: Run, s: Supply, vpn: nat)
    requires |t0| == ENTRIES && |t| == ENTRIES && r.end <= 512 * Pages(top) && vpn < 512 * Pages(top)
    requires Grown(top, t0, t, made) && RunOk(top, t, shared, r)
    requires |RunMissing(top, t0, r) - made| <= |s.frames|
    ensures FlatAt(top, MapRun(top, t, r, s).table, vpn) == Mapping(r, vpn, FlatAt(top, t, vpn))
    decreases r.end - r.vpn
  {
    if r.vpn < r.end {
      var g, q := First(top, r), Rest(top, r);
      RunStep(top, t0, t, shared, made, r, s);
      StepFlat(top, t, r, s, vpn);
      var u := MapTable(top, t, 0, g, s);
      RunFlat(top, t0, u.table, shared, made + PathKeys(top, g), q, u.supply, vpn);
    }
  }

  lemma {:induction false} RunLinks(top: nat, t0: seq<Entry>, t: seq<Entry>, shared: set<nat>, made: set<(nat, nat)>,
                                    r: Run, s: Supply, f: nat)
    requires |t0| == ENTRIES && |t| == ENTRIES && r.end <= 512 * Pages(top)
    requires Grown(top, t0, t, made) && RunOk(top, t, shared, r)
    requires |RunMissing(top, t0, r) - made| <= |s.frames|
    ensures var q := MapRun(top, t, r, s);
            TableLinks(q.table, shared, ENTRIES, f) + Held(q.supply, f)
                == TableLinks(t, shared, ENTRIES, f) + Held(s, f)
    decreases r.end - r.vpn
  {
    if r.vpn < r.end {
      RunStep(top, t0, t, shared, made, r, s);
      var g := First(top, r);
      TableMapLinks(top, t, 0, g, shared, s, f);
      var u := MapTable(top, t, 0, g, s);
      RunLinks(top, t0, u.table, shared, made + PathKeys(top, g), Rest(top, r), u.supply, f);
    }
  }

  lemma {:induction false} RunWf(top: nat, t0: seq<Entry>, t: seq<Entry>, shared: set<nat>, made: set<(nat, nat)>,
                                 r: Run, s: Supply)
    requires |t0| == ENTRIES && WfTable(top, t, shared) && Fits(top, r) && Encodable(s)
    requires Grown(top, t0, t, made) && RunOk(top, t, shared, r)
    requires |RunMissing(top, t0, r) - made| <= |s.frames|
    ensures WfTable(top, MapRun(top, t, r, s).table, shared)
    decreases r.end - r.vpn
  {
    if r.vpn < r.end {
      RunStep(top, t0, t, shared, made, r, s);
      var g := First(top, r);
      TableMapWf(top, t, 0, g, shared, s);
      var u := MapTable(top, t, 0, g, s);
      RunWf(top, t0, u.table, shared, made + PathKeys(top, g), Rest(top, r), u.supply);
    }
  }

  // ---- walking the path of a page -----------------------------------------------------

  /** The walk for `vpn` from the root table `t0` has come down to the table `t` of `level`. */
  ghost predicate OnPath(top: nat, t0: seq<Entry>, vpn: nat, level: nat, t: seq<Entry>, base: nat) {
    && |t0| == ENTRIES && vpn < 512 * Pages(top) && level <= top && |t| == ENTRIES
        && base <= vpn < base + 512 * Pages(level)
    && forall l: nat | l <= top :: Has(top, t0, 0, vpn, l) <==> l >= level || Has(level, t, base, vpn, l)
  }

  lemma OnPathDown(top: nat, t0: seq<Entry>, vpn: nat, level: nat, t: seq<Entry>, base: nat, i: nat)
    requires OnPath(top, t0, vpn, level, t, base) && level > 0 && i == SlotOf(base, Pages(level), vpn) < ENTRIES
    requires t[i].Branch? && |t[i].table| == ENTRIES
    ensures OnPath(top, t0, vpn, level - 1, t[i].table, SlotBase(base, Pages(level), i))
  {
    SlotInTable(base, Pages(level), vpn);
    var b := SlotBase(base, Pages(level), i);
    forall l: nat | l <= top
      ensures Has(top, t0, 0, vpn, l) <==> l >= level - 1 || Has(level - 1, t[i].table, b, vpn, l)
    {
      HasDown(level, t, base, vpn, l, i);
    }
  }

  lemma HasDown(level: nat, t: seq<Entry>, base: nat, vpn: nat, l: nat, i: nat)
    requires |t| == ENTRIES && base <= vpn < base + 512 * Pages(level) && level > 0
             && i == SlotOf(base, Pages(level), vpn) < ENTRIES
    requires t[i].Branch? && |t[i].table| == ENTRIES
    ensures SlotBase(base, Pages(level), i) <= vpn < SlotBase(base, Pages(level), i) + Pages(level)
    ensures l < level ==>
            (Has(level, t, base, vpn, l) <==> Has(level - 1, t[i].table, SlotBase(base, Pages(level), i), vpn, l))
  {
    SlotInTable(base, Pages(level), vpn);
  }

  function KeysBelow(g: Segment, level: nat): set<(nat, nat)> { set l: nat | g.level <= l < level :: Key(l, g.vpn) }

  lemma KeysBelowStep(g: Segment, level: nat)
    requires g.level <= level
    ensures KeysBelow(g, level + 1) == KeysBelow(g, level) + {Key(level, g.vpn)}
  {}

  /** Where the walk stops, everything below is missing. */
  lemma OnPathMissing(top: nat, t0: seq<Entry>, g: Segment, level: nat, t: seq<Entry>, base: nat)
    requires OnPath(top, t0, g.vpn, level, t, base) && g.level <= level
    requires g.level < level ==> !t[SlotOf(base, Pages(level), g.vpn) % ENTRIES].Branch?
    ensures SegMissing(top, t0, g) == KeysBelow(g, level)
  {
    SlotInTable(base, Pages(level), g.vpn);
    forall l: nat | g.level <= l < top ensures !Has(top, t0, 0, g.vpn, l) <==> l < level {}
  }
}
