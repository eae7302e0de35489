/** Map on the tree: cut a run of pages into the largest aligned leaves and write them one by one. */
module PageTreeMap {
  import opened Wrappers
  import opened Pte
  import opened PageTree
  import opened PageTreeEdit

  /** The segment at `vpn`: the highest level at most `level` whose leaf is aligned and fits. */
  function SegLevel(level: nat, vpn: nat, ppn: nat, end: nat): (r: nat)
    requires vpn < end
    ensures r <= level
    ensures vpn % Pages(r) == 0 && ppn % Pages(r) == 0 && vpn + Pages(r) <= end
    ensures forall l :: r < l <= level ==> !(vpn % Pages(l) == 0 && ppn % Pages(l) == 0 && vpn + Pages(l) <= end)
  {
    if level == 0 then 0
    else if vpn % Pages(level) == 0 && ppn % Pages(level) == 0 && end - vpn >= Pages(level) then level
    else SegLevel(level - 1, vpn, ppn, end)
  }

  /** One leaf to be written: `flags` for `Pages(level)` pages from `vpn`, going to `ppn` on. */
  datatype Segment = Segment(vpn: nat, level: nat, ppn: nat, flags: nat)

  predicate Aligned(g: Segment) { g.vpn % Pages(g.level) == 0 && g.ppn % Pages(g.level) == 0 }

  /** Whether the segment finds its slot free, or already mapped exactly as asked. */
  predicate EntryOk(level: nat, e: Entry, b: nat, g: Segment)
    requires b <= g.vpn < b + Pages(level)
    decreases level, 0
  {
    if level <= g.level then e == Invalid || e == Leaf(g.ppn, g.flags)
    else
      match e
      case Invalid => true
      case Leaf(ppn, flags) => flags == g.flags && ppn + (g.vpn - b) == g.ppn
      case Branch(_, sub) => |sub| == ENTRIES && TableOk(level - 1, sub, b, g)
  }

  predicate TableOk(level: nat, t: seq<Entry>, base: nat, g: Segment)
    requires |t| == ENTRIES && base <= g.vpn < base + 512 * Pages(level)
    decreases level, 1
  {
    SlotInTable(base, Pages(level), g.vpn);
    var i := SlotOf(base, Pages(level), g.vpn);
    EntryOk(level, t[i], SlotBase(base, Pages(level), i), g)
  }

  function Blank(): (t: seq<Entry>)
    ensures |t| == ENTRIES && AllInvalid(t)
  {
    seq(ENTRIES, _ => Invalid)
  }

  /** The table found, or made, under an entry: a leaf is split, a hole gets a blank table. */
  function Under(level: nat, e: Entry): (t: seq<Entry>)
    requires level > 0
    ensures e.Branch? || |t| == ENTRIES
  {
    match e
    case Invalid => Blank()
    case Leaf(ppn, flags) => Split(level, ppn, flags)
    case Branch(_, sub) => sub
  }

  function MapEntry(level: nat, e: Entry, b: nat, g: Segment, s: Supply): Edited
    requires b <= g.vpn < b + Pages(level)
    decreases level, 0
  {
    if level <= g.level then Edited(Leaf(g.ppn, g.flags), s)
    else if |Under(level, e)| != ENTRIES || (!e.Branch? && |s.frames| == 0) then Edited(e, s)
    else if e.Branch? then
      var r := MapTable(level - 1, e.table, b, g, s);
      Edited(Branch(e.frame, r.table), r.supply)
    else
      var r := MapTable(level - 1, Under(level, e), b, g, Pop(s));
      Edited(Branch(Top(s), r.table), r.supply)
  }

  function MapTable(level: nat, t: seq<Entry>, base: nat, g: Segment, s: Supply): (r: EditedTable)
    requires |t| == ENTRIES && base <= g.vpn < base + 512 * Pages(level)
    ensures |r.table| == ENTRIES
    decreases level, 1
  {
    SlotInTable(base, Pages(level), g.vpn);
    var i := SlotOf(base, Pages(level), g.vpn);
    var u := MapEntry(level, t[i], SlotBase(base, Pages(level), i), g, s);
    EditedTable(t[i := u.entry], u.supply)
  }

  /** Tables the segment still lacks on its path. */
  function Lacks(level: nat, e: Entry, b: nat, g: Segment): nat
    requires b <= g.vpn < b + Pages(level)
    decreases level, 0
  {
    if level <= g.level then 0
    else
      match e
      case Branch(_, sub) => if |sub| != ENTRIES then 0 else TableLacks(level - 1, sub, b, g)
      case _ => level - g.level
  }

  function TableLacks(level: nat, t: seq<Entry>, base: nat, g: Segment): nat
    requires |t| == ENTRIES && base <= g.vpn < base + 512 * Pages(level)
    decreases level, 1
  {
    SlotInTable(base, Pages(level), g.vpn);
    var i := SlotOf(base, Pages(level), g.vpn);
    Lacks(level, t[i], SlotBase(base, Pages(level), i), g)
  }

  // ---- geometry -----------------------------------------------------------------

  lemma {:induction false} PagesDivide(level: nat, seg: nat)
    requires seg <= level
    ensures Pages(level) % Pages(seg) == 0
  {
    if seg < level {
      PagesDivide(level - 1, seg);
      var k := Pages(level - 1) / Pages(seg);
      assert Pages(level) == (512 * k) * Pages(seg) by {
        assert Pages(level - 1) == k * Pages(seg);
        assert 512 * (k * Pages(seg)) == (512 * k) * Pages(seg);
      }
      MultipleMod(512 * k, Pages(seg));
    } else {
      MultipleMod(1, Pages(seg));
    }
  }

  lemma ModTrans(x: nat, p: nat, q: nat)
    requires p > 0 && q > 0 && q % p == 0 && x % q == 0
    ensures x % p == 0
  {
    var k := q / p;
    var m := x / q;
    assert x == (m * k) * p by {
      assert q == k * p && x == m * q;
      assert m * (k * p) == (m * k) * p;
    }
    MultipleMod(m * k, p);
  }

  lemma MultiplesApart(x: nat, y: nat, p: nat)
    requires p > 0 && x % p == 0 && y % p == 0 && x < y
    ensures x + p <= y
  {
    var m, n := x / p, y / p;
    assert x == m * p && y == n * p;
    if n <= m { if n < m { MulMono(n, m, p); } } else { MulMono(m, n, p); }
  }

  lemma MultiplesSum(x: nat, y: nat, p: nat)
    requires p > 0 && x % p == 0 && y % p == 0
    ensures (x + y) % p == 0
  {
    var m, n := x / p, y / p;
    assert x == m * p && y == n * p;
    assert x + y == (m + n) * p;
    MultipleMod(m + n, p);
  }

  /** An aligned segment starting in an aligned slot of its level or above ends in it. */
  lemma SegInSlot(level: nat, b: nat, g: Segment)
    requires g.level <= level && b % Pages(level) == 0 && g.vpn % Pages(g.level) == 0
    requires b <= g.vpn < b + Pages(level)
    ensures g.vpn + Pages(g.level) <= b + Pages(level)
    ensures g.level == level ==> g.vpn == b
  {
    var p := Pages(g.level);
    PagesDivide(level, g.level);
    ModTrans(b, p, Pages(level));
    MultiplesSum(b, Pages(level), p);
    MultiplesApart(g.vpn, b + Pages(level), p);
    if b < g.vpn { MultiplesApart(b, g.vpn, p); }
  }

  lemma SlotAligned(level: nat, base: nat, i: nat)
    requires base % (512 * Pages(level)) == 0
    ensures SlotBase(base, Pages(level), i) % Pages(level) == 0
  {
    AlignedSum(base, i, Pages(level));
  }

  /** An aligned segment that starts inside an aligned slot, or inside an aligned table. */
  predicate InSlot(level: nat, b: nat, g: Segment) {
    b % Pages(level) == 0 && b <= g.vpn < b + Pages(level) && Aligned(g) && g.level <= level
  }

  predicate InTable(level: nat, base: nat, g: Segment) {
    base % (512 * Pages(level)) == 0 && base <= g.vpn < base + 512 * Pages(level) && Aligned(g) && g.level <= level
  }

  /** Its slot is aligned and holds all of it; at its own level it is the slot. */
  lemma SegSlot(level: nat, base: nat, g: Segment)
    requires InTable(level, base, g)
    ensures var i := SlotOf(base, Pages(level), g.vpn);
            var b := SlotBase(base, Pages(level), i);
            && i < ENTRIES && InSlot(level, b, g)
            && g.vpn + Pages(g.level) <= b + Pages(level)
            && (g.level == level ==> g.vpn == b)
  {
    SlotInTable(base, Pages(level), g.vpn);
    var i := SlotOf(base, Pages(level), g.vpn);
    SlotAligned(level, base, i);
    SegInSlot(level, SlotBase(base, Pages(level), i), g);
  }

  /** A matching leaf stays matching for the segment after it is split. */
  lemma UnderOk(level: nat, e: Entry, b: nat, g: Segment)
    requires level > g.level && InSlot(level, b, g) && EntryOk(level, e, b, g)
    ensures |Under(level, e)| == ENTRIES && InTable(level - 1, b, g) && TableOk(level - 1, Under(level, e), b, g)
  {
    SegSlot(level - 1, b, g);
  }

  // ---- tables used ----------------------------------------------------------------

  lemma UnderLacks(level: nat, e: Entry, b: nat, g: Segment)
    requires level > g.level && b <= g.vpn < b + Pages(level) && |Under(level, e)| == ENTRIES
    ensures Lacks(level, e, b, g) == TableLacks(level - 1, Under(level, e), b, g) + (if e.Branch? then 0 else 1)
  {}

  lemma {:induction false} EntryMapUse(level: nat, e: Entry, b: nat, g: Segment, s: Supply)
    requires InSlot(level, b, g) && EntryOk(level, e, b, g) && Lacks(level, e, b, g) <= |s.frames|
    ensures MapEntry(level, e, b, g, s).supply == s.(frames := s.frames[..|s.frames| - Lacks(level, e, b, g)])
    decreases level, 0
  {
    if level > g.level {
      UnderOk(level, e, b, g);
      UnderLacks(level, e, b, g);
      TableMapUse(level - 1, Under(level, e), b, g, if e.Branch? then s else Pop(s));
    }
  }

  /** Writing a segment takes exactly the tables it lacks. */
  lemma {:induction false} TableMapUse(level: nat, t: seq<Entry>, base: nat, g: Segment, s: Supply)
    requires |t| == ENTRIES && InTable(level, base, g) && TableOk(level, t, base, g)
    requires TableLacks(level, t, base, g) <= |s.frames|
    ensures MapTable(level, t, base, g, s).supply
            == s.(frames := s.frames[..|s.frames| - TableLacks(level, t, base, g)])
    decreases level, 1
  {
    SegSlot(level, base, g);
    var i := SlotOf(base, Pages(level), g.vpn);
    EntryMapUse(level, t[i], SlotBase(base, Pages(level), i), g, s);
  }

  // ---- the flat map ---------------------------------------------------------------

  lemma UnderFlat(level: nat, e: Entry, b: nat, vpn: nat)
    requires level > 0 && b <= vpn < b + Pages(level) && |Under(level, e)| == ENTRIES
    ensures Forget(Lookup(level - 1, Under(level, e), b, vpn)) == Flat(level, e, b, vpn)
  {
    if e.Leaf? { SplitFlat(level, e.ppn, e.flags, b, vpn); }
    SlotInTable(b, Pages(level - 1), vpn);
  }

  lemma {:induction false} EntryMapFlat(level: nat, e: Entry, b: nat, g: Segment, s: Supply, vpn: nat)
    requires InSlot(level, b, g) && EntryOk(level, e, b, g) && Lacks(level, e, b, g) <= |s.frames|
    requires b <= vpn < b + Pages(level)
    ensures Flat(level, MapEntry(level, e, b, g, s).entry, b, vpn)
         == if g.vpn <= vpn < g.vpn + Pages(g.level) then Some(Target(g.ppn + (vpn - g.vpn), g.flags))
             else Flat(level, e, b, vpn)
    decreases level, 0
  {
    if level > g.level {
      UnderOk(level, e, b, g);
      UnderLacks(level, e, b, g);
      UnderFlat(level, e, b, vpn);
      TableMapFlat(level - 1, Under(level, e), b, g, if e.Branch? then s else Pop(s), vpn);
    } else {
      SegInSlot(level, b, g);
    }
  }

  /** A segment maps its own pages as asked and leaves every other page alone. */
  lemma {:induction false} TableMapFlat(level: nat, t: seq<Entry>, base: nat, g: Segment, s: Supply, vpn: nat)
    requires |t| == ENTRIES && InTable(level, base, g) && TableOk(level, t, base, g)
    requires TableLacks(level, t, base, g) <= |s.frames| && base <= vpn < base + 512 * Pages(level)
    ensures Forget(Lookup(level, MapTable(level, t, base, g, s).table, base, vpn))
         == if g.vpn <= vpn < g.vpn + Pages(g.level) then Some(Target(g.ppn + (vpn - g.vpn), g.flags))
             else Forget(Lookup(level, t, base, vpn))
    decreases level, 1
  {
    SegSlot(level, base, g);
    var i := SlotOf(base, Pages(level), g.vpn);
    var b := SlotBase(base, Pages(level), i);
    SlotInTable(base, Pages(level), vpn);
    SlotUnique(base, Pages(level), vpn, i);
    if SlotOf(base, Pages(level), vpn) == i { EntryMapFlat(level, t[i], b, g, s, vpn); }
  }

  // ---- frames ---------------------------------------------------------------------

  lemma {:induction false} LinksOfUpdate(t: seq<Entry>, i: nat, e: Entry, shared: set<nat>, n: nat, f: nat)
    requires i < |t| && n <= |t| && i !in shared
    ensures TableLinks(t[i := e], shared, n, f) + (if i < n then Links(t[i], f) else 0)
         == TableLinks(t, shared, n, f) + (if i < n then Links(e, f) else 0)
  {
    if n > 0 { LinksOfUpdate(t, i, e, shared, n - 1, f); }
  }

  lemma {:induction false} EntryMapLinks(level: nat, e: Entry, b: nat, g: Segment, s: Supply, f: nat)
    requires InSlot(level, b, g) && EntryOk(level, e, b, g)
    ensures var r := MapEntry(level, e, b, g, s);
            Links(r.entry, f) + Held(r.supply, f) == Links(e, f) + Held(s, f)
    decreases level, 0
  {
    if level > g.level && (e.Branch? || |s.frames| > 0) {
      UnderOk(level, e, b, g);
      TableMapLinks(level - 1, Under(level, e), b, g, {}, if e.Branch? then s else Pop(s), f);
      if e.Leaf? { SplitHasNoLinks(level, e.ppn, e.flags, ENTRIES, f); }
      if e.Invalid? { AllInvalidHasNoLinks(Blank(), ENTRIES, f); }
      if !e.Branch? { HeldPop(s, f); }
    }
  }

  lemma {:induction false} TableMapLinks(level: nat, t: seq<Entry>, base: nat, g: Segment, shared: set<nat>, s: Supply,
                                         f: nat)
    requires |t| == ENTRIES && InTable(level, base, g) && TableOk(level, t, base, g)
    requires SlotOf(base, Pages(level), g.vpn) !in shared
    ensures var r := MapTable(level, t, base, g, s);
            TableLinks(r.table, shared, ENTRIES, f) + Held(r.supply, f)
                == TableLinks(t, shared, ENTRIES, f) + Held(s, f)
    decreases level, 1
  {
    SegSlot(level, base, g);
    var i := SlotOf(base, Pages(level), g.vpn);
    var b := SlotBase(base, Pages(level), i);
    EntryMapLinks(level, t[i], b, g, s, f);
    LinksOfUpdate(t, i, MapEntry(level, t[i], b, g, s).entry, shared, ENTRIES, f);
  }

  // ---- shape ----------------------------------------------------------------------

  predicate Encodes(g: Segment) { ValidLeafFlags(g.flags) && g.ppn + Pages(g.level) <= MAX_PPN }

  lemma {:induction false} EntryMapWf(level: nat, e: Entry, b: nat, g: Segment, s: Supply)
    requires InSlot(level, b, g) && EntryOk(level, e, b, g) && Lacks(level, e, b, g) <= |s.frames|
    requires WfEntry(level, e) && Encodes(g) && Encodable(s)
    ensures WfEntry(level, MapEntry(level, e, b, g, s).entry)
    decreases level, 0
  {
    if level > g.level {
      UnderOk(level, e, b, g);
      UnderLacks(level, e, b, g);
      if e.Leaf? { SplitWf(level, e.ppn, e.flags); }
      TableMapWf(level - 1, Under(level, e), b, g, {}, if e.Branch? then s else Pop(s));
    }
  }

  lemma {:induction false} TableMapWf(level: nat, t: seq<Entry>, base: nat, g: Segment, shared: set<nat>, s: Supply)
    requires WfTable(level, t, shared) && InTable(level, base, g) && TableOk(level, t, base, g)
    requires TableLacks(level, t, base, g) <= |s.frames| && Encodes(g) && Encodable(s)
    requires SlotOf(base, Pages(level), g.vpn) !in shared
    ensures WfTable(level, MapTable(level, t, base, g, s).table, shared)
    decreases level, 1
  {
    SegSlot(level, base, g);
    var i := SlotOf(base, Pages(level), g.vpn);
    EntryMapWf(level, t[i], SlotBase(base, Pages(level), i), g, s);
  }

  // ---- a later segment of the same run ----------------------------------------------

  /** Two segments of one run: one entirely before the other, same displacement and flags. */
  predicate Apart(g: Segment, h: Segment) { g.vpn + Pages(g.level) <= h.vpn || h.vpn + Pages(h.level) <= g.vpn }

  lemma {:induction false} EntryMapKeepsOk(level: nat, e: Entry, b: nat, g: Segment, h: Segment, s: Supply)
    requires InSlot(level, b, g) && EntryOk(level, e, b, g) && Lacks(level, e, b, g) <= |s.frames|
    requires InSlot(level, b, h) && EntryOk(level, e, b, h) && Apart(g, h)
    ensures EntryOk(level, MapEntry(level, e, b, g, s).entry, b, h)
    decreases level, 0
  {
    SegInSlot(level, b, g);
    SegInSlot(level, b, h);
    if level > g.level && level > h.level {
      UnderOk(level, e, b, g);
      UnderOk(level, e, b, h);
      UnderLacks(level, e, b, g);
      TableMapKeepsOk(level - 1, Under(level, e), b, g, h, if e.Branch? then s else Pop(s));
    }
  }

  /** Writing one segment leaves every other one admissible. */
  lemma {:induction false} TableMapKeepsOk(level: nat, t: seq<Entry>, base: nat, g: Segment, h: Segment, s: Supply)
    requires |t| == ENTRIES && InTable(level, base, g) && TableOk(level, t, base, g)
             && TableLacks(level, t, base, g) <= |s.frames|
    requires InTable(level, base, h) && TableOk(level, t, base, h) && Apart(g, h)
    ensures TableOk(level, MapTable(level, t, base, g, s).table, base, h)
    decreases level, 1
  {
    SegSlot(level, base, g);
    SegSlot(level, base, h);
    var i := SlotOf(base, Pages(level), g.vpn);
    if SlotOf(base, Pages(level), h.vpn) == i {
      EntryMapKeepsOk(level, t[i], SlotBase(base, Pages(level), i), g, h, s);
    }
  }
}
