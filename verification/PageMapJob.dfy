/** Writing one segment into tables in memory, one level at a time. */
module PageMapJob {
  import opened Pte
  import opened PageTree
  import opened PageTreeEdit
  import opened PageTreeMap
  import opened PageMemory
  import opened PageJob

  /** A table of `level` in `frame` into which a segment is to be written. */
  datatype Site = Site(level: nat, t: seq<Entry>, base: nat, shared: set<nat>, frame: nat)

  /** Frames handed over for tables are blank. */
  ghost predicate Zeroed(mem: Memory, s: Supply) {
    forall f :: Count(s.frames, f) > 0 ==> f in mem && forall k :: 0 <= k < |mem[f]| ==> !IsValid(mem[f][k])
  }

  /** The segment starts inside the table. */
  predicate Inside(x: Site, g: Segment) { |x.t| == ENTRIES && x.base <= g.vpn < x.base + 512 * Pages(x.level) }

  function Slot(x: Site, g: Segment): (i: nat)
    requires Inside(x, g)
    ensures i < |x.t|
            && SlotBase(x.base, Pages(x.level), i) <= g.vpn < SlotBase(x.base, Pages(x.level), i) + Pages(x.level)
  {
    SlotInTable(x.base, Pages(x.level), g.vpn);
    SlotOf(x.base, Pages(x.level), g.vpn)
  }

  ghost predicate MapAdmissible(x: Site, g: Segment, now: State, root: nat) {
    && WfMemory(now.mem) && Stores(now.mem, x.frame, x.t) && WfTable(x.level, x.t, x.shared)
    && TableApart(x.frame, x.t, x.shared, now.supply) && Zeroed(now.mem, now.supply) && Encodes(g)
    && Inside(x, g) && InTable(x.level, x.base, g) && TableOk(x.level, x.t, x.base, g) && Slot(x, g) !in x.shared
    && TableLacks(x.level, x.t, x.base, g) <= |now.supply.frames|
    && (x.frame != root ==> TableLinks(x.t, x.shared, ENTRIES, root) + Held(now.supply, root) == 0)
  }

  /** Tables still in the supply are untouched. */
  ghost predicate Spared(was: State, now: State) {
    forall f :: Count(now.supply.frames, f) > 0 ==> f in was.mem && f in now.mem && now.mem[f] == was.mem[f]
  }

  ghost predicate MapDone(x: Site, g: Segment, was: State, now: State)
    requires Inside(x, g)
  {
    var r := MapTable(x.level, x.t, x.base, g, was.supply);
    && WfMemory(now.mem) && TableWrite(was.mem, now.mem, x.frame, x.t, x.shared, was.supply)
    && Stores(now.mem, x.frame, r.table) && now.supply == r.supply && Moved(was, now) && Spared(was, now)
  }

  /** The segment's slot now links a table with the entries of `Under`. */
  ghost predicate Linked(x: Site, g: Segment, was: State, mid: State, child: nat)
    requires Inside(x, g) && x.level > 0
  {
    var i := Slot(x, g);
    var e := x.t[i];
    && WfMemory(was.mem) && WfMemory(mid.mem) && was.mem.Keys == mid.mem.Keys && x.frame in mid.mem
    && (forall k :: 0 <= k < ENTRIES && k != i ==> mid.mem[x.frame][k] == was.mem[x.frame][k])
    && (forall f :: f in was.mem && f != x.frame && (e.Branch? || f != child) ==> mid.mem[f] == was.mem[f])
    && Denotes(mid.mem, mid.mem[x.frame][i], Branch(child, Under(x.level, e)))
    && (if e.Branch? then child == e.frame && mid.supply == was.supply
        else |was.supply.frames| > 0 && child == Top(was.supply) && mid.supply == Pop(was.supply))
    && Moved(was, mid)
  }

  /** The next site on the way down. */
  function Next(x: Site, g: Segment, child: nat): Site
    requires Inside(x, g) && x.level > 0
  {
    Site(x.level - 1, Under(x.level, x.t[Slot(x, g)]), SlotBase(x.base, Pages(x.level), Slot(x, g)), {}, child)
  }

  // ---- indices --------------------------------------------------------------------------

  /** The nine index bits of a page number at a level. */
  function IndexAt(vpn: nat, level: nat): (i: nat) { SlotOf(0, Pages(level), vpn) % 512 }

  lemma QuotientIs(x: nat, p: nat, d: nat)
    requires p > 0 && d * p <= x < d * p + p
    ensures x / p == d && x % p == x - d * p
  {
    SlotUnique(0, p, x, d);
    assert x == (x / p) * p + x % p;
  }

  lemma BaseInSlots(p: nat, base: nat) returns (q: nat)
    requires p > 0 && base % (512 * p) == 0
    ensures base == (512 * q) * p
  {
    q := base / (512 * p);
    assert base == q * (512 * p);
  }

  lemma SumInSlots(base: nat, p: nat, q: nat, i: nat)
    requires base == (512 * q) * p
    ensures (512 * q + i) * p == base + i * p
  {}

  /** In an aligned table the index bits name the slot, and the remainder is the offset in it. */
  lemma IndexIsSlot(level: nat, base: nat, vpn: nat)
    requires base % (512 * Pages(level)) == 0 && base <= vpn < base + 512 * Pages(level)
    ensures IndexAt(vpn, level) == SlotOf(base, Pages(level), vpn)
    ensures vpn % Pages(level) == vpn - SlotBase(base, Pages(level), SlotOf(base, Pages(level), vpn))
  {
    var p := Pages(level);
    var i := SlotOf(base, p, vpn);
    SlotInTable(base, p, vpn);
    var q := BaseInSlots(p, base);
    SumInSlots(base, p, q, i);
    QuotientIs(vpn, p, 512 * q + i);
    WholeSlots(q, i);
  }

  lemma WholeSlots(q: nat, i: nat)
    requires i < 512
    ensures (512 * q + i) % 512 == i
  {}

  // ---- steps ----------------------------------------------------------------------------

  lemma SlotOfSite(x: Site, g: Segment, now: State, root: nat)
    requires MapAdmissible(x, g, now, root)
    ensures var i := Slot(x, g);
            && i < ENTRIES && IndexAt(g.vpn, x.level) == i && SlotApart(x.frame, x.t[i], now.supply)
            && Denotes(now.mem, now.mem[x.frame][i], x.t[i]) && WfEntry(x.level, x.t[i])
            && EntryOk(x.level, x.t[i], SlotBase(x.base, Pages(x.level), i), g)
            && g.vpn % Pages(x.level) == g.vpn - SlotBase(x.base, Pages(x.level), i)
            && (x.frame != root ==> Links(x.t[i], root) + Held(now.supply, root) == 0)
  {
    SegSlot(x.level, x.base, g);
    IndexIsSlot(x.level, x.base, g.vpn);
    SlotOfApart(x.frame, x.t, x.shared, now.supply, Slot(x, g));
    SlotLinks(x.t, x.shared, ENTRIES, Slot(x, g), root);
  }

  /** A supply that is not empty offers a blank frame unlike any other in use. */
  lemma TopIsFresh(x: Site, g: Segment, now: State, root: nat)
    requires MapAdmissible(x, g, now, root) && x.level > g.level && !x.t[Slot(x, g)].Branch?
    ensures |now.supply.frames| > 0 && Top(now.supply) in now.mem && Count(now.supply.frames, Top(now.supply)) > 0
    ensures Top(now.supply) != x.frame && Top(now.supply) != root
    ensures forall k :: 0 <= k < ENTRIES ==> !IsValid(now.mem[Top(now.supply)][k])
  {
    assert Lacks(x.level, x.t[Slot(x, g)], SlotBase(x.base, Pages(x.level), Slot(x, g)), g) > 0;
    assert Top(now.supply) in now.supply.frames;
    assert Held(now.supply, Top(now.supply)) > 0;
  }

  lemma LinkKept(x: Site, g: Segment, was: State, mid: State, child: nat, f: nat)
    requires Inside(x, g) && x.level > 0 && Linked(x, g, was, mid, child)
    ensures var e := x.t[Slot(x, g)];
            Links(Branch(child, Under(x.level, e)), f) + Held(mid.supply, f) == Links(e, f) + Held(was.supply, f)
    ensures Count(mid.supply.frames, f) <= Count(was.supply.frames, f)
  {
    var e := x.t[Slot(x, g)];
    if e.Leaf? { SplitHasNoLinks(x.level, e.ppn, e.flags, ENTRIES, f); }
    if e.Invalid? { AllInvalidHasNoLinks(Blank(), ENTRIES, f); }
    if !e.Branch? {
      HeldPop(was.supply, f);
      PrefixCount(was.supply.frames, |was.supply.frames| - 1, f);
    }
  }

  lemma NextShape(x: Site, g: Segment, child: nat)
    requires Inside(x, g) && InTable(x.level, x.base, g) && TableOk(x.level, x.t, x.base, g) && x.level > g.level
    requires WfEntry(x.level, x.t[Slot(x, g)])
    ensures var y := Next(x, g, child);
            && Inside(y, g) && InTable(y.level, y.base, g) && TableOk(y.level, y.t, y.base, g)
                && WfTable(y.level, y.t, {})
            && TableLacks(x.level, x.t, x.base, g)
                == TableLacks(y.level, y.t, y.base, g) + (if x.t[Slot(x, g)].Branch? then 0 else 1)
  {
    SegSlot(x.level, x.base, g);
    var e, b := x.t[Slot(x, g)], SlotBase(x.base, Pages(x.level), Slot(x, g));
    UnderOk(x.level, e, b, g);
    UnderLacks(x.level, e, b, g);
    if e.Leaf? { SplitWf(x.level, e.ppn, e.flags); }
  }

  /** Below the slot, frames are used as often as they were at the slot. */
  ghost predicate SameFrames(x: Site, g: Segment, was: State, mid: State, child: nat)
    requires Inside(x, g) && x.level > 0
  {
    var y := Next(x, g, child);
    && (forall f :: (if f == child then 1 else 0) + TableLinks(y.t, {}, |y.t|, f) + Held(mid.supply, f)
                    == Links(x.t[Slot(x, g)], f) + Held(was.supply, f))
    && (forall f :: Count(mid.supply.frames, f) <= Count(was.supply.frames, f))
  }

  lemma NextFrames(x: Site, g: Segment, was: State, mid: State, child: nat)
    requires Inside(x, g) && x.level > 0 && Linked(x, g, was, mid, child)
    ensures SameFrames(x, g, was, mid, child)
  {
    var y, e := Next(x, g, child), x.t[Slot(x, g)];
    forall f ensures (if f == child then 1 else 0) + TableLinks(y.t, {}, |y.t|, f) + Held(mid.supply, f)
        == Links(e, f) + Held(was.supply, f)
             && Count(mid.supply.frames, f) <= Count(was.supply.frames, f)
    {
      LinkKept(x, g, was, mid, child, f);
    }
  }

  lemma NextZeroed(x: Site, g: Segment, was: State, mid: State, child: nat)
    requires Inside(x, g) && x.level > 0 && Linked(x, g, was, mid, child) && SameFrames(x, g, was, mid, child)
    requires Zeroed(was.mem, was.supply) && SlotApart(x.frame, x.t[Slot(x, g)], was.supply)
    ensures Zeroed(mid.mem, mid.supply) && Spared(was, mid) && child != x.frame
            && TableApart(child, Next(x, g, child).t, {}, mid.supply)
  {
    var e := x.t[Slot(x, g)];
    assert Links(e, x.frame) + Held(was.supply, x.frame) == 0;
    forall f | Count(mid.supply.frames, f) > 0 ensures f in mid.mem && mid.mem[f] == was.mem[f] {
      assert Links(e, f) + Held(was.supply, f) <= 1;
    }
  }

  /** With the next table linked, the segment can be written one level down. */
  lemma MapReady(x: Site, g: Segment, was: State, mid: State, child: nat, root: nat)
    requires MapAdmissible(x, g, was, root) && x.level > g.level && Linked(x, g, was, mid, child)
    ensures MapAdmissible(Next(x, g, child), g, mid, root) && child != x.frame && child != root && Spared(was, mid)
    ensures SameFrames(x, g, was, mid, child)
  {
    SlotOfSite(x, g, was, root);
    NextShape(x, g, child);
    NextFrames(x, g, was, mid, child);
    NextZeroed(x, g, was, mid, child);
    assert Links(x.t[Slot(x, g)], root) + Held(was.supply, root) == 0;
  }

  /** Once the segment is written below, it is written here. */
  lemma MapUp(x: Site, g: Segment, was: State, mid: State, child: nat, now: State, root: nat)
    requires MapAdmissible(x, g, was, root) && x.level > g.level && Linked(x, g, was, mid, child)
    requires MapAdmissible(Next(x, g, child), g, mid, root) && MapDone(Next(x, g, child), g, mid, now)
    ensures MapDone(x, g, was, now)
  {
    SlotOfSite(x, g, was, root);
    MapReady(x, g, was, mid, child, root);
    var i, y := Slot(x, g), Next(x, g, child);
    var r := MapTable(y.level, y.t, y.base, g, mid.supply);
    assert Links(x.t[i], x.frame) + Held(was.supply, x.frame) == 0;
    SlotWritten(x, g, was, mid, child, now);
    BranchBelow(x, g, was, mid, child, now);
    StoresAfterSlot(was.mem, now.mem, x.frame, x.t, x.shared, was.supply, i, Branch(child, r.table));
    assert MapTable(x.level, x.t, x.base, g, was.supply) == EditedTable(x.t[i := Branch(child, r.table)], r.supply);
    TableWriteOfSlot(was.mem, was.mem, now.mem, x.frame, x.t, x.shared, was.supply, i, was.supply);
    StillSpared(y, g, was, mid, now);
  }

  lemma BranchBelow(x: Site, g: Segment, was: State, mid: State, child: nat, now: State)
    requires Inside(x, g) && x.level > 0 && Linked(x, g, was, mid, child) && Inside(Next(x, g, child), g)
    requires child != x.frame && SameFrames(x, g, was, mid, child)
             && Links(x.t[Slot(x, g)], x.frame) + Held(was.supply, x.frame) == 0
    requires MapDone(Next(x, g, child), g, mid, now)
    ensures var y := Next(x, g, child);
            x.frame in now.mem && |now.mem[x.frame]| == ENTRIES
            && Denotes(now.mem, now.mem[x.frame][Slot(x, g)],
                       Branch(child, MapTable(y.level, y.t, y.base, g, mid.supply).table))
  {}

  lemma StillSpared(y: Site, g: Segment, was: State, mid: State, now: State)
    requires Inside(y, g) && InTable(y.level, y.base, g) && TableOk(y.level, y.t, y.base, g)
    requires TableLacks(y.level, y.t, y.base, g) <= |mid.supply.frames|
    requires now.supply == MapTable(y.level, y.t, y.base, g, mid.supply).supply && Spared(mid, now) && Spared(was, mid)
    ensures Spared(was, now)
  {
    TableMapUse(y.level, y.t, y.base, g, mid.supply);
    forall f | Count(now.supply.frames, f) > 0 ensures f in was.mem && f in now.mem && now.mem[f] == was.mem[f] {
      PrefixCount(mid.supply.frames, |mid.supply.frames| - TableLacks(y.level, y.t, y.base, g), f);
    }
  }

  lemma SlotWritten(x: Site, g: Segment, was: State, mid: State, child: nat, now: State)
    requires Inside(x, g) && x.level > 0 && Linked(x, g, was, mid, child) && |Next(x, g, child).t| == ENTRIES
    requires child != x.frame && WfMemory(now.mem)
             && TableWrite(mid.mem, now.mem, child, Next(x, g, child).t, {}, mid.supply)
    requires SameFrames(x, g, was, mid, child) && Links(x.t[Slot(x, g)], x.frame) + Held(was.supply, x.frame) == 0
    ensures SlotWrite(was.mem, now.mem, x.frame, Slot(x, g), x.t[Slot(x, g)], was.supply)
  {
    var e := x.t[Slot(x, g)];
    forall f | f in was.mem && f != x.frame && Links(e, f) == 0 && Count(was.supply.frames, f) == 0
      ensures now.mem[f] == was.mem[f]
    {
      if !e.Branch? { assert Top(was.supply) in was.supply.frames; }
    }
  }

  /** At the segment's own level the slot becomes the leaf asked for. */
  lemma LeafWritten(x: Site, g: Segment, was: State, now: State, root: nat)
    requires MapAdmissible(x, g, was, root) && x.level == g.level
    requires now.mem == Put(was.mem, x.frame, Slot(x, g), LeafRaw(g.ppn, g.flags)) && now.owners == was.owners
             && now.supply == was.supply
    ensures MapDone(x, g, was, now)
  {
    var i := Slot(x, g);
    SlotOfSite(x, g, was, root);
    assert Held(was.supply, x.frame) == 0;
    StoresAfterSlot(was.mem, now.mem, x.frame, x.t, x.shared, was.supply, i, Leaf(g.ppn, g.flags));
  }

  /** A blank table linked into an empty slot. */
  lemma BlankLinked(x: Site, g: Segment, was: State, mid: State, root: nat)
    requires MapAdmissible(x, g, was, root) && x.level > g.level && x.t[Slot(x, g)] == Invalid
             && |was.supply.frames| > 0
    requires mid.mem == Put(was.mem, x.frame, Slot(x, g), BranchRaw(Top(was.supply))) && mid.supply == Pop(was.supply)
    requires forall f :: Count(mid.owners, f) == Count(was.owners, f) + (if f == Top(was.supply) then 1 else 0)
    ensures Linked(x, g, was, mid, Top(was.supply))
  {
    TopIsFresh(x, g, was, root);
    var top := Top(was.supply);
    forall f
      ensures Count(mid.owners, f) + Held(mid.supply, f) == Count(was.owners, f) + Held(was.supply, f)
    {
      HeldPop(was.supply, f);
    }
    assert Stores(mid.mem, top, Blank()) by {
      forall k | 0 <= k < ENTRIES ensures Denotes(mid.mem, mid.mem[top][k], Blank()[k]) {}
    }
  }
}
