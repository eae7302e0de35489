/** Writing a whole run, segment after segment, from the root of the tree. */
module PageRunJob {
  import opened Pte
  import opened PageTree
  import opened PageTreeEdit
  import opened PageTreeMap
  import opened PageTreeRun
  import opened PageMemory
  import opened PageJob
  import opened PageMapJob

  /** A run to be mapped in the tree that was `t0` at `start`. */
  datatype RunJob = RunJob(top: nat, t0: seq<Entry>, shared: set<nat>, root: nat, run: Run, start: State)

  function RootSite(j: RunJob, t: seq<Entry>): Site { Site(j.top, t, 0, j.shared, j.root) }

  /** The tree when the run is mapped up to `rest`: what is still to do, and that it can be done. */
  ghost predicate RunShape(j: RunJob, t: seq<Entry>, made: set<(nat, nat)>, rest: Run, s: Supply) {
    && |j.t0| == ENTRIES && WfTable(j.top, t, j.shared) && Fits(j.top, j.run) && Fits(j.top, rest)
    && Grown(j.top, j.t0, t, made) && RunOk(j.top, t, j.shared, rest)
    && |RunMissing(j.top, j.t0, rest) - made| <= |s.frames| && Encodable(s)
    && MapRun(j.top, t, rest, s) == MapRun(j.top, j.t0, j.run, j.start.supply)
  }

  /** Memory holds that tree, and the tables in hand are blank and apart from it. */
  ghost predicate RunStored(j: RunJob, t: seq<Entry>, now: State) {
    && WfMemory(now.mem) && Stores(now.mem, j.root, t) && TableApart(j.root, t, j.shared, now.supply)
    && Zeroed(now.mem, now.supply) && Moved(j.start, now)
    && TableWrite(j.start.mem, now.mem, j.root, j.t0, j.shared, j.start.supply) && FramesKept(j, t, now.supply)
  }

  /** Tables only move from the supply into the tree. */
  ghost predicate FramesKept(j: RunJob, t: seq<Entry>, s: Supply) {
    && |j.t0| == |t| == ENTRIES
    && forall f ::
        TableLinks(t, j.shared, ENTRIES, f) + Count(s.frames, f)
        == TableLinks(j.t0, j.shared, ENTRIES, f) + Count(j.start.supply.frames, f)
  }

  ghost predicate RunReached(j: RunJob, t: seq<Entry>, made: set<(nat, nat)>, rest: Run, now: State) {
    RunShape(j, t, made, rest, now.supply) && RunStored(j, t, now)
  }

  ghost predicate RunAdmissible(j: RunJob) {
    && WfTable(j.top, j.t0, j.shared) && Fits(j.top, j.run) && RunOk(j.top, j.t0, j.shared, j.run)
    && |RunMissing(j.top, j.t0, j.run)| <= |j.start.supply.frames|
    && WfMemory(j.start.mem) && Stores(j.start.mem, j.root, j.t0) && TableApart(j.root, j.t0, j.shared, j.start.supply)
    && Zeroed(j.start.mem, j.start.supply) && Encodable(j.start.supply)
  }

  lemma RunStarts(j: RunJob)
    requires RunAdmissible(j)
    ensures RunReached(j, j.t0, {}, j.run, j.start)
  {
    assert RunMissing(j.top, j.t0, j.run) - {} == RunMissing(j.top, j.t0, j.run);
  }

  lemma SegmentReady(j: RunJob, t: seq<Entry>, made: set<(nat, nat)>, rest: Run, now: State)
    requires RunReached(j, t, made, rest, now) && rest.vpn < rest.end
    ensures MapAdmissible(RootSite(j, t), First(j.top, rest), now, j.root)
    ensures |t| == ENTRIES && First(j.top, rest).vpn < 512 * Pages(j.top) && First(j.top, rest).level <= j.top
  {
    RunStep(j.top, j.t0, t, j.shared, made, rest, now.supply);
  }

  lemma RootApart(j: RunJob, t: seq<Entry>, g: Segment, was: State, now: State)
    requires MapAdmissible(RootSite(j, t), g, was, j.root) && MapDone(RootSite(j, t), g, was, now)
    ensures TableApart(j.root, MapTable(j.top, t, 0, g, was.supply).table, j.shared, now.supply)
  {
    var u := MapTable(j.top, t, 0, g, was.supply);
    forall f
      ensures TableLinks(u.table, j.shared, ENTRIES, f) + Held(now.supply, f)
              == TableLinks(t, j.shared, ENTRIES, f) + Held(was.supply, f)
    {
      TableMapLinks(j.top, t, 0, g, j.shared, was.supply, f);
    }
    forall i, f | 0 <= i < |u.table| && i in j.shared && Links(u.table[i], f) > 0
      ensures Foreign(j.root, u.table, j.shared, now.supply, f)
    {
      assert u.table[i] == t[i];
      assert Foreign(j.root, t, j.shared, was.supply, f);
    }
  }

  /** Frames that a segment may write are among those the run may. */
  lemma StillKept(j: RunJob, t: seq<Entry>, g: Segment, was: State, now: State)
    requires MapAdmissible(RootSite(j, t), g, was, j.root) && MapDone(RootSite(j, t), g, was, now)
    requires FramesKept(j, t, was.supply)
             && TableWrite(j.start.mem, was.mem, j.root, j.t0, j.shared, j.start.supply)
    ensures FramesKept(j, MapTable(j.top, t, 0, g, was.supply).table, now.supply)
    ensures TableWrite(j.start.mem, now.mem, j.root, j.t0, j.shared, j.start.supply)
  {
    hide MapTable, TableOk, TableLacks, Stores, WfTable, TableApart, Zeroed, Links;
    var u := MapTable(j.top, t, 0, g, was.supply);
    TableMapUse(j.top, t, 0, g, was.supply);
    forall f
      ensures TableLinks(u.table, j.shared, ENTRIES, f) + Count(now.supply.frames, f)
              == TableLinks(t, j.shared, ENTRIES, f) + Count(was.supply.frames, f)
    {
      TableMapLinks(j.top, t, 0, g, j.shared, was.supply, f);
    }
  }

  lemma StillZeroed(was: State, now: State, n: nat)
    requires Zeroed(was.mem, was.supply) && Spared(was, now)
    requires n <= |was.supply.frames| && now.supply.frames == was.supply.frames[..n]
    ensures Zeroed(now.mem, now.supply)
  {
    forall f | Count(now.supply.frames, f) > 0
      ensures f in now.mem && now.mem[f] == was.mem[f] && Count(was.supply.frames, f) > 0
    {
      PrefixCount(was.supply.frames, n, f);
    }
  }

  lemma ShapeStep(j: RunJob, t: seq<Entry>, made: set<(nat, nat)>, rest: Run, s: Supply)
    requires RunShape(j, t, made, rest, s) && rest.vpn < rest.end
    ensures var g := First(j.top, rest);
            var u := MapTable(j.top, t, 0, g, s);
            && RunShape(j, u.table, made + PathKeys(j.top, g), Rest(j.top, rest), u.supply)
            && InTable(j.top, 0, g) && TableOk(j.top, t, 0, g) && TableLacks(j.top, t, 0, g) <= |s.frames|
            && u.supply.frames == s.frames[..|s.frames| - TableLacks(j.top, t, 0, g)]
  {
    hide MapTable, RunMissing, TableOk, TableLacks, RunOk, Grown;
    var g := First(j.top, rest);
    RunStep(j.top, j.t0, t, j.shared, made, rest, s);
    TableMapWf(j.top, t, 0, g, j.shared, s);
  }

  /** The root slots in use after a segment is written. */
  lemma SegmentOwned(j: RunJob, t: seq<Entry>, g: Segment, s: Supply)
    requires |t| == ENTRIES && InTable(j.top, 0, g) && TableOk(j.top, t, 0, g)
             && TableLacks(j.top, t, 0, g) <= |s.frames|
    requires SlotOf(0, Pages(j.top), g.vpn) !in j.shared
    ensures OwnedSlots(MapTable(j.top, t, 0, g, s).table, j.shared) == OwnedSlots(t, j.shared) + {IndexAt(g.vpn, j.top)}
  {
    IndexIsSlot(j.top, 0, g.vpn);
    SegSlot(j.top, 0, g);
    var i := SlotOf(0, Pages(j.top), g.vpn);
    if g.level < j.top {
      UnderOk(j.top, t[i], SlotBase(0, Pages(j.top), i), g);
      UnderLacks(j.top, t[i], SlotBase(0, Pages(j.top), i), g);
    }
  }

  lemma SegmentDone(j: RunJob, t: seq<Entry>, made: set<(nat, nat)>, rest: Run, was: State, now: State)
    requires RunReached(j, t, made, rest, was) && rest.vpn < rest.end
    requires MapAdmissible(RootSite(j, t), First(j.top, rest), was, j.root)
             && MapDone(RootSite(j, t), First(j.top, rest), was, now)
    ensures var g := First(j.top, rest);
            RunReached(j, MapTable(j.top, t, 0, g, was.supply).table, made + PathKeys(j.top, g), Rest(j.top, rest), now)
            && OwnedSlots(MapTable(j.top, t, 0, g, was.supply).table, j.shared)
                == OwnedSlots(t, j.shared) + {IndexAt(g.vpn, j.top)}
  {
    var g := First(j.top, rest);
    ShapeStep(j, t, made, rest, was.supply);
    SegmentOwned(j, t, g, was.supply);
    RootApart(j, t, g, was, now);
    StillKept(j, t, g, was, now);
    StillZeroed(was, now, |was.supply.frames| - TableLacks(j.top, t, 0, g));
  }

  lemma RunEnds(j: RunJob, t: seq<Entry>, made: set<(nat, nat)>, rest: Run, now: State)
    requires RunReached(j, t, made, rest, now) && rest.vpn >= rest.end
    ensures MapRun(j.top, j.t0, j.run, j.start.supply) == EditedTable(t, now.supply)
  {}

  // ---- walking a segment's path in memory ---------------------------------------------

  /** The walk for a segment has come down to `x`; what it finds there decides. */
  ghost predicate Walk(mem: Memory, top: nat, t0: seq<Entry>, g: Segment, x: Site) {
    && WfMemory(mem) && g.level <= x.level <= top && Stores(mem, x.frame, x.t) && Inside(x, g)
        && InTable(x.level, x.base, g)
    && OnPath(top, t0, g.vpn, x.level, x.t, x.base) && (TableOk(x.level, x.t, x.base, g) <==> TableOk(top, t0, 0, g))
  }

  lemma WalkHere(mem: Memory, top: nat, t0: seq<Entry>, g: Segment, x: Site)
    requires Walk(mem, top, t0, g, x)
    ensures var i := Slot(x, g);
            var b := SlotBase(x.base, Pages(x.level), i);
            && i == IndexAt(g.vpn, x.level) && Denotes(mem, mem[x.frame][i], x.t[i])
                && g.vpn % Pages(x.level) == g.vpn - b
            && (TableOk(top, t0, 0, g) <==> EntryOk(x.level, x.t[i], b, g))
            && (x.t[i].Branch? ==> |x.t[i].table| == ENTRIES && Stores(mem, x.t[i].frame, x.t[i].table))
  {
    IndexIsSlot(x.level, x.base, g.vpn);
    var e := x.t[Slot(x, g)];
    assert Denotes(mem, mem[x.frame][Slot(x, g)], e);
    if e.Branch? { BranchStored(mem, mem[x.frame][Slot(x, g)], e); }
  }

  lemma WalkDown(mem: Memory, top: nat, t0: seq<Entry>, g: Segment, x: Site)
    requires Walk(mem, top, t0, g, x) && g.level < x.level && x.t[Slot(x, g)].Branch?
    ensures Walk(mem, top, t0, g, Next(x, g, x.t[Slot(x, g)].frame))
  {
    WalkHere(mem, top, t0, g, x);
    SegSlot(x.level, x.base, g);
    OnPathDown(top, t0, g.vpn, x.level, x.t, x.base, Slot(x, g));
  }

  lemma WalkStops(mem: Memory, top: nat, t0: seq<Entry>, g: Segment, x: Site)
    requires Walk(mem, top, t0, g, x) && (g.level == x.level || !x.t[Slot(x, g)].Branch?)
    ensures SegMissing(top, t0, g) == KeysBelow(g, x.level)
  {
    OnPathMissing(top, t0, g, x.level, x.t, x.base);
  }
}
