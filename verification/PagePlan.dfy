/** The three translation changes as one: what each needs, what it leaves, and what it means for a page. */
module PagePlan {
  import opened Wrappers
  import opened Pte
  import opened PageTree
  import opened PageTreeEdit
  import opened PageTreeMap
  import opened PageTreeRun
  import opened PageCheck

  datatype Plan =
    | Map(vpn: nat, count: nat, ppn: nat, flags: nat)
    | Unmap(vpn: nat, count: nat)
    | Protect(vpn: nat, count: nat, from: nat, to: nat)

  /** Tables a plan takes from its supply and tables it gives back. */
  datatype Preflight = Fine(required: nat, retired: nat) | Failed(error: MapError)

  function RunOf(p: Plan): Run
    requires p.Map?
  {
    Run(p.vpn, p.ppn, p.vpn + p.count, p.flags)
  }

  /** The first segment that does not find its place. */
  function FirstConflict(top: nat, t: seq<Entry>, shared: set<nat>, r: Run): (c: Option<nat>)
    requires |t| == ENTRIES && r.end <= 512 * Pages(top)
    ensures c.None? <==> RunOk(top, t, shared, r)
    ensures c.Some? ==> r.vpn <= c.value < r.end
    decreases r.end - r.vpn
  {
    if r.vpn >= r.end then None
    else if SlotOf(0, Pages(top), r.vpn) in shared || !TableOk(top, t, 0, First(top, r)) then Some(r.vpn)
    else FirstConflict(top, t, shared, Rest(top, r))
  }

  lemma ConflictStep(top: nat, t: seq<Entry>, shared: set<nat>, r: Run)
    requires |t| == ENTRIES && r.vpn < r.end <= 512 * Pages(top)
    ensures if SlotOf(0, Pages(top), r.vpn) !in shared && TableOk(top, t, 0, First(top, r))
            then FirstConflict(top, t, shared, r) == FirstConflict(top, t, shared, Rest(top, r))
            else FirstConflict(top, t, shared, r) == Some(r.vpn)
    ensures RunMissing(top, t, r) == SegMissing(top, t, First(top, r)) + RunMissing(top, t, Rest(top, r))
  {}

  function PreflightOf(top: nat, t: seq<Entry>, shared: set<nat>, p: Plan): Preflight
    requires |t| == ENTRIES
  {
    match p
    case Map(vpn, count, ppn, flags) =>
      if !ValidLeafFlags(flags) then Failed(InvalidFlags)
      else if vpn + count > 512 * Pages(top) || ppn + count > MAX_PPN then Failed(OutOfRange)
      else
        var c := FirstConflict(top, t, shared, RunOf(p));
        if c.Some? then Failed(Conflict(c.value)) else Fine(|RunMissing(top, t, RunOf(p))|, 0)
    case Unmap(vpn, count) =>
      if vpn + count > 512 * Pages(top) then Failed(OutOfRange)
      else Fine(TableNeed(top, t, 0, vpn, vpn + count, shared, ENTRIES),
                TableFreed(top, t, 0, vpn, vpn + count, shared, ENTRIES))
    case Protect(vpn, count, from, to) =>
      if !ValidLeafFlags(from) || !ValidLeafFlags(to) then Failed(InvalidFlags)
      else if vpn + count > 512 * Pages(top) then Failed(OutOfRange)
      else
        var c := CheckTable(top, t, 0, vpn, vpn + count, shared, from, ENTRIES);
        if c.Err? then Failed(c.error) else Fine(c.value, 0)
  }

  /** In a tree with nothing mapped a protect of no pages is refused exactly when it starts inside a root slot. */
  lemma EmptyProtectRefused(top: nat, t: seq<Entry>, v: nat, from: nat, to: nat)
    requires |t| == ENTRIES && AllInvalid(t) && v < 512 * Pages(top) && ValidLeafFlags(from) && ValidLeafFlags(to)
    ensures WfTable(top, t, {})
    ensures PreflightOf(top, t, {}, Protect(v, 0, from, to)).Failed? <==> v % Pages(top) != 0
  {
    hide ValidLeafFlags, CheckTable, Pages, StartsSlot, Lookup, SlotOf;
    AllInvalidIsWf(top, t);
    EmptyVerdict(top, t, 0, v, {}, from);
    UnmappedStart(top, t, v);
  }

  lemma AllInvalidIsWf(top: nat, t: seq<Entry>)
    requires |t| == ENTRIES && AllInvalid(t)
    ensures WfTable(top, t, {})
  {}

  lemma UnmappedStart(top: nat, t: seq<Entry>, v: nat)
    requires |t| == ENTRIES && AllInvalid(t) && v < 512 * Pages(top)
    ensures StartsSlot(top, t, 0, v, {}) <==> v % Pages(top) == 0
    ensures Lookup(top, t, 0, v) == None
  {
    hide Pages;
    SlotInTable(0, Pages(top), v);
    Remainder(v, Pages(top));
  }

  lemma Remainder(v: nat, p: nat)
    requires p > 0
    ensures v == v / p * p <==> v % p == 0
  {
    DivParts(v, p);
  }

  /** The first such input: no pages from page 1 on, in a new tree. */
  lemma EmptyProtectOfNewTree(top: nat, from: nat, to: nat)
    requires top > 0 && ValidLeafFlags(from) && ValidLeafFlags(to)
    ensures WfTable(top, Blank(), {})
            && PreflightOf(top, Blank(), {}, Protect(1, 0, from, to)) == Failed(NotMapped(1))
  {
    assert Pages(top) >= 512 && SlotBase(0, Pages(top), 0) == 0;
    assert CheckTable(top, Blank(), 0, 1, 1, {}, from, 0) == Ok(0);
    assert CheckTable(top, Blank(), 0, 1, 1, {}, from, 1) == Err(NotMapped(1));
    ErrorSticks(top, Blank(), 0, 1, 1, {}, from, 1, ENTRIES);
  }

  /** The tree and the supply after the plan is published. */
  function Publish(top: nat, t: seq<Entry>, shared: set<nat>, p: Plan, s: Supply): (r: EditedTable)
    requires |t| == ENTRIES && p.vpn + p.count <= 512 * Pages(top)
    ensures |r.table| == ENTRIES
  {
    match p
    case Map(_, _, _, _) => MapRun(top, t, RunOf(p), s)
    case Unmap(vpn, count) => EditTable(Remove, top, t, 0, vpn, vpn + count, shared, ENTRIES, s)
    case Protect(vpn, count, _, to) => EditTable(SetFlags(to), top, t, 0, vpn, vpn + count, shared, ENTRIES, s)
  }

  /** What the plan means for one page, whatever the shape of the tree. */
  function Meaning(p: Plan, vpn: nat, foreign: bool, was: Option<Target>): Option<Target> {
    if !(p.vpn <= vpn < p.vpn + p.count) then was
    else
      match p
      case Map(start, _, ppn, flags) => Some(Target(ppn + (vpn - start), flags))
      case Unmap(_, _) => if foreign then was else None
      case Protect(_, _, _, to) => if foreign || was.None? then was else Some(Target(was.value.ppn, to))
  }

  /** A supply that a passed preflight allows: enough tables, all encodable, nothing retired yet. */
  ghost predicate Enough(f: Preflight, s: Supply) {
    f.Fine? && f.required <= |s.frames| && s.retired == [] && Encodable(s)
  }

  /** What each kind of plan asks of the tree and of its supply. */
  ghost predicate PlanReady(top: nat, t: seq<Entry>, shared: set<nat>, p: Plan, s: Supply)
    requires |t| == ENTRIES
  {
    && Encodable(s) && p.vpn + p.count <= 512 * Pages(top)
    && match p
       case Map(_, _, _, _) => Fits(top, RunOf(p)) && RunOk(top, t, shared, RunOf(p))
         && |RunMissing(top, t, RunOf(p))| <= |s.frames|
       case Unmap(vpn, count) => TableNeed(top, t, 0, vpn, vpn + count, shared, ENTRIES) <= |s.frames|
       case Protect(vpn, count, from, to) =>
         && ValidLeafFlags(to) && CheckTable(top, t, 0, vpn, vpn + count, shared, from, ENTRIES).Ok?
         && TableNeed(top, t, 0, vpn, vpn + count, shared, ENTRIES) <= |s.frames|
  }

  lemma EnoughIsReady(top: nat, t: seq<Entry>, shared: set<nat>, p: Plan, s: Supply)
    requires |t| == ENTRIES && Enough(PreflightOf(top, t, shared, p), s)
    ensures PlanReady(top, t, shared, p, s)
  {
    if p.Protect? { TableCount(top, t, 0, p.vpn, p.vpn + p.count, shared, p.from, ENTRIES); }
  }

  lemma UnchangedAtFirst(top: nat, t: seq<Entry>)
    requires |t| == ENTRIES
    ensures Grown(top, t, t, {})
  {}

  /** Publishing changes the translation of every page exactly as the plan means, and no other way. */
  lemma PublishMeaning(top: nat, t: seq<Entry>, shared: set<nat>, p: Plan, s: Supply, vpn: nat)
    requires WfTable(top, t, shared) && Enough(PreflightOf(top, t, shared, p), s) && vpn < 512 * Pages(top)
    ensures FlatAt(top, Publish(top, t, shared, p, s).table, vpn)
         == Meaning(p, vpn, SlotOf(0, Pages(top), vpn) in shared, FlatAt(top, t, vpn))
  {
    hide EditTable, TableNeed, TableGone, RunMissing, MapRun, CheckTable, RunOk, Lookup;
    match p
    case Map(_, _, _, _) =>
      UnchangedAtFirst(top, t);
      assert RunMissing(top, t, RunOf(p)) - {} == RunMissing(top, t, RunOf(p));
      RunFlat(top, t, t, shared, {}, RunOf(p), s, vpn);
    case Unmap(start, count) =>
      TableFlat(Remove, top, t, 0, start, start + count, shared, s, vpn);
    case Protect(start, count, from, to) =>
      TableCount(top, t, 0, start, start + count, shared, from, ENTRIES);
      TableFlat(SetFlags(to), top, t, 0, start, start + count, shared, s, vpn);
  }

  /** Preflight is exact: the published plan leaves what it did not count and retires what it did. */
  lemma PublishExact(top: nat, t: seq<Entry>, shared: set<nat>, p: Plan, s: Supply)
    requires WfTable(top, t, shared) && Enough(PreflightOf(top, t, shared, p), s)
    ensures var f := PreflightOf(top, t, shared, p);
            var r := Publish(top, t, shared, p, s);
            && r.supply.frames == s.frames[..|s.frames| - f.required]
            && |r.supply.retired| == f.retired
  {
    hide EditTable, TableNeed, TableFreed, RunMissing, MapRun, CheckTable, RunOk;
    match p
    case Map(_, _, _, _) =>
      UnchangedAtFirst(top, t);
      assert RunMissing(top, t, RunOf(p)) - {} == RunMissing(top, t, RunOf(p));
      RunUse(top, t, t, shared, {}, RunOf(p), s);
    case Unmap(start, count) =>
      TableUse(Remove, top, t, 0, start, start + count, shared, ENTRIES, s);
      TableFreedExact(Remove, top, t, 0, start, start + count, shared, ENTRIES, s);
    case Protect(start, count, from, to) =>
      TableCount(top, t, 0, start, start + count, shared, from, ENTRIES);
      TableUse(SetFlags(to), top, t, 0, start, start + count, shared, ENTRIES, s);
      TableFreedExact(SetFlags(to), top, t, 0, start, start + count, shared, ENTRIES, s);
  }

  /** Every table frame is in the tree, unused or retired, as often as before. */
  lemma PublishLinks(top: nat, t: seq<Entry>, shared: set<nat>, p: Plan, s: Supply, f: nat)
    requires WfTable(top, t, shared) && Enough(PreflightOf(top, t, shared, p), s)
    ensures LinksKept(t, s, Publish(top, t, shared, p, s), shared, f)
  {
    match p
    case Map(_, _, _, _) => MapLinks(top, t, shared, RunOf(p), s, f);
    case Unmap(start, count) => EditLinks(Remove, top, t, shared, start, start + count, s, f);
    case Protect(start, count, _, to) => EditLinks(SetFlags(to), top, t, shared, start, start + count, s, f);
  }

  lemma MapLinks(top: nat, t: seq<Entry>, shared: set<nat>, r: Run, s: Supply, f: nat)
    requires |t| == ENTRIES && r.end <= 512 * Pages(top) && RunOk(top, t, shared, r)
             && |RunMissing(top, t, r)| <= |s.frames|
    ensures LinksKept(t, s, MapRun(top, t, r, s), shared, f)
  {
    UnchangedAtFirst(top, t);
    assert RunMissing(top, t, r) - {} == RunMissing(top, t, r);
    RunLinks(top, t, t, shared, {}, r, s, f);
  }

  lemma EditLinks(op: Edit, top: nat, t: seq<Entry>, shared: set<nat>, lo: nat, hi: nat, s: Supply, f: nat)
    requires |t| == ENTRIES
    ensures LinksKept(t, s, EditTable(op, top, t, 0, lo, hi, shared, ENTRIES, s), shared, f)
  {
    TableLinksKept(op, top, t, 0, lo, hi, shared, ENTRIES, s, f);
  }

  predicate LinksKept(t: seq<Entry>, s: Supply, r: EditedTable, shared: set<nat>, f: nat)
    requires |t| == ENTRIES && |r.table| == ENTRIES
  {
    TableLinks(r.table, shared, ENTRIES, f) + Held(r.supply, f) == TableLinks(t, shared, ENTRIES, f) + Held(s, f)
  }

  lemma PublishWf(top: nat, t: seq<Entry>, shared: set<nat>, p: Plan, s: Supply)
    requires WfTable(top, t, shared) && Enough(PreflightOf(top, t, shared, p), s)
    ensures WfTable(top, Publish(top, t, shared, p, s).table, shared)
  {
    match p
    case Map(_, _, _, _) =>
      UnchangedAtFirst(top, t);
      assert RunMissing(top, t, RunOf(p)) - {} == RunMissing(top, t, RunOf(p));
      RunWf(top, t, t, shared, {}, RunOf(p), s);
    case Unmap(start, count) =>
      TableWf(Remove, top, t, 0, start, start + count, shared, s);
    case Protect(start, count, from, to) =>
      TableCount(top, t, 0, start, start + count, shared, from, ENTRIES);
      TableWf(SetFlags(to), top, t, 0, start, start + count, shared, s);
  }

  /** Entries that belong to someone else are never altered. */
  lemma PublishKeepsShared(top: nat, t: seq<Entry>, shared: set<nat>, p: Plan, s: Supply, i: nat)
    requires WfTable(top, t, shared) && Enough(PreflightOf(top, t, shared, p), s) && i < ENTRIES && i in shared
    ensures Publish(top, t, shared, p, s).table[i] == t[i]
  {
    match p
    case Map(_, _, _, _) =>
      RunKeepsShared(top, t, t, shared, RunOf(p), s, i);
    case Unmap(start, count) =>
      SlotAfter(Remove, top, t, 0, start, start + count, shared, i, ENTRIES, s);
    case Protect(start, count, from, to) =>
      SlotAfter(SetFlags(to), top, t, 0, start, start + count, shared, i, ENTRIES, s);
  }

  lemma {:induction false} RunKeepsShared(top: nat, t0: seq<Entry>, t: seq<Entry>, shared: set<nat>, r: Run, s: Supply,
                                          i: nat)
    requires |t0| == ENTRIES && |t| == ENTRIES && r.end <= 512 * Pages(top) && RunOk(top, t0, shared, r) && i < ENTRIES
             && i in shared
    ensures MapRun(top, t, r, s).table[i] == t[i]
    decreases r.end - r.vpn
  {
    if r.vpn < r.end {
      var u := MapTable(top, t, 0, First(top, r), s);
      RunKeepsShared(top, t0, u.table, shared, Rest(top, r), u.supply, i);
    }
  }

  /** A run that finds its place stays out of the shared slots. */
  lemma {:induction false} RunNotShared(top: nat, t: seq<Entry>, shared: set<nat>, r: Run, vpn: nat)
    requires |t| == ENTRIES && r.end <= 512 * Pages(top) && RunOk(top, t, shared, r) && r.vpn <= vpn < r.end
    ensures SlotOf(0, Pages(top), vpn) !in shared
    decreases r.end - r.vpn
  {
    var g := First(top, r);
    if vpn < Rest(top, r).vpn {
      FirstInTable(top, r);
      SegSlot(top, 0, g);
      SlotUnique(0, Pages(top), vpn, SlotOf(0, Pages(top), g.vpn));
    } else {
      RunNotShared(top, t, shared, Rest(top, r), vpn);
    }
  }

  /** Mapping a free run and removing it again restores every translation. */
  lemma MapThenUnmap(top: nat, t: seq<Entry>, mid: seq<Entry>, shared: set<nat>, p: Plan, s: Supply, s2: Supply,
                     vpn: nat)
    requires p.Map? && WfTable(top, t, shared) && Enough(PreflightOf(top, t, shared, p), s) && vpn < 512 * Pages(top)
    requires p.vpn <= vpn < p.vpn + p.count ==> FlatAt(top, t, vpn) == None
    requires mid == Publish(top, t, shared, p, s).table
             && Enough(PreflightOf(top, mid, shared, Unmap(p.vpn, p.count)), s2)
    ensures FlatAt(top, Publish(top, mid, shared, Unmap(p.vpn, p.count), s2).table, vpn) == FlatAt(top, t, vpn)
  {
    PublishWf(top, t, shared, p, s);
    assert FlatAt(top, mid, vpn)
           == Meaning(p, vpn, false, FlatAt(top, t, vpn)) by { PublishMeaning(top, t, shared, p, s, vpn); }
    PublishMeaning(top, mid, shared, Unmap(p.vpn, p.count), s2, vpn);
    if p.vpn <= vpn < p.vpn + p.count { RunNotShared(top, t, shared, RunOf(p), vpn); }
  }
}
