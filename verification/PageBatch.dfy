/** Several plans prepared against one tree and published one after the other. */
module PageBatch {
  import opened Pte
  import opened PageTree
  import opened PageTreeEdit
  import opened PageTreeMap
  import opened PageTreeRun
  import opened PageCheck
  import opened PagePlan

  predicate Clear(p: Plan, q: Plan) { p.vpn + p.count <= q.vpn || q.vpn + q.count <= p.vpn }

  /** Only maps, or only protections. */
  predicate Alike(p: Plan, q: Plan) { (p.Map? && q.Map?) || (p.Protect? && q.Protect?) }

  // ---- two maps ----------------------------------------------------------------------------------------

  lemma {:induction false} RunLeavesOk(top: nat, t: seq<Entry>, shared: set<nat>, r: Run, q: Run, s: Supply)
    requires |t| == ENTRIES && r.end <= 512 * Pages(top) && q.end <= 512 * Pages(top)
             && (r.end <= q.vpn || q.end <= r.vpn)
    requires RunOk(top, t, shared, r) && |RunMissing(top, t, r)| <= |s.frames| && RunOk(top, t, shared, q)
    ensures RunOk(top, MapRun(top, t, r, s).table, shared, q)
    ensures RunMissing(top, MapRun(top, t, r, s).table, q) <= RunMissing(top, t, q)
    decreases r.end - r.vpn
  {
    if r.vpn < r.end {
      hide MapTable, RunMissing, TableLacks, Grown, Has, RunOk;
      var g := First(top, r);
      FreshStart(top, t, r);
      RunStep(top, t, t, shared, {}, r, s);
      var u := MapTable(top, t, 0, g, s);
      KeepsRunOk(top, t, shared, g, q, s);
      MissingShrinks(top, t, u.table, {} + PathKeys(top, g), q);
      RestMissing(top, t, u.table, {} + PathKeys(top, g), Rest(top, r));
      RunLeavesOk(top, u.table, shared, Rest(top, r), q, u.supply);
      MapRunStep(top, t, r, s);
    } else {
      MapRunStep(top, t, r, s);
    }
  }

  lemma FreshStart(top: nat, t: seq<Entry>, r: Run)
    requires |t| == ENTRIES && r.end <= 512 * Pages(top)
    ensures Grown(top, t, t, {}) && RunMissing(top, t, r) - {} == RunMissing(top, t, r)
  {
    UnchangedAtFirst(top, t);
  }

  lemma MapRunStep(top: nat, t: seq<Entry>, r: Run, s: Supply)
    requires |t| == ENTRIES && r.end <= 512 * Pages(top)
    ensures r.vpn >= r.end ==> MapRun(top, t, r, s).table == t
    ensures r.vpn < r.end ==> var u := MapTable(top, t, 0, First(top, r), s);
            MapRun(top, t, r, s) == MapRun(top, u.table, Rest(top, r), u.supply)
  {}

  /** In a grown tree no more tables are missing. */
  lemma {:induction false} MissingShrinks(top: nat, t: seq<Entry>, u: seq<Entry>, made: set<(nat, nat)>, q: Run)
    requires |t| == ENTRIES && |u| == ENTRIES && q.end <= 512 * Pages(top) && Grown(top, t, u, made)
    ensures RunMissing(top, u, q) <= RunMissing(top, t, q)
    decreases q.end - q.vpn
  {
    if q.vpn < q.end {
      MissingShrinks(top, t, u, made, Rest(top, q));
      var g := First(top, q);
      forall k | k in SegMissing(top, u, g) ensures k in SegMissing(top, t, g) {
        var l: nat :| g.level <= l < top && !Has(top, u, 0, g.vpn, l) && k == Key(l, g.vpn);
        assert !Has(top, t, 0, g.vpn, l);
      }
    }
  }

  /** What a grown tree still lacks is what was lacking and has not been made. */
  lemma {:induction false} RestMissing(top: nat, t: seq<Entry>, u: seq<Entry>, made: set<(nat, nat)>, q: Run)
    requires |t| == ENTRIES && |u| == ENTRIES && q.end <= 512 * Pages(top) && Grown(top, t, u, made)
    ensures RunMissing(top, u, q) == RunMissing(top, t, q) - made
    decreases q.end - q.vpn
  {
    if q.vpn < q.end {
      RestMissing(top, t, u, made, Rest(top, q));
      var g := First(top, q);
      forall k ensures k in SegMissing(top, u, g) <==> k in SegMissing(top, t, g) && k !in made {
        if k in SegMissing(top, u, g) {
          var l: nat :| g.level <= l < top && !Has(top, u, 0, g.vpn, l) && k == Key(l, g.vpn);
          assert !Has(top, t, 0, g.vpn, l);
        }
        if k in SegMissing(top, t, g) && k !in made {
          var l: nat :| g.level <= l < top && !Has(top, t, 0, g.vpn, l) && k == Key(l, g.vpn);
          assert !Has(top, u, 0, g.vpn, l);
        }
      }
    } else {
      assert RunMissing(top, u, q) == {};
    }
  }

  // ---- two protections ---------------------------------------------------------------------------------

  /** Cutting a leaf for one range leaves no more to cut for a range clear of it. */
  lemma {:induction false} EntryNeedAfter(level: nat, e: Entry, b: nat, lo: nat, hi: nat, to: nat, s: Supply, lo2: nat,
                                          hi2: nat)
    requires lo <= hi && lo2 <= hi2 && (hi <= lo2 || hi2 <= lo)
    ensures Need(level, EditEntry(SetFlags(to), level, e, b, lo, hi, s).entry, b, lo2, hi2) <= Need(level, e, b, lo2,
        hi2)
    decreases level, 0
  {
    if Outside(b, Pages(level), lo, hi) { return; }
    if e.Leaf? && !Covered(b, Pages(level), lo, hi) && level > 0 && |s.frames| > 0 {
      TableNeedAfter(level - 1, Split(level, e.ppn, e.flags), b, lo, hi, {}, to, ENTRIES, Pop(s), lo2, hi2);
      SplitNeed(level, e.ppn, e.flags, b, lo2, hi2, ENTRIES);
    } else if e.Branch? && level > 0 && |e.table| == ENTRIES {
      TableNeedAfter(level - 1, e.table, b, lo, hi, {}, to, ENTRIES, s, lo2, hi2);
    }
  }

  lemma {:induction false} TableNeedAfter(level: nat, t: seq<Entry>, base: nat, lo: nat, hi: nat, shared: set<nat>,
                                          to: nat, n: nat, s: Supply, lo2: nat, hi2: nat)
    requires |t| == ENTRIES && n <= ENTRIES && lo <= hi && lo2 <= hi2 && (hi <= lo2 || hi2 <= lo)
    ensures var u := EditTable(SetFlags(to), level, t, base, lo, hi, shared, ENTRIES, s).table;
            |u| == ENTRIES
                && TableNeed(level, u, base, lo2, hi2, shared, n) <= TableNeed(level, t, base, lo2, hi2, shared, n)
    decreases level, 1, n
  {
    if n > 0 {
      TableNeedAfter(level, t, base, lo, hi, shared, to, n - 1, s, lo2, hi2);
      var i := n - 1;
      SlotAfter(SetFlags(to), level, t, base, lo, hi, shared, i, ENTRIES, s);
      if i !in shared {
        var before := EditTable(SetFlags(to), level, t, base, lo, hi, shared, i, s).supply;
        EntryNeedAfter(level, t[i], SlotBase(base, Pages(level), i), lo, hi, to, before, lo2, hi2);
      }
    }
  }

  /** A slot that starts with a page still does after an edit, and one does where an edit starts. */
  lemma {:induction false} EntryStarts(level: nat, e: Entry, b: nat, lo: nat, hi: nat, to: nat, s: Supply, v: nat)
    requires WfEntry(level, e) && Need(level, e, b, lo, hi) <= |s.frames| && b <= v < b + Pages(level)
    requires FirstOfSlot(level, e, b, v, false) || (v == lo < hi && Flat(level, e, b, v).Some?)
    ensures FirstOfSlot(level, EditEntry(SetFlags(to), level, e, b, lo, hi, s).entry, b, v, false)
    decreases level, 0
  {
    if v == b || Outside(b, Pages(level), lo, hi) || e.Invalid? { return; }
    if e.Leaf? {
      SplitNeed(level, e.ppn, e.flags, b, lo, hi, ENTRIES);
      SplitWf(level, e.ppn, e.flags);
      SplitFlat(level, e.ppn, e.flags, b, v);
      TableStarts(level - 1, Split(level, e.ppn, e.flags), b, lo, hi, {}, to, Pop(s), v);
    } else {
      TableStarts(level - 1, e.table, b, lo, hi, {}, to, s, v);
    }
  }

  lemma {:induction false} TableStarts(level: nat, t: seq<Entry>, base: nat, lo: nat, hi: nat, shared: set<nat>,
                                       to: nat, s: Supply, v: nat)
    requires WfTable(level, t, shared) && TableNeed(level, t, base, lo, hi, shared, ENTRIES) <= |s.frames|
    requires base <= v < base + 512 * Pages(level)
    requires StartsSlot(level, t, base, v, shared)
             || (v == lo < hi && SlotOf(base, Pages(level), v) !in shared && Forget(Lookup(level, t, base, v)).Some?)
    ensures StartsSlot(level, EditTable(SetFlags(to), level, t, base, lo, hi, shared, ENTRIES, s).table, base, v,
                       shared)
    decreases level, 1
  {
    SlotInTable(base, Pages(level), v);
    var i := SlotOf(base, Pages(level), v);
    SlotAfter(SetFlags(to), level, t, base, lo, hi, shared, i, ENTRIES, s);
    if i !in shared {
      NeedMono(level, t, base, lo, hi, shared, i, ENTRIES);
      TableUse(SetFlags(to), level, t, base, lo, hi, shared, i, s);
      var r := EditTable(SetFlags(to), level, t, base, lo, hi, shared, i, s);
      EntryStarts(level, t[i], SlotBase(base, Pages(level), i), lo, hi, to, r.supply, v);
    }
  }

  /** The same for a protection of no pages, which looks at the page it starts with. */
  lemma EmptyStaysOk(top: nat, t: seq<Entry>, shared: set<nat>, p: Plan, q: Plan, s: Supply)
    requires p.Protect? && q.Protect? && q.count == 0 && Clear(p, q) && |t| == ENTRIES && WfTable(top, t, shared)
    requires Enough(PreflightOf(top, t, shared, p), s)
    requires PreflightOf(top, t, shared, q).Fine?
    ensures CheckTable(top, Publish(top, t, shared, p, s).table, 0, q.vpn, q.vpn, shared, q.from, ENTRIES).Ok?
  {
    hide EditTable, CheckTable, WfTable, TableNeed, Lookup, StartsSlot, ValidLeafFlags;
    var u, v := Publish(top, t, shared, p, s).table, q.vpn;
    PublishWf(top, t, shared, p, s);
    EnoughIsReady(top, t, shared, p, s);
    if v == 512 * Pages(top) {
      EmptyAtEnd(top, u, 0, shared, q.from, ENTRIES);
    } else {
      EmptyVerdict(top, t, 0, v, shared, q.from);
      EmptyVerdict(top, u, 0, v, shared, q.from);
      PublishMeaning(top, t, shared, p, s, v);
      if StartsSlot(top, t, 0, v, shared) || (p.vpn == v && p.count > 0) {
        TableStarts(top, t, 0, p.vpn, p.vpn + p.count, shared, p.to, s, v);
      }
    }
  }

  /** A protection that passes its check still passes it after one clear of it. */
  lemma ProtectStaysOk(top: nat, t: seq<Entry>, shared: set<nat>, p: Plan, q: Plan, s: Supply)
    requires p.Protect? && q.Protect? && Clear(p, q) && |t| == ENTRIES && WfTable(top, t, shared)
    requires Enough(PreflightOf(top, t, shared, p), s)
    requires PreflightOf(top, t, shared, q).Fine?
    ensures CheckTable(top, Publish(top, t, shared, p, s).table, 0, q.vpn, q.vpn + q.count, shared, q.from, ENTRIES).Ok?
  {
    hide EditTable, CheckTable, WfTable, TableNeed, Lookup;
    if q.count == 0 { EmptyStaysOk(top, t, shared, p, q, s); return; }
    var u := Publish(top, t, shared, p, s).table;
    PublishWf(top, t, shared, p, s);
    var c := CheckTable(top, u, 0, q.vpn, q.vpn + q.count, shared, q.from, ENTRIES);
    if c.Err? {
      WholeTable(top);
      TableVerdict(top, u, 0, q.vpn, q.vpn + q.count, shared, q.from, ENTRIES, 0);
      var x := c.error.vpn;
      TableVerdict(top, t, 0, q.vpn, q.vpn + q.count, shared, q.from, ENTRIES, x);
      PublishMeaning(top, t, shared, p, s, x);
    }
  }

  lemma WholeTable(top: nat)
    ensures SlotBase(0, Pages(top), ENTRIES) == 512 * Pages(top)
  {}

  // ---- any number --------------------------------------------------------------------------------------

  /**
    A plan prepared against a tree is still good, with the tables it has, after one like it and clear of it is
    published.
  */
  lemma StaysReady(top: nat, t: seq<Entry>, shared: set<nat>, p: Plan, q: Plan, s: Supply, sq: Supply)
    requires |t| == ENTRIES && WfTable(top, t, shared)
    requires Enough(PreflightOf(top, t, shared, p), s) && Enough(PreflightOf(top, t, shared, q), sq)
    requires Alike(p, q) && Clear(p, q)
    ensures Enough(PreflightOf(top, Publish(top, t, shared, p, s).table, shared, q), sq)
  {
    if p.Map? { MapStaysReady(top, t, shared, p, q, s, sq); } else { ProtectStaysReady(top, t, shared, p, q, s, sq); }
  }

  lemma MapStaysReady(top: nat, t: seq<Entry>, shared: set<nat>, p: Plan, q: Plan, s: Supply, sq: Supply)
    requires |t| == ENTRIES && p.Map? && q.Map? && Clear(p, q)
    requires Enough(PreflightOf(top, t, shared, p), s) && Enough(PreflightOf(top, t, shared, q), sq)
    ensures Enough(PreflightOf(top, Publish(top, t, shared, p, s).table, shared, q), sq)
  {
    hide MapRun, RunMissing, RunOk;
    RunLeavesOk(top, t, shared, RunOf(p), RunOf(q), s);
    FewerOf(RunMissing(top, MapRun(top, t, RunOf(p), s).table, RunOf(q)), RunMissing(top, t, RunOf(q)));
  }

  lemma ProtectStaysReady(top: nat, t: seq<Entry>, shared: set<nat>, p: Plan, q: Plan, s: Supply, sq: Supply)
    requires |t| == ENTRIES && WfTable(top, t, shared) && p.Protect? && q.Protect? && Clear(p, q)
    requires Enough(PreflightOf(top, t, shared, p), s) && Enough(PreflightOf(top, t, shared, q), sq)
    ensures Enough(PreflightOf(top, Publish(top, t, shared, p, s).table, shared, q), sq)
  {
    hide EditTable, CheckTable, WfTable, TableNeed;
    var u := Publish(top, t, shared, p, s).table;
    ProtectStaysOk(top, t, shared, p, q, s);
    TableNeedAfter(top, t, 0, p.vpn, p.vpn + p.count, shared, p.to, ENTRIES, s, q.vpn, q.vpn + q.count);
    TableCount(top, t, 0, q.vpn, q.vpn + q.count, shared, q.from, ENTRIES);
    TableCount(top, u, 0, q.vpn, q.vpn + q.count, shared, q.from, ENTRIES);
  }

  lemma FewerOf(a: set<(nat, nat)>, b: set<(nat, nat)>)
    requires a <= b
    ensures |a| <= |b|
  {
    assert b == a + (b - a);
  }

  /** Plans all prepared against `t`, of one kind and clear of one another. */
  ghost predicate Batch(top: nat, t: seq<Entry>, shared: set<nat>, ps: seq<Plan>, ss: seq<Supply>)
    requires |t| == ENTRIES
  {
    && |ps| == |ss|
    && (forall i :: 0 <= i < |ps| ==> Enough(PreflightOf(top, t, shared, ps[i]), ss[i]))
    && (forall i, j :: 0 <= i < j < |ps| ==> Alike(ps[i], ps[j]) && Clear(ps[i], ps[j]))
  }

  function PublishAll(top: nat, t: seq<Entry>, shared: set<nat>, ps: seq<Plan>, ss: seq<Supply>): (r: seq<Entry>)
    requires |t| == ENTRIES && |ps| == |ss| && forall i :: 0 <= i < |ps| ==> ps[i].vpn + ps[i].count <= 512 * Pages(top)
    ensures |r| == ENTRIES
    decreases |ps|
  {
    if ps == [] then t else PublishAll(top, Publish(top, t, shared, ps[0], ss[0]).table, shared, ps[1..], ss[1..])
  }

  predicate Touches(p: Plan, vpn: nat) { p.vpn <= vpn < p.vpn + p.count }

  lemma InRange(top: nat, t: seq<Entry>, shared: set<nat>, ps: seq<Plan>, ss: seq<Supply>)
    requires |t| == ENTRIES && Batch(top, t, shared, ps, ss)
    ensures |ps| == |ss| && forall i :: 0 <= i < |ps| ==> ps[i].vpn + ps[i].count <= 512 * Pages(top)
  {
    hide CheckTable, FirstConflict, TableNeed, RunMissing;
    forall i | 0 <= i < |ps|
      ensures ps[i].vpn + ps[i].count <= 512 * Pages(top)
    {
      assert Enough(PreflightOf(top, t, shared, ps[i]), ss[i]);
    }
  }

  lemma BatchStep(top: nat, t: seq<Entry>, shared: set<nat>, ps: seq<Plan>, ss: seq<Supply>)
    requires |t| == ENTRIES && WfTable(top, t, shared) && Batch(top, t, shared, ps, ss) && ps != []
    ensures Enough(PreflightOf(top, t, shared, ps[0]), ss[0]) && ps[0].vpn + ps[0].count <= 512 * Pages(top)
    ensures var u := Publish(top, t, shared, ps[0], ss[0]).table;
            WfTable(top, u, shared) && Batch(top, u, shared, ps[1..], ss[1..])
  {
    hide PreflightOf, Publish, WfTable, Enough;
    InRange(top, t, shared, ps, ss);
    var u := Publish(top, t, shared, ps[0], ss[0]).table;
    PublishWf(top, t, shared, ps[0], ss[0]);
    forall i | 0 <= i < |ps[1..]| ensures Enough(PreflightOf(top, u, shared, ps[1..][i]), ss[1..][i]) {
      StaysReady(top, t, shared, ps[0], ps[i + 1], ss[0], ss[i + 1]);
    }
  }

  /**
    Published one after the other, in whatever order they stand, such plans do what each of them means, and nothing
    else.
  */
  lemma {:induction false} BatchMeaning(top: nat, t: seq<Entry>, shared: set<nat>, ps: seq<Plan>, ss: seq<Supply>,
                                        vpn: nat)
    requires |t| == ENTRIES && WfTable(top, t, shared) && Batch(top, t, shared, ps, ss) && vpn < 512 * Pages(top)
    ensures |ps| == |ss| && (forall i :: 0 <= i < |ps| ==> ps[i].vpn + ps[i].count <= 512 * Pages(top))
    ensures WfTable(top, PublishAll(top, t, shared, ps, ss), shared)
    ensures var foreign, was, now := SlotOf(0, Pages(top), vpn) in shared, FlatAt(top, t, vpn),
            FlatAt(top, PublishAll(top, t, shared, ps, ss), vpn);
            && (forall i :: 0 <= i < |ps| && Touches(ps[i], vpn) ==> now == Meaning(ps[i], vpn, foreign, was))
            && ((forall i :: 0 <= i < |ps| ==> !Touches(ps[i], vpn)) ==> now == was)
    decreases |ps|
  {
    hide PreflightOf, Publish, WfTable, Enough, Batch, FlatAt;
    InRange(top, t, shared, ps, ss);
    if ps != [] {
      BatchStep(top, t, shared, ps, ss);
      var u := Publish(top, t, shared, ps[0], ss[0]).table;
      BatchMeaning(top, u, shared, ps[1..], ss[1..], vpn);
      PublishMeaning(top, t, shared, ps[0], ss[0], vpn);
      FirstApart(top, t, shared, ps, ss, vpn);
      assert forall i :: 1 <= i < |ps| ==> ps[i] == ps[1..][i - 1];
      forall i | 0 <= i < |ps| && Touches(ps[i], vpn)
        ensures FlatAt(top, PublishAll(top, t, shared, ps, ss), vpn)
                == Meaning(ps[i], vpn, SlotOf(0, Pages(top), vpn) in shared, FlatAt(top, t, vpn))
      {
        if i > 0 { assert Touches(ps[1..][i - 1], vpn); }
      }
    }
  }

  /** A page the first plan touches is touched by no other. */
  lemma FirstApart(top: nat, t: seq<Entry>, shared: set<nat>, ps: seq<Plan>, ss: seq<Supply>, vpn: nat)
    requires |t| == ENTRIES && Batch(top, t, shared, ps, ss) && ps != []
    ensures Touches(ps[0], vpn) ==> forall i :: 0 <= i < |ps[1..]| ==> !Touches(ps[1..][i], vpn)
  {
    hide PreflightOf;
    if Touches(ps[0], vpn) {
      forall i | 0 <= i < |ps[1..]| ensures !Touches(ps[1..][i], vpn) { assert Clear(ps[0], ps[i + 1]); }
    }
  }
}
