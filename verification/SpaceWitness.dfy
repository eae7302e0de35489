/** A run that reaches the state in which a reserved change can never commit: map, unmap twice, commit once. */
module SpaceWitness {
  import opened Wrappers
  import opened SpaceLedger
  import opened SpacePieces
  import opened SpaceState
  import opened SpaceCommit
  import opened SpaceReserve
  import opened SpaceShared
  import opened SpaceMap
  import opened WriteXorExecute

  ghost predicate RunsTo(ws: seq<World>, steps: seq<Step>, w: World) { Run(ws, steps) && ws[|steps|] == w }

  /** Some run from the empty world ends in `w`. */
  ghost predicate Reached(w: World) { exists ws, steps :: RunsTo(ws, steps, w) }

  lemma Begin()
    ensures Reached(EmptyWorld())
  {
    assert RunsTo([EmptyWorld()], [], EmptyWorld());
  }

  lemma ReachedOk(w: World)
    requires Reached(w)
    ensures WorldOk(w) && |w.tokens| == |w.spaces|
  {
    hide WorldOk, Run;
    var ws, steps :| RunsTo(ws, steps, w);
    RunKeeps(ws, steps, |steps|);
    WorldSizes(w);
  }

  lemma WorldSizes(w: World)
    requires WorldOk(w)
    ensures |w.tokens| == |w.spaces|
  {}

  /** One more step. */
  lemma Go(w: World, st: Step)
    requires Reached(w) && |w.tokens| == |w.spaces| && Enabled(w, st)
    ensures Reached(After(w, st))
  {
    hide Enabled, After;
    var ws, steps :| RunsTo(ws, steps, w);
    var ws', steps' := ws + [After(w, st)], steps + [st];
    forall k | 0 <= k < |steps'| ensures Follows(ws', steps', k) {
      if k < |steps| { assert Follows(ws, steps, k); }
    }
    assert RunsTo(ws', steps', After(w, st));
  }

  // ---- steps of a world with one space -----------------------------------------------------------------

  ghost predicate With(w: World, s: Space) { Reached(w) && w.spaces == [s] && |w.tokens| == 1 && Inv(s) }

  lemma IsWith(w: World, s: Space)
    requires Reached(w) && w.spaces == [s]
    ensures With(w, s)
  {
    hide Inv, Reached;
    ReachedOk(w);
    assert Inv(w.spaces[0]);
  }

  lemma GoValidate(w: World, s: Space, v: Validated) returns (w': World)
    requires With(w, s) && ValidatedOk(s.deeds, s.bounds, v) && v.view == None
    ensures With(w', s) && w'.plans == w.plans + {(0, v)}
  {
    hide Inv, ValidatedOk, Reached;
    Go(w, Validate(0, v));
    w' := After(w, Validate(0, v));
    IsWith(w', s);
  }

  lemma GoReserve(w: World, s: Space, v: Validated) returns (w': World)
    requires With(w, s) && (0, v) in w.plans && Refusal(s, v, []) == None
    ensures With(w', ReserveOf(s, v)) && w'.plans == w.plans
  {
    hide Inv, Refusal, Reached, ReserveOf;
    Go(w, DoReserve(0, v, []));
    w' := After(w, DoReserve(0, v, []));
    IsWith(w', ReserveOf(s, v));
  }

  lemma GoCommit(w: World, s: Space, p: Prepared) returns (w': World)
    requires With(w, s) && IsToken(s, p) && Known(s.deeds, p.remove) && CanCommit(s, p)
    ensures With(w', CommitOf(s, p)) && w'.plans == w.plans
  {
    hide Inv, CanCommit, Reached, CommitOf, Position, Known;
    Go(w, DoCommit(0, p));
    w' := After(w, DoCommit(0, p));
    IsWith(w', CommitOf(s, p));
  }

  lemma OnlyRecord(t: Record)
    ensures Position([t], t.key, t.stage) == Some(0)
  {
    assert [t][..0] == [];
  }

  /** The one change in flight moves on. */
  lemma GoAdvance(w: World, s: Space, t: Record, to: Stage) returns (w': World)
    requires With(w, s) && s.transactions == [t]
             && (t.stage, to) in {(Committed, Stage.Published), (Stage.Published, Synchronized),
                                  (Synchronized, Retiring), (Retiring, Retired)}
    ensures With(w', s.(transactions := [t.(stage := to)])) && w'.plans == w.plans
  {
    hide Inv, Reached, Position;
    OnlyRecord(t);
    var st := if t.stage == Synchronized then DoRetire(0, t.key) else DoAdvance(0, t.key, t.stage, to);
    Go(w, st);
    w' := After(w, st);
    assert [t][0 := t.(stage := to)] == [t.(stage := to)];
    assert w'.spaces == [s.(transactions := [t.(stage := to)])];
    IsWith(w', s.(transactions := [t.(stage := to)]));
  }

  lemma GoComplete(w: World, s: Space, t: Record) returns (w': World)
    requires With(w, s) && s.transactions == [t] && t.stage == Retired
    ensures With(w', s.(transactions := [])) && w'.plans == w.plans
  {
    hide Inv, Reached, Position;
    OnlyRecord(t);
    Go(w, DoComplete(0, t.key));
    w' := After(w, DoComplete(0, t.key));
    assert [t][..0] + [t][1..] == [];
    assert w'.spaces == [s.(transactions := [])];
    IsWith(w', s.(transactions := []));
  }

  // ---- the run -----------------------------------------------------------------------------------------

  /** Three anonymous writable pages at the bottom of the space. */
  function Request(): MapRequest {
    MapRequest(12288, 0, 0, FixedEmpty(0), ReadWrite, ReadWrite, AddressSpace, AnonymousBacking(1, false), None)
  }

  function MapPages(): Validated { MapChange(Request(), Range(0, 12288), Range(0, 12288), [], None) }

  lemma MapPagesOk()
    ensures ValidatedOk(map[], BOUNDS, MapPages()) && MapPages().view == None
    ensures Refusal(EmptySpace(BOUNDS, LIMITS), MapPages(), []) == None
  {
    var all := Range(0, 12288);
    MapValid(map[], BOUNDS, Request(), all, all, [], None);
    hide ValidatedOk;
    var ts := MapPages().plan.replacements;
    assert ts == [NewTemplate(all, AddressSpace, MapKind(Request()))];
    assert Writes(TemplateBodies(ts)) == [] by { assert TemplateBodies(ts)[..0] == []; }
  }

  /** What reserving and committing it leaves. */
  lemma MapPagesLeaves()
    ensures var s := EmptySpace(BOUNDS, LIMITS);
            var s1, p := ReserveOf(s, MapPages()), PreparedFrom(s, MapPages());
            && IsToken(s1, p) && Known(s1.deeds, p.remove)
            && var s2 := CommitOf(s1, p);
            && s2.bounds == BOUNDS && s2.limits == LIMITS && s2.regions == [MappedRegion()] && s2.reservedGrowth == 0
            && |s2.transactions| == 1 && s2.transactions[0].stage == Committed
  {
    var s := EmptySpace(BOUNDS, LIMITS);
    var s1, p := ReserveOf(s, MapPages()), PreparedFrom(s, MapPages());
    assert MapPages().plan.replacements == [NewTemplate(Range(0, 12288), AddressSpace, MapKind(Request()))];
    assert p.replacements == [MappedRegion()];
    OnlyRecord(s1.transactions[0]);
    var rs := Taken([], [], 0) + [MappedRegion()];
    assert rs[..0] == [];
    assert SortBy(rs, RegionStart) == [MappedRegion()];
  }

  /** Some run has the space with one mapping and nothing in flight. */
  lemma ReachMapped() returns (w: World, s: Space)
    ensures With(w, s) && JustMapped(s)
  {
    hide Inv, ValidatedOk, Refusal, CanCommit, Reached, CommitOf, ReserveOf, PreparedFrom, MapPages, Known, Position;
    var s0, v := EmptySpace(BOUNDS, LIMITS), MapPages();
    Begin();
    Go(EmptyWorld(), NewSpace(BOUNDS, LIMITS));
    w := After(EmptyWorld(), NewSpace(BOUNDS, LIMITS));
    IsWith(w, s0);
    MapPagesOk();
    MapPagesLeaves();
    w := GoValidate(w, s0, v);
    w := GoReserve(w, s0, v);
    ReservedCanCommit(s0, v, []);
    var p := PreparedFrom(s0, v);
    w := GoCommit(w, ReserveOf(s0, v), p);
    s := CommitOf(ReserveOf(s0, v), p);
    var t := s.transactions[0];
    assert s.transactions == [t];
    w := GoAdvance(w, s, t, Stage.Published);
    s, t := s.(transactions := [t.(stage := Stage.Published)]), t.(stage := Stage.Published);
    w := GoAdvance(w, s, t, Synchronized);
    s, t := s.(transactions := [t.(stage := Synchronized)]), t.(stage := Synchronized);
    w := GoAdvance(w, s, t, Retiring);
    s, t := s.(transactions := [t.(stage := Retiring)]), t.(stage := Retiring);
    w := GoAdvance(w, s, t, Retired);
    s, t := s.(transactions := [t.(stage := Retired)]), t.(stage := Retired);
    w := GoComplete(w, s, t);
    s := s.(transactions := []);
  }

  /** In some run from the empty world a reserved change is in flight that cannot commit. */
  lemma TwoUnmapsInARun() returns (w: World, a: nat)
    ensures Reached(w) && |w.spaces| == 1 && a in w.spaces[0].pending
            && !CanCommit(w.spaces[0], w.spaces[0].pending[a])
  {
    hide Inv, ValidatedOk, Refusal, CanCommit, Reached, CommitOf, ReserveOf, PreparedFrom, UnmapPart, Known, Position;
    var s;
    w, s := ReachMapped();
    TwoUnmapsOfOneMapping(s);
    var v, u := UnmapPart(s, Range(0, 4096)), UnmapPart(s, Range(8192, 12288));
    UnmapFootprint(s, Range(0, 4096));
    UnmapFootprint(s, Range(8192, 12288));
    w := GoValidate(w, s, v);
    w := GoValidate(w, s, u);
    w := GoReserve(w, s, v);
    var s1 := ReserveOf(s, v);
    w := GoReserve(w, s1, u);
    var s2, p, q := ReserveOf(s1, u), PreparedFrom(s, v), PreparedFrom(s1, u);
    BothInFlight(s, v, u);
    w := GoCommit(w, s2, p);
    a := q.key;
  }

  lemma BothInFlight(s: Space, v: Validated, u: Validated)
    requires Inv(s) && Inv(ReserveOf(s, v)) && Inv(ReserveOf(ReserveOf(s, v), u)) && JustMapped(s)
             && v.plan.remove == [1]
    ensures var s1 := ReserveOf(s, v);
            var s2, p, q := ReserveOf(s1, u), PreparedFrom(s, v), PreparedFrom(s1, u);
            && IsToken(s2, p) && Known(s2.deeds, p.remove)
            && q.key in CommitOf(s2, p).pending && CommitOf(s2, p).pending[q.key] == q
  {
    var s1 := ReserveOf(s, v);
    var s2, p := ReserveOf(s1, u), PreparedFrom(s, v);
    assert s2.transactions[..1] == s1.transactions && s1.transactions[..0] == [];
    assert s2.transactions == [RecordFrom(s, v), RecordFrom(s1, u)];
    assert Position(s1.transactions, p.key, Reserved) == Some(0);
    DeedStays(s2, p);
  }

  lemma DeedStays(s: Space, p: Prepared)
    requires Inv(s) && s.regions == [MappedRegion()] && p.remove == [1]
    ensures Known(s.deeds, p.remove)
  {
    assert RegionOk(s, s.regions[0]);
  }
}
