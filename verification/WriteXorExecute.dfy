/** Any number of objects and address spaces: a view of an object is never executable while another can write it. */
module WriteXorExecute {
  import opened Wrappers
  import opened SpaceLedger
  import opened SpacePieces
  import opened SpaceState
  import opened SpaceCommit
  import opened SpaceRun
  import opened SpaceReserve
  import opened ObjectState

  /** `hands` are the permits callers hold, `tokens` those of the committed changes of each space by change key;
      `views` and `plans` are the authorizations granted and the changes validated so far. */
  datatype World = World(objects: map<nat, Obj>, spaces: seq<Space>, hands: multiset<nat>,
                         tokens: seq<map<nat, seq<nat>>>, views: set<(nat, Protection)>, plans: set<(nat, Validated)>)

  // ---- counting permits ---------------------------------------------------------------------------

  /** Regions that hold a permit of the object. */
  function Held(rs: seq<Region>, id: nat): nat {
    if rs == [] then 0 else Held(rs[..|rs| - 1], id) + One(rs[|rs| - 1].permit == Some(id))
  }

  function Count(xs: seq<nat>, id: nat): nat {
    if xs == [] then 0 else Count(xs[..|xs| - 1], id) + One(xs[|xs| - 1] == id)
  }

  lemma {:induction false} CountIs(xs: seq<nat>, id: nat)
    ensures Count(xs, id) == multiset(xs)[id]
    decreases |xs|
  {
    if xs != [] {
      CountIs(xs[..|xs| - 1], id);
      assert xs == xs[..|xs| - 1] + [xs[|xs| - 1]];
    }
  }

  lemma {:induction false} HeldIsCount(rs: seq<Region>, id: nat)
    ensures Count(PermitsOf(rs), id) == Held(rs, id)
    decreases |rs|
  {
    if rs != [] {
      HeldIsCount(rs[..|rs| - 1], id);
      var before, last := PermitsOf(rs[..|rs| - 1]), rs[|rs| - 1];
      if last.permit.Some? {
        assert (before + [last.permit.value])[..|before|] == before;
      } else {
        assert before + [] == before;
      }
    }
  }

  lemma {:induction false} HeldConcat(a: seq<Region>, b: seq<Region>, id: nat)
    ensures Held(a + b, id) == Held(a, id) + Held(b, id)
    decreases |b|
  {
    if b == [] {
      assert a + b == a;
    } else {
      HeldConcat(a, b[..|b| - 1], id);
      assert (a + b)[..|a + b| - 1] == a + b[..|b| - 1];
    }
  }

  lemma {:induction false} HeldInsert(rs: seq<Region>, r: Region, id: nat)
    ensures Held(Insert(rs, r, RegionStart), id) == Held(rs, id) + One(r.permit == Some(id))
    decreases |rs|
  {
    if rs == [] || RegionStart(rs[|rs| - 1]) <= RegionStart(r) {
      HeldLast(rs, r, id);
    } else {
      HeldInsert(rs[..|rs| - 1], r, id);
      HeldLast(Insert(rs[..|rs| - 1], r, RegionStart), rs[|rs| - 1], id);
    }
  }

  lemma HeldLast(rs: seq<Region>, r: Region, id: nat)
    ensures Held(rs + [r], id) == Held(rs, id) + One(r.permit == Some(id))
  {
    assert (rs + [r])[..|rs|] == rs;
  }

  lemma {:induction false} HeldSort(rs: seq<Region>, id: nat)
    ensures Held(SortBy(rs, RegionStart), id) == Held(rs, id)
    decreases |rs|
  {
    if rs != [] {
      HeldSort(rs[..|rs| - 1], id);
      HeldInsert(SortBy(rs[..|rs| - 1], RegionStart), rs[|rs| - 1], id);
    }
  }

  lemma HeldDrop(rs: seq<Region>, i: nat, id: nat)
    requires i < |rs|
    ensures Held(Drop(rs, i), id) + One(rs[i].permit == Some(id)) == Held(rs, id)
  {
    HeldConcat(rs[..i], rs[i + 1..], id);
    HeldConcat(rs[..i] + [rs[i]], rs[i + 1..], id);
    HeldLast(rs[..i], rs[i], id);
    assert rs == rs[..i] + [rs[i]] + rs[i + 1..];
  }

  /** Taking regions out takes out just their permits. */
  lemma {:induction false} HeldTaken(s: Space, p: Prepared, n: nat, id: nat)
    requires LedgerOk(s) && Known(s.deeds, p.remove) && CanCommit(s, p) && n <= |p.remove|
    ensures Held(Taken(s.regions, p.remove, n), id) + Held(Deeded(s.deeds, p.remove)[..n], id) == Held(s.regions, id)
    decreases n
  {
    hide LedgerOk, CanCommit, Held, Taken;
    var removed := Deeded(s.deeds, p.remove);
    if n == 0 {
      assert removed[..0] == [];
      NoneHeld(id);
      NoneTaken(s.regions, p.remove);
    } else {
      HeldTaken(s, p, n - 1, id);
      HeldTakenOne(s, p, n - 1, id);
      assert removed[..n] == removed[..n - 1] + [removed[n - 1]];
      HeldLast(removed[..n - 1], removed[n - 1], id);
    }
  }

  lemma HeldTakenOne(s: Space, p: Prepared, n: nat, id: nat)
    requires LedgerOk(s) && Known(s.deeds, p.remove) && CanCommit(s, p) && n < |p.remove|
    ensures Held(Taken(s.regions, p.remove, n + 1), id) + One(s.deeds[p.remove[n]].permit == Some(id))
            == Held(Taken(s.regions, p.remove, n), id)
  {
    hide LedgerOk, CanCommit, Plain, Distinct, Held, Drop;
    var before, k := Taken(s.regions, p.remove, n), p.remove[n];
    LedgerPlain(s);
    KnownDistinct(s.deeds, p.remove);
    TakenIs0(s, p, n);
    var i := KeyIndex(before, k);
    HeldDrop(before, i, id);
    ContentOf(s, before[i]);
  }

  lemma NoneHeld(id: nat)
    ensures Held([], id) == 0
  {}

  lemma KnownDistinct(deeds: map<nat, Region>, keys: seq<nat>)
    requires Known(deeds, keys)
    ensures Distinct(keys)
  {}

  lemma TakenIs0(s: Space, p: Prepared, n: nat)
    requires Plain(s.regions) && Distinct(p.remove) && CanCommit(s, p) && n < |p.remove|
    ensures var before := Taken(s.regions, p.remove, n);
            && KeyIndex(before, p.remove[n]) < |before| && (forall r :: r in before ==> r in s.regions)
  {
    TakenIs(s.regions, p.remove, n);
    StillThere(s.regions, Taken(s.regions, p.remove, n), p.remove, n);
  }

  lemma ContentOf(s: Space, r: Region)
    requires LedgerOk(s) && r in s.regions
    ensures r.key in s.deeds && s.deeds[r.key] == r
  {
    var j :| 0 <= j < |s.regions| && s.regions[j] == r;
    assert RegionOk(s, s.regions[j]);
  }

  lemma HeldCommit(s: Space, p: Prepared, id: nat)
    requires LedgerOk(s) && Known(s.deeds, p.remove) && CanCommit(s, p)
    ensures Held(CommitRegions(s.regions, p.remove, p.replacements), id) + Held(Deeded(s.deeds, p.remove), id)
         == Held(s.regions, id) + Held(p.replacements, id)
  {
    hide LedgerOk, CanCommit, Taken, SortBy, Held;
    var left := Taken(s.regions, p.remove, |p.remove|);
    HeldTaken(s, p, |p.remove|, id);
    assert Deeded(s.deeds, p.remove)[..|p.remove|] == Deeded(s.deeds, p.remove);
    HeldConcat(left, p.replacements, id);
    HeldSort(left + p.replacements, id);
  }

  // ---- sums ------------------------------------------------------------------------------------------

  function Sum(xs: seq<nat>): nat { if xs == [] then 0 else Sum(xs[..|xs| - 1]) + xs[|xs| - 1] }

  lemma SumLast(xs: seq<nat>, x: nat)
    ensures Sum(xs + [x]) == Sum(xs) + x
  {
    assert (xs + [x])[..|xs|] == xs;
  }

  lemma {:induction false} SumUpdate(xs: seq<nat>, i: nat, x: nat)
    requires i < |xs|
    ensures Sum(xs[i := x]) + xs[i] == Sum(xs) + x
    decreases |xs|
  {
    var n := |xs| - 1;
    if i < n {
      SumUpdate(xs[..n], i, x);
      assert xs[i := x][..n] == xs[..n][i := x];
    } else {
      assert xs[i := x][..n] == xs[..n];
    }
  }

  lemma {:induction false} SumConcat(a: seq<nat>, b: seq<nat>)
    ensures Sum(a + b) == Sum(a) + Sum(b)
    decreases |b|
  {
    if b == [] {
      assert a + b == a;
    } else {
      SumConcat(a, b[..|b| - 1]);
      assert (a + b)[..|a + b| - 1] == a + b[..|b| - 1];
    }
  }

  lemma SumDrop(xs: seq<nat>, i: nat)
    requires i < |xs|
    ensures Sum(xs[..i] + xs[i + 1..]) + xs[i] == Sum(xs)
  {
    hide Sum;
    assert xs == xs[..i] + [xs[i]] + xs[i + 1..];
    SumConcat(xs[..i] + [xs[i]], xs[i + 1..]);
    SumConcat(xs[..i], xs[i + 1..]);
    SumLast(xs[..i], xs[i]);
  }

  lemma {:induction false} SumZero(xs: seq<nat>, i: nat)
    requires Sum(xs) == 0 && i < |xs|
    ensures xs[i] == 0
    decreases |xs|
  {
    if i < |xs| - 1 { SumZero(xs[..|xs| - 1], i); }
  }

  // ---- what each space holds ---------------------------------------------------------------------------

  type Tokens = map<nat, seq<nat>>

  function RecordHolds(s: Space, tok: Tokens, t: Record, id: nat): nat {
    if t.stage == Reserved then (if t.key in s.pending then Held(s.pending[t.key].replacements, id) else 0)
    else if t.key in tok then Count(tok[t.key], id) else 0
  }

  function ChangeHolds(s: Space, tok: Tokens, id: nat): (xs: seq<nat>)
    ensures |xs| == |s.transactions|
            && forall i :: 0 <= i < |xs| ==> xs[i] == RecordHolds(s, tok, s.transactions[i], id)
  {
    seq(|s.transactions|, i requires 0 <= i < |s.transactions| => RecordHolds(s, tok, s.transactions[i], id) as nat)
  }

  /** Permits of the object in the ledger, in reserved changes and in committed ones. */
  function SpaceHolds(s: Space, tok: Tokens, id: nat): nat { Held(s.regions, id) + Sum(ChangeHolds(s, tok, id)) }

  /** The permits of a change past retirement are all handed out. */
  ghost predicate TokensOk(s: Space, tok: Tokens) {
    forall i :: 0 <= i < |s.transactions| && s.transactions[i].stage in {Retiring, Retired} ==>
      s.transactions[i].key in tok ==> tok[s.transactions[i].key] == []
  }

  lemma ReserveHolds(s: Space, tok: Tokens, v: Validated, permits: seq<nat>, id: nat)
    requires Inv(s) && ValidatedOk(s.deeds, s.bounds, v) && Refusal(s, v, permits) == None
    ensures SpaceHolds(ReserveOf(s, v), tok, id) == SpaceHolds(s, tok, id) + multiset(permits)[id]
  {
    hide LedgerOk, CountsOk, ChangesOk, ValidatedOk, Entered, Held, Count, Sum, Writes, Materialized, PlanStillValid,
         Present, AnyInTheWay;
    var s', p := ReserveOf(s, v), PreparedFrom(s, v);
    var xs, ys := ChangeHolds(s, tok, id), ChangeHolds(s', tok, id);
    forall i | 0 <= i < |xs| ensures ys[i] == xs[i] {
      assert s'.transactions[i] == s.transactions[i];
      assert RecordOk(s, s.transactions[i]);
    }
    assert ys == xs + [Held(p.replacements, id)];
    SumLast(xs, Held(p.replacements, id));
    MaterializedHolds(s, v.plan.replacements, |v.plan.replacements|, id);
    CountIs(Writes(TemplateBodies(v.plan.replacements)), id);
    assert TemplateBodies(v.plan.replacements)[..|v.plan.replacements|] == TemplateBodies(v.plan.replacements);
    assert p.replacements[..|v.plan.replacements|] == p.replacements;
  }

  lemma {:induction false} MaterializedHolds(s: Space, ts: seq<Template>, n: nat, id: nat)
    requires n <= |ts|
    ensures Held(Materialized(s, ts)[..n], id) == Count(Writes(TemplateBodies(ts)[..n]), id)
    decreases n
  {
    var rs, bs := Materialized(s, ts), TemplateBodies(ts);
    if n == 0 {
      assert rs[..0] == [] && bs[..0] == [];
    } else {
      MaterializedHolds(s, ts, n - 1, id);
      assert rs[..n][..n - 1] == rs[..n - 1] && bs[..n][..n - 1] == bs[..n - 1];
      var w, before := WritableObject(bs[n - 1]), Writes(bs[..n - 1]);
      if w.Some? { assert (before + [w.value])[..|before|] == before; } else { assert before + [] == before; }
    }
  }

  lemma RollbackHolds(s: Space, tok: Tokens, i: nat, p: Prepared, id: nat)
    requires Inv(s) && Live(s, i, p)
    ensures Position(s.transactions, p.key, Reserved).Some?
    ensures SpaceHolds(RollbackOf(s, p), tok, id) + Held(p.replacements, id) == SpaceHolds(s, tok, id)
  {
    hide LedgerOk, CountsOk, ChangesOk, PreparedOk, Held, Count, Sum, Position, OutOfTheWay;
    LivePosition(s, i, p);
    DropHolds(s, RollbackOf(s, p), tok, i, id);
  }

  lemma OtherRecord(s: Space, i: nat, j: nat)
    requires RecordsOk(s) && i < |s.transactions| && j < |s.transactions| && i != j
    ensures s.transactions[i].key != s.transactions[j].key
  {
    assert if j < i then OutOfTheWay(s.transactions[j], s.transactions[i])
           else OutOfTheWay(s.transactions[i], s.transactions[j]);
  }

  lemma DropHolds(s: Space, s': Space, tok: Tokens, i: nat, id: nat)
    requires RecordsOk(s) && i < |s.transactions| && s'.regions == s.regions
             && s'.transactions == s.transactions[..i] + s.transactions[i + 1..]
    requires s'.pending == s.pending - {s.transactions[i].key} || s'.pending == s.pending
    ensures SpaceHolds(s', tok, id) + RecordHolds(s, tok, s.transactions[i], id) == SpaceHolds(s, tok, id)
  {
    hide Held, Count, Sum, RecordsOk;
    var xs, ys := ChangeHolds(s, tok, id), ChangeHolds(s', tok, id);
    forall j | 0 <= j < |ys| ensures ys[j] == (xs[..i] + xs[i + 1..])[j] {
      var j0 := if j < i then j else j + 1;
      assert s'.transactions[j] == s.transactions[j0];
      OtherRecord(s, i, j0);
    }
    assert ys == xs[..i] + xs[i + 1..];
    SumDrop(xs, i);
  }

  lemma CommitHolds(s: Space, tok: Tokens, i: nat, p: Prepared, permits: seq<nat>, id: nat)
    requires Inv(s) && Live(s, i, p) && CanCommit(s, p) && Known(s.deeds, p.remove)
             && permits == PermitsOf(Deeded(s.deeds, p.remove))
    ensures Position(s.transactions, p.key, Reserved).Some?
    ensures SpaceHolds(CommitOf(s, p), PutToken(tok, p.key, permits), id) == SpaceHolds(s, tok, id)
  {
    hide LedgerOk, CountsOk, ChangesOk, PreparedOk, Held, Count, Sum, CommitRegions, CanCommit, PermitsOf, Position;
    LivePosition(s, i, p);
    var s', tok' := CommitOf(s, p), PutToken(tok, p.key, permits);
    LedgerOfInv(s);
    HeldCommit(s, p, id);
    HeldIsCount(Deeded(s.deeds, p.remove), id);
    var xs, ys := ChangeHolds(s, tok, id), ChangeHolds(s', tok', id);
    forall j | 0 <= j < |ys| && j != i ensures ys[j] == xs[j] {
      assert s'.transactions[j] == s.transactions[j];
      assert if j < i then OutOfTheWay(s.transactions[j], s.transactions[i])
             else OutOfTheWay(s.transactions[i], s.transactions[j]);
    }
    assert ys == xs[i := ys[i]];
    SumUpdate(xs, i, ys[i]);
  }

  lemma LedgerOfInv(s: Space)
    requires Inv(s)
    ensures LedgerOk(s)
  {}

  lemma AdvanceHolds(s: Space, tok: Tokens, key: nat, from: Stage, to: Stage, id: nat)
    requires Position(s.transactions, key, from).Some? && from != Reserved && to != Reserved
    ensures SpaceHolds(AdvanceOf(s, key, from, to), tok, id) == SpaceHolds(s, tok, id)
  {
    hide Held, Count, Sum, Position;
    PositionIs(s.transactions, key, from);
    assert ChangeHolds(AdvanceOf(s, key, from, to), tok, id) == ChangeHolds(s, tok, id);
  }

  lemma RetireHolds(s: Space, tok: Tokens, key: nat, id: nat)
    requires RecordsOk(s) && Position(s.transactions, key, Synchronized).Some?
    ensures SpaceHolds(AdvanceOf(s, key, Synchronized, Retiring), PutToken(tok, key, []), id)
            + (if key in tok then Count(tok[key], id) else 0) == SpaceHolds(s, tok, id)
  {
    hide Held, Sum, Position;
    PositionIs(s.transactions, key, Synchronized);
    var i := Position(s.transactions, key, Synchronized).value;
    var s' := AdvanceOf(s, key, Synchronized, Retiring);
    var xs, ys := ChangeHolds(s, tok, id), ChangeHolds(s', PutToken(tok, key, []), id);
    forall j | 0 <= j < |ys| && j != i ensures ys[j] == xs[j] {
      assert s'.transactions[j] == s.transactions[j];
      assert if j < i then OutOfTheWay(s.transactions[j], s.transactions[i])
             else OutOfTheWay(s.transactions[i], s.transactions[j]);
    }
    assert ys == xs[i := 0];
    SumUpdate(xs, i, 0);
  }

  lemma DrainHolds(s: Space, tok: Tokens, id: nat)
    requires s.transactions == [] && s.regions != []
    ensures SpaceHolds(s.(regions := s.regions[..|s.regions| - 1]), tok, id)
            + One(s.regions[|s.regions| - 1].permit == Some(id)) == SpaceHolds(s, tok, id)
  {
    var s' := s.(regions := s.regions[..|s.regions| - 1]);
    assert ChangeHolds(s', tok, id) == [] && ChangeHolds(s, tok, id) == [];
  }

  // ---- the world --------------------------------------------------------------------------------------

  datatype Step =
    | NewSpace(bounds: Range, limits: Limits)
    | NewObject(id: nat, limit: nat)
    | Authorize(id: nat, maximum: Protection)
    | GrantWrites(id: nat, count: nat, newWrites: nat)
    | ReleaseWrite(id: nat)
    | SealObject(id: nat)
    | Validate(i: nat, v: Validated)
    | DoReserve(i: nat, v: Validated, permits: seq<nat>)
    | DoRollback(i: nat, p: Prepared)
    | DoCommit(i: nat, p: Prepared)
    | DoAdvance(i: nat, key: nat, from: Stage, to: Stage)
    | DoRetire(i: nat, key: nat)
    | DoComplete(i: nat, key: nat)
    | DoDrain(i: nat)

  ghost predicate Enabled(w: World, st: Step) {
    match st
    case NewSpace(_, _) => true
    case NewObject(id, _) => id !in w.objects
    case Authorize(id, maximum) => id in w.objects && MayView(w.objects[id], maximum)
    case GrantWrites(id, count, newWrites) => id in w.objects && WriteRefusal(w.objects[id], count, newWrites) == None
    case ReleaseWrite(id) => id in w.objects && id in w.hands && w.objects[id].permits > 0
    case SealObject(id) => id in w.objects
    case Validate(i, v) => i < |w.spaces| && ValidatedOk(w.spaces[i].deeds, w.spaces[i].bounds, v)
      && (v.view.Some? ==> v.view.value in w.views)
    case DoReserve(i, v, permits) => i < |w.spaces| && (i, v) in w.plans && Refusal(w.spaces[i], v, permits) == None
      && multiset(permits) <= w.hands
    case DoRollback(i, p) => i < |w.spaces| && IsToken(w.spaces[i], p)
    case DoCommit(i, p) => i < |w.spaces| && IsToken(w.spaces[i], p) && Known(w.spaces[i].deeds, p.remove)
      && CanCommit(w.spaces[i], p)
    case DoAdvance(i, key, from, to) =>
      && i < |w.spaces| && Position(w.spaces[i].transactions, key, from).Some?
      && (from, to) in {(Committed, Stage.Published), (Stage.Published, Synchronized), (Retiring, Retired)}
    case DoRetire(i, key) => i < |w.spaces| && Position(w.spaces[i].transactions, key, Synchronized).Some?
    case DoComplete(i, key) => i < |w.spaces| && Position(w.spaces[i].transactions, key, Retired).Some?
    case DoDrain(i) => i < |w.spaces| && w.spaces[i].transactions == [] && w.spaces[i].regions != []
  }

  ghost predicate IsToken(s: Space, p: Prepared) {
    p.key in s.pending && s.pending[p.key] == p && Position(s.transactions, p.key, Reserved).Some?
  }

  function WithObject(w: World, id: nat, o: Obj): World { w.(objects := w.objects[id := o]) }

  function WithSpace(w: World, i: nat, s: Space): World
    requires i < |w.spaces|
  {
    w.(spaces := w.spaces[i := s])
  }

  function PutToken(tok: Tokens, key: nat, permits: seq<nat>): Tokens { tok[key := permits] }

  function WithToken(w: World, i: nat, key: nat, permits: seq<nat>): World
    requires i < |w.tokens|
  {
    w.(tokens := w.tokens[i := PutToken(w.tokens[i], key, permits)])
  }

  function PermitBag(permit: Option<nat>): multiset<nat> { if permit.Some? then multiset{permit.value} else multiset{} }

  ghost function After(w: World, st: Step): World
    requires |w.tokens| == |w.spaces| && Enabled(w, st)
  {
    match st
    case NewSpace(bounds, limits) => w.(spaces := w.spaces + [EmptySpace(bounds, limits)], tokens := w.tokens + [map[]])
    case NewObject(id, limit) => WithObject(w, id, Obj(Mutable, 0, limit))
    case Authorize(id, maximum) => w.(views := w.views + {(id, maximum)})
    case GrantWrites(id, count, _) =>
      WithObject(w, id, Granted(w.objects[id], count)).(hands := w.hands[id := w.hands[id] + count])
    case ReleaseWrite(id) => WithObject(w, id, Released(w.objects[id])).(hands := w.hands - multiset{id})
    case SealObject(id) => WithObject(w, id, Sealed(w.objects[id]))
    case Validate(i, v) => w.(plans := w.plans + {(i, v)})
    case DoReserve(i, v, permits) => WithSpace(w, i, ReserveOf(w.spaces[i], v)).(hands := w.hands - multiset(permits))
    case DoRollback(i, p) =>
      WithSpace(w, i, RollbackOf(w.spaces[i], p)).(hands := w.hands + multiset(PermitsOf(p.replacements)))
    case DoCommit(i, p) =>
      WithToken(WithSpace(w, i, CommitOf(w.spaces[i], p)), i, p.key, PermitsOf(Deeded(w.spaces[i].deeds, p.remove)))
    case DoAdvance(i, key, from, to) => WithSpace(w, i, AdvanceOf(w.spaces[i], key, from, to))
    case DoRetire(i, key) =>
      var held := if key in w.tokens[i] then w.tokens[i][key] else [];
      WithToken(WithSpace(w, i, AdvanceOf(w.spaces[i], key, Synchronized, Retiring)), i, key,
                []).(hands := w.hands + multiset(held))
    case DoComplete(i, key) => WithSpace(w, i, CompleteOf(w.spaces[i], key))
    case DoDrain(i) =>
      var s := w.spaces[i];
      WithSpace(w, i,
                s.(regions := s.regions[..|s.regions| - 1])).(hands := w.hands
                + PermitBag(s.regions[|s.regions| - 1].permit))
  }

  function AllHolds(w: World, id: nat): (xs: seq<nat>)
    requires |w.tokens| == |w.spaces|
    ensures |xs| == |w.spaces| && forall i :: 0 <= i < |xs| ==> xs[i] == SpaceHolds(w.spaces[i], w.tokens[i], id)
  {
    seq(|w.spaces|, i requires 0 <= i < |w.spaces| => SpaceHolds(w.spaces[i], w.tokens[i], id) as nat)
  }

  function PermitsOut(w: World, id: nat): nat { if id in w.objects then w.objects[id].permits else 0 }

  /** Every permit an object counts is held somewhere, and nothing else is. */
  ghost predicate Conserved(w: World, id: nat)
    requires |w.tokens| == |w.spaces|
  {
    PermitsOut(w, id) == w.hands[id] + Sum(AllHolds(w, id))
  }

  predicate IsExecutable(w: World, id: nat) { id in w.objects && w.objects[id].state == Executable }

  /** Whatever was ever mapped with an executable maximum is an executable object. */
  ghost predicate ViewsOk(w: World, s: Space) {
    forall k :: k in s.deeds ==> KindOk(w, s.deeds[k].body.kind)
  }

  predicate KindOk(w: World, k: Kind) {
    k.Mapping? && k.source.Object? && k.maximum == ReadExecute ==> IsExecutable(w, k.source.id)
  }

  ghost predicate PlanOk(w: World, i: nat, v: Validated) {
    && i < |w.spaces| && ValidatedOk(w.spaces[i].deeds, w.spaces[i].bounds, v)
        && (v.view.Some? ==> v.view.value in w.views)
  }

  ghost predicate WorldOk(w: World) {
    && |w.tokens| == |w.spaces|
    && (forall id :: id in w.objects ==> ObjOk(w.objects[id]))
    && (forall i ::
        0 <= i < |w.spaces| ==> Inv(w.spaces[i]) && TokensOk(w.spaces[i], w.tokens[i]) && ViewsOk(w, w.spaces[i]))
    && (forall id, m :: (id, m) in w.views && m == ReadExecute ==> IsExecutable(w, id))
    && (forall i, v :: (i, v) in w.plans ==> PlanOk(w, i, v))
    && (forall id: nat :: Conserved(w, id))
  }

  /** A permit a caller holds can always be released: the object counts it. */
  lemma PermitAccounted(w: World, id: nat)
    requires WorldOk(w) && id in w.hands
    ensures Enabled(w, ReleaseWrite(id))
  {
    assert Conserved(w, id);
  }

  /** A reserved change whose regions are all still there can commit. */
  lemma TokenCommits(w: World, i: nat, p: Prepared)
    requires WorldOk(w) && i < |w.spaces| && IsToken(w.spaces[i], p) && CanCommit(w.spaces[i], p)
    ensures Enabled(w, DoCommit(i, p))
  {
    var j := TokenLive(w.spaces[i], p);
    GeometryKnown(w.spaces[i], w.spaces[i].transactions[j], p);
  }

  lemma TokenLive(s: Space, p: Prepared) returns (j: nat)
    requires Inv(s) && IsToken(s, p)
    ensures Live(s, j, p) && PreparedOk(s, s.transactions[j], p) && Position(s.transactions, p.key, Reserved) == Some(j)
  {
    PositionIs(s.transactions, p.key, Reserved);
    j := Position(s.transactions, p.key, Reserved).value;
    LivePosition(s, j, p);
  }

  // ---- write xor execute ---------------------------------------------------------------------------------

  predicate MapsExecutable(r: Region, id: nat) {
    r.body.kind.Mapping? && r.body.kind.source == Object(id)
        && (r.body.kind.current == ReadExecute || r.body.kind.maximum == ReadExecute)
  }

  /**
    No writable view of the object anywhere: not in a ledger, a reservation, a committed change, or a caller's hand.
  */
  ghost predicate NoWriter(w: World, id: nat)
    requires |w.tokens| == |w.spaces|
  {
    && id !in w.hands && PermitsOut(w, id) == 0
    && (forall i, j ::
        0 <= i < |w.spaces| && 0 <= j < |w.spaces[i].regions| ==>
        WritableObject(w.spaces[i].regions[j].body) != Some(id))
    && (forall i :: 0 <= i < |w.spaces| ==> SpaceHolds(w.spaces[i], w.tokens[i], id) == 0)
  }

  /** An executable object has no writer anywhere. */
  lemma ExecutableHasNoWriter(w: World, id: nat)
    requires WorldOk(w) && IsExecutable(w, id)
    ensures NoWriter(w, id)
  {
    hide Inv, ViewsOk, PlanOk, TokensOk, SpaceHolds;
    assert Conserved(w, id);
    forall i | 0 <= i < |w.spaces|
      ensures SpaceHolds(w.spaces[i], w.tokens[i], id) == 0
    {
      SumZero(AllHolds(w, id), i);
    }
    forall i, j | 0 <= i < |w.spaces| && 0 <= j < |w.spaces[i].regions|
      ensures WritableObject(w.spaces[i].regions[j].body) != Some(id)
    {
      assert SpaceHolds(w.spaces[i], w.tokens[i], id) == 0;
      NoneHolds(w.spaces[i], w.tokens[i], j, id);
    }
  }

  lemma NoneHolds(s: Space, tok: Tokens, j: nat, id: nat)
    requires Inv(s) && SpaceHolds(s, tok, id) == 0 && j < |s.regions|
    ensures WritableObject(s.regions[j].body) != Some(id)
  {
    hide ChangesOk, RecordsOk, CountsOk;
    assert RegionOk(s, s.regions[j]);
    if s.regions[j].permit == Some(id) { HeldOne(s.regions, j, id); }
  }

  lemma {:induction false} HeldOne(rs: seq<Region>, j: nat, id: nat)
    requires j < |rs| && rs[j].permit == Some(id)
    ensures Held(rs, id) > 0
    decreases |rs|
  {
    if j < |rs| - 1 { HeldOne(rs[..|rs| - 1], j, id); }
  }

  /** While any space maps the object executable, nothing can write it. */
  lemma WriteXorExecuteNow(w: World, i: nat, j: nat, id: nat)
    requires WorldOk(w) && i < |w.spaces| && j < |w.spaces[i].regions| && MapsExecutable(w.spaces[i].regions[j], id)
    ensures IsExecutable(w, id) && NoWriter(w, id)
  {
    hide TokensOk, PlanOk, NoWriter, Conserved;
    assert Inv(w.spaces[i]) && ViewsOk(w, w.spaces[i]);
    MappedIsExecutable(w, w.spaces[i], j, id);
    ExecutableHasNoWriter(w, id);
  }

  lemma MappedIsExecutable(w: World, s: Space, j: nat, id: nat)
    requires Inv(s) && ViewsOk(w, s) && j < |s.regions| && MapsExecutable(s.regions[j], id)
    ensures IsExecutable(w, id)
  {
    hide ChangesOk, RecordsOk, CountsOk;
    assert RegionOk(s, s.regions[j]);
    assert KindOk(w, s.deeds[s.regions[j].key].body.kind);
  }

  // ---- every step keeps the world in order ------------------------------------------------------------------

  lemma ValidatedGrows(d: map<nat, Region>, deeds: map<nat, Region>, bounds: Range, v: Validated)
    requires Extends(d, deeds) && ValidatedOk(deeds, bounds, v)
    ensures ValidatedOk(d, bounds, v)
  {
    hide Geometry, Mirrored, Settled, SnapshotCovers, Tiled, Ledger;
    SameDeeds(d, deeds, v.snapshot);
    RemoveIsKnown(deeds, bounds, v);
    SameDeeds(d, deeds, v.plan.remove);
    GeometryGrows(d, deeds, bounds, v.plan.op, v.plan.remove, TemplateBodies(v.plan.replacements), v.plan.footprint);
    forall i | 0 <= i < |v.plan.replacements| ensures Authorized(d, v, v.plan.replacements[i].body) {
      assert Authorized(deeds, v, v.plan.replacements[i].body);
    }
    if Idle(v.plan.op, v.plan.remove) { CoversGrow(d, deeds, v); }
  }

  lemma RemoveIsKnown(deeds: map<nat, Region>, bounds: Range, v: Validated)
    requires ValidatedOk(deeds, bounds, v)
    ensures Known(deeds, v.plan.remove)
  {}

  lemma CoversGrow(d: map<nat, Region>, deeds: map<nat, Region>, v: Validated)
    requires Known(deeds, v.snapshot) && Known(d, v.snapshot) && Deeded(d, v.snapshot) == Deeded(deeds, v.snapshot)
    requires v.plan.op.OpProtect? && SnapshotCovers(deeds, v)
    ensures SnapshotCovers(d, v)
  {}

  /** A step of one space that gives or takes permits only against the callers' hands. */
  ghost predicate FairStep(w: World, i: nat, s': Space, tok': Tokens, hands': multiset<nat>)
    requires |w.tokens| == |w.spaces| && i < |w.spaces|
  {
    && Inv(s') && TokensOk(s', tok') && Extends(s'.deeds, w.spaces[i].deeds) && s'.bounds == w.spaces[i].bounds
        && ViewsOk(w, s')
    && (forall id: nat :: Balanced(w, i, s', tok', hands', id))
  }

  ghost predicate Balanced(w: World, i: nat, s': Space, tok': Tokens, hands': multiset<nat>, id: nat)
    requires |w.tokens| == |w.spaces| && i < |w.spaces|
  {
    SpaceHolds(s', tok', id) + hands'[id] == SpaceHolds(w.spaces[i], w.tokens[i], id) + w.hands[id]
  }

  lemma SpaceStepKeeps(w: World, i: nat, s': Space, tok': Tokens, hands': multiset<nat>)
    requires WorldOk(w) && i < |w.spaces| && FairStep(w, i, s', tok', hands')
    ensures WorldOk(w.(spaces := w.spaces[i := s'], tokens := w.tokens[i := tok'], hands := hands'))
  {
    hide Inv, TokensOk, ViewsOk, SpaceHolds, Sum, ValidatedOk, Extends;
    var w' := w.(spaces := w.spaces[i := s'], tokens := w.tokens[i := tok'], hands := hands');
    forall j | 0 <= j < |w'.spaces|
      ensures Inv(w'.spaces[j]) && TokensOk(w'.spaces[j], w'.tokens[j]) && ViewsOk(w', w'.spaces[j])
    {
      SameObjects(w, w', w'.spaces[j]);
    }
    forall j, v | (j, v) in w'.plans ensures PlanOk(w', j, v) {
      assert PlanOk(w, j, v);
      if j == i { ValidatedGrows(s'.deeds, w.spaces[i].deeds, s'.bounds, v); }
    }
    forall id: nat ensures Conserved(w', id) {
      assert Conserved(w, id) && Balanced(w, i, s', tok', hands', id);
      assert AllHolds(w', id) == AllHolds(w, id)[i := SpaceHolds(s', tok', id)];
      SumUpdate(AllHolds(w, id), i, SpaceHolds(s', tok', id));
    }
  }

  lemma SameObjects(w: World, w': World, s: Space)
    requires w'.objects == w.objects
    ensures ViewsOk(w, s) <==> ViewsOk(w', s)
  {
    if ViewsOk(w, s) {
      forall k | k in s.deeds ensures KindOk(w', s.deeds[k].body.kind) { assert KindOk(w, s.deeds[k].body.kind); }
    }
    if ViewsOk(w', s) {
      forall k | k in s.deeds ensures KindOk(w, s.deeds[k].body.kind) { assert KindOk(w', s.deeds[k].body.kind); }
    }
  }

  lemma SameDeedsViews(w: World, s: Space, s': Space)
    requires ViewsOk(w, s) && s'.deeds == s.deeds
    ensures ViewsOk(w, s') && Extends(s'.deeds, s.deeds)
  {
    forall k | k in s'.deeds ensures KindOk(w, s'.deeds[k].body.kind) { assert KindOk(w, s.deeds[k].body.kind); }
  }

  lemma ReserveFair(w: World, i: nat, v: Validated, permits: seq<nat>)
    requires WorldOk(w) && Enabled(w, DoReserve(i, v, permits))
    ensures FairStep(w, i, ReserveOf(w.spaces[i], v), w.tokens[i], w.hands - multiset(permits))
  {
    hide Inv, ValidatedOk, Refusal, SpaceHolds, Entered, ViewsOk, Extends;
    var s := w.spaces[i];
    assert Inv(s) && TokensOk(s, w.tokens[i]) && ViewsOk(w, s) && PlanOk(w, i, v);
    ReserveKeeps(s, v, permits);
    LedgerOfInv(s);
    DeedsAfter(s, v);
    ReserveViews(w, i, v);
    assert TokensOk(ReserveOf(s, v), w.tokens[i]);
    forall id: nat ensures Balanced(w, i, ReserveOf(s, v), w.tokens[i], w.hands - multiset(permits), id) {
      ReserveHolds(s, w.tokens[i], v, permits, id);
      assert multiset(permits)[id] <= w.hands[id];
    }
  }

  /** New regions map only what was authorized or mapped before. */
  lemma ReserveViews(w: World, i: nat, v: Validated)
    requires WorldOk(w) && i < |w.spaces| && PlanOk(w, i, v)
    ensures ViewsOk(w, ReserveOf(w.spaces[i], v))
  {
    hide Geometry, Mirrored, Settled, SnapshotCovers, Tiled, Conserved, TokensOk, Known, Subset, ChangesOk, RecordsOk,
         CountsOk;
    var s := w.spaces[i];
    var rs := Materialized(s, v.plan.replacements);
    assert Inv(s) && ViewsOk(w, s);
    forall j | 0 <= j < |rs| ensures KindOk(w, rs[j].body.kind) { NewViewOk(w, i, v, j); }
    EnteredViews(w, s, rs, |rs|);
  }

  lemma NewViewOk(w: World, i: nat, v: Validated, j: nat)
    requires WorldOk(w) && i < |w.spaces| && PlanOk(w, i, v) && j < |v.plan.replacements|
    ensures KindOk(w, Materialized(w.spaces[i], v.plan.replacements)[j].body.kind)
  {
    hide Geometry, Mirrored, Settled, SnapshotCovers, Tiled, Conserved, TokensOk, Known, Subset, Inv;
    var s, b := w.spaces[i], v.plan.replacements[j].body;
    assert Authorized(s.deeds, v, b);
    if b.kind.Mapping? && b.kind.source.Object? && b.kind.maximum == ReadExecute {
      if v.plan.op.OpMap? {
        assert (b.kind.source.id, ReadExecute) in w.views;
      } else {
        assert Descends(s.deeds, b);
        var k :| k in s.deeds && SameView(s.deeds[k].body.kind, b.kind);
        assert ViewsOk(w, s);
        assert KindOk(w, s.deeds[k].body.kind);
      }
    }
  }

  lemma {:induction false} EnteredViews(w: World, s: Space, rs: seq<Region>, n: nat)
    requires ViewsOk(w, s) && n <= |rs| && forall j :: 0 <= j < |rs| ==> KindOk(w, rs[j].body.kind)
    ensures forall k :: k in Entered(s.deeds, rs, n) ==> KindOk(w, Entered(s.deeds, rs, n)[k].body.kind)
    decreases n
  {
    if n > 0 { EnteredViews(w, s, rs, n - 1); }
  }

  lemma RollbackFair(w: World, i: nat, p: Prepared)
    requires WorldOk(w) && Enabled(w, DoRollback(i, p))
    ensures FairStep(w, i, RollbackOf(w.spaces[i], p), w.tokens[i], w.hands + multiset(PermitsOf(p.replacements)))
  {
    hide Inv, SpaceHolds, ViewsOk, Position, PermitsOf;
    var s := w.spaces[i];
    assert Inv(s) && TokensOk(s, w.tokens[i]) && ViewsOk(w, s);
    var j := TokenLive(s, p);
    RollbackKeeps(s, j, p);
    SameDeedsViews(w, s, RollbackOf(s, p));
    DropTokens(s, RollbackOf(s, p), w.tokens[i], j);
    forall id: nat
      ensures Balanced(w, i, RollbackOf(s, p), w.tokens[i], w.hands + multiset(PermitsOf(p.replacements)), id)
    {
      RollbackHolds(s, w.tokens[i], j, p, id);
      HeldIsCount(p.replacements, id);
      CountIs(PermitsOf(p.replacements), id);
    }
  }

  lemma DropTokens(s: Space, s': Space, tok: Tokens, q: nat)
    requires TokensOk(s, tok) && q < |s.transactions|
             && s'.transactions == s.transactions[..q] + s.transactions[q + 1..]
    ensures TokensOk(s', tok)
  {
    forall a | 0 <= a < |s'.transactions| && s'.transactions[a].stage in {Retiring, Retired}
        && s'.transactions[a].key in tok
      ensures tok[s'.transactions[a].key] == []
    {
      assert s'.transactions[a] == s.transactions[if a < q then a else a + 1];
    }
  }

  lemma CommitFair(w: World, i: nat, p: Prepared)
    requires WorldOk(w) && Enabled(w, DoCommit(i, p))
    ensures FairStep(w, i, CommitOf(w.spaces[i], p),
                     PutToken(w.tokens[i], p.key, PermitsOf(Deeded(w.spaces[i].deeds, p.remove))), w.hands)
  {
    hide Inv, SpaceHolds, ViewsOk, Position, PermitsOf, CanCommit, CommitRegions;
    var s := w.spaces[i];
    assert Inv(s) && TokensOk(s, w.tokens[i]) && ViewsOk(w, s);
    var j := TokenLive(s, p);
    CommitKeeps(s, j, p);
    SameDeedsViews(w, s, CommitOf(s, p));
    var permits := PermitsOf(Deeded(s.deeds, p.remove));
    CommitTokens(s, w.tokens[i], j, p, permits);
    forall id: nat ensures Balanced(w, i, CommitOf(s, p), PutToken(w.tokens[i], p.key, permits), w.hands, id) {
      CommitHolds(s, w.tokens[i], j, p, permits, id);
    }
  }

  lemma CommitTokens(s: Space, tok: Tokens, j: nat, p: Prepared, permits: seq<nat>)
    requires Inv(s) && TokensOk(s, tok) && Live(s, j, p) && Position(s.transactions, p.key, Reserved) == Some(j)
    ensures TokensOk(CommitOf(s, p), PutToken(tok, p.key, permits))
  {
    hide LedgerOk, CountsOk, ChangesOk, CommitRegions;
    var s' := CommitOf(s, p);
    forall a | 0 <= a < |s'.transactions| && s'.transactions[a].stage in {Retiring, Retired}
        && s'.transactions[a].key in PutToken(tok, p.key, permits)
      ensures PutToken(tok, p.key, permits)[s'.transactions[a].key] == []
    {
      assert a != j && s'.transactions[a] == s.transactions[a];
      assert if a < j then OutOfTheWay(s.transactions[a], s.transactions[j])
             else OutOfTheWay(s.transactions[j], s.transactions[a]);
    }
  }

  lemma AdvanceFair(w: World, i: nat, key: nat, from: Stage, to: Stage)
    requires WorldOk(w) && Enabled(w, DoAdvance(i, key, from, to))
    ensures FairStep(w, i, AdvanceOf(w.spaces[i], key, from, to), w.tokens[i], w.hands)
  {
    hide Inv, SpaceHolds, ViewsOk, Position;
    var s := w.spaces[i];
    assert Inv(s) && TokensOk(s, w.tokens[i]) && ViewsOk(w, s);
    AdvanceKeeps(s, key, from, to);
    SameDeedsViews(w, s, AdvanceOf(s, key, from, to));
    AdvanceTokens(s, w.tokens[i], key, from, to);
    forall id: nat ensures Balanced(w, i, AdvanceOf(s, key, from, to), w.tokens[i], w.hands, id) {
      AdvanceHolds(s, w.tokens[i], key, from, to, id);
    }
  }

  lemma AdvanceTokens(s: Space, tok: Tokens, key: nat, from: Stage, to: Stage)
    requires TokensOk(s, tok) && Position(s.transactions, key, from).Some?
             && (to in {Retiring, Retired} ==> from in {Retiring, Retired})
    ensures TokensOk(AdvanceOf(s, key, from, to), tok)
  {
    PositionIs(s.transactions, key, from);
    var s' := AdvanceOf(s, key, from, to);
    forall a | 0 <= a < |s'.transactions| && s'.transactions[a].stage in {Retiring, Retired}
        && s'.transactions[a].key in tok
      ensures tok[s'.transactions[a].key] == []
    {
      assert s'.transactions[a].key == s.transactions[a].key;
    }
  }

  lemma RetireFair(w: World, i: nat, key: nat)
    requires WorldOk(w) && Enabled(w, DoRetire(i, key))
    ensures var held := if key in w.tokens[i] then w.tokens[i][key] else [];
            FairStep(w, i, AdvanceOf(w.spaces[i], key, Synchronized, Retiring), PutToken(w.tokens[i], key, []),
                     w.hands + multiset(held))
  {
    hide Inv, SpaceHolds, ViewsOk, Position;
    var s := w.spaces[i];
    var held := if key in w.tokens[i] then w.tokens[i][key] else [];
    assert Inv(s) && TokensOk(s, w.tokens[i]) && ViewsOk(w, s);
    AdvanceKeeps(s, key, Synchronized, Retiring);
    SameDeedsViews(w, s, AdvanceOf(s, key, Synchronized, Retiring));
    RetireTokens(s, w.tokens[i], key);
    RecordsOfInv(s);
    forall id: nat
      ensures Balanced(w, i, AdvanceOf(s, key, Synchronized, Retiring), PutToken(w.tokens[i], key, []),
                       w.hands + multiset(held), id)
    {
      RetireHolds(s, w.tokens[i], key, id);
      CountIs(held, id);
      NoneCounted(id);
    }
  }

  lemma NoneCounted(id: nat)
    ensures Count([], id) == 0
  {}

  lemma RecordsOfInv(s: Space)
    requires Inv(s)
    ensures RecordsOk(s)
  {}

  lemma RetireTokens(s: Space, tok: Tokens, key: nat)
    requires TokensOk(s, tok) && Position(s.transactions, key, Synchronized).Some?
    ensures TokensOk(AdvanceOf(s, key, Synchronized, Retiring), PutToken(tok, key, []))
  {
    PositionIs(s.transactions, key, Synchronized);
    var s' := AdvanceOf(s, key, Synchronized, Retiring);
    forall a | 0 <= a < |s'.transactions| && s'.transactions[a].stage in {Retiring, Retired}
        && s'.transactions[a].key in PutToken(tok, key, [])
      ensures PutToken(tok, key, [])[s'.transactions[a].key] == []
    {
      assert s'.transactions[a].key == s.transactions[a].key;
    }
  }

  lemma CompleteFair(w: World, i: nat, key: nat)
    requires WorldOk(w) && Enabled(w, DoComplete(i, key))
    ensures FairStep(w, i, CompleteOf(w.spaces[i], key), w.tokens[i], w.hands)
  {
    hide Inv, SpaceHolds, ViewsOk, Position;
    var s := w.spaces[i];
    assert Inv(s) && TokensOk(s, w.tokens[i]) && ViewsOk(w, s);
    CompleteKeeps(s, key);
    SameDeedsViews(w, s, CompleteOf(s, key));
    PositionIs(s.transactions, key, Retired);
    var q := Position(s.transactions, key, Retired).value;
    DropTokens(s, CompleteOf(s, key), w.tokens[i], q);
    RecordsOfInv(s);
    forall id: nat ensures Balanced(w, i, CompleteOf(s, key), w.tokens[i], w.hands, id) {
      DropHolds(s, CompleteOf(s, key), w.tokens[i], q, id);
      NoneCounted(id);
    }
  }

  lemma DrainFair(w: World, i: nat)
    requires WorldOk(w) && Enabled(w, DoDrain(i))
    ensures var s := w.spaces[i];
            FairStep(w, i, s.(regions := s.regions[..|s.regions| - 1]), w.tokens[i],
                     w.hands + PermitBag(s.regions[|s.regions| - 1].permit))
  {
    hide Inv, SpaceHolds, ViewsOk;
    var s := w.spaces[i];
    assert Inv(s) && TokensOk(s, w.tokens[i]) && ViewsOk(w, s);
    var s' := s.(regions := s.regions[..|s.regions| - 1]);
    PopInv(s);
    SameDeedsViews(w, s, s');
    var hands' := w.hands + PermitBag(s.regions[|s.regions| - 1].permit);
    forall id: nat ensures Balanced(w, i, s', w.tokens[i], hands', id) {
      DrainHolds(s, w.tokens[i], id);
    }
  }

  lemma PopInv(s: Space)
    requires Inv(s) && s.transactions == [] && s.regions != []
    ensures Inv(s.(regions := s.regions[..|s.regions| - 1]))
  {
    var n := |s.regions| - 1;
    var s' := s.(regions := s.regions[..n]);
    forall i | 0 <= i < n ensures RegionOk(s', s'.regions[i]) { assert RegionOk(s, s.regions[i]); }
    assert Bodies(s'.regions) == Bodies(s.regions)[..n];
  }

  // ---- objects -----------------------------------------------------------------------------------------------

  /** A step of one object that gives or takes permits only against the callers' hands, and never leaves Executable. */
  lemma ObjectStepKeeps(w: World, id: nat, o: Obj, hands': multiset<nat>)
    requires WorldOk(w) && ObjOk(o) && (IsExecutable(w, id) ==> o.state == Executable)
    requires o.permits + w.hands[id] == PermitsOut(w, id) + hands'[id]
             && forall j :: j != id ==> hands'[j] == w.hands[j]
    ensures WorldOk(w.(objects := w.objects[id := o], hands := hands'))
  {
    hide Inv, TokensOk, SpaceHolds, Sum, ValidatedOk;
    var w' := w.(objects := w.objects[id := o], hands := hands');
    forall j | 0 <= j < |w'.spaces| ensures ViewsOk(w', w'.spaces[j]) {
      assert ViewsOk(w, w.spaces[j]);
      MoreExecutable(w, w', w.spaces[j]);
    }
    forall j, v | (j, v) in w'.plans ensures PlanOk(w', j, v) { assert PlanOk(w, j, v); }
    forall j: nat ensures Conserved(w', j) {
      assert Conserved(w, j);
      assert AllHolds(w', j) == AllHolds(w, j);
    }
  }

  lemma MoreExecutable(w: World, w': World, s: Space)
    requires ViewsOk(w, s) && forall id :: IsExecutable(w, id) ==> IsExecutable(w', id)
    ensures ViewsOk(w', s)
  {
    forall k | k in s.deeds ensures KindOk(w', s.deeds[k].body.kind) { assert KindOk(w, s.deeds[k].body.kind); }
  }

  lemma ViewAdded(w: World, id: nat, maximum: Protection)
    requires WorldOk(w) && Enabled(w, Authorize(id, maximum))
    ensures WorldOk(After(w, Authorize(id, maximum)))
  {
    hide Inv, TokensOk, SpaceHolds, Sum, ValidatedOk, ViewsOk;
    var w' := After(w, Authorize(id, maximum));
    forall j | 0 <= j < |w'.spaces| ensures ViewsOk(w', w'.spaces[j]) { SameObjects(w, w', w.spaces[j]); }
    forall j, v | (j, v) in w'.plans ensures PlanOk(w', j, v) { assert PlanOk(w, j, v); }
    forall j: nat ensures Conserved(w', j) {
      assert Conserved(w, j);
      assert AllHolds(w', j) == AllHolds(w, j);
    }
  }

  lemma PlanAdded(w: World, i: nat, v: Validated)
    requires WorldOk(w) && Enabled(w, Validate(i, v))
    ensures WorldOk(After(w, Validate(i, v)))
  {
    hide Inv, TokensOk, SpaceHolds, Sum, ValidatedOk, ViewsOk;
    var w' := After(w, Validate(i, v));
    forall j | 0 <= j < |w'.spaces| ensures ViewsOk(w', w'.spaces[j]) { SameObjects(w, w', w.spaces[j]); }
    forall j, u | (j, u) in w'.plans ensures PlanOk(w', j, u) { if (j, u) in w.plans { assert PlanOk(w, j, u); } }
    forall j: nat ensures Conserved(w', j) {
      assert Conserved(w, j);
      assert AllHolds(w', j) == AllHolds(w, j);
    }
  }

  /** Every step of every object, space and caller keeps the world in order. */
  lemma StepKeeps(w: World, st: Step)
    requires WorldOk(w) && Enabled(w, st)
    ensures WorldOk(After(w, st))
  {
    hide WorldOk, FairStep, ValidatedOk, Refusal, CanCommit, Position, ReserveOf, RollbackOf, CommitOf, AdvanceOf,
         CompleteOf, PermitsOf;
    match st
    case NewSpace(bounds, limits) => SpaceAdded(w, bounds, limits);
    case NewObject(id, limit) =>
      NoPermitsYet(w, id);
      ObjectStepKeeps(w, id, Obj(Mutable, 0, limit), w.hands);
    case Authorize(id, maximum) => ViewAdded(w, id, maximum);
    case GrantWrites(id, count, _) =>
      ObjectIsOk(w, id);
      ObjectStepKeeps(w, id, Granted(w.objects[id], count), w.hands[id := w.hands[id] + count]);
    case ReleaseWrite(id) =>
      ObjectIsOk(w, id);
      ObjectStepKeeps(w, id, Released(w.objects[id]), w.hands - multiset{id});
    case SealObject(id) =>
      ObjectIsOk(w, id);
      ObjectStepKeeps(w, id, Sealed(w.objects[id]), w.hands);
    case Validate(i, v) => PlanAdded(w, i, v);
    case DoReserve(i, v, permits) =>
      ReserveFair(w, i, v, permits);
      SameTokens(w, i);
      SpaceStepKeeps(w, i, ReserveOf(w.spaces[i], v), w.tokens[i], w.hands - multiset(permits));
    case DoRollback(i, p) =>
      RollbackFair(w, i, p);
      SameTokens(w, i);
      SpaceStepKeeps(w, i, RollbackOf(w.spaces[i], p), w.tokens[i], w.hands + multiset(PermitsOf(p.replacements)));
    case DoCommit(i, p) =>
      SameTokens(w, i);
      CommitFair(w, i, p);
      SpaceStepKeeps(w, i, CommitOf(w.spaces[i], p),
                     PutToken(w.tokens[i], p.key, PermitsOf(Deeded(w.spaces[i].deeds, p.remove))), w.hands);
    case DoAdvance(i, key, from, to) =>
      AdvanceFair(w, i, key, from, to);
      SameTokens(w, i);
      SpaceStepKeeps(w, i, AdvanceOf(w.spaces[i], key, from, to), w.tokens[i], w.hands);
    case DoRetire(i, key) =>
      SameTokens(w, i);
      RetireFair(w, i, key);
      var held := if key in w.tokens[i] then w.tokens[i][key] else [];
      SpaceStepKeeps(w, i, AdvanceOf(w.spaces[i], key, Synchronized, Retiring), PutToken(w.tokens[i], key, []),
                     w.hands + multiset(held));
    case DoComplete(i, key) =>
      CompleteFair(w, i, key);
      SameTokens(w, i);
      SpaceStepKeeps(w, i, CompleteOf(w.spaces[i], key), w.tokens[i], w.hands);
    case DoDrain(i) =>
      DrainFair(w, i);
      SameTokens(w, i);
      var s := w.spaces[i];
      SpaceStepKeeps(w, i, s.(regions := s.regions[..|s.regions| - 1]), w.tokens[i],
                     w.hands + PermitBag(s.regions[|s.regions| - 1].permit));
  }

  /** A new space is empty: it holds no permit. */
  lemma SpaceAdded(w: World, bounds: Range, limits: Limits)
    requires WorldOk(w)
    ensures WorldOk(After(w, NewSpace(bounds, limits)))
  {
    hide Inv, ValidatedOk;
    var n, e := After(w, NewSpace(bounds, limits)), EmptySpace(bounds, limits);
    EmptyOk(bounds, limits);
    forall i | 0 <= i < |n.spaces|
      ensures Inv(n.spaces[i]) && TokensOk(n.spaces[i], n.tokens[i]) && ViewsOk(n, n.spaces[i])
    {
      if i < |w.spaces| { assert ViewsOk(w, w.spaces[i]); }
    }
    forall i, v | (i, v) in n.plans ensures PlanOk(n, i, v) { assert PlanOk(w, i, v); }
    forall id: nat ensures Conserved(n, id) {
      assert Conserved(w, id);
      assert SpaceHolds(e, map[], id) == 0;
      SumLast(AllHolds(w, id), 0);
      assert AllHolds(n, id) == AllHolds(w, id) + [0];
    }
  }

  lemma SameTokens(w: World, i: nat)
    requires WorldOk(w) && i < |w.spaces|
    ensures i < |w.tokens| == |w.spaces| && w.tokens[i := w.tokens[i]] == w.tokens
  {}

  lemma ObjectIsOk(w: World, id: nat)
    requires WorldOk(w) && id in w.objects
    ensures ObjOk(w.objects[id])
  {}

  lemma NoPermitsYet(w: World, id: nat)
    requires WorldOk(w) && id !in w.objects
    ensures w.hands[id] == 0
  {
    assert Conserved(w, id);
  }

  // ---- runs ---------------------------------------------------------------------------------------------------

  /** Nothing has happened yet: no space, no object, no permit. */
  function EmptyWorld(): World { World(map[], [], multiset{}, [], {}, {}) }

  lemma EmptyWorldOk()
    ensures WorldOk(EmptyWorld())
  {
    forall id: nat ensures Conserved(EmptyWorld(), id) {}
  }

  ghost predicate Run(ws: seq<World>, steps: seq<Step>) {
    && |ws| == |steps| + 1 && ws[0] == EmptyWorld()
    && forall k :: 0 <= k < |steps| ==> Follows(ws, steps, k)
  }

  ghost predicate Follows(ws: seq<World>, steps: seq<Step>, k: nat)
    requires k < |steps| && |ws| == |steps| + 1
  {
    |ws[k].tokens| == |ws[k].spaces| && Enabled(ws[k], steps[k]) && ws[k + 1] == After(ws[k], steps[k])
  }

  /** In every run from the empty world, every permit is accounted for at every point. */
  lemma {:induction false} RunKeeps(ws: seq<World>, steps: seq<Step>, k: nat)
    requires Run(ws, steps) && k <= |steps|
    ensures WorldOk(ws[k])
    decreases k
  {
    hide WorldOk, Enabled, After;
    if k == 0 {
      EmptyWorldOk();
    } else {
      RunKeeps(ws, steps, k - 1);
      assert Follows(ws, steps, k - 1);
      StepKeeps(ws[k - 1], steps[k - 1]);
    }
  }

  lemma StaysExecutable(w: World, st: Step, id: nat)
    requires WorldOk(w) && Enabled(w, st) && IsExecutable(w, id)
    ensures IsExecutable(After(w, st), id)
  {
    hide WorldOk, ValidatedOk, Refusal, CanCommit, Position, ReserveOf, RollbackOf, CommitOf, AdvanceOf, CompleteOf,
         PermitsOf;
  }

  /** Once some space maps an object executable, at no later point of the run can anything write it. */
  lemma {:induction false} WriteXorExecuteForever(ws: seq<World>, steps: seq<Step>, m: nat, n: nat, i: nat, j: nat,
                                                  id: nat)
    requires Run(ws, steps) && m <= n <= |steps|
    requires i < |ws[m].spaces| && j < |ws[m].spaces[i].regions| && MapsExecutable(ws[m].spaces[i].regions[j], id)
    ensures IsExecutable(ws[n], id) && |ws[n].tokens| == |ws[n].spaces| && NoWriter(ws[n], id)
    decreases n - m
  {
    hide Inv, TokensOk, ViewsOk, PlanOk, Conserved, Enabled, After, NoWriter;
    RunKeeps(ws, steps, m);
    RunKeeps(ws, steps, n);
    if n == m {
      WriteXorExecuteNow(ws[m], i, j, id);
    } else {
      WriteXorExecuteForever(ws, steps, m, n - 1, i, j, id);
      RunKeeps(ws, steps, n - 1);
      assert Follows(ws, steps, n - 1);
      StaysExecutable(ws[n - 1], steps[n - 1], id);
      ExecutableHasNoWriter(ws[n], id);
    }
  }
}
