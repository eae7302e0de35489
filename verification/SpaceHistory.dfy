/**
  Over every run of spaces and objects: a reserved change can commit exactly when no commit since has taken out a
  region of its own.
*/
module SpaceHistory {
  import opened Wrappers
  import opened SpaceLedger
  import opened SpaceState
  import opened SpaceCommit
  import opened SpaceRun
  import opened SpaceReserve
  import opened SpaceShared
  import opened WriteXorExecute

  // ---- keys are used once ------------------------------------------------------------------------------

  /** The regions a reserved change will bring in are not in the ledger yet. */
  ghost predicate NotYet(rs: seq<Region>, p: Prepared) {
    forall j :: 0 <= j < |p.replacements| ==> !HasKey(rs, p.replacements[j].key)
  }

  ghost predicate BringsNone(p: Prepared, keys: seq<nat>) {
    forall j :: 0 <= j < |p.replacements| ==> p.replacements[j].key !in keys
  }

  ghost predicate BringsApart(p: Prepared, q: Prepared) {
    forall i, j ::
        0 <= i < |p.replacements| && 0 <= j < |q.replacements| ==> p.replacements[i].key != q.replacements[j].key
  }

  /** No change brings in a key that is in the ledger, that another brings in, or that any takes out. */
  ghost predicate KeysOk(s: Space) {
    && (forall a :: a in s.pending ==> NotYet(s.regions, s.pending[a]))
    && (forall a, b :: a in s.pending && b in s.pending ==> BringsNone(s.pending[a], s.pending[b].remove))
    && (forall a, b :: a in s.pending && b in s.pending && a != b ==> BringsApart(s.pending[a], s.pending[b]))
  }

  lemma PendingKnown(s: Space, a: nat)
    requires Inv(s) && a in s.pending
    ensures a < s.nextChange && s.pending[a].key == a && IsToken(s, s.pending[a])
    ensures forall j :: 0 <= j < |s.pending[a].replacements| ==> s.pending[a].replacements[j].key in s.deeds
    ensures forall k :: k in s.pending[a].remove ==> k in s.deeds
  {
    hide Geometry, Mirrored, LedgerOk;
    var i := ReservedAt(s.transactions, a);
    KeyOfPending(s, i);
    var p := s.pending[a];
    LivePosition(s, i, p);
    KnownIn(s, s.transactions[i], p);
    forall j | 0 <= j < |p.replacements|
      ensures p.replacements[j].key in s.deeds
    {
      assert RegionOk(s, p.replacements[j]);
    }
    assert RecordOk(s, s.transactions[i]);
  }

  lemma RegionsKnown(s: Space, k: nat)
    requires LedgerOk(s) && HasKey(s.regions, k)
    ensures k in s.deeds
  {
    var j :| 0 <= j < |s.regions| && s.regions[j].key == k;
    assert RegionOk(s, s.regions[j]);
  }

  /** Fewer regions and fewer changes keep the keys apart. */
  lemma FewerKeys(s: Space, e: Space)
    requires KeysOk(s) && (forall a :: a in e.pending ==> a in s.pending && e.pending[a] == s.pending[a])
    requires forall r :: r in e.regions ==> r in s.regions
    ensures KeysOk(e)
  {
    forall a | a in e.pending ensures NotYet(e.regions, e.pending[a]) {
      var p := e.pending[a];
      assert NotYet(s.regions, p);
      forall j | 0 <= j < |p.replacements|
        ensures !HasKey(e.regions, p.replacements[j].key)
      {
        FewerHave(s.regions, e.regions, p.replacements[j].key);
      }
    }
  }

  lemma FewerHave(rs: seq<Region>, es: seq<Region>, k: nat)
    requires forall r :: r in es ==> r in rs
    ensures HasKey(es, k) ==> HasKey(rs, k)
  {
    if HasKey(es, k) {
      var j :| 0 <= j < |es| && es[j].key == k;
      assert es[j] in rs;
      var i :| 0 <= i < |rs| && rs[i] == es[j];
    }
  }

  // ---- reserving ---------------------------------------------------------------------------------------

  lemma NewKeys(s: Space, v: Validated, j: nat)
    requires j < |v.plan.replacements|
    ensures PreparedFrom(s, v).replacements[j].key >= s.nextRegion
  {}

  lemma ReserveKeys(s: Space, v: Validated, permits: seq<nat>)
    requires Inv(s) && KeysOk(s) && ValidatedOk(s.deeds, s.bounds, v) && Refusal(s, v, permits) == None
    ensures KeysOk(ReserveOf(s, v))
  {
    hide Inv, ValidatedOk, Refusal, Materialized;
    var e, n := ReserveOf(s, v), PreparedFrom(s, v);
    ReservedCanCommit(s, v, permits);
    LedgerOf(s);
    NewApart(s, v);
    forall a | a in e.pending ensures NotYet(e.regions, e.pending[a]) {}
    forall a, b | a in e.pending && b in e.pending ensures BringsNone(e.pending[a], e.pending[b].remove) {
      if a != n.key { TakesFromLedger(s, e.pending[a], n); }
    }
  }

  lemma LedgerOf(s: Space)
    requires Inv(s)
    ensures LedgerOk(s) && forall k :: k in s.deeds ==> k < s.nextRegion
  {}

  /** A new change takes out regions of the ledger, which no change is about to bring in. */
  lemma TakesFromLedger(s: Space, p: Prepared, n: Prepared)
    requires NotYet(s.regions, p) && Present(s.regions, n.remove)
    ensures BringsNone(p, n.remove)
  {
    forall j | 0 <= j < |p.replacements| ensures p.replacements[j].key !in n.remove {
      if p.replacements[j].key in n.remove { PresentHas(s.regions, n.remove, p.replacements[j].key); }
    }
  }

  lemma PresentHas(rs: seq<Region>, keys: seq<nat>, k: nat)
    requires Present(rs, keys) && k in keys
    ensures HasKey(rs, k)
  {
    var m :| 0 <= m < |keys| && keys[m] == k;
    assert HasKey(rs, keys[m]);
  }

  /** What a new change brings in is above every key there is. */
  lemma NewApart(s: Space, v: Validated)
    requires Inv(s) && ValidatedOk(s.deeds, s.bounds, v) && LedgerOk(s)
    ensures var n := PreparedFrom(s, v);
            && NotYet(s.regions, n) && BringsNone(n, n.remove)
            && forall a ::
                a in s.pending ==>
                BringsNone(n, s.pending[a].remove) && BringsApart(n, s.pending[a]) && BringsApart(s.pending[a], n)
  {
    hide Inv, ValidatedOk;
    var n := PreparedFrom(s, v);
    LedgerOf(s);
    RemoveKnown(s, v);
    forall j | 0 <= j < |n.replacements|
      ensures !HasKey(s.regions, n.replacements[j].key) && n.replacements[j].key >= s.nextRegion
    {
      NewKeys(s, v, j);
      if HasKey(s.regions, n.replacements[j].key) { RegionsKnown(s, n.replacements[j].key); }
    }
    forall a | a in s.pending
      ensures BringsNone(n, s.pending[a].remove) && BringsApart(n, s.pending[a]) && BringsApart(s.pending[a], n)
    {
      PendingKnown(s, a);
    }
  }

  // ---- committing --------------------------------------------------------------------------------------

  /** What is in the ledger after a commit was there before, or was brought in. */
  lemma CommitBrings(s: Space, p: Prepared, k: nat)
    requires Inv(s) && IsToken(s, p) && CanCommit(s, p) && HasKey(CommitOf(s, p).regions, k)
    ensures HasKey(s.regions, k) || exists j :: 0 <= j < |p.replacements| && p.replacements[j].key == k
  {
    hide CommitRegions, Inv;
    var i := TokenLive(s, p);
    LedgerOf(s);
    CommitJoins(s, s.transactions[i], p);
    var rs := CommitOf(s, p).regions;
    var m :| 0 <= m < |rs| && rs[m].key == k;
    assert rs[m] in rs;
    if rs[m] in s.regions { var j :| 0 <= j < |s.regions| && s.regions[j] == rs[m]; }
    else { var j :| 0 <= j < |p.replacements| && p.replacements[j] == rs[m]; }
  }

  lemma CommitKeys(s: Space, p: Prepared)
    requires Inv(s) && KeysOk(s) && IsToken(s, p) && CanCommit(s, p)
    ensures KeysOk(CommitOf(s, p))
  {
    hide Inv, CommitRegions, CanCommit;
    var e := CommitOf(s, p);
    forall a | a in e.pending ensures NotYet(e.regions, e.pending[a]) {
      var q := s.pending[a];
      assert NotYet(s.regions, q) && BringsApart(q, p);
      forall j | 0 <= j < |q.replacements| ensures !HasKey(e.regions, q.replacements[j].key) {
        if HasKey(e.regions, q.replacements[j].key) { CommitBrings(s, p, q.replacements[j].key); }
      }
    }
  }

  /** A commit leaves another change able to commit exactly if it was able to and the two take out no common region. */
  lemma CommitDecides(s: Space, p: Prepared, a: nat)
    requires Inv(s) && KeysOk(s) && IsToken(s, p) && CanCommit(s, p) && a in s.pending && a != p.key
    ensures CanCommit(CommitOf(s, p), s.pending[a]) <==> CanCommit(s, s.pending[a]) && !Share(p, s.pending[a])
  {
    hide Inv, CommitRegions;
    var i := TokenLive(s, p);
    var q := s.pending[a];
    PendingKnown(s, a);
    var j := TokenLive(s, q);
    if CanCommit(s, q) {
      CommitThenCommit(s, i, p, j, q);
    } else {
      var m :| 0 <= m < |q.remove| && !HasKey(s.regions, q.remove[m]);
      assert BringsNone(p, q.remove);
      if HasKey(CommitOf(s, p).regions, q.remove[m]) { CommitBrings(s, p, q.remove[m]); }
    }
  }

  // ---- one step of a world -----------------------------------------------------------------------------

  /** The step commits a change of space `i` that takes out a region the change `q` takes out too. */
  ghost predicate Spoils(st: Step, i: nat, q: Prepared) { st.DoCommit? && st.i == i && Share(st.p, q) }

  lemma NewSpaceKeys(w: World, st: Step)
    requires |w.tokens| == |w.spaces| && Enabled(w, st) && st.NewSpace?
    ensures var e := After(w, st).spaces;
            |e| == |w.spaces| + 1 && KeysOk(e[|w.spaces|]) && e[|w.spaces|].pending == map[]
  {}

  /** A step of another space, or of no space, leaves this one as it is. */
  lemma OtherStep(w: World, st: Step, i: nat)
    requires |w.tokens| == |w.spaces| && Enabled(w, st) && i < |w.spaces|
    ensures |After(w, st).spaces| == |w.spaces| + One(st.NewSpace?)
    ensures !(st.DoReserve? || st.DoRollback? || st.DoCommit? || st.DoAdvance? || st.DoRetire? || st.DoComplete?
              || st.DoDrain?) || st.i != i ==>
            After(w, st).spaces[i] == w.spaces[i]
  {
    hide ReserveOf, RollbackOf, CommitOf, AdvanceOf, CompleteOf, Refusal, CanCommit, ValidatedOk, Position;
  }

  /** What a step does to the changes a space has reserved. */
  ghost predicate Effect(s: Space, e: Space, st: Step, i: nat) {
    && e.nextChange >= s.nextChange
    && (forall a :: a in e.pending && a in s.pending ==>
          e.pending[a] == s.pending[a]
              && (CanCommit(e, e.pending[a]) <==> CanCommit(s, s.pending[a]) && !Spoils(st, i, s.pending[a])))
    && (forall a :: a in e.pending && a !in s.pending ==> a == s.nextChange && CanCommit(e, e.pending[a]))
  }

  lemma StepDecides(w: World, st: Step, i: nat)
    requires WorldOk(w) && Enabled(w, st) && i < |w.spaces| && KeysOk(w.spaces[i])
    ensures i < |After(w, st).spaces| && KeysOk(After(w, st).spaces[i])
            && Effect(w.spaces[i], After(w, st).spaces[i], st, i)
  {
    hide WorldOk, ReserveOf, RollbackOf, CommitOf, AdvanceOf, CompleteOf, Refusal, ValidatedOk, Position, KeysOk,
         Effect;
    SpaceOf(w, i);
    OtherStep(w, st, i);
    var s, e := w.spaces[i], After(w, st).spaces[i];
    if st.DoReserve? && st.i == i {
      PlanFor(w, i, st.v);
      ReserveKeys(s, st.v, st.permits);
      ReserveEffect(s, st);
    } else if st.DoCommit? && st.i == i {
      CommitKeys(s, st.p);
      CommitEffect(s, st);
    } else if st.DoDrain? && st.i == i {
      DrainEffect(s, e, st);
    } else {
      QuietStep(w, st, i);
      QuietEffect(s, e, st, i);
    }
  }

  lemma SpaceOf(w: World, i: nat)
    requires WorldOk(w) && i < |w.spaces|
    ensures |w.tokens| == |w.spaces| && Inv(w.spaces[i])
  {}

  lemma PlanFor(w: World, i: nat, v: Validated)
    requires WorldOk(w) && (i, v) in w.plans
    ensures i < |w.spaces| && ValidatedOk(w.spaces[i].deeds, w.spaces[i].bounds, v)
  {
    assert PlanOk(w, i, v);
  }

  /** Steps that change neither the regions nor what is reserved, but for what is rolled back. */
  lemma QuietStep(w: World, st: Step, i: nat)
    requires |w.tokens| == |w.spaces| && Enabled(w, st) && i < |w.spaces|
    requires !((st.DoReserve? || st.DoCommit? || st.DoDrain?) && st.i == i)
    ensures var s, e := w.spaces[i], After(w, st).spaces[i];
            && i < |After(w, st).spaces| && e.regions == s.regions && e.nextChange == s.nextChange
                && forall a :: a in e.pending ==> a in s.pending && e.pending[a] == s.pending[a]
  {
    hide ReserveOf, CommitOf, Refusal, ValidatedOk, CanCommit;
    OtherStep(w, st, i);
  }

  lemma QuietEffect(s: Space, e: Space, st: Step, i: nat)
    requires KeysOk(s) && e.regions == s.regions && e.nextChange == s.nextChange
             && (forall a :: a in e.pending ==> a in s.pending && e.pending[a] == s.pending[a])
    requires !(st.DoCommit? && st.i == i)
    ensures KeysOk(e) && Effect(s, e, st, i)
  {
    FewerKeys(s, e);
  }

  lemma ReserveEffect(s: Space, st: Step)
    requires Inv(s) && st.DoReserve? && ValidatedOk(s.deeds, s.bounds, st.v) && Refusal(s, st.v, st.permits) == None
    ensures Effect(s, ReserveOf(s, st.v), st, st.i)
  {
    hide Inv, ValidatedOk, Refusal, Materialized, Entered;
    ReservedCanCommit(s, st.v, st.permits);
    if s.nextChange in s.pending { PendingKnown(s, s.nextChange); }
  }

  lemma CommitEffect(s: Space, st: Step)
    requires Inv(s) && KeysOk(s) && st.DoCommit? && IsToken(s, st.p) && CanCommit(s, st.p)
    ensures Effect(s, CommitOf(s, st.p), st, st.i)
  {
    hide Inv, CommitRegions, CanCommit, KeysOk;
    var e := CommitOf(s, st.p);
    forall a | a in e.pending && a in s.pending
      ensures CanCommit(e, e.pending[a]) <==> CanCommit(s, s.pending[a]) && !Spoils(st, st.i, s.pending[a])
    {
      CommitDecides(s, st.p, a);
    }
  }

  /** A space is drained only when nothing is reserved. */
  lemma DrainEffect(s: Space, e: Space, st: Step)
    requires Inv(s) && KeysOk(s) && st.DoDrain? && s.transactions == [] && s.regions != []
             && e == s.(regions := s.regions[..|s.regions| - 1])
    ensures KeysOk(e) && Effect(s, e, st, st.i)
  {
    hide LedgerOk;
    forall a | a in s.pending ensures false { var j := ReservedAt(s.transactions, a); }
  }

  // ---- whole runs --------------------------------------------------------------------------------------

  lemma {:induction false} KeysAlways(ws: seq<World>, steps: seq<Step>, n: nat, i: nat)
    requires Run(ws, steps) && n <= |steps| && i < |ws[n].spaces|
    ensures KeysOk(ws[n].spaces[i])
    decreases n
  {
    hide WorldOk, Enabled, After, KeysOk;
    if n > 0 {
      RunKeeps(ws, steps, n - 1);
      assert Follows(ws, steps, n - 1);
      SpacesGrow(ws[n - 1], steps[n - 1]);
      if i < |ws[n - 1].spaces| {
        KeysAlways(ws, steps, n - 1, i);
        StepDecides(ws[n - 1], steps[n - 1], i);
      } else {
        NewSpaceKeys(ws[n - 1], steps[n - 1]);
      }
    }
  }

  lemma SpacesGrow(w: World, st: Step)
    requires |w.tokens| == |w.spaces| && Enabled(w, st)
    ensures |After(w, st).spaces| == |w.spaces| + One(st.NewSpace?)
  {
    hide ReserveOf, RollbackOf, CommitOf, AdvanceOf, CompleteOf, Refusal, CanCommit, ValidatedOk, Position;
  }

  /**
    The change was reserved at this point, and the step taken here commits another that takes out a region of its own.
  */
  ghost predicate SpoiledAt(ws: seq<World>, steps: seq<Step>, j: nat, i: nat, a: nat)
    requires j < |steps| && |ws| == |steps| + 1
  {
    i < |ws[j].spaces| && a in ws[j].spaces[i].pending && Spoils(steps[j], i, ws[j].spaces[i].pending[a])
  }

  /** No commit since the reservation has taken out a region of the change. */
  ghost predicate Spared(ws: seq<World>, steps: seq<Step>, n: nat, i: nat, a: nat)
    requires n <= |steps| && |ws| == |steps| + 1
  {
    forall j :: 0 <= j < n ==> !SpoiledAt(ws, steps, j, i, a)
  }

  /** A change is reserved under a key above all those before it. */
  lemma {:induction false} KeysRise(ws: seq<World>, steps: seq<Step>, j: nat, n: nat, i: nat, a: nat)
    requires Run(ws, steps) && j <= n <= |steps| && i < |ws[j].spaces| && a in ws[j].spaces[i].pending
    ensures i < |ws[n].spaces| && a < ws[n].spaces[i].nextChange
    decreases n
  {
    hide WorldOk, Enabled, After, KeysOk, Inv;
    if j == n {
      RunKeeps(ws, steps, n);
      SpaceOf(ws[n], i);
      PendingKnown(ws[n].spaces[i], a);
    } else {
      KeysRise(ws, steps, j, n - 1, i, a);
      RunKeeps(ws, steps, n - 1);
      KeysAlways(ws, steps, n - 1, i);
      assert Follows(ws, steps, n - 1);
      StepDecides(ws[n - 1], steps[n - 1], i);
    }
  }

  /**
    In every run, a reserved change can commit if and only if no change committed since its reservation took out one of
    its regions.
  */
  lemma {:induction false} CommitExactly(ws: seq<World>, steps: seq<Step>, n: nat, i: nat, a: nat)
    requires Run(ws, steps) && n <= |steps| && i < |ws[n].spaces| && a in ws[n].spaces[i].pending
    ensures CanCommit(ws[n].spaces[i], ws[n].spaces[i].pending[a]) <==> Spared(ws, steps, n, i, a)
    decreases n
  {
    hide WorldOk, Enabled, After, KeysOk, Inv, CanCommit, Spoils;
    if n > 0 {
      var w, st := ws[n - 1], steps[n - 1];
      RunKeeps(ws, steps, n - 1);
      assert Follows(ws, steps, n - 1);
      SpacesGrow(w, st);
      if i >= |w.spaces| { NewSpaceKeys(w, st); }
      KeysAlways(ws, steps, n - 1, i);
      StepDecides(w, st, i);
      if a in w.spaces[i].pending {
        CommitExactly(ws, steps, n - 1, i, a);
        assert SpoiledAt(ws, steps, n - 1, i, a) <==> Spoils(st, i, w.spaces[i].pending[a]);
      } else {
        forall j | 0 <= j < n ensures !SpoiledAt(ws, steps, j, i, a) {
          if SpoiledAt(ws, steps, j, i, a) { KeysRise(ws, steps, j, n - 1, i, a); }
        }
      }
    }
  }

  /**
    In a run in which no two changes ever reserved together share a region, every reserved change can commit at every
    point.
  */
  lemma UnsharedAlwaysCommits(ws: seq<World>, steps: seq<Step>, n: nat, i: nat, a: nat)
    requires Run(ws, steps) && n <= |steps| && i < |ws[n].spaces| && a in ws[n].spaces[i].pending
    requires forall m :: 0 <= m < n && i < |ws[m].spaces| ==> NoneShared(ws[m].spaces[i])
    ensures IsToken(ws[n].spaces[i], ws[n].spaces[i].pending[a])
            && Enabled(ws[n], DoCommit(i, ws[n].spaces[i].pending[a]))
  {
    hide WorldOk, After, KeysOk, Inv, CanCommit, Share;
    CommitExactly(ws, steps, n, i, a);
    forall j | 0 <= j < n ensures !SpoiledAt(ws, steps, j, i, a) {
      if SpoiledAt(ws, steps, j, i, a) {
        assert Follows(ws, steps, j);
        assert NoneShared(ws[j].spaces[i]);
        OwnCommit(ws, steps, j, n, i, a);
      }
    }
    RunKeeps(ws, steps, n);
    SpaceOf(ws[n], i);
    PendingKnown(ws[n].spaces[i], a);
    TokenCommits(ws[n], i, ws[n].spaces[i].pending[a]);
  }

  /** A key once used up is not used again. */
  lemma {:induction false} NeverAgain(ws: seq<World>, steps: seq<Step>, m: nat, n: nat, i: nat, a: nat)
    requires Run(ws, steps) && m <= n <= |steps| && i < |ws[m].spaces| && a < ws[m].spaces[i].nextChange
             && a !in ws[m].spaces[i].pending
    ensures i < |ws[n].spaces| && a < ws[n].spaces[i].nextChange && a !in ws[n].spaces[i].pending
    decreases n
  {
    hide WorldOk, Enabled, After, KeysOk, CanCommit, Spoils;
    if m < n {
      NeverAgain(ws, steps, m, n - 1, i, a);
      RunKeeps(ws, steps, n - 1);
      KeysAlways(ws, steps, n - 1, i);
      assert Follows(ws, steps, n - 1);
      StepDecides(ws[n - 1], steps[n - 1], i);
    }
  }

  /** A change still reserved later is not the one that commits. */
  lemma OwnCommit(ws: seq<World>, steps: seq<Step>, j: nat, n: nat, i: nat, a: nat)
    requires Run(ws, steps) && j < n <= |steps| && i < |ws[j].spaces| && i < |ws[n].spaces|
             && a in ws[n].spaces[i].pending
    requires a in ws[j].spaces[i].pending && steps[j].DoCommit? && steps[j].i == i
    ensures steps[j].p.key in ws[j].spaces[i].pending && ws[j].spaces[i].pending[steps[j].p.key] == steps[j].p
            && steps[j].p.key != a
  {
    hide WorldOk, KeysOk, Inv, CanCommit, CommitRegions, Position;
    assert Follows(ws, steps, j);
    KeysRise(ws, steps, j, j + 1, i, a);
    if steps[j].p.key == a { NeverAgain(ws, steps, j + 1, n, i, a); }
  }
}
