/** What Unmap and Protect do to a tree: the flat map, the tables used and freed, the frames kept. */
module PageTreeEdit {
  import opened Wrappers
  import opened Pte
  import opened PageTree

  // ---- splitting a leaf -------------------------------------------------------

  /** Cutting a leaf into 512 smaller ones changes no translation. */
  lemma SplitFlat(level: nat, ppn: nat, flags: nat, b: nat, vpn: nat)
    requires level > 0 && b <= vpn < b + Pages(level)
    ensures Forget(Lookup(level - 1, Split(level, ppn, flags), b, vpn)) == Some(Target(ppn + (vpn - b), flags))
  {
    SlotInTable(b, Pages(level - 1), vpn);
  }

  lemma SplitWf(level: nat, ppn: nat, flags: nat)
    requires level > 0 && WfEntry(level, Leaf(ppn, flags))
    ensures WfTable(level - 1, Split(level, ppn, flags), {})
  {
    var p := Pages(level - 1);
    var t := Split(level, ppn, flags);
    forall k | 0 <= k < ENTRIES ensures WfEntry(level - 1, t[k]) {
      MulMono(k, ENTRIES, p);
      AlignedSum(ppn, k, p);
    }
  }

  lemma AlignedSum(x: nat, k: nat, p: nat)
    requires p > 0 && x % (512 * p) == 0
    ensures (x + k * p) % p == 0
  {
    var q := x / (512 * p);
    assert x == 512 * p * q;
    assert x + k * p == (512 * q + k) * p by {
      assert 512 * p * q == 512 * q * p;
    }
    MultipleMod(512 * q + k, p);
  }

  lemma MultipleMod(q: nat, p: nat)
    requires p > 0
    ensures (q * p) % p == 0 && (q * p) / p == q
  {
    DivBounds(q * p, p);
    var d := (q * p) / p;
    if d < q { MulMono(d, q, p); } else if q < d { MulMono(q, d, p); }
  }

  lemma {:induction false} SplitHasNoLinks(level: nat, ppn: nat, flags: nat, n: nat, f: nat)
    requires level > 0 && n <= ENTRIES
    ensures TableLinks(Split(level, ppn, flags), {}, n, f) == 0
  {
    if n > 0 { SplitHasNoLinks(level, ppn, flags, n - 1, f); }
  }

  lemma {:induction false} SplitNeed(level: nat, ppn: nat, flags: nat, b: nat, lo: nat, hi: nat, n: nat)
    requires level > 0 && n <= ENTRIES
    ensures TableNeed(level - 1, Split(level, ppn, flags), b, lo, hi, {}, n) == SplitCountBelow(level - 1, b, lo, hi, n)
  {
    if n > 0 { SplitNeed(level, ppn, flags, b, lo, hi, n - 1); }
  }

  // ---- tables used --------------------------------------------------------------

  /** An edit takes exactly the tables preflight counted, from the end of the supply. */
  lemma {:induction false} EntryUse(op: Edit, level: nat, e: Entry, b: nat, lo: nat, hi: nat, s: Supply)
    requires Need(level, e, b, lo, hi) <= |s.frames|
    ensures EditEntry(op, level, e, b, lo, hi, s).supply.frames == s.frames[..|s.frames| - Need(level, e, b, lo, hi)]
    decreases level, 0
  {
    if Outside(b, Pages(level), lo, hi) { return; }
    match e
    case Invalid =>
    case Leaf(ppn, flags) =>
      if !Covered(b, Pages(level), lo, hi) && level > 0 {
        SplitNeed(level, ppn, flags, b, lo, hi, ENTRIES);
        TableUse(op, level - 1, Split(level, ppn, flags), b, lo, hi, {}, ENTRIES, Pop(s));
      }
    case Branch(frame, sub) =>
      if level > 0 && |sub| == ENTRIES {
        TableUse(op, level - 1, sub, b, lo, hi, {}, ENTRIES, s);
      }
  }

  lemma {:induction false} TableUse(op: Edit, level: nat, t: seq<Entry>, base: nat, lo: nat, hi: nat, shared: set<nat>,
                                    n: nat, s: Supply)
    requires |t| == ENTRIES && n <= ENTRIES
    requires TableNeed(level, t, base, lo, hi, shared, n) <= |s.frames|
    ensures EditTable(op, level, t, base, lo, hi, shared, n, s).supply.frames
         == s.frames[..|s.frames| - TableNeed(level, t, base, lo, hi, shared, n)]
    decreases level, 1, n
  {
    if n > 0 {
      TableUse(op, level, t, base, lo, hi, shared, n - 1, s);
      var r := EditTable(op, level, t, base, lo, hi, shared, n - 1, s);
      if n - 1 !in shared {
        EntryUse(op, level, t[n - 1], SlotBase(base, Pages(level), n - 1), lo, hi, r.supply);
      }
    }
  }

  lemma {:induction false} NeedMono(level: nat, t: seq<Entry>, base: nat, lo: nat, hi: nat, shared: set<nat>, i: nat,
                                    n: nat)
    requires |t| == ENTRIES && i < n <= ENTRIES
    ensures TableNeed(level, t, base, lo, hi, shared, i + 1) <= TableNeed(level, t, base, lo, hi, shared, n)
    decreases n
  {
    if i + 1 < n { NeedMono(level, t, base, lo, hi, shared, i, n - 1); }
  }

  /** What slot `i` becomes, and with which supply. */
  lemma {:induction false} SlotAfter(op: Edit, level: nat, t: seq<Entry>, base: nat, lo: nat, hi: nat,
                                     shared: set<nat>, i: nat, n: nat, s: Supply)
    requires |t| == ENTRIES && i < n <= ENTRIES
    ensures EditTable(op, level, t, base, lo, hi, shared, n, s).table[i]
         == if i in shared then t[i]
            else EditEntry(op, level, t[i], SlotBase(base, Pages(level), i), lo, hi,
                           EditTable(op, level, t, base, lo, hi, shared, i, s).supply).entry
    decreases n
  {
    if i + 1 < n { SlotAfter(op, level, t, base, lo, hi, shared, i, n - 1, s); }
  }

  // ---- the flat map -------------------------------------------------------------

  function EditTarget(op: Edit, m: Option<Target>): Option<Target> {
    match op
    case Remove => None
    case SetFlags(to) => if m.None? then None else Some(Target(m.value.ppn, to))
  }

  /** Every page in the range is edited and every other page keeps its translation. */
  lemma {:induction false} EntryFlat(op: Edit, level: nat, e: Entry, b: nat, lo: nat, hi: nat, s: Supply, vpn: nat)
    requires WfEntry(level, e) && Need(level, e, b, lo, hi) <= |s.frames|
    requires b <= vpn < b + Pages(level)
    ensures Flat(level, EditEntry(op, level, e, b, lo, hi, s).entry, b, vpn)
         == if lo <= vpn < hi then EditTarget(op, Flat(level, e, b, vpn)) else Flat(level, e, b, vpn)
    decreases level, 0
  {
    if Outside(b, Pages(level), lo, hi) { return; }
    match e
    case Invalid =>
    case Leaf(ppn, flags) =>
      if !Covered(b, Pages(level), lo, hi) && level > 0 {
        SplitNeed(level, ppn, flags, b, lo, hi, ENTRIES);
        SplitWf(level, ppn, flags);
        SplitFlat(level, ppn, flags, b, vpn);
        TableFlat(op, level - 1, Split(level, ppn, flags), b, lo, hi, {}, Pop(s), vpn);
      }
    case Branch(frame, sub) =>
      TableFlat(op, level - 1, sub, b, lo, hi, {}, s, vpn);
      var r := EditTable(op, level - 1, sub, b, lo, hi, {}, ENTRIES, s);
      SlotInTable(b, Pages(level - 1), vpn);
  }

  lemma {:induction false} TableFlat(op: Edit, level: nat, t: seq<Entry>, base: nat, lo: nat, hi: nat,
                                     shared: set<nat>, s: Supply, vpn: nat)
    requires WfTable(level, t, shared) && TableNeed(level, t, base, lo, hi, shared, ENTRIES) <= |s.frames|
    requires base <= vpn < base + 512 * Pages(level)
    ensures Forget(Lookup(level, EditTable(op, level, t, base, lo, hi, shared, ENTRIES, s).table, base, vpn))
         == var m := Forget(Lookup(level, t, base, vpn));
            if lo <= vpn < hi && SlotOf(base, Pages(level), vpn) !in shared then EditTarget(op, m) else m
    decreases level, 1
  {
    SlotInTable(base, Pages(level), vpn);
    var i := SlotOf(base, Pages(level), vpn);
    SlotAfter(op, level, t, base, lo, hi, shared, i, ENTRIES, s);
    if i !in shared {
      NeedMono(level, t, base, lo, hi, shared, i, ENTRIES);
      TableUse(op, level, t, base, lo, hi, shared, i, s);
      var r := EditTable(op, level, t, base, lo, hi, shared, i, s);
      EntryFlat(op, level, t[i], SlotBase(base, Pages(level), i), lo, hi, r.supply, vpn);
    }
  }

  // ---- frames ---------------------------------------------------------------------

  lemma {:induction false} LinksOfPrefix(x: seq<Entry>, y: seq<Entry>, shared: set<nat>, n: nat, f: nat)
    requires n <= |x| && n <= |y| && forall i :: 0 <= i < n ==> x[i] == y[i]
    ensures TableLinks(x, shared, n, f) == TableLinks(y, shared, n, f)
  {
    if n > 0 { LinksOfPrefix(x, y, shared, n - 1, f); }
  }

  lemma {:induction false} AllInvalidHasNoLinks(t: seq<Entry>, n: nat, f: nat)
    requires AllInvalid(t) && n <= |t|
    ensures TableLinks(t, {}, n, f) == 0
  {
    if n > 0 { AllInvalidHasNoLinks(t, n - 1, f); }
  }

  function Count(s: seq<nat>, f: nat): nat { multiset(s)[f] }

  lemma CountAppend(s: seq<nat>, x: nat, f: nat)
    ensures Count(s + [x], f) == Count(s, f) + (if x == f then 1 else 0)
  {}

  /** How often a frame is in the supply or retired. */
  function Held(s: Supply, f: nat): nat { Count(s.frames, f) + Count(s.retired, f) }

  lemma HeldPop(s: Supply, f: nat)
    requires |s.frames| > 0
    ensures Held(s, f) == Held(Pop(s), f) + (if Top(s) == f then 1 else 0)
  {
    CountAppend(Pop(s).frames, Top(s), f);
    assert s.frames == Pop(s).frames + [Top(s)];
  }

  /** No table frame appears or disappears: it is in the tree, in the supply, or retired. */
  lemma {:induction false} EntryLinks(op: Edit, level: nat, e: Entry, b: nat, lo: nat, hi: nat, s: Supply, f: nat)
    ensures var r := EditEntry(op, level, e, b, lo, hi, s);
            Links(r.entry, f) + Held(r.supply, f) == Links(e, f) + Held(s, f)
    decreases level, 0
  {
    if Outside(b, Pages(level), lo, hi) || level == 0 { return; }
    match e
    case Invalid =>
    case Leaf(ppn, flags) =>
      if !Covered(b, Pages(level), lo, hi) && |s.frames| > 0 {
        TableLinksKept(op, level - 1, Split(level, ppn, flags), b, lo, hi, {}, ENTRIES, Pop(s), f);
        SplitHasNoLinks(level, ppn, flags, ENTRIES, f);
        HeldPop(s, f);
      }
    case Branch(frame, sub) =>
      if |sub| == ENTRIES {
        TableLinksKept(op, level - 1, sub, b, lo, hi, {}, ENTRIES, s, f);
        var r := EditTable(op, level - 1, sub, b, lo, hi, {}, ENTRIES, s);
        if op.Remove? && AllInvalid(r.table) {
          AllInvalidHasNoLinks(r.table, ENTRIES, f);
          CountAppend(r.supply.retired, frame, f);
        }
      }
  }

  lemma {:induction false} TableLinksKept(op: Edit, level: nat, t: seq<Entry>, base: nat, lo: nat, hi: nat,
                                          shared: set<nat>, n: nat, s: Supply, f: nat)
    requires |t| == ENTRIES && n <= ENTRIES
    ensures var r := EditTable(op, level, t, base, lo, hi, shared, n, s);
            TableLinks(r.table, shared, n, f) + Held(r.supply, f) == TableLinks(t, shared, n, f) + Held(s, f)
    decreases level, 1, n
  {
    if n > 0 {
      TableLinksKept(op, level, t, base, lo, hi, shared, n - 1, s, f);
      var r := EditTable(op, level, t, base, lo, hi, shared, n - 1, s);
      var q := EditTable(op, level, t, base, lo, hi, shared, n, s);
      LinksOfPrefix(q.table, r.table, shared, n - 1, f);
      if n - 1 !in shared {
        EntryLinks(op, level, t[n - 1], SlotBase(base, Pages(level), n - 1), lo, hi, r.supply, f);
      }
    }
  }

  // ---- shape ------------------------------------------------------------------------

  ghost predicate Encodable(s: Supply) { forall i :: 0 <= i < |s.frames| ==> s.frames[i] < MAX_PPN }

  lemma {:induction false} EntryWf(op: Edit, level: nat, e: Entry, b: nat, lo: nat, hi: nat, s: Supply)
    requires WfEntry(level, e) && Need(level, e, b, lo, hi) <= |s.frames| && Encodable(s)
    requires op.SetFlags? ==> ValidLeafFlags(op.to)
    ensures WfEntry(level, EditEntry(op, level, e, b, lo, hi, s).entry)
    decreases level, 0
  {
    if Outside(b, Pages(level), lo, hi) { return; }
    match e
    case Invalid =>
    case Leaf(ppn, flags) =>
      if !Covered(b, Pages(level), lo, hi) && level > 0 {
        SplitNeed(level, ppn, flags, b, lo, hi, ENTRIES);
        SplitWf(level, ppn, flags);
        TableWf(op, level - 1, Split(level, ppn, flags), b, lo, hi, {}, Pop(s));
      }
    case Branch(frame, sub) =>
      TableWf(op, level - 1, sub, b, lo, hi, {}, s);
  }

  lemma {:induction false} TableWf(op: Edit, level: nat, t: seq<Entry>, base: nat, lo: nat, hi: nat, shared: set<nat>,
                                   s: Supply)
    requires WfTable(level, t, shared) && TableNeed(level, t, base, lo, hi, shared, ENTRIES) <= |s.frames|
             && Encodable(s)
    requires op.SetFlags? ==> ValidLeafFlags(op.to)
    ensures WfTable(level, EditTable(op, level, t, base, lo, hi, shared, ENTRIES, s).table, shared)
    decreases level, 1
  {
    var q := EditTable(op, level, t, base, lo, hi, shared, ENTRIES, s);
    forall i | 0 <= i < ENTRIES && i !in shared ensures WfEntry(level, q.table[i]) {
      SlotAfter(op, level, t, base, lo, hi, shared, i, ENTRIES, s);
      NeedMono(level, t, base, lo, hi, shared, i, ENTRIES);
      TableUse(op, level, t, base, lo, hi, shared, i, s);
      var r := EditTable(op, level, t, base, lo, hi, shared, i, s);
      EntryWf(op, level, t[i], SlotBase(base, Pages(level), i), lo, hi, r.supply);
    }
  }

  // ---- tables freed -------------------------------------------------------------------

  /** Removing part of a leaf never removes all of it. */
  lemma PartialLeafRemains(level: nat, ppn: nat, flags: nat, b: nat, lo: nat, hi: nat, s: Supply)
    requires level > 0 && WfEntry(level, Leaf(ppn, flags))
    requires !Covered(b, Pages(level), lo, hi) && SplitCountBelow(level - 1, b, lo, hi, ENTRIES) <= |s.frames|
    ensures !AllInvalid(EditTable(Remove, level - 1, Split(level, ppn, flags), b, lo, hi, {}, ENTRIES, s).table)
  {
    var vpn := if b < lo then b else b + Pages(level) - 1;
    SplitNeed(level, ppn, flags, b, lo, hi, ENTRIES);
    SplitWf(level, ppn, flags);
    SplitFlat(level, ppn, flags, b, vpn);
    TableFlat(Remove, level - 1, Split(level, ppn, flags), b, lo, hi, {}, s, vpn);
    SlotInTable(b, Pages(level - 1), vpn);
  }

  /** Preflight knows which entries disappear. */
  lemma {:induction false} EntryGone(level: nat, e: Entry, b: nat, lo: nat, hi: nat, s: Supply)
    requires WfEntry(level, e) && Need(level, e, b, lo, hi) <= |s.frames|
    ensures EditEntry(Remove, level, e, b, lo, hi, s).entry == Invalid <==> Gone(level, e, b, lo, hi)
    decreases level, 0
  {
    if Outside(b, Pages(level), lo, hi) { return; }
    match e
    case Invalid =>
    case Leaf(ppn, flags) =>
    case Branch(frame, sub) =>
      TableAllGone(level - 1, sub, b, lo, hi, {}, ENTRIES, s);
  }

  lemma {:induction false} TableAllGone(level: nat, t: seq<Entry>, base: nat, lo: nat, hi: nat, shared: set<nat>,
                                        n: nat, s: Supply)
    requires WfTable(level, t, shared) && n <= ENTRIES && TableNeed(level, t, base, lo, hi, shared, n) <= |s.frames|
    requires forall i :: 0 <= i < |t| && i in shared ==> t[i] != Invalid
    ensures AllInvalid(EditTable(Remove, level, t, base, lo, hi, shared, n, s).table) <==>
            TableGone(level, t, base, lo, hi, shared, n)
    decreases level, 1, n
  {
    if n > 0 {
      TableAllGone(level, t, base, lo, hi, shared, n - 1, s);
      TableUse(Remove, level, t, base, lo, hi, shared, n - 1, s);
      var r := EditTable(Remove, level, t, base, lo, hi, shared, n - 1, s);
      var q := EditTable(Remove, level, t, base, lo, hi, shared, n, s);
      assert q.table[..n - 1] == r.table;
      if n - 1 !in shared {
        EntryGone(level, t[n - 1], SlotBase(base, Pages(level), n - 1), lo, hi, r.supply);
      }
      assert AllInvalid(q.table) <==> AllInvalid(r.table) && q.table[n - 1] == Invalid by {
        forall i | 0 <= i < n - 1 ensures q.table[i] == r.table[i] {
          assert q.table[..n - 1][i] == r.table[i];
        }
      }
    }
  }

  /** An edit retires exactly the tables preflight counted; Protect retires none. */
  lemma {:induction false} EntryFreed(op: Edit, level: nat, e: Entry, b: nat, lo: nat, hi: nat, s: Supply)
    requires WfEntry(level, e) && Need(level, e, b, lo, hi) <= |s.frames|
    ensures |EditEntry(op, level, e, b, lo, hi, s).supply.retired|
         == |s.retired| + (if op.Remove? then Freed(level, e, b, lo, hi) else 0)
    decreases level, 0
  {
    if Outside(b, Pages(level), lo, hi) { return; }
    match e
    case Invalid =>
    case Leaf(ppn, flags) =>
      if !Covered(b, Pages(level), lo, hi) && level > 0 {
        SplitNeed(level, ppn, flags, b, lo, hi, ENTRIES);
        SplitWf(level, ppn, flags);
        TableFreedExact(op, level - 1, Split(level, ppn, flags), b, lo, hi, {}, ENTRIES, Pop(s));
        SplitFreesNone(level, ppn, flags, b, lo, hi, ENTRIES);
      }
    case Branch(frame, sub) =>
      TableFreedExact(op, level - 1, sub, b, lo, hi, {}, ENTRIES, s);
      if op.Remove? { TableAllGone(level - 1, sub, b, lo, hi, {}, ENTRIES, s); }
  }

  lemma {:induction false} SplitFreesNone(level: nat, ppn: nat, flags: nat, b: nat, lo: nat, hi: nat, n: nat)
    requires level > 0 && n <= ENTRIES
    ensures TableFreed(level - 1, Split(level, ppn, flags), b, lo, hi, {}, n) == 0
  {
    if n > 0 { SplitFreesNone(level, ppn, flags, b, lo, hi, n - 1); }
  }

  lemma {:induction false} TableFreedExact(op: Edit, level: nat, t: seq<Entry>, base: nat, lo: nat, hi: nat,
                                           shared: set<nat>, n: nat, s: Supply)
    requires WfTable(level, t, shared) && n <= ENTRIES && TableNeed(level, t, base, lo, hi, shared, n) <= |s.frames|
    ensures |EditTable(op, level, t, base, lo, hi, shared, n, s).supply.retired|
         == |s.retired| + (if op.Remove? then TableFreed(level, t, base, lo, hi, shared, n) else 0)
    decreases level, 1, n
  {
    if n > 0 {
      TableFreedExact(op, level, t, base, lo, hi, shared, n - 1, s);
      TableUse(op, level, t, base, lo, hi, shared, n - 1, s);
      var r := EditTable(op, level, t, base, lo, hi, shared, n - 1, s);
      if n - 1 !in shared {
        EntryFreed(op, level, t[n - 1], SlotBase(base, Pages(level), n - 1), lo, hi, r.supply);
      }
    }
  }
}
