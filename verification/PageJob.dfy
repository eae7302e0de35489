/** A range edit in progress on tables in memory: what each slot asks for and what it hands on. */
module PageJob {
  import opened Pte
  import opened PageTree
  import opened PageTreeEdit
  import opened PageMemory

  /** The range being edited and how. */
  datatype Span = Span(op: Edit, lo: nat, hi: nat)

  /** The mutable part of a tree: memory, the owner ledger, and the supply in hand. */
  datatype State = State(mem: Memory, owners: seq<nat>, supply: Supply)

  /** An edit of the table `t` of `level` in `frame`, as it stood at `start`. */
  datatype Job = Job(range: Span, level: nat, t: seq<Entry>, base: nat, shared: set<nat>, frame: nat, start: State)

  ghost predicate Supplied(mem: Memory, s: Supply) { forall f :: Count(s.frames, f) > 0 ==> f in mem }

  /** The tables below an entry, or a table, are all in the ledger. */
  ghost predicate Ledgered(owners: seq<nat>, e: Entry) { forall f :: Links(e, f) <= Count(owners, f) }

  ghost predicate TableLedgered(owners: seq<nat>, t: seq<Entry>, shared: set<nat>) {
    forall f :: TableLinks(t, shared, |t|, f) <= Count(owners, f)
  }

  /** Frames only move between the ledger, the supply and the retired list. */
  ghost predicate Moved(a: State, b: State) {
    forall f :: Count(b.owners, f) + Held(b.supply, f) == Count(a.owners, f) + Held(a.supply, f)
  }

  function Before(j: Job, i: nat): (r: EditedTable)
    requires |j.t| == ENTRIES && i <= ENTRIES
    ensures |r.table| == i
  {
    EditTable(j.range.op, j.level, j.t, j.base, j.range.lo, j.range.hi, j.shared, i, j.start.supply)
  }

  /** The table with the slots before `i` edited and the others as they were. */
  function Midway(j: Job, i: nat): (c: seq<Entry>)
    requires |j.t| == ENTRIES && i <= ENTRIES
    ensures |c| == ENTRIES
  {
    Before(j, i).table + j.t[i..]
  }

  /** What an edit of a table asks for. */
  ghost predicate Admissible(j: Job, root: nat) {
    && WfMemory(j.start.mem) && Stores(j.start.mem, j.frame, j.t) && WfTable(j.level, j.t, j.shared)
    && TableApart(j.frame, j.t, j.shared, j.start.supply) && Supplied(j.start.mem, j.start.supply)
    && TableNeed(j.level, j.t, j.base, j.range.lo, j.range.hi, j.shared, ENTRIES) <= |j.start.supply.frames|
    && TableLedgered(j.start.owners, j.t, j.shared)
    && (j.frame != root ==> TableLinks(j.t, j.shared, ENTRIES, root) + Held(j.start.supply, root) == 0)
  }

  /** What holds once the slots before `i` are edited. */
  ghost predicate Reached(j: Job, i: nat, now: State)
    requires |j.t| == ENTRIES && i <= ENTRIES
  {
    && WfMemory(now.mem) && TableWrite(j.start.mem, now.mem, j.frame, j.t, j.shared, j.start.supply)
    && now.supply == Before(j, i).supply && Moved(j.start, now) && Stores(now.mem, j.frame, Midway(j, i))
  }

  /** What an edit of one slot asks for. */
  ghost predicate SlotAdmissible(range: Span, level: nat, e: Entry, b: nat, frame: nat, i: nat, now: State, root: nat) {
    && WfMemory(now.mem) && frame in now.mem && i < ENTRIES && Denotes(now.mem, now.mem[frame][i], e)
        && WfEntry(level, e)
    && SlotApart(frame, e, now.supply) && Supplied(now.mem, now.supply) && Ledgered(now.owners, e)
    && Need(level, e, b, range.lo, range.hi) <= |now.supply.frames|
    && (frame != root ==> Links(e, root) + Held(now.supply, root) == 0)
  }

  /** What an edit of one slot hands on. */
  ghost predicate SlotDone(range: Span, level: nat, e: Entry, b: nat, frame: nat, i: nat, was: State, now: State) {
    var r := EditEntry(range.op, level, e, b, range.lo, range.hi, was.supply);
    && i < ENTRIES && WfMemory(now.mem) && SlotWrite(was.mem, now.mem, frame, i, e, was.supply)
    && now.supply == r.supply && Moved(was, now) && Denotes(now.mem, now.mem[frame][i], r.entry)
  }

  // ---- the table midway ---------------------------------------------------------------

  lemma {:induction false} SuffixLinks(x: seq<Entry>, y: seq<Entry>, shared: set<nat>, i: nat, n: nat, f: nat)
    requires |x| == |y| && i <= n <= |x| && forall k :: i <= k < n ==> x[k] == y[k]
    ensures TableLinks(x, shared, n, f) - TableLinks(x, shared, i, f)
            == TableLinks(y, shared, n, f) - TableLinks(y, shared, i, f)
    decreases n
  {
    if i < n { SuffixLinks(x, y, shared, i, n - 1, f); }
  }

  lemma MidwayLinks(j: Job, i: nat, f: nat)
    requires |j.t| == ENTRIES && i <= ENTRIES
    ensures TableLinks(Midway(j, i), j.shared, ENTRIES, f) + Held(Before(j, i).supply, f)
         == TableLinks(j.t, j.shared, ENTRIES, f) + Held(j.start.supply, f)
  {
    SuffixLinks(Midway(j, i), j.t, j.shared, i, ENTRIES, f);
    LinksOfPrefix(Midway(j, i), Before(j, i).table, j.shared, i, f);
    TableLinksKept(j.range.op, j.level, j.t, j.base, j.range.lo, j.range.hi, j.shared, i, j.start.supply, f);
  }

  lemma MidwayApart(j: Job, i: nat)
    requires |j.t| == ENTRIES && i <= ENTRIES && TableApart(j.frame, j.t, j.shared, j.start.supply)
    ensures TableApart(j.frame, Midway(j, i), j.shared, Before(j, i).supply)
  {
    var c, s := Midway(j, i), Before(j, i).supply;
    forall f ensures (if f == j.frame then 1 else 0) + TableLinks(c, j.shared, |c|, f) + Held(s, f) <= 1 {
      MidwayLinks(j, i, f);
    }
    forall k, f | 0 <= k < |c| && k in j.shared && Links(c[k], f) > 0 ensures Foreign(j.frame, c, j.shared, s, f) {
      if k < i { SlotAfter(j.range.op, j.level, j.t, j.base, j.range.lo, j.range.hi, j.shared, k, i, j.start.supply); }
      assert Foreign(j.frame, j.t, j.shared, j.start.supply, f);
      MidwayLinks(j, i, f);
    }
  }

  lemma PrefixCount(x: seq<nat>, n: nat, f: nat)
    requires n <= |x|
    ensures Count(x[..n], f) <= Count(x, f)
  {
    assert x == x[..n] + x[n..];
  }

  lemma SupplyShrinks(j: Job, i: nat)
    requires |j.t| == ENTRIES && i <= ENTRIES
    requires TableNeed(j.level, j.t, j.base, j.range.lo, j.range.hi, j.shared, ENTRIES) <= |j.start.supply.frames|
    ensures forall f :: Count(Before(j, i).supply.frames, f) <= Count(j.start.supply.frames, f)
    ensures i < ENTRIES && i !in j.shared ==>
              Need(j.level, j.t[i], SlotBase(j.base, Pages(j.level), i), j.range.lo, j.range.hi) <= |Before(j,
                  i).supply.frames|
  {
    if i < ENTRIES { NeedMono(j.level, j.t, j.base, j.range.lo, j.range.hi, j.shared, i, ENTRIES); }
    TableUse(j.range.op, j.level, j.t, j.base, j.range.lo, j.range.hi, j.shared, i, j.start.supply);
    forall f ensures Count(Before(j, i).supply.frames, f) <= Count(j.start.supply.frames, f) {
      PrefixCount(j.start.supply.frames,
                  |j.start.supply.frames| - TableNeed(j.level, j.t, j.base, j.range.lo, j.range.hi, j.shared, i), f);
    }
  }

  lemma JobStarts(j: Job, root: nat)
    requires Admissible(j, root)
    ensures |j.t| == ENTRIES && Reached(j, 0, j.start)
  {
    assert Midway(j, 0) == j.t;
  }

  lemma JobEnds(j: Job)
    requires |j.t| == ENTRIES
    ensures Midway(j, ENTRIES) == Before(j, ENTRIES).table
  {}

  /** The slot after `i` edited ones can be edited next. */
  lemma StepReady(j: Job, i: nat, now: State, root: nat)
    requires Admissible(j, root) && i < ENTRIES && i !in j.shared && Reached(j, i, now)
    ensures SlotAdmissible(j.range, j.level, j.t[i], SlotBase(j.base, Pages(j.level), i), j.frame, i, now, root)
  {
    var c := Midway(j, i);
    assert c[i] == j.t[i];
    MidwayApart(j, i);
    SlotOfApart(j.frame, c, j.shared, now.supply, i);
    SupplyShrinks(j, i);
    forall f
      ensures Links(j.t[i], f) <= Count(now.owners, f)
              && (f == root && j.frame != root ==> Links(j.t[i], f) + Held(now.supply, f) == 0)
    {
      MidwayLinks(j, i, f);
      SlotLinks(c, j.shared, ENTRIES, i, f);
    }
  }

  /** After slot `i` is edited, one more slot of the table is. */
  lemma MidwayStep(j: Job, i: nat, s: Supply)
    requires |j.t| == ENTRIES && i < ENTRIES && i !in j.shared && s == Before(j, i).supply
    ensures var r :=
            EditEntry(j.range.op, j.level, j.t[i], SlotBase(j.base, Pages(j.level), i), j.range.lo, j.range.hi, s);
            && Before(j, i + 1) == EditedTable(Before(j, i).table + [r.entry], r.supply)
            && Midway(j, i + 1) == Midway(j, i)[i := r.entry]
  {
    hide EditEntry;
    var x, y := Before(j, i).table, Before(j, i + 1).table;
    assert j.t[i..] == [j.t[i]] + j.t[i + 1..];
  }

  lemma StepDone(j: Job, i: nat, now: State, next: State, root: nat)
    requires Admissible(j, root) && i < ENTRIES && i !in j.shared && Reached(j, i, now)
    requires SlotDone(j.range, j.level, j.t[i], SlotBase(j.base, Pages(j.level), i), j.frame, i, now, next)
    ensures Reached(j, i + 1, next)
    ensures Before(j, i + 1).table == Before(j, i).table
              + [EditEntry(j.range.op, j.level, j.t[i], SlotBase(j.base, Pages(j.level), i), j.range.lo, j.range.hi,
                           now.supply).entry]
    ensures Midway(j, i + 1) == Midway(j, i)[i := Before(j, i + 1).table[i]]
  {
    hide EditEntry, EditTable;
    var c := Midway(j, i);
    var e := EditEntry(j.range.op, j.level, j.t[i], SlotBase(j.base, Pages(j.level), i), j.range.lo, j.range.hi,
                       now.supply).entry;
    MidwayApart(j, i);
    SupplyShrinks(j, i);
    assert c[i] == j.t[i];
    StoresAfterSlot(now.mem, next.mem, j.frame, c, j.shared, now.supply, i, e);
    MidwayStep(j, i, now.supply);
    TableWriteOfSlot(j.start.mem, now.mem, next.mem, j.frame, j.t, j.shared, j.start.supply, i, now.supply);
  }

  function OwnedSlots(t: seq<Entry>, shared: set<nat>): set<nat> {
    set i: nat | i < |t| && i !in shared && t[i] != Invalid
  }

  /** The owned-slot bitmap and the emptiness of the table after slot `i` is edited. */
  lemma StepOwned(j: Job, i: nat, s: Supply)
    requires |j.t| == ENTRIES && i < ENTRIES && i !in j.shared && s == Before(j, i).supply
    ensures var e :=
            EditEntry(j.range.op, j.level, j.t[i], SlotBase(j.base, Pages(j.level), i), j.range.lo, j.range.hi,
                      s).entry;
            && (AllInvalid(Before(j, i + 1).table) <==> AllInvalid(Before(j, i).table) && e == Invalid)
            && OwnedSlots(Midway(j, i + 1), j.shared)
            == if e == Invalid && j.t[i] != Invalid then OwnedSlots(Midway(j, i), j.shared) - {i}
                else OwnedSlots(Midway(j, i), j.shared)
  {
    var e := EditEntry(j.range.op, j.level, j.t[i], SlotBase(j.base, Pages(j.level), i), j.range.lo, j.range.hi,
                       s).entry;
    var x, y := Before(j, i).table, Before(j, i + 1).table;
    assert y == x + [e];
    assert AllInvalid(y) <==> AllInvalid(x) && e == Invalid by {
      assert y[i] == e;
      assert forall k :: 0 <= k < i ==> y[k] == x[k];
    }
    assert Midway(j, i + 1) == Midway(j, i)[i := e];
    assert Midway(j, i)[i] == j.t[i];
  }

  lemma StepSkipped(j: Job, i: nat, now: State)
    requires |j.t| == ENTRIES && i < ENTRIES && i in j.shared && Reached(j, i, now)
    ensures Reached(j, i + 1, now)
    ensures Before(j, i + 1).table == Before(j, i).table + [j.t[i]]
    ensures Midway(j, i + 1) == Midway(j, i)
    ensures j.t[i] != Invalid ==> !AllInvalid(Before(j, i + 1).table)
  {
    assert Midway(j, i + 1) == Midway(j, i);
    assert Before(j, i + 1).table[i] == j.t[i];
  }

  // ---- descending ---------------------------------------------------------------------

  /** The edit of the table under a branch. */
  function Below(range: Span, level: nat, e: Entry, b: nat, now: State): Job
    requires e.Branch? && level > 0
  {
    Job(range, level - 1, e.table, b, {}, e.frame, now)
  }

  lemma BranchReady(range: Span, level: nat, e: Entry, b: nat, frame: nat, i: nat, now: State, root: nat)
    requires SlotAdmissible(range, level, e, b, frame, i, now, root) && e.Branch?
             && !Outside(b, Pages(level), range.lo, range.hi)
    ensures level > 0 && e.frame != frame && e.frame != root && Admissible(Below(range, level, e, b, now), root)
  {
    forall f ensures (if f == e.frame then 1 else 0) + TableLinks(e.table, {}, |e.table|, f) + Held(now.supply, f) <= 1
             && TableLinks(e.table, {}, |e.table|, f) <= Count(now.owners, f)
    {
      assert Links(e, f) == (if f == e.frame then 1 else 0) + TableLinks(e.table, {}, |e.table|, f);
    }
    assert Links(e, root) == (if root == e.frame then 1 else 0) + TableLinks(e.table, {}, |e.table|, root);
    assert Links(e, e.frame) > 0 && Links(e, frame) == 0 && (frame == root ==> Held(now.supply, root) == 0);
  }

  /** The table below is edited, and so is the slot that links it, unless nothing is left of it. */
  lemma BranchDone(range: Span, level: nat, e: Entry, b: nat, frame: nat, i: nat, was: State, now: State, root: nat)
    requires SlotAdmissible(range, level, e, b, frame, i, was, root) && e.Branch?
             && !Outside(b, Pages(level), range.lo, range.hi)
    requires level > 0 && Admissible(Below(range, level, e, b, was), root)
             && Reached(Below(range, level, e, b, was), ENTRIES, now)
    ensures var j := Below(range, level, e, b, was);
            var gone := range.op.Remove? && AllInvalid(Before(j, ENTRIES).table);
            && WfMemory(now.mem) && frame in now.mem && now.mem[frame] == was.mem[frame]
                && SlotWrite(was.mem, now.mem, frame, i, e, was.supply)
            && (!gone ==> SlotDone(range, level, e, b, frame, i, was, now))
            && (gone ==> Count(now.owners, e.frame) > 0)
  {
    var j := Below(range, level, e, b, was);
    JobEnds(j);
    forall f ensures Links(e, f) == 0 ==> f != e.frame && TableLinks(e.table, {}, |e.table|, f) == 0 {
      assert Links(e, f) == (if f == e.frame then 1 else 0) + TableLinks(e.table, {}, |e.table|, f);
    }
    assert Links(e, frame) + Held(was.supply, frame) == 0;
    assert Links(e, e.frame) > 0;
    MidwayLinks(j, ENTRIES, e.frame);
  }

  /** The emptied table is unlinked and its owner handed over. */
  lemma BranchDropped(range: Span, level: nat, e: Entry, b: nat, frame: nat, i: nat, was: State, mid: State, now: State)
    requires e.Branch? && level > 0 && |e.table| == ENTRIES && !Outside(b, Pages(level), range.lo, range.hi)
    requires Reached(Below(range, level, e, b, was), ENTRIES, mid) && range.op.Remove?
    requires AllInvalid(Before(Below(range, level, e, b, was), ENTRIES).table)
    requires SlotWrite(was.mem, mid.mem, frame, i, e, was.supply) && i < ENTRIES && mid.mem[frame] == was.mem[frame]
    requires now.mem == Put(mid.mem, frame, i, INVALID)
    requires now.supply == mid.supply.(retired := mid.supply.retired + [e.frame]) && Moved(mid, now)
    ensures SlotDone(range, level, e, b, frame, i, was, now)
    ensures EditEntry(range.op, level, e, b, range.lo, range.hi, was.supply).entry == Invalid
  {}

  /** The edit of the table that replaces a partly covered leaf. */
  function Pieces(range: Span, level: nat, e: Entry, b: nat, was: State, now: State): Job
    requires e.Leaf? && level > 0 && |was.supply.frames| > 0
  {
    Job(range, level - 1, Split(level, e.ppn, e.flags), b, {}, Top(was.supply), now)
  }

  lemma LeafReady(range: Span, level: nat, e: Entry, b: nat, frame: nat, i: nat, was: State, root: nat)
    requires SlotAdmissible(range, level, e, b, frame, i, was, root) && e.Leaf?
    requires !Outside(b, Pages(level), range.lo, range.hi) && !Covered(b, Pages(level), range.lo, range.hi)
    ensures level > 0 && |was.supply.frames| > 0 && Top(was.supply) in was.mem
    ensures Top(was.supply) != frame && Top(was.supply) != root
    ensures Count(was.supply.frames, Top(was.supply)) > 0
  {
    assert Top(was.supply) in was.supply.frames;
    assert Held(was.supply, Top(was.supply)) > 0;
  }

  lemma LeafSplit(range: Span, level: nat, e: Entry, b: nat, frame: nat, i: nat, was: State, mid: State, root: nat)
    requires SlotAdmissible(range, level, e, b, frame, i, was, root) && e.Leaf?
    requires !Outside(b, Pages(level), range.lo, range.hi) && !Covered(b, Pages(level), range.lo, range.hi)
    requires level > 0 && |was.supply.frames| > 0
    requires WfMemory(mid.mem) && SlotWrite(was.mem, mid.mem, frame, i, e, was.supply)
    requires Denotes(mid.mem, mid.mem[frame][i], Branch(Top(was.supply), Split(level, e.ppn, e.flags)))
    requires mid.supply == Pop(was.supply) && Moved(was, mid)
    ensures Admissible(Pieces(range, level, e, b, was, mid), root)
  {
    var t := Split(level, e.ppn, e.flags);
    SplitNeed(level, e.ppn, e.flags, b, range.lo, range.hi, ENTRIES);
    SplitWf(level, e.ppn, e.flags);
    forall f ensures TableLinks(t, {}, ENTRIES, f) == 0
        && Held(was.supply, f) == Held(mid.supply, f) + (if Top(was.supply) == f then 1 else 0)
             && Count(mid.supply.frames, f) <= Count(was.supply.frames, f)
    {
      SplitHasNoLinks(level, e.ppn, e.flags, ENTRIES, f);
      HeldPop(was.supply, f);
      PrefixCount(was.supply.frames, |was.supply.frames| - 1, f);
    }
  }

  lemma LeafDone(range: Span, level: nat, e: Entry, b: nat, frame: nat, i: nat, was: State, mid: State, now: State,
                 root: nat)
    requires SlotAdmissible(range, level, e, b, frame, i, was, root) && e.Leaf?
    requires !Outside(b, Pages(level), range.lo, range.hi) && !Covered(b, Pages(level), range.lo, range.hi)
    requires level > 0 && |was.supply.frames| > 0
    requires WfMemory(mid.mem) && SlotWrite(was.mem, mid.mem, frame, i, e, was.supply)
    requires Denotes(mid.mem, mid.mem[frame][i], Branch(Top(was.supply), Split(level, e.ppn, e.flags)))
    requires mid.supply == Pop(was.supply) && Moved(was, mid)
    requires Admissible(Pieces(range, level, e, b, was, mid), root)
             && Reached(Pieces(range, level, e, b, was, mid), ENTRIES, now)
    ensures SlotDone(range, level, e, b, frame, i, was, now)
    ensures EditEntry(range.op, level, e, b, range.lo, range.hi, was.supply).entry.Branch?
  {
    hide EditTable, Links, Count, Split;
    var j := Pieces(range, level, e, b, was, mid);
    JobEnds(j);
    LeafReady(range, level, e, b, frame, i, was, root);
    forall f
      ensures TableLinks(j.t, {}, ENTRIES, f) == 0 && Count(mid.supply.frames, f) <= Count(was.supply.frames, f)
    {
      SplitHasNoLinks(level, e.ppn, e.flags, ENTRIES, f);
      PrefixCount(was.supply.frames, |was.supply.frames| - 1, f);
    }
    assert Held(was.supply, frame) == 0;
  }

  /** Something of a partly covered leaf is left when the range is removed. */
  lemma PiecesRemain(range: Span, level: nat, e: Entry, b: nat, frame: nat, i: nat, was: State, mid: State, root: nat)
    requires SlotAdmissible(range, level, e, b, frame, i, was, root) && e.Leaf? && range.op == Remove
    requires !Outside(b, Pages(level), range.lo, range.hi) && !Covered(b, Pages(level), range.lo, range.hi)
    requires level > 0 && |was.supply.frames| > 0 && mid.supply == Pop(was.supply)
    ensures !AllInvalid(Before(Pieces(range, level, e, b, was, mid), ENTRIES).table)
  {
    PartialLeafRemains(level, e.ppn, e.flags, b, range.lo, range.hi, mid.supply);
  }
}
