/** How table frames in memory hold a tree, and which writes leave a held tree alone. */
module PageMemory {
  import opened Pte
  import opened PageTree
  import opened PageTreeEdit

  type Memory = map<nat, seq<Raw>>

  ghost predicate WfMemory(mem: Memory) { forall f :: f in mem ==> |mem[f]| == ENTRIES }

  /** Stores one word of one table. */
  function Put(mem: Memory, frame: nat, i: nat, x: Raw): (m: Memory)
    requires frame in mem && i < |mem[frame]|
  {
    var row: seq<Raw> := mem[frame];
    var next: seq<Raw> := row[i := x];
    mem[frame := next]
  }

  /** The raw word `x`, read in memory `mem`, is the entry `e`. */
  ghost predicate Denotes(mem: Memory, x: Raw, e: Entry)
    decreases e, 0
  {
    match e
    case Invalid => !IsValid(x)
    case Leaf(ppn, flags) => IsLeaf(x) && PpnOf(x) == ppn && FlagsOf(x) == flags
    case Branch(frame, sub) => IsBranch(x) && NextFrame(x) == frame && Stores(mem, frame, sub)
  }

  ghost predicate Stores(mem: Memory, frame: nat, t: seq<Entry>)
    decreases t, 1
  {
    && frame in mem && |mem[frame]| == |t|
    && forall i :: 0 <= i < |t| ==> Denotes(mem, mem[frame][i], t[i])
  }

  lemma {:induction false} SlotLinks(t: seq<Entry>, shared: set<nat>, n: nat, i: nat, f: nat)
    requires i < n <= |t| && i !in shared
    ensures Links(t[i], f) <= TableLinks(t, shared, n, f)
  {
    if i < n - 1 { SlotLinks(t, shared, n - 1, i, f); }
  }

  lemma {:induction false} TwoSlotLinks(t: seq<Entry>, shared: set<nat>, n: nat, i: nat, j: nat, f: nat)
    requires i < n <= |t| && j < n && i != j && i !in shared && j !in shared
    ensures Links(t[i], f) + Links(t[j], f) <= TableLinks(t, shared, n, f)
  {
    if i == n - 1 { SlotLinks(t, shared, n - 1, j, f); }
    else if j == n - 1 { SlotLinks(t, shared, n - 1, i, f); }
    else { TwoSlotLinks(t, shared, n - 1, i, j, f); }
  }

  /** A held entry survives any change of memory outside its own tables. */
  lemma {:induction false} DenotesFrame(m0: Memory, m1: Memory, x: Raw, e: Entry)
    requires Denotes(m0, x, e)
    requires forall f :: f in m0 && Links(e, f) > 0 ==> f in m1 && m1[f] == m0[f]
    ensures Denotes(m1, x, e)
    decreases e, 0
  {
    if e.Branch? {
      assert Links(e, e.frame) > 0;
      StoresFrame(m0, m1, e.frame, e.table);
    }
  }

  lemma {:induction false} StoresFrame(m0: Memory, m1: Memory, frame: nat, t: seq<Entry>)
    requires Stores(m0, frame, t) && frame in m1 && m1[frame] == m0[frame]
    requires forall f :: f in m0 && TableLinks(t, {}, |t|, f) > 0 ==> f in m1 && m1[f] == m0[f]
    ensures Stores(m1, frame, t)
    decreases t, 1
  {
    forall i | 0 <= i < |t| ensures Denotes(m1, m1[frame][i], t[i]) {
      forall f | f in m0 && Links(t[i], f) > 0 ensures f in m1 && m1[f] == m0[f] {
        SlotLinks(t, {}, |t|, i, f);
      }
      DenotesFrame(m0, m1, m0[frame][i], t[i]);
    }
  }

  lemma BranchStored(mem: Memory, x: Raw, e: Entry)
    requires WfMemory(mem) && Denotes(mem, x, e) && e.Branch?
    ensures IsBranch(x) && NextFrame(x) == e.frame && Stores(mem, e.frame, e.table) && |e.table| == ENTRIES
  {}

  /** A write for one slot: other words of the table stay, and only tables of the slot or of the supply change. */
  ghost predicate SlotWrite(m0: Memory, m1: Memory, frame: nat, i: nat, e: Entry, s: Supply) {
    && m0.Keys == m1.Keys && frame in m0 && |m0[frame]| == |m1[frame]| == ENTRIES
    && (forall j :: 0 <= j < ENTRIES && j != i ==> m1[frame][j] == m0[frame][j])
    && (forall f :: f in m0 && f != frame && Links(e, f) == 0 && Count(s.frames, f) == 0 ==> m1[f] == m0[f])
  }

  /** A write for a whole table. */
  ghost predicate TableWrite(m0: Memory, m1: Memory, frame: nat, t: seq<Entry>, shared: set<nat>, s: Supply) {
    && m0.Keys == m1.Keys
    && (forall f ::
        f in m0 && f != frame && TableLinks(t, shared, |t|, f) == 0 && Count(s.frames, f) == 0 ==> m1[f] == m0[f])
  }

  /** No frame is used twice among the table, what hangs below it, the supply and the retired. */
  ghost predicate SlotApart(frame: nat, e: Entry, s: Supply) {
    forall f :: (if f == frame then 1 else 0) + Links(e, f) + Held(s, f) <= 1
  }

  ghost predicate TableApart(frame: nat, t: seq<Entry>, shared: set<nat>, s: Supply) {
    && (forall f :: (if f == frame then 1 else 0) + TableLinks(t, shared, |t|, f) + Held(s, f) <= 1)
    && (forall i, f :: 0 <= i < |t| && i in shared && Links(t[i], f) > 0 ==> Foreign(frame, t, shared, s, f))
  }

  /** A frame under a shared slot is none of ours. */
  ghost predicate Foreign(frame: nat, t: seq<Entry>, shared: set<nat>, s: Supply, f: nat) {
    f != frame && TableLinks(t, shared, |t|, f) == 0 && Held(s, f) == 0
  }

  lemma SlotOfApart(frame: nat, t: seq<Entry>, shared: set<nat>, s: Supply, i: nat)
    requires TableApart(frame, t, shared, s) && i < |t| && i !in shared
    ensures SlotApart(frame, t[i], s)
  {
    forall f ensures (if f == frame then 1 else 0) + Links(t[i], f) + Held(s, f) <= 1 {
      SlotLinks(t, shared, |t|, i, f);
    }
  }

  /** Rewriting slot `i` leaves the table holding the old entries elsewhere and the new one there. */
  lemma StoresAfterSlot(m0: Memory, m1: Memory, frame: nat, t: seq<Entry>, shared: set<nat>, s: Supply, i: nat,
                        e: Entry)
    requires |t| == ENTRIES && Stores(m0, frame, t) && TableApart(frame, t, shared, s) && i < |t| && i !in shared
    requires SlotWrite(m0, m1, frame, i, t[i], s) && Denotes(m1, m1[frame][i], e)
    ensures Stores(m1, frame, t[i := e])
  {
    forall j | 0 <= j < ENTRIES && j != i ensures Denotes(m1, m1[frame][j], t[j]) {
      forall f | f in m0 && Links(t[j], f) > 0 ensures m1[f] == m0[f] {
        SlotLinks(t, shared, |t|, i, f);
        if j in shared { assert Foreign(frame, t, shared, s, f); }
        else { TwoSlotLinks(t, shared, |t|, i, j, f); }
      }
      DenotesFrame(m0, m1, m0[frame][j], t[j]);
    }
  }

  lemma TableWriteOfSlot(m0: Memory, m1: Memory, m2: Memory, frame: nat, t: seq<Entry>, shared: set<nat>, s: Supply,
                         i: nat, s1: Supply)
    requires i < |t| && i !in shared && TableWrite(m0, m1, frame, t, shared, s) && SlotWrite(m1, m2, frame, i, t[i], s1)
    requires forall f :: Count(s.frames, f) == 0 ==> Count(s1.frames, f) == 0
    ensures TableWrite(m0, m2, frame, t, shared, s)
  {
    forall f | f in m0 && f != frame && TableLinks(t, shared, |t|, f) == 0 && Count(s.frames, f) == 0
      ensures m2[f] == m0[f]
    {
      SlotLinks(t, shared, |t|, i, f);
    }
  }
}
