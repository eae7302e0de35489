/** The owner-aware page-table tree: table frames in memory, an owner ledger and two root bitmaps. */
module TableTree {
  import opened Wrappers
  import opened Pte
  import opened PageTree
  import opened PageTreeEdit
  import opened PageTreeMap
  import opened PageTreeRun
  import opened PageMemory
  import opened PageJob
  import opened PageMapJob
  import opened PageRunJob
  import opened PageCheck
  import opened PagePlan
  import opened PageBatch
  import opened PageDrain

  /** The `n` slots from `start` on. */
  function Slots(start: nat, n: nat): (r: set<nat>)
    ensures forall k: nat :: k in r <==> start <= k < start + n
  {
    if n == 0 then {} else Slots(start, n - 1) + {start + n - 1}
  }

  /** Nothing below the entry is the root or in the ledger. */
  ghost predicate Alien(e: Entry, root: nat, owners: seq<nat>) {
    forall f :: Links(e, f) > 0 ==> f != root && Count(owners, f) == 0
  }

  function Elements(x: seq<(nat, nat)>): set<(nat, nat)> { set k | k in x }

  /** What a preflight froze: the plan, the generation it saw, and its demand then. */
  datatype Token = Token(plan: Plan, generation: nat, required: nat, retired: nat)

  datatype Prepared = Prepared(plan: Plan, generation: nat, supply: Supply)

  /** A refused preparation gives every owner back. */
  datatype PrepareResult = Ready(prepared: Prepared) | Refused(error: MapError, owners: seq<nat>)

  datatype SharedRootError = RootOutOfRange | InvalidEntry | RootConflict

  class TableTree {
    const levels: nat
    const root: nat
    var mem: Memory
    var owners: seq<nat>
    var sharedRoot: set<nat>
    var ownedRoot: set<nat>
    var generation: nat
    /** The tree that memory holds from the root on. */
    ghost var table: seq<Entry>
    /** The tree and the shared slots of each generation. */
    ghost var history: map<nat, (seq<Entry>, set<nat>)>

    /** The generation counter still identifies the tree: nothing was drained since it last moved. */
    ghost predicate Current()
      reads this
    {
      generation in history && history[generation] == (table, sharedRoot)
    }

    /** The plan passed preflight on the tree of its generation, and its supply suffices. */
    ghost predicate Sound(p: Prepared)
      reads this
    {
      && 2 <= levels && p.generation in history && |history[p.generation].0| == ENTRIES
      && Enough(PreflightOf(levels - 1, history[p.generation].0, history[p.generation].1, p.plan), p.supply)
    }

    /** Memory, ledger and bitmaps agree with the tree `t`. */
    ghost predicate Agrees(m: Memory, ledger: seq<nat>, owned: set<nat>, shared: set<nat>, t: seq<Entry>) {
      && 2 <= levels <= 5 && root < MAX_PPN && WfMemory(m)
      && Stores(m, root, t) && WfTable(levels - 1, t, shared)
      && TableApart(root, t, shared, Supply([], []))
      && (forall f :: Count(ledger, f) == TableLinks(t, shared, ENTRIES, f))
      && owned == OwnedSlots(t, shared)
      && (forall i :: i in shared ==> i < ENTRIES && t[i] != Invalid)
    }

    ghost predicate Holds(t: seq<Entry>)
      reads this
    {
      Agrees(mem, owners, ownedRoot, sharedRoot, t)
    }

    ghost predicate Valid()
      reads this
    {
      Holds(table)
    }

    ghost predicate InSpace(vpn: nat) { levels > 0 && vpn < 512 * Pages(levels - 1) }

    /** The flat map of a tree: page to physical page and flags. */
    ghost function View(t: seq<Entry>, vpn: nat): Option<Target> {
      if InSpace(vpn) && |t| == ENTRIES then FlatAt(levels - 1, t, vpn) else None
    }

    /** The page lies under a shared root slot. */
    ghost predicate IsForeign(vpn: nat)
      reads this
    {
      levels > 0 && SlotOf(0, Pages(levels - 1), vpn) in sharedRoot
    }

    ghost function Shared(level: nat): set<nat>
      reads this
    {
      if level + 1 == levels then sharedRoot else {}
    }

    /** The mutable part of the tree with a supply in hand. */
    ghost function With(s: Supply): State
      reads this
    {
      State(mem, owners, s)
    }

    method InstallOwner(owner: nat) returns (frame: nat)
      modifies this`owners
      ensures frame == owner && forall f :: Count(owners, f) == Count(old(owners), f) + (if f == owner then 1 else 0)
    {
      owners := owners + [owner];
      frame := owner;
    }

    /** The first owner of the frame leaves the ledger; the last one takes its place. */
    method TakeOwner(frame: nat) returns (owner: nat)
      requires Count(owners, frame) > 0
      modifies this`owners
      ensures owner == frame && forall f :: Count(owners, f) == Count(old(owners), f) - (if f == frame then 1 else 0)
    {
      var i := 0;
      while i < |owners| && owners[i] != frame
        invariant i <= |owners| && frame !in owners[..i]
      {
        i := i + 1;
      }
      assert owners[..|owners|] == owners;
      ghost var was := owners;
      owner := owners[i];
      var last := owners[|owners| - 1];
      owners := owners[i := last][..|owners| - 1];
      SwapRemove(was, i);
    }

    static lemma SwapRemove(x: seq<nat>, i: nat)
      requires i < |x|
      ensures forall f :: Count(x[i := x[|x| - 1]][..|x| - 1], f) == Count(x, f) - (if f == x[i] then 1 else 0)
    {
      var n := |x| - 1;
      var y := x[i := x[n]];
      forall f ensures Count(y[..n], f) == Count(x, f) - (if f == x[i] then 1 else 0) {
        assert multiset(y) == multiset(x) - multiset{x[i]} + multiset{x[n]};
        assert x[i] in multiset(x);
        CountAppend(y[..n], x[n], f);
        assert y == y[..n] + [x[n]];
      }
    }

    /** Replaces a leaf by a fresh table of 512 leaves one level down. */
    method SplitMega(frame: nat, i: nat, level: nat, ghost e: Entry, s: Supply) returns (s': Supply, sub: nat)
      requires WfMemory(mem) && frame in mem && i < ENTRIES && level > 0
      requires e.Leaf? && Denotes(mem, mem[frame][i], e) && WfEntry(level, e)
      requires |s.frames| > 0 && Top(s) in mem && Top(s) != frame && Count(s.frames, Top(s)) > 0
      modifies this`mem, this`owners
      ensures WfMemory(mem) && SlotWrite(old(mem), mem, frame, i, e, s)
      ensures Denotes(mem, mem[frame][i], Branch(sub, Split(level, e.ppn, e.flags)))
      ensures s' == Pop(s) && sub == Top(s) && Moved(old(With(s)), With(s'))
      ensures forall f :: f in mem && f != frame && f != sub ==> f in old(mem) && mem[f] == old(mem)[f]
    {
      var entry := mem[frame][i];
      var megaPages := Pages(level);
      var basePpn := PpnOf(entry) - PpnOf(entry) % megaPages;
      var flags := FlagsOf(entry);
      s' := Pop(s);
      sub := InstallOwner(Top(s));
      forall f ensures Count(owners, f) + Held(s', f) == Count(old(owners), f) + Held(s, f) { HeldPop(s, f); }
      ghost var t := Split(level, e.ppn, e.flags);
      var subPages := Pages(level - 1);
      var k := 0;
      while k < ENTRIES
        invariant k <= ENTRIES && WfMemory(mem) && mem.Keys == old(mem).Keys
        invariant forall f :: f in mem && f != sub ==> mem[f] == old(mem)[f]
        invariant forall n :: 0 <= n < k ==> mem[sub][n] == LeafRaw(SlotBase(e.ppn, subPages, n), e.flags)
        modifies this`mem
      {
        mem := Put(mem, sub, k, LeafRaw(SlotBase(basePpn, subPages, k), flags));
        k := k + 1;
      }
      mem := Put(mem, frame, i, BranchRaw(sub));
      PiecesStored(mem, sub, level, e);
    }

    static lemma PiecesStored(m: Memory, sub: nat, level: nat, e: Entry)
      requires level > 0 && e.Leaf? && ValidLeafFlags(e.flags) && sub in m && |m[sub]| == ENTRIES
      requires forall n :: 0 <= n < ENTRIES ==> m[sub][n] == LeafRaw(SlotBase(e.ppn, Pages(level - 1), n), e.flags)
      ensures Stores(m, sub, Split(level, e.ppn, e.flags))
    {
      var t := Split(level, e.ppn, e.flags);
      forall n | 0 <= n < ENTRIES ensures Denotes(m, m[sub][n], t[n]) {}
    }

    /** Unlinks an emptied table and hands its owner over. */
    method DropTable(frame: nat, i: nat, child: nat, s: Supply) returns (s': Supply)
      requires WfMemory(mem) && frame in mem && i < ENTRIES && Count(owners, child) > 0
      modifies this`mem, this`owners, this`ownedRoot
      ensures mem == Put(old(mem), frame, i, INVALID)
      ensures s' == s.(retired := s.retired + [child]) && Moved(old(With(s)), With(s'))
      ensures ownedRoot == if frame == root then old(ownedRoot) - {i} else old(ownedRoot)
    {
      mem := Put(mem, frame, i, INVALID);
      if frame == root { ownedRoot := ownedRoot - {i}; }
      var owner := TakeOwner(child);
      s' := s.(retired := s.retired + [owner]);
      forall f ensures Held(s', f) == Held(s, f) + (if f == child then 1 else 0) { CountAppend(s.retired, child, f); }
    }

    method UnmapSlot(frame: nat, level: nat, i: nat, b: nat, lo: nat, hi: nat, ghost e: Entry, s: Supply)
        returns (s': Supply, live: bool)
      requires level < levels && (frame == root <==> level + 1 == levels)
      requires SlotAdmissible(Span(Remove, lo, hi), level, e, b, frame, i, With(s), root)
      modifies this`mem, this`owners, this`ownedRoot
      ensures SlotDone(Span(Remove, lo, hi), level, e, b, frame, i, old(With(s)), With(s'))
      ensures live == !EditEntry(Remove, level, e, b, lo, hi, s).entry.Invalid?
      ensures ownedRoot == if frame == root && e != Invalid && !live then old(ownedRoot) - {i} else old(ownedRoot)
      decreases level, 1
    {
      var entry := mem[frame][i];
      s', live := s, false;
      if b >= hi || b + Pages(level) <= lo {
        live := IsValid(entry);
      } else if !IsValid(entry) {
      } else if !IsLeaf(entry) {
        s', live := UnmapBelow(frame, level, i, b, lo, hi, e, s);
      } else if lo <= b && b + Pages(level) <= hi {
        mem := Put(mem, frame, i, INVALID);
        if frame == root { ownedRoot := ownedRoot - {i}; }
      } else {
        s' := UnmapPart(frame, level, i, b, lo, hi, e, s);
        live := true;
      }
    }

    /** A partly covered leaf is split, and the pieces in the range are removed. */
    method UnmapPart(frame: nat, level: nat, i: nat, b: nat, lo: nat, hi: nat, ghost e: Entry, s: Supply)
        returns (s': Supply)
      requires level < levels && (frame == root <==> level + 1 == levels)
      requires SlotAdmissible(Span(Remove, lo, hi), level, e, b, frame, i, With(s), root)
      requires e.Leaf? && !Outside(b, Pages(level), lo, hi) && !Covered(b, Pages(level), lo, hi)
      modifies this`mem, this`owners, this`ownedRoot
      ensures SlotDone(Span(Remove, lo, hi), level, e, b, frame, i, old(With(s)), With(s'))
      ensures EditEntry(Remove, level, e, b, lo, hi, s).entry.Branch? && ownedRoot == old(ownedRoot)
      decreases level, 0
    {
      ghost var range, was := Span(Remove, lo, hi), With(s);
      LeafReady(range, level, e, b, frame, i, was, root);
      var sub;
      s', sub := SplitMega(frame, i, level, e, s);
      ghost var mid := With(s');
      LeafSplit(range, level, e, b, frame, i, was, mid, root);
      ghost var j := Pieces(range, level, e, b, was, mid);
      var empty;
      s', empty := UnmapRange(sub, level - 1, b, lo, hi, j, s');
      PiecesRemain(range, level, e, b, frame, i, was, mid, root);
      assert !empty;
      LeafDone(range, level, e, b, frame, i, was, mid, With(s'), root);
    }

    /** The table under a branch is edited; an emptied one is unlinked. */
    method UnmapBelow(frame: nat, level: nat, i: nat, b: nat, lo: nat, hi: nat, ghost e: Entry, s: Supply)
        returns (s': Supply, live: bool)
      requires level < levels && (frame == root <==> level + 1 == levels)
      requires SlotAdmissible(Span(Remove, lo, hi), level, e, b, frame, i, With(s), root) && e.Branch?
               && !Outside(b, Pages(level), lo, hi)
      modifies this`mem, this`owners, this`ownedRoot
      ensures SlotDone(Span(Remove, lo, hi), level, e, b, frame, i, old(With(s)), With(s'))
      ensures live == !EditEntry(Remove, level, e, b, lo, hi, s).entry.Invalid?
      ensures ownedRoot == if frame == root && !live then old(ownedRoot) - {i} else old(ownedRoot)
      decreases level, 0
    {
      ghost var range, was := Span(Remove, lo, hi), With(s);
      BranchReady(range, level, e, b, frame, i, was, root);
      ghost var j := Below(range, level, e, b, was);
      var child := NextFrame(mem[frame][i]);
      var empty;
      s', empty := UnmapRange(child, level - 1, b, lo, hi, j, s);
      ghost var mid := With(s');
      BranchDone(range, level, e, b, frame, i, was, mid, root);
      live := !empty;
      if empty {
        s' := DropTable(frame, i, child, s');
        BranchDropped(range, level, e, b, frame, i, was, mid, With(s'));
      }
    }

    method UnmapRange(frame: nat, level: nat, base: nat, lo: nat, hi: nat, ghost j: Job, s: Supply)
        returns (s': Supply, empty: bool)
      requires level < levels && (frame == root <==> level + 1 == levels)
      requires j == Job(Span(Remove, lo, hi), level, j.t, base, Shared(level), frame, With(s)) && Admissible(j, root)
      requires forall i :: i in Shared(level) ==> i < ENTRIES && j.t[i] != Invalid
      requires level + 1 == levels ==> ownedRoot == OwnedSlots(j.t, sharedRoot)
      modifies this`mem, this`owners, this`ownedRoot
      ensures Reached(j, ENTRIES, With(s')) && empty == AllInvalid(Before(j, ENTRIES).table)
      ensures ownedRoot == if level + 1 == levels then OwnedSlots(Before(j, ENTRIES).table, sharedRoot)
              else old(ownedRoot)
      decreases level, 2
    {
      hide EditEntry, Stores;
      JobStarts(j, root);
      var live := false;
      s' := s;
      var i := 0;
      while i < ENTRIES
        invariant i <= ENTRIES && Reached(j, i, With(s')) && live == !AllInvalid(Before(j, i).table)
        invariant ownedRoot == if level + 1 == levels then OwnedSlots(Midway(j, i), sharedRoot) else old(ownedRoot)
      {
        if level + 1 == levels && i in sharedRoot {
          StepSkipped(j, i, With(s'));
          live := true;
        } else {
          ghost var now := With(s');
          StepReady(j, i, now, root);
          var left;
          s', left := UnmapSlot(frame, level, i, SlotBase(base, Pages(level), i), lo, hi, j.t[i], s');
          StepDone(j, i, now, With(s'), root);
          StepOwned(j, i, now.supply);
          live := live || left;
        }
        i := i + 1;
      }
      JobEnds(j);
      empty := !live;
    }

    method ProtectSlot(frame: nat, level: nat, i: nat, b: nat, lo: nat, hi: nat, from: nat, to: nat, ghost e: Entry,
                       s: Supply) returns (s': Supply)
      requires level < levels && (frame == root <==> level + 1 == levels) && ValidLeafFlags(to)
      requires SlotAdmissible(Span(SetFlags(to), lo, hi), level, e, b, frame, i, With(s), root)
      requires CheckEntry(level, e, b, lo, hi, false, from).Ok?
      modifies this`mem, this`owners
      ensures SlotDone(Span(SetFlags(to), lo, hi), level, e, b, frame, i, old(With(s)), With(s'))
      decreases level, 1
    {
      s' := s;
      if b >= hi || b + Pages(level) <= lo { return; }
      ghost var range, was := Span(SetFlags(to), lo, hi), With(s);
      var entry := mem[frame][i];
      assert IsValid(entry);
      if !IsLeaf(entry) {
        BranchReady(range, level, e, b, frame, i, was, root);
        s' := ProtectRange(NextFrame(entry), level - 1, b, lo, hi, from, to, Below(range, level, e, b, was), s);
        BranchDone(range, level, e, b, frame, i, was, With(s'), root);
      } else if lo <= b && b + Pages(level) <= hi {
        assert FlagsOf(entry) == from;
        mem := Put(mem, frame, i, LeafRaw(PpnOf(entry), to));
      } else {
        s' := ProtectPart(frame, level, i, b, lo, hi, from, to, e, s);
      }
    }

    /** A partly covered leaf is split, and the pieces in the range get the new flags. */
    method ProtectPart(frame: nat, level: nat, i: nat, b: nat, lo: nat, hi: nat, from: nat, to: nat, ghost e: Entry,
                       s: Supply) returns (s': Supply)
      requires level < levels && (frame == root <==> level + 1 == levels) && ValidLeafFlags(to)
      requires SlotAdmissible(Span(SetFlags(to), lo, hi), level, e, b, frame, i, With(s), root)
      requires e.Leaf? && e.flags == from && !Outside(b, Pages(level), lo, hi) && !Covered(b, Pages(level), lo, hi)
      modifies this`mem, this`owners
      ensures SlotDone(Span(SetFlags(to), lo, hi), level, e, b, frame, i, old(With(s)), With(s'))
      decreases level, 0
    {
      ghost var range, was := Span(SetFlags(to), lo, hi), With(s);
      LeafReady(range, level, e, b, frame, i, was, root);
      var sub;
      s', sub := SplitMega(frame, i, level, e, s);
      ghost var mid := With(s');
      LeafSplit(range, level, e, b, frame, i, was, mid, root);
      PiecesChecked(level, e.ppn, e.flags, b, lo, hi, ENTRIES);
      s' := ProtectRange(sub, level - 1, b, lo, hi, from, to, Pieces(range, level, e, b, was, mid), s');
      LeafDone(range, level, e, b, frame, i, was, mid, With(s'), root);
    }

    method ProtectRange(frame: nat, level: nat, base: nat, lo: nat, hi: nat, from: nat, to: nat, ghost j: Job,
                        s: Supply) returns (s': Supply)
      requires level < levels && (frame == root <==> level + 1 == levels) && ValidLeafFlags(to)
      requires j == Job(Span(SetFlags(to), lo, hi), level, j.t, base, Shared(level), frame, With(s))
               && Admissible(j, root)
      requires CheckTable(level, j.t, base, lo, hi, Shared(level), from, ENTRIES).Ok?
      modifies this`mem, this`owners
      ensures Reached(j, ENTRIES, With(s'))
      decreases level, 3
    {
      JobStarts(j, root);
      s' := s;
      var i := 0;
      while i < ENTRIES
        invariant i <= ENTRIES && Reached(j, i, With(s'))
      {
        SlotChecked(level, j.t, base, lo, hi, j.shared, from, i, ENTRIES);
        s' := ProtectNext(frame, level, base, lo, hi, from, to, i, j, s');
        i := i + 1;
      }
    }

    method ProtectNext(frame: nat, level: nat, base: nat, lo: nat, hi: nat, from: nat, to: nat, i: nat, ghost j: Job,
                       s: Supply) returns (s': Supply)
      requires level < levels && (frame == root <==> level + 1 == levels) && ValidLeafFlags(to) && i < ENTRIES
      requires j == Job(Span(SetFlags(to), lo, hi), level, j.t, base, Shared(level), frame, j.start)
               && Admissible(j, root)
      requires Reached(j, i, With(s))
               && CheckEntry(level, j.t[i], SlotBase(base, Pages(level), i), lo, hi, i in Shared(level), from).Ok?
      modifies this`mem, this`owners
      ensures Reached(j, i + 1, With(s'))
      decreases level, 2
    {
      ghost var now := With(s);
      if level + 1 == levels && i in sharedRoot {
        // Only slots outside the range can be foreign: the check passed.
        assert Outside(SlotBase(base, Pages(level), i), Pages(level), lo, hi);
        StepSkipped(j, i, now);
        s' := s;
      } else {
        StepReady(j, i, now, root);
        s' := ProtectSlot(frame, level, i, SlotBase(base, Pages(level), i), lo, hi, from, to, j.t[i], s);
        StepDone(j, i, now, With(s'), root);
      }
    }

    /** Writes one segment, splitting a matching leaf or linking blank tables on the way down. */
    method PublishMapSegment(frame: nat, level: nat, g: Segment, ghost x: Site, s: Supply) returns (s': Supply)
      requires level < levels && g.level <= level && (frame == root <==> level + 1 == levels)
      requires x.level == level && x.frame == frame && x.shared == Shared(level) && MapAdmissible(x, g, With(s), root)
      modifies this`mem, this`owners, this`ownedRoot
      ensures MapDone(x, g, old(With(s)), With(s'))
      ensures ownedRoot == if frame == root then old(ownedRoot) + {IndexAt(g.vpn, level)} else old(ownedRoot)
      decreases level
    {
      ghost var was := With(s);
      SlotOfSite(x, g, was, root);
      var i := IndexAt(g.vpn, level);
      assert level + 1 != levels || i !in sharedRoot;
      if level == g.level {
        var entry := mem[frame][i];
        assert !IsValid(entry) || (IsLeaf(entry) && PpnOf(entry) == g.ppn && FlagsOf(entry) == g.flags);
        if frame == root { ownedRoot := ownedRoot + {i}; }
        mem := Put(mem, frame, i, LeafRaw(g.ppn, g.flags));
        s' := s;
        LeafWritten(x, g, was, With(s), root);
      } else {
        var child;
        s', child := LinkBelow(frame, level, i, g, x, s);
        ghost var mid := With(s');
        MapReady(x, g, was, mid, child, root);
        s' := PublishMapSegment(child, level - 1, g, Next(x, g, child), s');
        MapUp(x, g, was, mid, child, With(s'), root);
      }
    }

    /** The table under a segment's slot: the one there, the pieces of a matching leaf, or a blank one. */
    method LinkBelow(frame: nat, level: nat, i: nat, g: Segment, ghost x: Site, s: Supply)
        returns (s': Supply, child: nat)
      requires g.level < level && i == IndexAt(g.vpn, level)
      requires x.level == level && x.frame == frame && MapAdmissible(x, g, With(s), root)
      modifies this`mem, this`owners, this`ownedRoot
      ensures Linked(x, g, old(With(s)), With(s'), child)
      ensures ownedRoot == if frame == root then old(ownedRoot) + {i} else old(ownedRoot)
    {
      ghost var was := With(s);
      SlotOfSite(x, g, was, root);
      var entry := mem[frame][i];
      s' := s;
      // An occupied root slot is marked already.
      if frame == root { ownedRoot := ownedRoot + {i}; }
      if IsBranch(entry) {
        child := NextFrame(entry);
      } else if IsLeaf(entry) {
        assert FlagsOf(entry) == g.flags && PpnOf(entry) + g.vpn % Pages(level) == g.ppn;
        TopIsFresh(x, g, was, root);
        s', child := SplitMega(frame, i, level, x.t[i], s);
      } else {
        TopIsFresh(x, g, was, root);
        child := InstallOwner(Top(s));
        s' := Pop(s);
        mem := Put(mem, frame, i, BranchRaw(child));
        BlankLinked(x, g, was, With(s'), root);
      }
    }

    /** Maps a run: the largest aligned segment at the cursor, then on to the next. */
    method PublishMap(vpn: nat, count: nat, ppn: nat, flags: nat, ghost j: RunJob, s: Supply) returns (s': Supply)
      requires 2 <= levels && j.top == levels - 1 && j.shared == sharedRoot && j.root == root && j.start == With(s)
      requires j.run == Run(vpn, ppn, vpn + count, flags) && RunAdmissible(j)
               && ownedRoot == OwnedSlots(j.t0, sharedRoot)
      modifies this`mem, this`owners, this`ownedRoot
      ensures var r := MapRun(j.top, j.t0, j.run, s);
              s' == r.supply && RunStored(j, r.table, With(s')) && ownedRoot == OwnedSlots(r.table, sharedRoot)
    {
      hide RunShape, RunStored, MapRun, OwnedSlots;
      var rest := Run(vpn, ppn, vpn + count, flags);
      s' := s;
      ghost var t: seq<Entry>, made := j.t0, {};
      RunStarts(j);
      while rest.vpn < rest.end
        invariant RunReached(j, t, made, rest, With(s')) && ownedRoot == OwnedSlots(t, sharedRoot)
        decreases rest.end - rest.vpn
      {
        s', t, made := PublishNext(rest, j, t, made, s');
        rest := Rest(levels - 1, rest);
      }
      RunEnds(j, t, made, rest, With(s'));
    }

    method PublishNext(rest: Run, ghost j: RunJob, ghost t: seq<Entry>, ghost made: set<(nat, nat)>, s: Supply)
      returns (s': Supply, ghost t': seq<Entry>, ghost made': set<(nat, nat)>)
      requires 2 <= levels && j.top == levels - 1 && j.shared == sharedRoot && j.root == root
      requires rest.vpn < rest.end && RunReached(j, t, made, rest, With(s)) && ownedRoot == OwnedSlots(t, sharedRoot)
      modifies this`mem, this`owners, this`ownedRoot
      ensures RunReached(j, t', made', Rest(j.top, rest), With(s')) && ownedRoot == OwnedSlots(t', sharedRoot)
    {
      hide RunReached, MapAdmissible, MapDone, MapTable, OwnedSlots, First, Rest, Pages, PathKeys;
      ghost var was := With(s);
      SegmentReady(j, t, made, rest, was);
      var g := First(levels - 1, rest);
      s' := PublishMapSegment(root, levels - 1, g, RootSite(j, t), s);
      SegmentDone(j, t, made, rest, was, With(s'));
      t', made' := MapTable(j.top, t, 0, g, was.supply).table, made + PathKeys(j.top, g);
    }

    // ---- preflight ----------------------------------------------------------------------

    method SplitCountForLeaf(level: nat, b: nat, lo: nat, hi: nat) returns (count: nat)
      requires !Outside(b, Pages(level), lo, hi)
      ensures count == SplitCount(level, b, lo, hi)
      decreases level
    {
      if lo <= b && b + Pages(level) <= hi { return 0; }
      assert level > 0;
      var childPages := Pages(level - 1);
      count := 1;
      var i := 0;
      while i < ENTRIES
        invariant i <= ENTRIES && count == 1 + SplitCountBelow(level - 1, b, lo, hi, i)
      {
        var childBase := SlotBase(b, childPages, i);
        if !(childBase >= hi || childBase + childPages <= lo) {
          var c := SplitCountForLeaf(level - 1, childBase, lo, hi);
          count := count + c;
        }
        i := i + 1;
      }
    }

    method PreflightRange(frame: nat, level: nat, base: nat, lo: nat, hi: nat, from: nat, ghost t: seq<Entry>)
        returns (c: Check)
      requires level < levels && Stores(mem, frame, t) && WfTable(level, t, Shared(level))
      ensures c == CheckTable(level, t, base, lo, hi, Shared(level), from, ENTRIES)
      decreases level
    {
      ghost var sh := Shared(level);
      var required: nat := 0;
      var p := Pages(level);
      var i := 0;
      while i < ENTRIES
        invariant i <= ENTRIES && CheckTable(level, t, base, lo, hi, sh, from, i) == Ok(required)
      {
        var b := SlotBase(base, p, i);
        if !(b >= hi || b + p <= lo) {
          var entry := mem[frame][i];
          assert Denotes(mem, entry, t[i]);
          c := Ok(0);
          if level + 1 == levels && i in sharedRoot {
            c := Err(Conflict(Max(b, lo)));
          } else if !IsValid(entry) {
            c := Err(NotMapped(Max(b, lo)));
          } else if IsLeaf(entry) {
            if FlagsOf(entry) != from {
              c := Err(ProtectionMismatch(Max(b, lo)));
            } else {
              var n := SplitCountForLeaf(level, b, lo, hi);
              c := Ok(n);
            }
          } else {
            c := PreflightRange(NextFrame(entry), level - 1, b, lo, hi, from, t[i].table);
          }
          assert c == CheckEntry(level, t[i], b, lo, hi, i in sh, from);
          if c.Err? {
            ErrorSticks(level, t, base, lo, hi, sh, from, i + 1, ENTRIES);
            return;
          }
          required := required + c.value;
        }
        i := i + 1;
      }
      c := Ok(required);
    }

    method PreflightUnmapRange(frame: nat, level: nat, base: nat, lo: nat, hi: nat, ghost t: seq<Entry>)
        returns (required: nat, retired: nat, empty: bool)
      requires level < levels && Stores(mem, frame, t) && WfTable(level, t, Shared(level))
      ensures required == TableNeed(level, t, base, lo, hi, Shared(level), ENTRIES)
      ensures retired == TableFreed(level, t, base, lo, hi, Shared(level), ENTRIES)
      ensures empty == TableGone(level, t, base, lo, hi, Shared(level), ENTRIES)
      decreases level
    {
      ghost var sh := Shared(level);
      required, retired := 0, 0;
      var live := false;
      var p := Pages(level);
      var i := 0;
      while i < ENTRIES
        invariant i <= ENTRIES && required == TableNeed(level, t, base, lo, hi, sh, i)
        invariant retired == TableFreed(level, t, base, lo, hi, sh, i)
                  && live == !TableGone(level, t, base, lo, hi, sh, i)
      {
        if level + 1 == levels && i in sharedRoot {
          live := true;
        } else {
          var b := SlotBase(base, p, i);
          var entry := mem[frame][i];
          assert Denotes(mem, entry, t[i]);
          if b >= hi || b + p <= lo {
            live := live || IsValid(entry);
          } else if !IsValid(entry) {
          } else if IsLeaf(entry) {
            if !(b >= lo && b + p <= hi) {
              var n := SplitCountForLeaf(level, b, lo, hi);
              required := required + n;
              live := true;
            }
          } else {
            var n, r, gone := PreflightUnmapRange(NextFrame(entry), level - 1, b, lo, hi, t[i].table);
            required := required + n;
            retired := retired + r + (if gone then 1 else 0);
            live := live || !gone;
          }
        }
        i := i + 1;
      }
      empty := !live;
    }

    /** Walks the segment's path; on success the tables it lacks are added to the list. */
    method ValidateMapSegment(g: Segment, missing: seq<(nat, nat)>) returns (ok: bool, missing': seq<(nat, nat)>)
      requires Valid() && InTable(levels - 1, 0, g)
      ensures ok <==> SlotOf(0, Pages(levels - 1), g.vpn) !in sharedRoot && TableOk(levels - 1, table, 0, g)
      ensures ok ==> Elements(missing') == Elements(missing) + SegMissing(levels - 1, table, g)
    {
      var frame := root;
      var level: nat := levels - 1;
      ghost var top: nat, x := levels - 1, Site(levels - 1, table, 0, {}, root);
      IndexIsSlot(level, 0, g.vpn);
      if IndexAt(g.vpn, level) in sharedRoot { return false, missing; }
      while true
        invariant Walk(mem, top, table, g, x) && x.level == level && x.frame == frame
        decreases level
      {
        WalkHere(mem, top, table, g, x);
        var entry := mem[frame][IndexAt(g.vpn, level)];
        if level == g.level {
          WalkStops(mem, top, table, g, x);
          return !IsValid(entry) || (IsLeaf(entry) && PpnOf(entry) == g.ppn && FlagsOf(entry) == g.flags), missing;
        }
        if !IsBranch(entry) {
          if IsLeaf(entry) && !(FlagsOf(entry) == g.flags && PpnOf(entry) + g.vpn % Pages(level) == g.ppn) {
            return false, missing;
          }
          WalkStops(mem, top, table, g, x);
          missing' := PushMissing(g, level, missing);
          return true, missing';
        }
        WalkDown(mem, top, table, g, x);
        frame := NextFrame(entry);
        level := level - 1;
        x := Next(x, g, frame);
      }
    }

    method PushMissing(g: Segment, level: nat, missing: seq<(nat, nat)>) returns (missing': seq<(nat, nat)>)
      requires g.level <= level
      ensures Elements(missing') == Elements(missing) + KeysBelow(g, level)
    {
      missing' := missing;
      var l := g.level;
      while l < level
        invariant g.level <= l <= level && Elements(missing') == Elements(missing) + KeysBelow(g, l)
      {
        KeysBelowStep(g, l);
        ghost var before := missing';
        missing' := missing' + [Key(l, g.vpn)];
        assert Elements(missing') == Elements(before) + {Key(l, g.vpn)};
        l := l + 1;
      }
    }

    method ValidateRun(run: Run) returns (c: Check)
      requires Valid() && run.end <= 512 * Pages(levels - 1)
      ensures c == match FirstConflict(levels - 1, table, sharedRoot, run)
                   case None => Ok(|RunMissing(levels - 1, table, run)|)
                   case Some(v) => Err(Conflict(v))
    {
      var missing: seq<(nat, nat)> := [];
      var rest := run;
      ghost var top: nat := levels - 1;
      while rest.vpn < rest.end
        invariant rest.end == run.end
        invariant FirstConflict(top, table, sharedRoot, rest) == FirstConflict(top, table, sharedRoot, run)
        invariant Elements(missing) + RunMissing(top, table, rest) == RunMissing(top, table, run)
        decreases rest.end - rest.vpn
      {
        FirstInTable(top, rest);
        ConflictStep(top, table, sharedRoot, rest);
        var ok;
        ok, missing := ValidateMapSegment(First(levels - 1, rest), missing);
        if !ok { return Err(Conflict(rest.vpn)); }
        rest := Rest(levels - 1, rest);
      }
      // The list sorted and freed of repetitions is as long as its set of elements.
      assert Elements(missing) == RunMissing(top, table, run);
      c := Ok(|Elements(missing)|);
    }

    method PreflightPlan(p: Plan) returns (f: Preflight)
      requires Valid()
      ensures f == PreflightOf(levels - 1, table, sharedRoot, p)
    {
      match p {
        case Map(_, _, _, _) => f := PreflightMap(p);
        case Unmap(_, _) => f := PreflightUnmap(p);
        case Protect(_, _, _, _) => f := PreflightProtect(p);
      }
    }

    method PreflightMap(p: Plan) returns (f: Preflight)
      requires Valid() && p.Map?
      ensures f == PreflightOf(levels - 1, table, sharedRoot, p)
    {
      if !ValidLeafFlags(p.flags) { return Failed(InvalidFlags); }
      if p.vpn + p.count > 512 * Pages(levels - 1) { return Failed(OutOfRange); }
      if p.ppn + p.count > MAX_PPN { return Failed(OutOfRange); }
      var c := ValidateRun(RunOf(p));
      f := if c.Ok? then Fine(c.value, 0) else Failed(c.error);
    }

    method PreflightUnmap(p: Plan) returns (f: Preflight)
      requires Valid() && p.Unmap?
      ensures f == PreflightOf(levels - 1, table, sharedRoot, p)
    {
      if p.vpn + p.count > 512 * Pages(levels - 1) { return Failed(OutOfRange); }
      var required, retired, rootEmpty := PreflightUnmapRange(root, levels - 1, 0, p.vpn, p.vpn + p.count, table);
      f := Fine(required, retired);
    }

    method PreflightProtect(p: Plan) returns (f: Preflight)
      requires Valid() && p.Protect?
      ensures f == PreflightOf(levels - 1, table, sharedRoot, p)
    {
      hide CheckTable, TableFreed, WfTable, Stores;
      if !ValidLeafFlags(p.from) || !ValidLeafFlags(p.to) { return Failed(InvalidFlags); }
      if p.vpn + p.count > 512 * Pages(levels - 1) { return Failed(OutOfRange); }
      var c := PreflightRange(root, levels - 1, 0, p.vpn, p.vpn + p.count, p.from, table);
      f := if c.Ok? then Fine(c.value, 0) else Failed(c.error);
    }

    // ---- reading --------------------------------------------------------------------------

    method Translate(vpn: nat) returns (m: Option<Mapped>)
      requires Valid()
      ensures m == if vpn >= 512 * Pages(levels - 1) then None else Lookup(levels - 1, table, 0, vpn)
    {
      if vpn >= 512 * Pages(levels - 1) { return None; }
      var frame := root;
      var level: nat := levels - 1;
      ghost var t, base: nat := table, 0;
      while true
        invariant level < levels && Stores(mem, frame, t) && |t| == ENTRIES
        invariant base % (512 * Pages(level)) == 0 && base <= vpn < base + 512 * Pages(level)
        invariant Lookup(level, t, base, vpn) == Lookup(levels - 1, table, 0, vpn)
        decreases level
      {
        IndexIsSlot(level, base, vpn);
        SlotInTable(base, Pages(level), vpn);
        var i := IndexAt(vpn, level);
        var entry := mem[frame][i];
        assert Denotes(mem, entry, t[i]);
        if IsLeaf(entry) {
          return Some(Mapped(PpnOf(entry) + vpn % Pages(level), FlagsOf(entry), level));
        }
        if !IsBranch(entry) || level == 0 { return None; }
        frame := NextFrame(entry);
        SlotAligned(level, base, i);
        t, base := t[i].table, SlotBase(base, Pages(level), i);
        level := level - 1;
      }
    }

    // ---- construction ---------------------------------------------------------------------

    constructor (memory: Memory, rootFrame: nat, levelCount: nat)
      requires 2 <= levelCount <= 5 && rootFrame < MAX_PPN && WfMemory(memory) && rootFrame in memory
      ensures Valid() && Current() && levels == levelCount && root == rootFrame && generation == 0
      ensures owners == [] && sharedRoot == {} && ownedRoot == {} && AllInvalid(table)
    {
      levels, root := levelCount, rootFrame;
      var row: seq<Raw> := seq(ENTRIES, _ => INVALID);
      mem := memory[rootFrame := row];
      owners, sharedRoot, ownedRoot, generation := [], {}, {}, 0;
      table, history := Blank(), map[0 := (Blank(), {})];
      new;
      forall f ensures TableLinks(Blank(), {}, ENTRIES, f) == 0 { AllInvalidHasNoLinks(Blank(), ENTRIES, f); }
    }

    // ---- transactions ----------------------------------------------------------------------

    method Preflight(p: Plan) returns (t: Token, error: Option<MapError>)
      requires Valid() && Current()
      ensures match PreflightOf(levels - 1, table, sharedRoot, p)
              case Failed(x) => error == Some(x)
              case Fine(required, retired) => error == None && t == Token(p, generation, required, retired)
    {
      var f := PreflightPlan(p);
      match f
      case Failed(x) => return Token(p, generation, 0, 0), Some(x);
      case Fine(required, retired) => return Token(p, generation, required, retired), None;
    }

    /**
      Checks the plan again on the tree as it is now and binds the owners to it; `room` says whether the lists can be
      reserved.
    */
    method Prepare(t: Token, supplied: seq<nat>, room: bool) returns (r: PrepareResult)
      requires Valid() && Current() && forall i :: 0 <= i < |supplied| ==> supplied[i] < MAX_PPN
      ensures match r
              case Refused(error, back) =>
                && back == supplied
                && (match PreflightOf(levels - 1, table, sharedRoot, t.plan)
                    case Failed(x) => error == x
                    case Fine(required, _) =>
                      error == (if |supplied| < required then FrameExhausted else AllocationFailed)
                      && (|supplied| < required || !room))
              case Ready(p) => room && p == Prepared(t.plan, generation, Supply(supplied, [])) && Sound(p)
    {
      var f := PreflightPlan(t.plan);
      match f
      case Failed(x) => return Refused(x, supplied);
      case Fine(required, _) =>
        if |supplied| < required { return Refused(FrameExhausted, supplied); }
        if !room { return Refused(AllocationFailed, supplied); }
        return Ready(Prepared(t.plan, generation, Supply(supplied, [])));
    }

    method PreparedIsCurrent(p: Prepared) returns (b: bool)
      ensures b == (p.generation == generation)
    {
      b := p.generation == generation;
    }

    /** Publishes a plan prepared at this generation: it cannot fail, and it does what the plan means. */
    method PublishPrepared(p: Prepared) returns (unused: seq<nat>, retired: seq<nat>)
      requires Valid() && Current() && Sound(p) && p.generation == generation
      requires TableApart(root, table, sharedRoot, p.supply) && Zeroed(mem, p.supply)
      modifies this
      ensures Valid() && Current() && generation == old(generation) + 1 && sharedRoot == old(sharedRoot)
      ensures forall vpn: nat ::
              InSpace(vpn) ==> View(table, vpn) == Meaning(p.plan, vpn, IsForeign(vpn), View(old(table), vpn))
      ensures forall i :: i in sharedRoot ==> i < ENTRIES && table[i] == old(table)[i]
      ensures var f := PreflightOf(levels - 1, old(table), sharedRoot, p.plan);
              |unused| == |p.supply.frames| - f.required && |retired| == f.retired
      ensures forall f ::
              Count(owners, f) + Count(unused, f) + Count(retired, f)
              == Count(old(owners), f) + Count(p.supply.frames, f)
    {
      ghost var t0, was := table, With(p.supply);
      EnoughIsReady(levels - 1, table, sharedRoot, p.plan, p.supply);
      var s := PublishInner(p.plan, p.supply);
      SettlePublish(p, was, s);
      ghost var r := Publish(levels - 1, t0, sharedRoot, p.plan, p.supply);
      table := r.table;
      generation := generation + 1;
      history := history[generation := (table, sharedRoot)];
      unused, retired := s.frames, s.retired;
      forall vpn: nat | InSpace(vpn) ensures View(table, vpn) == Meaning(p.plan, vpn, IsForeign(vpn), View(t0, vpn)) {
        PublishMeaning(levels - 1, t0, sharedRoot, p.plan, p.supply, vpn);
      }
      PublishExact(levels - 1, t0, sharedRoot, p.plan, p.supply);
      forall i | i in sharedRoot ensures table[i] == t0[i] {
        PublishKeepsShared(levels - 1, t0, sharedRoot, p.plan, p.supply, i);
      }
    }

    method PublishInner(p: Plan, s: Supply) returns (s': Supply)
      requires Valid() && TableApart(root, table, sharedRoot, s) && Zeroed(mem, s)
               && PlanReady(levels - 1, table, sharedRoot, p, s)
      modifies this`mem, this`owners, this`ownedRoot
      ensures Settled(Publish(levels - 1, table, sharedRoot, p, s), old(With(s)), s')
    {
      match p {
        case Map(_, _, _, _) => s' := PublishRun(p, s);
        case Unmap(_, _) => s' := PublishUnmap(p, s);
        case Protect(_, _, _, _) => s' := PublishProtect(p, s);
      }
    }

    method PublishRun(p: Plan, s: Supply) returns (s': Supply)
      requires Valid() && TableApart(root, table, sharedRoot, s) && Zeroed(mem, s)
               && PlanReady(levels - 1, table, sharedRoot, p, s)
      requires p.Map?
      modifies this`mem, this`owners, this`ownedRoot
      ensures Settled(Publish(levels - 1, table, sharedRoot, p, s), old(With(s)), s')
    {
      hide MapRun, RunMissing, RunOk, WfTable;
      ghost var j := RunJob(levels - 1, table, sharedRoot, root, RunOf(p), With(s));
      s' := PublishMap(p.vpn, p.count, p.ppn, p.flags, j, s);
    }

    method PublishUnmap(p: Plan, s: Supply) returns (s': Supply)
      requires Valid() && TableApart(root, table, sharedRoot, s) && Zeroed(mem, s)
               && PlanReady(levels - 1, table, sharedRoot, p, s)
      requires p.Unmap?
      modifies this`mem, this`owners, this`ownedRoot
      ensures Settled(Publish(levels - 1, table, sharedRoot, p, s), old(With(s)), s')
    {
      hide EditTable, TableNeed, TableFreed, Stores, WfTable;
      s' := UnmapRoot(p.vpn, p.vpn + p.count, s);
    }

    method UnmapRoot(lo: nat, hi: nat, s: Supply) returns (s': Supply)
      requires Valid() && TableApart(root, table, sharedRoot, s) && Zeroed(mem, s)
      requires TableNeed(levels - 1, table, 0, lo, hi, sharedRoot, ENTRIES) <= |s.frames|
      modifies this`mem, this`owners, this`ownedRoot
      ensures Settled(EditTable(Remove, levels - 1, table, 0, lo, hi, sharedRoot, ENTRIES, s), old(With(s)), s')
    {
      hide EditTable, TableNeed, Stores;
      ghost var j := Job(Span(Remove, lo, hi), levels - 1, table, 0, sharedRoot, root, With(s));
      RootJob(j.range, s);
      var rootEmpty;
      s', rootEmpty := UnmapRange(root, levels - 1, 0, lo, hi, j, s);
      JobEnds(j);
    }

    method PublishProtect(p: Plan, s: Supply) returns (s': Supply)
      requires Valid() && TableApart(root, table, sharedRoot, s) && Zeroed(mem, s)
               && PlanReady(levels - 1, table, sharedRoot, p, s)
      requires p.Protect?
      modifies this`mem, this`owners
      ensures Settled(Publish(levels - 1, table, sharedRoot, p, s), old(With(s)), s')
    {
      hide EditTable, CheckTable, TableNeed, TableFreed, Stores, WfTable;
      s' := ProtectRoot(p.vpn, p.vpn + p.count, p.from, p.to, s);
    }

    method ProtectRoot(lo: nat, hi: nat, from: nat, to: nat, s: Supply) returns (s': Supply)
      requires Valid() && TableApart(root, table, sharedRoot, s) && Zeroed(mem, s) && ValidLeafFlags(to)
      requires CheckTable(levels - 1, table, 0, lo, hi, sharedRoot, from, ENTRIES).Ok?
      requires TableNeed(levels - 1, table, 0, lo, hi, sharedRoot, ENTRIES) <= |s.frames|
      modifies this`mem, this`owners
      ensures Settled(EditTable(SetFlags(to), levels - 1, table, 0, lo, hi, sharedRoot, ENTRIES, s), old(With(s)), s')
    {
      hide EditTable, CheckTable, TableNeed, Stores;
      ghost var j := Job(Span(SetFlags(to), lo, hi), levels - 1, table, 0, sharedRoot, root, With(s));
      RootJob(j.range, s);
      s' := ProtectRange(root, levels - 1, 0, lo, hi, from, to, j, s);
      JobEnds(j);
      ProtectOwned(levels - 1, table, sharedRoot, lo, hi, to, s);
    }

    /** A range edit of the whole tree is admissible with enough blank tables of its own. */
    lemma RootJob(range: Span, s: Supply)
      requires Valid() && TableApart(root, table, sharedRoot, s) && Zeroed(mem, s)
      requires TableNeed(levels - 1, table, 0, range.lo, range.hi, sharedRoot, ENTRIES) <= |s.frames|
      ensures Admissible(Job(range, levels - 1, table, 0, sharedRoot, root, With(s)), root)
    {}

    /** Memory holds the published tree; frames only moved; the bitmap is up to date. */
    ghost predicate Settled(r: EditedTable, was: State, s: Supply)
      reads this
    {
      s == r.supply && WfMemory(mem) && Stores(mem, root, r.table) && Moved(was, With(s))
          && ownedRoot == OwnedSlots(r.table, sharedRoot)
          && TableWrite(was.mem, mem, root, table, sharedRoot, was.supply)
    }

    lemma SettlePublish(p: Prepared, was: State, s: Supply)
      requires Agrees(was.mem, was.owners, OwnedSlots(table, sharedRoot), sharedRoot, table)
      requires TableApart(root, table, sharedRoot, p.supply) && was.supply == p.supply
      requires Enough(PreflightOf(levels - 1, table, sharedRoot, p.plan), p.supply)
      requires Settled(Publish(levels - 1, table, sharedRoot, p.plan, p.supply), was, s)
      ensures Holds(Publish(levels - 1, table, sharedRoot, p.plan, p.supply).table)
    {
      var r := Publish(levels - 1, table, sharedRoot, p.plan, p.supply);
      PublishWf(levels - 1, table, sharedRoot, p.plan, p.supply);
      forall f
        ensures TableLinks(r.table, sharedRoot, ENTRIES, f) + Held(s, f)
                == TableLinks(table, sharedRoot, ENTRIES, f) + Held(p.supply, f)
      {
        PublishLinks(levels - 1, table, sharedRoot, p.plan, p.supply, f);
      }
      forall i | i in sharedRoot ensures r.table[i] == table[i] {
        PublishKeepsShared(levels - 1, table, sharedRoot, p.plan, p.supply, i);
      }
      forall i, f | 0 <= i < |r.table| && i in sharedRoot && Links(r.table[i], f) > 0
        ensures Foreign(root, r.table, sharedRoot, Supply([], []), f)
      {
        assert Foreign(root, table, sharedRoot, p.supply, f);
      }
    }

    static lemma ProtectOwned(top: nat, t: seq<Entry>, shared: set<nat>, lo: nat, hi: nat, to: nat, s: Supply)
      requires |t| == ENTRIES
      ensures OwnedSlots(EditTable(SetFlags(to), top, t, 0, lo, hi, shared, ENTRIES, s).table, shared)
              == OwnedSlots(t, shared)
    {
      var u := EditTable(SetFlags(to), top, t, 0, lo, hi, shared, ENTRIES, s).table;
      forall i: nat | i < ENTRIES ensures u[i] == Invalid <==> t[i] == Invalid {
        SlotAfter(SetFlags(to), top, t, 0, lo, hi, shared, i, ENTRIES, s);
      }
    }

    // ---- several plans at once -----------------------------------------------------------------

    /** The frames of all the supplies, those of the first plan first. */
    static ghost function AllFrames(ps: seq<Prepared>): seq<nat> {
      if ps == [] then [] else ps[0].supply.frames + AllFrames(ps[1..])
    }

    static ghost function Plans(ps: seq<Prepared>): (r: seq<Plan>)
      ensures |r| == |ps| && forall i :: 0 <= i < |r| ==> r[i] == ps[i].plan
    {
      seq(|ps|, i requires 0 <= i < |ps| => ps[i].plan)
    }

    static ghost function Supplies(ps: seq<Prepared>): (r: seq<Supply>)
      ensures |r| == |ps| && forall i :: 0 <= i < |r| ==> r[i] == ps[i].supply
    {
      seq(|ps|, i requires 0 <= i < |ps| => ps[i].supply)
    }

    /** Blank frames that are nobody's yet. */
    ghost predicate Spare(frames: seq<nat>)
      reads this
    {
      TableApart(root, table, sharedRoot, Supply(frames, [])) && Zeroed(mem, Supply(frames, []))
    }

    static lemma CountTwo(a: seq<nat>, b: seq<nat>, f: nat)
      ensures Count(a + b, f) == Count(a, f) + Count(b, f)
    {}

    /** Part of the spare frames is spare. */
    lemma SparePart(frames: seq<nat>, rest: seq<nat>)
      requires Spare(frames + rest)
      ensures Spare(frames)
    {
      forall f ensures Count(frames, f) <= Count(frames + rest, f) { CountTwo(frames, rest, f); }
      hide Links;
      var all, s := Supply(frames + rest, []), Supply(frames, []);
      forall f ensures Held(s, f) <= Held(all, f) {}
      forall i, f | 0 <= i < |table| && i in sharedRoot && Links(table[i], f) > 0
        ensures Foreign(root, table, sharedRoot, s, f)
      {
        assert Foreign(root, table, sharedRoot, all, f);
      }
    }

    /** Publishes one plan of a batch; frames of the others stay blank and nobody's. */
    method PublishOne(p: Plan, s: Supply, ghost rest: seq<nat>) returns (s': Supply)
      requires Valid() && |table| == ENTRIES && Enough(PreflightOf(levels - 1, table, sharedRoot, p), s)
      requires Spare(s.frames + rest)
      modifies this`mem, this`owners, this`ownedRoot, this`table
      ensures Valid() && p.vpn + p.count <= 512 * Pages(levels - 1) && Spare(rest)
      ensures var r := Publish(levels - 1, old(table), sharedRoot, p, s); table == r.table && s' == r.supply
      ensures forall f :: Count(owners, f) + Held(s', f) == Count(old(owners), f) + Count(s.frames, f)
    {
      hide PreflightOf, Publish, Agrees, Spare, TableWrite;
      ghost var was, t0 := With(s), table;
      AgreesNow();
      SparePart(s.frames, rest);
      SpareMeans(s.frames);
      SpareMeans(s.frames + rest);
      EnoughIsReady(levels - 1, table, sharedRoot, p, s);
      assert s == Supply(s.frames, []);
      s' := PublishInner(p, s);
      SettlePublish(Prepared(p, 0, s), was, s');
      RestStaysSpare(p, was, s', rest);
      table := Publish(levels - 1, t0, sharedRoot, p, s).table;
      IsSpare(rest);
    }

    lemma AgreesNow()
      requires Valid()
      ensures Agrees(mem, owners, OwnedSlots(table, sharedRoot), sharedRoot, table)
      ensures levels >= 2 && |table| == ENTRIES && WfTable(levels - 1, table, sharedRoot)
    {}

    lemma IsSpare(frames: seq<nat>)
      requires TableApart(root, table, sharedRoot, Supply(frames, [])) && Zeroed(mem, Supply(frames, []))
      ensures Spare(frames)
    {}

    lemma SpareMeans(frames: seq<nat>)
      requires Spare(frames)
      ensures TableApart(root, table, sharedRoot, Supply(frames, [])) && Zeroed(mem, Supply(frames, []))
    {}

    lemma RestStaysSpare(p: Plan, was: State, s: Supply, rest: seq<nat>)
      requires levels > 0 && |table| == ENTRIES && WfTable(levels - 1, table, sharedRoot)
      requires Enough(PreflightOf(levels - 1, table, sharedRoot, p), was.supply)
               && p.vpn + p.count <= 512 * Pages(levels - 1)
      requires TableApart(root, table, sharedRoot, Supply(was.supply.frames + rest, []))
               && Zeroed(was.mem, Supply(was.supply.frames + rest, []))
      requires Settled(Publish(levels - 1, table, sharedRoot, p, was.supply), was, s)
      ensures TableApart(root, Publish(levels - 1, table, sharedRoot, p, was.supply).table, sharedRoot,
                         Supply(rest, []))
              && Zeroed(mem, Supply(rest, []))
    {
      hide PreflightOf, Publish, WfTable, Links, Stores, OwnedSlots;
      var r := Publish(levels - 1, table, sharedRoot, p, was.supply);
      var all, left := Supply(was.supply.frames + rest, []), Supply(rest, []);
      forall f
        ensures TableLinks(r.table, sharedRoot, ENTRIES, f) + Held(left, f)
                <= TableLinks(table, sharedRoot, ENTRIES, f) + Held(all, f)
        ensures Count(rest, f) + Count(was.supply.frames, f) == Count(all.frames, f)
      {
        PublishLinks(levels - 1, table, sharedRoot, p, was.supply, f);
        CountTwo(was.supply.frames, rest, f);
      }
      forall i, f | 0 <= i < |r.table| && i in sharedRoot && Links(r.table[i], f) > 0
        ensures Foreign(root, r.table, sharedRoot, left, f)
      {
        PublishKeepsShared(levels - 1, table, sharedRoot, p, was.supply, i);
        assert Foreign(root, table, sharedRoot, all, f);
      }
    }

    static function Joined(xs: seq<seq<nat>>): seq<nat> {
      if xs == [] then [] else Joined(xs[..|xs| - 1]) + xs[|xs| - 1]
    }

    static lemma JoinedPush(xs: seq<seq<nat>>, x: seq<nat>, f: nat)
      ensures Count(Joined(xs + [x]), f) == Count(Joined(xs), f) + Count(x, f)
    {
      assert (xs + [x])[..|xs|] == xs;
      CountTwo(Joined(xs), x, f);
    }

    /** The tree after the whole batch. */
    ghost function Outcome(t: seq<Entry>, shared: set<nat>, ps: seq<Prepared>): seq<Entry> {
      if levels > 0 && |t| == ENTRIES
         && forall i :: 0 <= i < |ps| ==> Plans(ps)[i].vpn + Plans(ps)[i].count <= 512 * Pages(levels - 1)
      then PublishAll(levels - 1, t, shared, Plans(ps), Supplies(ps)) else t
    }

    lemma BatchStarts(ps: seq<Prepared>)
      requires Valid() && Current() && |table| == ENTRIES
      requires forall i :: 0 <= i < |ps| ==> Sound(ps[i]) && ps[i].generation == generation
      requires forall i, j :: 0 <= i < j < |ps| ==> Alike(ps[i].plan, ps[j].plan) && Clear(ps[i].plan, ps[j].plan)
      ensures Batch(levels - 1, table, sharedRoot, Plans(ps), Supplies(ps)) && WfTable(levels - 1, table, sharedRoot)
    {
      hide PreflightOf, Alike, Clear, Enough;
      forall i | 0 <= i < |ps|
        ensures Enough(PreflightOf(levels - 1, table, sharedRoot, Plans(ps)[i]), Supplies(ps)[i])
      {
        assert Sound(ps[i]);
      }
    }

    lemma NextOfBatch(ps: seq<Prepared>, k: nat)
      requires Valid() && |table| == ENTRIES && k < |ps|
               && Batch(levels - 1, table, sharedRoot, Plans(ps[k..]), Supplies(ps[k..]))
      ensures var p, s := ps[k].plan, ps[k].supply;
              && Enough(PreflightOf(levels - 1, table, sharedRoot, p), s) && p.vpn + p.count <= 512 * Pages(levels - 1)
              && AllFrames(ps[k..]) == s.frames + AllFrames(ps[k + 1..])
              && var u := Publish(levels - 1, table, sharedRoot, p, s).table;
              && Batch(levels - 1, u, sharedRoot, Plans(ps[k + 1..]), Supplies(ps[k + 1..]))
              && Outcome(table, sharedRoot, ps[k..]) == Outcome(u, sharedRoot, ps[k + 1..])
    {
      hide PreflightOf, Publish, Enough, Batch, WfTable, Stores, TableApart;
      var now, next := ps[k..], ps[k + 1..];
      assert now[1..] == next && now[0] == ps[k];
      assert Plans(now)[1..] == Plans(next) && Supplies(now)[1..] == Supplies(next);
      assert Plans(now)[0] == ps[k].plan && Supplies(now)[0] == ps[k].supply;
      BatchStep(levels - 1, table, sharedRoot, Plans(now), Supplies(now));
      InRange(levels - 1, table, sharedRoot, Plans(now), Supplies(now));
      forall i | 0 <= i < |next| ensures Plans(next)[i] == Plans(now)[i + 1] {}
    }

    lemma BatchOver(ps: seq<Prepared>)
      ensures ps[|ps|..] == [] && AllFrames([]) == [] && Outcome(table, sharedRoot, []) == table
    {
      assert Plans([]) == [] && Supplies([]) == [];
    }

    lemma BatchEnds(t0: seq<Entry>, ps: seq<Prepared>, vpn: nat)
      requires levels > 0 && |t0| == ENTRIES && WfTable(levels - 1, t0, sharedRoot)
               && Batch(levels - 1, t0, sharedRoot, Plans(ps), Supplies(ps)) && table == Outcome(t0, sharedRoot, ps)
               && |table| == ENTRIES && InSpace(vpn)
      ensures forall i | 0 <= i < |ps| && Touches(ps[i].plan, vpn) ::
              View(table, vpn) == Meaning(ps[i].plan, vpn, IsForeign(vpn), View(t0, vpn))
      ensures (forall i :: 0 <= i < |ps| ==> !Touches(ps[i].plan, vpn)) ==> View(table, vpn) == View(t0, vpn)
    {
      hide PreflightOf, PublishAll, Batch, WfTable, FlatAt, Meaning, Touches;
      BatchMeaning(levels - 1, t0, sharedRoot, Plans(ps), Supplies(ps), vpn);
      forall i | 0 <= i < |ps| ensures Plans(ps)[i] == ps[i].plan {}
    }

    /** Publishes plans prepared at this generation, of one kind and clear of one another, as one change. */
    method PublishBatch(ps: seq<Prepared>) returns (unused: seq<seq<nat>>, retired: seq<seq<nat>>)
      requires Valid() && Current() && |table| == ENTRIES && ps != []
      requires forall i :: 0 <= i < |ps| ==> Sound(ps[i]) && ps[i].generation == generation
      requires forall i, j :: 0 <= i < j < |ps| ==> Alike(ps[i].plan, ps[j].plan) && Clear(ps[i].plan, ps[j].plan)
      requires Spare(AllFrames(ps))
      modifies this
      ensures Valid() && Current() && generation == old(generation) + 1 && sharedRoot == old(sharedRoot)
      ensures |unused| == |retired| == |ps|
      ensures forall vpn: nat, i | InSpace(vpn) && 0 <= i < |ps| && Touches(ps[i].plan, vpn) ::
              View(table, vpn) == Meaning(ps[i].plan, vpn, IsForeign(vpn), View(old(table), vpn))
      ensures forall vpn: nat | InSpace(vpn) && (forall i :: 0 <= i < |ps| ==> !Touches(ps[i].plan, vpn)) ::
              View(table, vpn) == View(old(table), vpn)
      ensures forall f ::
              Count(owners, f) + Count(Joined(unused), f) + Count(Joined(retired), f)
              == Count(old(owners), f) + Count(AllFrames(ps), f)
    {
      hide Sound, Agrees, Batch, Spare, Publish, PublishAll, View, Meaning, Touches, Current;
      ghost var t0 := table;
      AgreesNow();
      BatchStarts(ps);
      unused, retired := [], [];
      var k := 0;
      assert ps[0..] == ps;
      while k < |ps|
        invariant 0 <= k <= |ps| && |unused| == |retired| == k && Valid() && levels >= 2 && |table| == ENTRIES
        invariant sharedRoot == old(sharedRoot) && generation == old(generation)
        invariant Batch(levels - 1, table, sharedRoot, Plans(ps[k..]), Supplies(ps[k..])) && Spare(AllFrames(ps[k..]))
        invariant Outcome(t0, sharedRoot, ps) == Outcome(table, sharedRoot, ps[k..])
        invariant forall f ::
                  Count(owners, f) + Count(Joined(unused), f) + Count(Joined(retired), f) + Count(AllFrames(ps[k..]), f)
                  == Count(old(owners), f) + Count(AllFrames(ps), f)
      {
        NextOfBatch(ps, k);
        ghost var before, u0, r0 := owners, unused, retired;
        var s := PublishOne(ps[k].plan, ps[k].supply, AllFrames(ps[k + 1..]));
        unused, retired := unused + [s.frames], retired + [s.retired];
        forall f
          ensures Count(Joined(unused), f) == Count(Joined(u0), f) + Count(s.frames, f)
          ensures Count(Joined(retired), f) == Count(Joined(r0), f) + Count(s.retired, f)
        {
          JoinedPush(u0, s.frames, f);
          JoinedPush(r0, s.retired, f);
        }
        k := k + 1;
      }
      BatchOver(ps);
      generation := generation + 1;
      history := history[generation := (table, sharedRoot)];
      forall vpn: nat | InSpace(vpn)
        ensures forall i | 0 <= i < |ps| && Touches(ps[i].plan, vpn) ::
                View(table, vpn) == Meaning(ps[i].plan, vpn, IsForeign(vpn), View(t0, vpn))
        ensures (forall i :: 0 <= i < |ps| ==> !Touches(ps[i].plan, vpn)) ==> View(table, vpn) == View(t0, vpn)
      {
        BatchEnds(t0, ps, vpn);
      }
      NowCurrent();
    }

    lemma NowCurrent()
      requires generation in history && history[generation] == (table, sharedRoot)
      ensures Current()
    {}

    // ---- entries owned by someone else -----------------------------------------------------

    /** The root slots `start` on are free for `n` foreign entries. */
    predicate FreeSlots(start: nat, n: nat)
      requires start + n <= ENTRIES && root in mem && |mem[root]| == ENTRIES
      reads this
    {
      forall k :: start <= k < start + n ==> k !in sharedRoot && k !in ownedRoot && !IsValid(mem[root][k])
    }

    /** Hangs foreign entries into free root slots; on any error nothing changes. */
    method AttachSharedRoot(start: nat, entries: seq<Raw>, ghost subtrees: seq<Entry>)
        returns (error: Option<SharedRootError>)
      requires Valid() && |subtrees| == |entries|
      requires forall k :: 0 <= k < |entries| && IsValid(entries[k]) ==> Denotes(mem, entries[k], subtrees[k])
      requires forall k :: 0 <= k < |entries| ==> Alien(subtrees[k], root, owners)
      modifies this`mem, this`sharedRoot, this`table, this`generation, this`history
      ensures Valid()
      ensures error == if start + |entries| > ENTRIES then Some(RootOutOfRange)
                       else if exists k :: 0 <= k < |entries| && !IsValid(entries[k]) then Some(InvalidEntry)
                       else if !old(FreeSlots(start, |entries|)) then Some(RootConflict)
                       else None
      ensures error.Some? ==>
              mem == old(mem) && table == old(table) && sharedRoot == old(sharedRoot) && generation == old(generation)
              && history == old(history)
      ensures error.None? ==>
                && generation == old(generation) + 1 && Current()
                    && sharedRoot == old(sharedRoot) + Slots(start, |entries|)
                && table == Spliced(old(table), start, subtrees)
    {
      if start + |entries| > ENTRIES { return Some(RootOutOfRange); }
      if exists k :: 0 <= k < |entries| && !IsValid(entries[k]) { return Some(InvalidEntry); }
      if !FreeSlots(start, |entries|) { return Some(RootConflict); }
      HangEntries(start, entries);
      Attached(old(mem), mem, table, old(sharedRoot), sharedRoot, start, entries, subtrees);
      table := Spliced(table, start, subtrees);
      generation := generation + 1;
      history := history[generation := (table, sharedRoot)];
      return None;
    }

    method HangEntries(start: nat, entries: seq<Raw>)
      requires start + |entries| <= ENTRIES && root in mem && |mem[root]| == ENTRIES
      modifies this`mem, this`sharedRoot
      ensures Hung(old(mem), mem, start, entries) && sharedRoot == old(sharedRoot) + Slots(start, |entries|)
    {
      var k := 0;
      while k < |entries|
        invariant k <= |entries| && Hung(old(mem), mem, start, entries[..k])
                  && sharedRoot == old(sharedRoot) + Slots(start, k)
      {
        mem := Put(mem, root, start + k, entries[k]);
        sharedRoot := sharedRoot + {start + k};
        k := k + 1;
      }
      assert entries[..k] == entries;
    }

    /** Memory with the words `entries` in the root table from slot `start` on. */
    ghost predicate Hung(m0: Memory, m1: Memory, start: nat, entries: seq<Raw>) {
      && m1.Keys == m0.Keys && root in m0 && |m0[root]| == |m1[root]| == ENTRIES
          && (forall f :: f in m1 && f != root ==> m1[f] == m0[f])
      && forall i ::
          0 <= i < ENTRIES ==> m1[root][i] == if start <= i < start + |entries| then entries[i - start] else m0[root][i]
    }

    static ghost function Spliced(t: seq<Entry>, start: nat, subtrees: seq<Entry>): (u: seq<Entry>)
      ensures |t| == ENTRIES && start + |subtrees| <= ENTRIES ==>
                && |u| == ENTRIES
                && forall i ::
                    0 <= i < ENTRIES ==> u[i] == if start <= i < start + |subtrees| then subtrees[i - start] else t[i]
    {
      if start + |subtrees| <= |t| then t[..start] + subtrees + t[start + |subtrees|..] else t
    }

    lemma Attached(m0: Memory, m1: Memory, t0: seq<Entry>, sh0: set<nat>, sh1: set<nat>, start: nat, entries: seq<Raw>,
                   subtrees: seq<Entry>)
      requires Agrees(m0, owners, ownedRoot, sh0, t0) && |subtrees| == |entries| && start + |entries| <= ENTRIES
      requires forall k :: 0 <= k < |entries| ==> IsValid(entries[k]) && Denotes(m0, entries[k], subtrees[k])
      requires forall k :: 0 <= k < |entries| ==> Alien(subtrees[k], root, owners)
      requires forall k :: start <= k < start + |entries| ==> k !in sh0 && k !in ownedRoot
      requires Hung(m0, m1, start, entries) && sh1 == sh0 + Slots(start, |entries|)
      ensures Agrees(m1, owners, ownedRoot, sh1, Spliced(t0, start, subtrees))
    {
      hide Links;
      var t := Spliced(t0, start, subtrees);
      AttachedStores(m0, m1, t0, t, sh0, start, entries, subtrees);
      AttachedApart(t0, sh0, sh1, start, subtrees);
    }

    lemma AttachedApart(t0: seq<Entry>, sh0: set<nat>, sh1: set<nat>, start: nat, subtrees: seq<Entry>)
      requires |t0| == ENTRIES && start + |subtrees| <= ENTRIES && TableApart(root, t0, sh0, Supply([], []))
      requires forall f :: Count(owners, f) == TableLinks(t0, sh0, ENTRIES, f)
      requires forall k :: 0 <= k < |subtrees| ==> Alien(subtrees[k], root, owners)
      requires forall k :: start <= k < start + |subtrees| ==> k !in sh0 && t0[k] == Invalid
      requires sh1 == sh0 + Slots(start, |subtrees|)
      ensures TableApart(root, Spliced(t0, start, subtrees), sh1, Supply([], []))
      ensures forall f :: Count(owners, f) == TableLinks(Spliced(t0, start, subtrees), sh1, ENTRIES, f)
    {
      var t := Spliced(t0, start, subtrees);
      forall f ensures TableLinks(t, sh1, ENTRIES, f) == TableLinks(t0, sh0, ENTRIES, f) {
        AttachedLinks(t0, t, sh0, sh1, start, start + |subtrees|, ENTRIES, f);
      }
      forall i, f | 0 <= i < |t| && i in sh1 && Links(t[i], f) > 0 ensures Foreign(root, t, sh1, Supply([], []), f) {
        if i in sh0 {
          assert Foreign(root, t0, sh0, Supply([], []), f);
        } else {
          assert Alien(subtrees[i - start], root, owners);
        }
      }
    }

    lemma AttachedStores(m0: Memory, m1: Memory, t0: seq<Entry>, t: seq<Entry>, sh0: set<nat>, start: nat,
                         entries: seq<Raw>, subtrees: seq<Entry>)
      requires Stores(m0, root, t0) && |t0| == |t| == ENTRIES && TableApart(root, t0, sh0, Supply([], []))
               && |subtrees| == |entries|
      requires forall k ::
               0 <= k < |entries| ==> Denotes(m0, entries[k], subtrees[k]) && Alien(subtrees[k], root, owners)
      requires Hung(m0, m1, start, entries)
      requires forall i ::
               0 <= i < ENTRIES ==> t[i] == if start <= i < start + |entries| then subtrees[i - start] else t0[i]
      ensures Stores(m1, root, t)
    {
      forall i | 0 <= i < ENTRIES ensures Denotes(m1, m1[root][i], t[i]) {
        if start <= i < start + |entries| {
          assert Alien(subtrees[i - start], root, owners);
          DenotesFrame(m0, m1, entries[i - start], subtrees[i - start]);
        } else {
          forall f | f in m0 && Links(t0[i], f) > 0 ensures f != root {
            if i in sh0 {
              assert Foreign(root, t0, sh0, Supply([], []), f);
            } else {
              SlotLinks(t0, sh0, ENTRIES, i, f);
            }
          }
          DenotesFrame(m0, m1, m0[root][i], t0[i]);
        }
      }
    }

    static lemma {:induction false} AttachedLinks(t0: seq<Entry>, t: seq<Entry>, sh0: set<nat>, sh: set<nat>, lo: nat,
                                                  hi: nat, n: nat, f: nat)
      requires |t0| == |t| && n <= |t|
               && (forall i :: 0 <= i < |t| && !(lo <= i < hi) ==> t[i] == t0[i] && (i in sh <==> i in sh0))
      requires forall i :: 0 <= i < |t| && lo <= i < hi ==> i in sh && i !in sh0 && t0[i] == Invalid
      ensures TableLinks(t, sh, n, f) == TableLinks(t0, sh0, n, f)
    {
      if n > 0 { AttachedLinks(t0, t, sh0, sh, lo, hi, n - 1, f); }
    }

    // ---- drain -----------------------------------------------------------------------------

    ghost predicate Draining(c: Cursor)
      reads this
    {
      levels > 0 && DrainAt(c, levels - 1, table, sharedRoot, root)
    }

    /** Steps until the drain reports completion. */
    ghost function StepsLeft(c: Cursor): nat
      requires Draining(c)
      reads this
    {
      LeftAt(c, levels - 1, table, sharedRoot, root)
    }

    method BeginDrain() returns (c: Cursor)
      requires Valid()
      ensures Draining(c) && !c.complete && StepsLeft(c) == 1 + Steps(levels - 1, table, sharedRoot, 0)
    {
      var none: seq<Option<nat>> := seq(levels, _ => None);
      c := Cursor(none[levels - 1 := Some(root)], seq(levels, _ => 0), levels - 1, false);
    }

    /** One unit of draining: pass a slot, go down a level, or retire an emptied table. */
    method DrainOne(c: Cursor) returns (c': Cursor, r: DrainStep)
      requires Valid() && Draining(c)
      modifies this`mem, this`owners, this`ownedRoot, this`table
      ensures Valid() && Draining(c') && StepsLeft(c') == (if c.complete then 0 else old(StepsLeft(c)) - 1)
      ensures r.Complete? <==> c'.complete
      ensures forall f :: Count(owners, f) + (if r.Retired? && r.owner == f then 1 else 0) == Count(old(owners), f)
      ensures forall i :: i in sharedRoot ==> i < ENTRIES && table[i] == old(table)[i]
    {
      if c.complete { return c, Complete; }
      CursorHere(c, levels - 1, table, sharedRoot, root);
      var level := c.level;
      var i := c.indices[level];
      if i < ENTRIES {
        c', r := DrainSlot(c);
      } else if level + 1 == levels {
        return c.(complete := true), Complete;
      } else {
        c', r := RetireTable(c);
      }
    }

    method DrainSlot(c: Cursor) returns (c': Cursor, r: DrainStep)
      requires Valid() && Draining(c) && !c.complete && c.indices[c.level] < ENTRIES
      modifies this`mem, this`ownedRoot, this`table
      ensures Valid() && Draining(c') && !c'.complete && StepsLeft(c') == old(StepsLeft(c)) - 1 && r == Progress
      ensures forall k :: k in sharedRoot ==> k < ENTRIES && table[k] == old(table)[k]
    {
      hide Left, Erase, Links;
      ghost var top: nat := levels - 1;
      CursorHere(c, top, table, sharedRoot, root);
      var level := c.level;
      var i := c.indices[level];
      r := Progress;
      c' := c.(indices := c.indices[level := i + 1]);
      if level + 1 == levels && i in sharedRoot {
        Advance(c, top, table, sharedRoot, root);
        return;
      }
      TableAtWf(c, level, top, table, sharedRoot, root, mem);
      ghost var e := TableAt(c, level, top, table, root).0[i];
      var entry := mem[c.frames[level].value][i];
      assert Denotes(mem, entry, e) && WfEntry(level, e);
      if IsBranch(entry) {
        assert WfTable(level - 1, e.table, {});
        Descend(c, top, table, sharedRoot, root);
        c' := c.(frames := c.frames[level - 1 := Some(NextFrame(entry))],
                 indices := c.indices[level := i + 1][level - 1 := 0], level := level - 1);
      } else if IsValid(entry) {
        c' := ClearLeaf(c);
      } else {
        assert level + 1 == levels ==> i !in ownedRoot;
        Advance(c, top, table, sharedRoot, root);
        EraseNothing(c, level, top, table, root, i);
      }
    }

    method ClearLeaf(c: Cursor) returns (c': Cursor)
      requires Valid() && Draining(c) && !c.complete && c.level < levels && c.indices[c.level] < ENTRIES
      requires c.level + 1 == levels ==> c.indices[c.level] !in sharedRoot
      requires TableAt(c, c.level, levels - 1, table, root).0[c.indices[c.level]].Leaf?
      modifies this`mem, this`ownedRoot, this`table
      ensures Valid() && Draining(c') && !c'.complete && StepsLeft(c') == old(StepsLeft(c)) - 1
      ensures forall k :: k in sharedRoot ==> k < ENTRIES && table[k] == old(table)[k]
    {
      hide Agrees, Erase, Swept, Left, Cleared;
      LeafCleared(c);
      var level := c.level;
      var i := c.indices[level];
      mem := Put(mem, c.frames[level].value, i, INVALID);
      ownedRoot := if level + 1 == levels then ownedRoot - {i} else ownedRoot;
      table := Erase(c, level, levels - 1, table, root, i);
      c' := c.(indices := c.indices[level := i + 1]);
    }

    lemma LeafCleared(c: Cursor)
      requires Valid() && Draining(c) && !c.complete && c.level < levels && c.indices[c.level] < ENTRIES
      requires c.level + 1 == levels ==> c.indices[c.level] !in sharedRoot
      requires TableAt(c, c.level, levels - 1, table, root).0[c.indices[c.level]].Leaf?
      ensures var i := c.indices[c.level];
              var d := c.(indices := c.indices[c.level := i + 1]);
              var u := Erase(c, c.level, levels - 1, table, root, i);
              && c.frames[c.level].Some? && c.frames[c.level].value in mem && |mem[c.frames[c.level].value]| == ENTRIES
              && Agrees(Put(mem, c.frames[c.level].value, i, INVALID), owners, if c.level + 1 == levels then
                        ownedRoot - {i} else ownedRoot, sharedRoot, u)
              && DrainAt(d, levels - 1, u, sharedRoot, root)
                  && LeftAt(d, levels - 1, u, sharedRoot, root) + 1 == StepsLeft(c)
              && (forall k :: k in sharedRoot ==> k < ENTRIES && u[k] == table[k])
    {
      hide Agrees, Erase, Left, Cleared;
      CursorHere(c, levels - 1, table, sharedRoot, root);
      Advance(c, levels - 1, table, sharedRoot, root);
      Erased(mem, owners, ownedRoot, sharedRoot, table, c, c.level, c.indices[c.level], owners);
    }

    /** Erasing a slot that is empty already changes nothing. */
    static lemma {:induction false} EraseNothing(c: Cursor, low: nat, level: nat, t: seq<Entry>, frame: nat, k: nat)
      requires OnWay(c, low, level, t, frame) && k < ENTRIES && TableAt(c, low, level, t, frame).0[k] == Invalid
      ensures Erase(c, low, level, t, frame, k) == t
      decreases level
    {
      if low < level {
        var i := c.indices[level] - 1;
        EraseNothing(c, low, level - 1, t[i].table, t[i].frame, k);
      }
    }

    /**
      What the tree becomes when slot `k` of the table at `low` is emptied and the ledger gives up what hung below it.
    */
    lemma Erased(m: Memory, o0: seq<nat>, owned: set<nat>, shared: set<nat>, t: seq<Entry>, c: Cursor, low: nat,
                 k: nat, o1: seq<nat>)
      requires Agrees(m, o0, owned, shared, t) && |c.frames| == levels && OnWay(c, low, levels - 1, t, root)
               && k < ENTRIES
      requires (low < levels - 1 ==> c.indices[levels - 1] <= ENTRIES && c.indices[levels - 1] - 1 !in shared)
               && (low == levels - 1 ==> k !in shared)
      requires forall g :: Count(o1, g) + Links(TableAt(c, low, levels - 1, t, root).0[k], g) == Count(o0, g)
      ensures var f := TableAt(c, low, levels - 1, t, root).1;
              var u := Erase(c, low, levels - 1, t, root, k);
              && f in m && |m[f]| == ENTRIES && |u| == ENTRIES
              && Agrees(Put(m, f, k, INVALID), o1, if low + 1 == levels then owned - {k} else owned, shared, u)
              && (forall i :: i in shared ==> i < ENTRIES && u[i] == t[i])
    {
      var u := Erase(c, low, levels - 1, t, root, k);
      EraseStores(m, c, low, levels - 1, t, shared, root, k);
      EraseWf(c, low, levels - 1, t, shared, root, k);
      forall g
        ensures TableLinks(u, shared, ENTRIES, g) + Links(TableAt(c, low, levels - 1, t, root).0[k], g)
                == TableLinks(t, shared, ENTRIES, g)
      {
        EraseLinks(c, low, levels - 1, t, shared, root, k, g);
      }
      forall i, f | 0 <= i < |u| && i in shared && Links(u[i], f) > 0
        ensures Foreign(root, u, shared, Supply([], []), f)
      {
        assert u[i] == t[i];
        assert Foreign(root, t, shared, Supply([], []), f);
      }
    }

    method RetireTable(c: Cursor) returns (c': Cursor, r: DrainStep)
      requires Valid() && Draining(c) && !c.complete && c.level + 1 < levels && c.indices[c.level] == ENTRIES
      modifies this`mem, this`owners, this`ownedRoot, this`table
      ensures Valid() && Draining(c') && !c'.complete && StepsLeft(c') == old(StepsLeft(c)) - 1 && r.Retired?
      ensures forall f :: Count(owners, f) + (if r.owner == f then 1 else 0) == Count(old(owners), f)
      ensures forall k :: k in sharedRoot ==> k < ENTRIES && table[k] == old(table)[k]
    {
      hide Agrees, Erase, Swept, Left, Cleared;
      CanRetire(c);
      var level := c.level;
      var frame := c.frames[level].value;
      var k := c.indices[level + 1] - 1;
      var parent := c.frames[level + 1].value;
      assert IsBranch(mem[parent][k]) && NextFrame(mem[parent][k]) == frame;
      var owner := TakeOwner(frame);
      TableRetired(old(owners), c);
      mem := Put(mem, parent, k, INVALID);
      ownedRoot := if level + 2 == levels then ownedRoot - {k} else ownedRoot;
      table := Erase(c, level + 1, levels - 1, table, root, k);
      c' := c.(frames := c.frames[level := None], indices := c.indices[level := 0], level := level + 1);
      r := Retired(owner);
    }

    ghost predicate LinksOnly(e: Entry, f: nat) {
      forall g :: Links(e, g) == if g == f then 1 else 0
    }

    lemma CanRetire(c: Cursor)
      requires Valid() && Draining(c) && !c.complete && c.level + 1 < levels && c.indices[c.level] == ENTRIES
      ensures c.frames[c.level].Some? && c.frames[c.level + 1].Some? && 1 <= c.indices[c.level + 1] <= ENTRIES
      ensures var f, k := c.frames[c.level + 1].value, c.indices[c.level + 1] - 1;
              && f in mem && |mem[f]| == ENTRIES && IsBranch(mem[f][k])
                  && NextFrame(mem[f][k]) == c.frames[c.level].value
              && Count(owners, c.frames[c.level].value) > 0
              && OnWay(c, c.level + 1, levels - 1, table, root)
              && LinksOnly(TableAt(c, c.level + 1, levels - 1, table, root).0[k], c.frames[c.level].value)
    {
      CursorHere(c, levels - 1, table, sharedRoot, root);
      Ascend(c, levels - 1, table, sharedRoot, root);
      ParentBranch(c, c.indices[c.level + 1] - 1);
    }

    lemma TableRetired(o0: seq<nat>, c: Cursor)
      requires Agrees(mem, o0, ownedRoot, sharedRoot, table) && Draining(c) && !c.complete && c.level + 1 < levels
               && c.indices[c.level] == ENTRIES
      requires OnWay(c, c.level + 1, levels - 1, table, root) && 1 <= c.indices[c.level + 1] <= ENTRIES
      requires forall g ::
               Count(owners, g)
               + Links(TableAt(c, c.level + 1, levels - 1, table, root).0[c.indices[c.level + 1] - 1], g)
               == Count(o0, g)
      ensures var k := c.indices[c.level + 1] - 1;
              var d := c.(frames := c.frames[c.level := None], indices := c.indices[c.level := 0],
                          level := c.level + 1);
              var u := Erase(c, c.level + 1, levels - 1, table, root, k);
              && c.frames[c.level + 1].Some? && c.frames[c.level + 1].value in mem
                  && |mem[c.frames[c.level + 1].value]| == ENTRIES
              && Agrees(Put(mem, c.frames[c.level + 1].value, k, INVALID), owners, if c.level + 2 == levels then
                        ownedRoot - {k} else ownedRoot, sharedRoot, u)
              && DrainAt(d, levels - 1, u, sharedRoot, root)
                  && LeftAt(d, levels - 1, u, sharedRoot, root) + 1 == StepsLeft(c)
              && (forall i :: i in sharedRoot ==> i < ENTRIES && u[i] == table[i])
    {
      hide Agrees, Erase, Left, Cleared, Links, Count;
      CursorHere(c, levels - 1, table, sharedRoot, root);
      Ascend(c, levels - 1, table, sharedRoot, root);
      Erased(mem, o0, ownedRoot, sharedRoot, table, c, c.level + 1, c.indices[c.level + 1] - 1, owners);
    }

    /** The slot above an emptied table links exactly that table, and the ledger holds its owner. */
    lemma ParentBranch(c: Cursor, k: nat)
      requires Valid() && |c.frames| == levels && c.level + 1 < levels && OnWay(c, c.level + 1, levels - 1, table, root)
      requires c.level + 1 < levels - 1 ==> c.indices[levels - 1] <= ENTRIES && c.indices[levels - 1] - 1 !in sharedRoot
      requires c.level + 1 == levels - 1 ==> k !in sharedRoot
      requires k < ENTRIES && var e := TableAt(c, c.level + 1, levels - 1, table, root).0[k];
                              e.Branch? && c.frames[c.level] == Some(e.frame) && AllInvalid(e.table)
      ensures var f := TableAt(c, c.level + 1, levels - 1, table, root).1;
              var e := TableAt(c, c.level + 1, levels - 1, table, root).0[k];
              && f in mem && |mem[f]| == ENTRIES && IsBranch(mem[f][k]) && NextFrame(mem[f][k]) == e.frame
              && (forall g :: Links(e, g) == if g == e.frame then 1 else 0) && Count(owners, e.frame) > 0
    {
      TableAtWf(c, c.level + 1, levels - 1, table, sharedRoot, root, mem);
      var e := TableAt(c, c.level + 1, levels - 1, table, root).0[k];
      forall g ensures Links(e, g) == (if g == e.frame then 1 else 0) && Links(e, g) <= Count(owners, g) {
        AllInvalidHasNoLinks(e.table, |e.table|, g);
        EraseLinks(c, c.level + 1, levels - 1, table, sharedRoot, root, k, g);
      }
    }

    /** Runs a drain to its end: every table in the ledger is handed out exactly once. */
    method Drain() returns (retired: seq<nat>, c: Cursor)
      requires Valid()
      modifies this`mem, this`owners, this`ownedRoot, this`table
      ensures Valid() && Draining(c) && c.complete && multiset(retired) == multiset(old(owners))
    {
      c := BeginDrain();
      retired := [];
      while !c.complete
        invariant Valid() && Draining(c) && forall f :: Count(owners, f) + Count(retired, f) == Count(old(owners), f)
        decreases StepsLeft(c)
      {
        var r;
        c, r := DrainOne(c);
        if r.Retired? {
          forall f
            ensures Count(retired + [r.owner], f) == Count(retired, f) + (if r.owner == f then 1 else 0)
          {
            CountAppend(retired, r.owner, f);
          }
          retired := retired + [r.owner];
        }
      }
      NothingLeft();
      forall f ensures multiset(retired)[f] == multiset(old(owners))[f] { assert Count(owners, f) == 0; }
    }

    lemma NothingLeft()
      requires Valid() && Cleared(table, sharedRoot, ENTRIES)
      ensures owners == [] && ownedRoot == {}
    {
      forall f ensures Count(owners, f) == 0 { ClearedHasNoLinks(table, sharedRoot, ENTRIES, f); }
      assert |owners| > 0 ==> Count(owners, owners[0]) > 0;
    }

    static lemma {:induction false} ClearedHasNoLinks(t: seq<Entry>, shared: set<nat>, n: nat, f: nat)
      requires n <= |t| && Cleared(t, shared, |t|)
      ensures TableLinks(t, shared, n, f) == 0
    {
      if n > 0 { ClearedHasNoLinks(t, shared, n - 1, f); }
    }

    /** Gives up the root owner of a drained tree. */
    method FinishDrain(c: Cursor) returns (owner: nat)
      requires Valid() && Draining(c) && c.complete
      ensures owner == root && ownedRoot == {} && owners == []
    {
      NothingLeft();
      assert ownedRoot == {};
      assert owners == [];
      owner := root;
    }
  }
}
