/**
  The cancellable deadline queue: an indexed heap over an arena with a free list, refining a map from tokens to
  entries.
*/
module TimerQueue {
  import opened Wrappers
  import opened TimerHeap

  const OWNER_MAX: nat := 0xFF
  const SLOT_MAX: nat := 0xFFF_FFFF
  const GENERATION_MAX: nat := 0x7FF_FFFF

  datatype Token = Token(owner: nat, slot: nat, generation: nat)

  datatype SlotState<T> =
    | Vacant(next: Option<nat>)
    | Occupied(expires: nat, value: T, index: nat)
    | Parked(value: T)
    | Retired

  datatype Slot<T> = Slot(generation: nat, state: SlotState<T>)

  /** What a token stands for; a parked entry has no deadline. */
  datatype Entry<T> = Entry(deadline: Option<nat>, value: T)

  // ---- tokens as words -----------------------------------------------------------------------------

  /** Generation, slot plus one and owner side by side; the top bit stays clear. */
  function Raw(t: Token): nat { t.generation * 0x10_0000_0000 + (t.slot + 1) * 0x100 + t.owner }

  function FromRaw(raw: nat): Token
    requires raw / 0x100 % 0x1000_0000 > 0
  {
    Token(raw % 0x100, raw / 0x100 % 0x1000_0000 - 1, raw / 0x10_0000_0000)
  }

  predicate TokenOk(t: Token) { t.owner <= OWNER_MAX && t.slot < SLOT_MAX && 0 < t.generation <= GENERATION_MAX }

  lemma TokenRoundTrip(t: Token)
    requires TokenOk(t)
    ensures 0 < Raw(t) < 0x8000_0000_0000_0000
    ensures Raw(t) / 0x100 % 0x1000_0000 > 0 && FromRaw(Raw(t)) == t
  {
    var high := t.generation * 0x1000_0000 + (t.slot + 1);
    assert Raw(t) == high * 0x100 + t.owner;
    assert Raw(t) / 0x100 == high && Raw(t) % 0x100 == t.owner;
    assert high % 0x1000_0000 == t.slot + 1 && high / 0x1000_0000 == t.generation;
    assert Raw(t) / 0x10_0000_0000 == t.generation;
  }

  // ---- heap and arena ----------------------------------------------------------------------------------

  predicate Points<T>(arena: seq<Slot<T>>, heap: seq<nat>, i: nat)
    requires i < |heap|
  {
    heap[i] < |arena| && arena[heap[i]].state.Occupied? && arena[heap[i]].state.index == i
  }

  /** Each heap place and the slot in it name each other; `loose` is a slot just taken off the heap. */
  ghost predicate Linked<T>(arena: seq<Slot<T>>, heap: seq<nat>, loose: Option<nat>) {
    && (forall i :: 0 <= i < |heap| ==> Points(arena, heap, i) && Some(heap[i]) != loose)
    && (forall s: nat ::
        s < |arena| && arena[s].state.Occupied? && Some(s) != loose ==>
        arena[s].state.index < |heap| && heap[arena[s].state.index] == s)
  }

  function Expires<T>(arena: seq<Slot<T>>, s: nat): nat {
    if s < |arena| && arena[s].state.Occupied? then arena[s].state.expires else 0
  }

  function Keys<T>(arena: seq<Slot<T>>, heap: seq<nat>): (k: seq<nat>)
    ensures |k| == |heap| && forall i :: 0 <= i < |heap| ==> k[i] == Expires(arena, heap[i])
  {
    seq(|heap|, i requires 0 <= i < |heap| => Expires(arena, heap[i]) as nat)
  }

  function Bare<T>(s: Slot<T>): Slot<T> {
    if s.state.Occupied? then s.(state := s.state.(index := 0)) else s
  }

  /** The same slots but for where they are in the heap. */
  ghost predicate Same<T>(a: seq<Slot<T>>, b: seq<Slot<T>>) {
    |a| == |b| && forall s :: 0 <= s < |a| ==> Bare(a[s]) == Bare(b[s])
  }

  function SetIndex<T>(arena: seq<Slot<T>>, s: nat, i: nat): seq<Slot<T>>
    requires s < |arena| && arena[s].state.Occupied?
  {
    arena[s := arena[s].(state := arena[s].state.(index := i))]
  }

  lemma SameSelf<T>(a: seq<Slot<T>>)
    ensures Same(a, a)
  {}

  lemma SameTrans<T>(a: seq<Slot<T>>, b: seq<Slot<T>>, c: seq<Slot<T>>)
    requires Same(a, b) && Same(b, c)
    ensures Same(a, c)
  {
    forall s | 0 <= s < |a| ensures Bare(a[s]) == Bare(c[s]) { assert Bare(a[s]) == Bare(b[s]); }
  }

  lemma SwapLinked<T>(arena: seq<Slot<T>>, heap: seq<nat>, p: nat, c: nat, loose: Option<nat>)
    requires Linked(arena, heap, loose) && p < |heap| && c < |heap| && p != c
    ensures var h := Swap(heap, p, c);
            && Points(arena, heap, p) && Points(arena, heap, c) && h[p] != h[c]
            && var a := SetIndex(SetIndex(arena, h[p], p), h[c], c);
            && Linked(a, h, loose) && Keys(a, h) == Swap(Keys(arena, heap), p, c) && Same(arena, a)
  {
    assert Points(arena, heap, p) && Points(arena, heap, c);
    var h := Swap(heap, p, c);
    var a := SetIndex(SetIndex(arena, h[p], p), h[c], c);
    forall i | 0 <= i < |h| ensures Points(a, h, i) && Some(h[i]) != loose {
      assert Points(arena, heap, i);
    }
    forall s: nat | s < |a| && a[s].state.Occupied? && Some(s) != loose
      ensures a[s].state.index < |h| && h[a[s].state.index] == s
    {
      assert arena[s].state.Occupied?;
    }
    assert Keys(a, h) == Swap(Keys(arena, heap), p, c);
  }

  // ---- what the queue holds ----------------------------------------------------------------------------

  function EntryOf<T>(s: SlotState<T>): Option<Entry<T>> {
    match s
    case Occupied(expires, value, _) => Some(Entry(Some(expires), value))
    case Parked(value) => Some(Entry(None, value))
    case Vacant(_) => None
    case Retired => None
  }

  /** The entry a token stands for, if it is live. */
  function Look<T>(owner: Option<nat>, arena: seq<Slot<T>>, t: Token): Option<Entry<T>> {
    if owner == Some(t.owner) && t.slot < |arena| && t.generation != 0
        && arena[t.slot].generation == t.generation then EntryOf(arena[t.slot].state) else None
  }

  predicate IsParked<T>(arena: seq<Slot<T>>, s: nat) { s < |arena| && arena[s].state.Parked? }

  function ParkedSlots<T>(arena: seq<Slot<T>>): set<nat> { set s: nat | s < |arena| && IsParked(arena, s) }

  function Next(free: seq<nat>, i: nat): Option<nat> { if i < |free| then Some(free[i]) else None }

  predicate FreePoints<T>(arena: seq<Slot<T>>, free: seq<nat>, i: nat)
    requires i < |free|
  {
    free[i] < |arena| && arena[free[i]].state == Vacant(Next(free, i + 1))
  }

  /** The free chain: acyclic, and exactly the vacant slots. */
  ghost predicate FreeOk<T>(arena: seq<Slot<T>>, head: Option<nat>, free: seq<nat>) {
    && head == Next(free, 0)
    && (forall i :: 0 <= i < |free| ==> FreePoints(arena, free, i))
    && (forall i, j :: 0 <= i < j < |free| ==> free[i] != free[j])
    && (forall s: nat :: s < |arena| && arena[s].state.Vacant? ==> s in free)
  }

  predicate SlotOk<T>(s: Slot<T>) { 0 < s.generation <= GENERATION_MAX }

  /** A token given out is for an earlier use of its slot, or for the present one. */
  predicate IssuedOk<T>(arena: seq<Slot<T>>, t: Token) {
    && t.slot < |arena| && 0 < t.generation <= arena[t.slot].generation
    && (t.generation == arena[t.slot].generation ==> !arena[t.slot].state.Vacant?)
  }

  /** What does not depend on the heap. */
  ghost predicate Rest<T>(arena: seq<Slot<T>>, head: Option<nat>, free: seq<nat>, issued: set<Token>) {
    && FreeOk(arena, head, free)
    && (forall s :: 0 <= s < |arena| ==> SlotOk(arena[s]))
    && (forall t :: t in issued ==> IssuedOk(arena, t))
  }

  ghost predicate HeapOk<T>(arena: seq<Slot<T>>, heap: seq<nat>) {
    Linked(arena, heap, None) && Heap(Keys(arena, heap))
  }

  lemma SameLook<T>(owner: Option<nat>, a: seq<Slot<T>>, b: seq<Slot<T>>, t: Token)
    requires Same(a, b)
    ensures Look(owner, a, t) == Look(owner, b, t)
  {
    if t.slot < |a| { assert Bare(a[t.slot]) == Bare(b[t.slot]); }
  }

  lemma SameParked<T>(a: seq<Slot<T>>, b: seq<Slot<T>>)
    requires Same(a, b)
    ensures ParkedSlots(a) == ParkedSlots(b)
  {
    forall s: nat ensures IsParked(a, s) == IsParked(b, s) { if s < |a| { assert Bare(a[s]) == Bare(b[s]); } }
  }

  lemma SameRest<T>(a: seq<Slot<T>>, b: seq<Slot<T>>, head: Option<nat>, free: seq<nat>, issued: set<Token>)
    requires Same(a, b) && Rest(a, head, free, issued)
    ensures Rest(b, head, free, issued)
  {
    forall i | 0 <= i < |free|
      ensures FreePoints(b, free, i)
    {
      assert FreePoints(a, free, i) && Bare(a[free[i]]) == Bare(b[free[i]]);
    }
    forall s | 0 <= s < |b|
      ensures SlotOk(b[s]) && (b[s].state.Vacant? ==> s in free)
    {
      assert Bare(a[s]) == Bare(b[s]) && SlotOk(a[s]);
    }
    forall t | t in issued ensures IssuedOk(b, t) { assert IssuedOk(a, t) && Bare(a[t.slot]) == Bare(b[t.slot]); }
  }

  /** A slot not on the heap may change at will. */
  lemma LooseMay<T>(arena: seq<Slot<T>>, heap: seq<nat>, s: nat, x: Slot<T>, loose: Option<nat>)
    requires Linked(arena, heap, loose) && s < |arena|
             && (loose == Some(s) || (loose == None && !arena[s].state.Occupied?)) && !x.state.Occupied?
    ensures Linked(arena[s := x], heap, None) && Keys(arena[s := x], heap) == Keys(arena, heap)
  {
    var a := arena[s := x];
    forall i | 0 <= i < |heap| ensures Points(a, heap, i) && heap[i] != s { assert Points(arena, heap, i); }
    forall q: nat | q < |a| && a[q].state.Occupied?
      ensures a[q].state.index < |heap| && heap[a[q].state.index] == q
    {
      assert arena[q].state.Occupied?;
    }
  }

  /** A slot not on the heap is put at its end. */
  lemma PushLinked<T>(arena: seq<Slot<T>>, heap: seq<nat>, s: nat, g: nat, expires: nat, value: T)
    requires Linked(arena, heap, None) && s < |arena| && !arena[s].state.Occupied?
    ensures var a := arena[s := Slot(g, Occupied(expires, value, |heap|))];
            Linked(a, heap + [s], None) && Keys(a, heap + [s]) == Keys(arena, heap) + [expires]
  {
    var a, h := arena[s := Slot(g, Occupied(expires, value, |heap|))], heap + [s];
    forall i | 0 <= i < |h| ensures Points(a, h, i) { if i < |heap| { assert Points(arena, heap, i); } }
    forall q: nat | q < |a| && a[q].state.Occupied?
      ensures a[q].state.index < |h| && h[a[q].state.index] == q
    {
      if q != s { assert arena[q].state.Occupied?; }
    }
  }

  /** The last place of the heap moves to the place taken out. */
  lemma DetachLinked<T>(arena: seq<Slot<T>>, heap: seq<nat>, i: nat)
    requires Linked(arena, heap, None) && i < |heap|
    ensures var n := |heap| - 1;
            && Points(arena, heap, i) && Points(arena, heap, n)
            && (i == n ==> Linked(arena, heap[..n], Some(heap[i])) && Keys(arena, heap[..n]) == Keys(arena, heap)[..n])
            && (i < n ==> var a, h := SetIndex(arena, heap[n], i), heap[i := heap[n]][..n];
                          Linked(a, h, Some(heap[i]))
                              && Keys(a, h) == Keys(arena, heap)[i := Keys(arena, heap)[n]][..n] && Same(arena, a))
  {
    var n := |heap| - 1;
    assert Points(arena, heap, i) && Points(arena, heap, n);
    if i == n {
      forall j | 0 <= j < n ensures Points(arena, heap[..n], j) && heap[j] != heap[i] { assert Points(arena, heap, j); }
    } else {
      var a, h := SetIndex(arena, heap[n], i), heap[i := heap[n]][..n];
      forall j | 0 <= j < n ensures Points(a, h, j) && h[j] != heap[i] { assert Points(arena, heap, j); }
      forall q: nat | q < |a| && a[q].state.Occupied? && q != heap[i]
        ensures a[q].state.index < |h| && h[a[q].state.index] == q
      {
        assert arena[q].state.Occupied?;
      }
    }
  }

  class TimerQueue<T> {
    var owner: Option<nat>
    var arena: seq<Slot<T>>
    var freeHead: Option<nat>
    var heap: seq<nat>
    var live: nat
    ghost var free: seq<nat>
    /** Every token given out so far, and the room the heap has been given. */
    ghost var issued: set<Token>
    ghost var capacity: nat

    ghost predicate Valid()
      reads this
    {
      && HeapOk(arena, heap) && Rest(arena, freeHead, free, issued) && |arena| <= SLOT_MAX
          && (owner.Some? ==> owner.value <= OWNER_MAX) && (owner.None? ==> arena == [])
      && live == |heap| + |ParkedSlots(arena)| && live <= capacity
    }

    /** The entry a token stands for now. */
    ghost function Holds(t: Token): Option<Entry<T>>
      reads this
    {
      Look(owner, arena, t)
    }

    /** When a token's entry expires, if it will. */
    ghost function Due(t: Token): Option<nat>
      reads this
    {
      if Holds(t).Some? then Holds(t).value.deadline else None
    }

    constructor (ownerSlot: nat)
      requires ownerSlot <= OWNER_MAX
      ensures Valid() && owner == Some(ownerSlot) && live == 0 && issued == {} && forall t :: Holds(t) == None
    {
      owner := Some(ownerSlot);
      arena, freeHead, heap, live := [], None, [], 0;
      free, issued, capacity := [], {}, 0;
    }

    /** Exchanges two places of the heap and the back links of the slots in them. */
    method SwapPlaces(p: nat, c: nat, ghost loose: Option<nat>)
      requires Linked(arena, heap, loose) && p < |heap| && c < |heap| && p != c
      modifies this`arena, this`heap
      ensures Linked(arena, heap, loose) && |heap| == |old(heap)|
              && Keys(arena, heap) == Swap(old(Keys(arena, heap)), p, c) && Same(old(arena), arena)
    {
      hide Linked;
      SwapLinked(arena, heap, p, c, loose);
      heap := Swap(heap, p, c);
      arena := SetIndex(arena, heap[p], p);
      arena := SetIndex(arena, heap[c], c);
    }

    /** Moves the entry at `start` up to its place. */
    method SiftUp(start: nat, ghost loose: Option<nat>)
      requires Linked(arena, heap, loose) && HeapUnder(Keys(arena, heap), start)
      modifies this`arena, this`heap
      ensures Linked(arena, heap, loose) && Heap(Keys(arena, heap)) && Same(old(arena), arena) && |heap| == |old(heap)|
    {
      hide Linked, HeapUnder, Heap, Swap, Keys, Same;
      InHeap(Keys(arena, heap), start);
      SameSelf(arena);
      var child: nat := start;
      while child > 0
        invariant child < |heap| == |old(heap)| && Linked(arena, heap, loose) && HeapUnder(Keys(arena, heap), child)
                  && Same(old(arena), arena)
        decreases child
      {
        var parent := Parent(child);
        PlacePoints(arena, heap, parent, loose);
        PlacePoints(arena, heap, child, loose);
        if Expires(arena, heap[parent]) <= Expires(arena, heap[child]) { break; }
        UpStep(Keys(arena, heap), child);
        ghost var was := arena;
        SwapPlaces(parent, child, loose);
        SameTrans(old(arena), was, arena);
        child := parent;
      }
      UpEnds(Keys(arena, heap), child);
    }

    lemma InHeap(k: seq<nat>, c: nat)
      ensures HeapUnder(k, c) ==> c < |k|
      ensures HeapOver(k, c) ==> c < |k|
    {}

    lemma PlacePoints(arena: seq<Slot<T>>, heap: seq<nat>, i: nat, loose: Option<nat>)
      requires Linked(arena, heap, loose) && i < |heap|
      ensures Points(arena, heap, i) && Some(heap[i]) != loose
    {}

    /** Moves the entry at `start` down to its place. */
    method SiftDown(start: nat, ghost loose: Option<nat>)
      requires Linked(arena, heap, loose) && HeapOver(Keys(arena, heap), start)
      modifies this`arena, this`heap
      ensures Linked(arena, heap, loose) && Heap(Keys(arena, heap)) && Same(old(arena), arena) && |heap| == |old(heap)|
    {
      hide Linked, HeapOver, Heap, Swap, Same;
      InHeap(Keys(arena, heap), start);
      SameSelf(arena);
      var parent: nat := start;
      while true
        invariant parent < |heap| == |old(heap)| && Linked(arena, heap, loose) && HeapOver(Keys(arena, heap), parent)
                  && Same(old(arena), arena)
        decreases |heap| - parent
      {
        var left := parent * 2 + 1;
        if left >= |heap| { break; }
        var right := left + 1;
        PlacePoints(arena, heap, parent, loose);
        PlacePoints(arena, heap, left, loose);
        var child := left;
        if right < |heap| {
          PlacePoints(arena, heap, right, loose);
          if Expires(arena, heap[right]) < Expires(arena, heap[left]) { child := right; }
        }
        if Expires(arena, heap[parent]) <= Expires(arena, heap[child]) { break; }
        DownStep(Keys(arena, heap), parent, child);
        ghost var was := arena;
        SwapPlaces(parent, child, loose);
        SameTrans(old(arena), was, arena);
        parent := child;
      }
      DownEnds(Keys(arena, heap), parent);
    }

    constructor Unbound()
      ensures Valid() && owner == None && live == 0 && issued == {} && forall t :: Holds(t) == None
    {
      owner := None;
      arena, freeHead, heap, live := [], None, [], 0;
      free, issued, capacity := [], {}, 0;
    }

    /** An owner is given once. */
    method BindOwner(ownerSlot: nat) returns (ok: bool)
      requires Valid()
      modifies this`owner
      ensures Valid() && ok == (ownerSlot <= OWNER_MAX && old(owner) in {None, Some(ownerSlot)})
      ensures owner == if ok then Some(ownerSlot) else old(owner)
      ensures forall t :: Holds(t) == old(Holds(t))
    {
      if ownerSlot > OWNER_MAX { return false; }
      if owner.Some? { return owner.value == ownerSlot; }
      owner := Some(ownerSlot);
      return true;
    }

    /** Takes one place off the heap; its slot is left for the caller. */
    method Detach(i: nat) returns (slot: nat)
      requires Linked(arena, heap, None) && Heap(Keys(arena, heap)) && i < |heap|
      modifies this`arena, this`heap
      ensures slot == old(heap)[i] && Linked(arena, heap, Some(slot)) && Heap(Keys(arena, heap))
              && Same(old(arena), arena) && |heap| == |old(heap)| - 1
    {
      hide Linked, HeapUnder, HeapOver, Heap, Keys, Same;
      var n := |heap| - 1;
      slot := heap[i];
      DetachLinked(arena, heap, i);
      Shortened(Keys(arena, heap), i);
      SameSelf(arena);
      if i < n {
        ghost var k := Keys(arena, heap)[i := Keys(arena, heap)[n]][..n];
        var replacement := heap[n];
        heap := heap[i := replacement][..n];
        arena := SetIndex(arena, replacement, i);
        PlaceKeys(arena, heap, i);
        ghost var was := arena;
        if i > 0 && Expires(arena, replacement) < Expires(arena, heap[Parent(i)]) {
          SiftUp(i, Some(slot));
        } else {
          SiftDown(i, Some(slot));
        }
        SameTrans(old(arena), was, arena);
      } else {
        heap := heap[..n];
      }
    }

    lemma PlaceKeys(arena: seq<Slot<T>>, heap: seq<nat>, i: nat)
      requires i < |heap|
      ensures |Keys(arena, heap)| == |heap| && Keys(arena, heap)[i] == Expires(arena, heap[i])
      ensures i > 0 ==> Keys(arena, heap)[Parent(i)] == Expires(arena, heap[Parent(i)])
    {}

    /** Gives a slot back: the next use has a new generation, or there is no next use. */
    method Recycle(slot: nat)
      requires slot < |arena| && arena[slot].state == Retired && SlotOk(arena[slot]) && FreeOk(arena, freeHead, free)
      modifies this`arena, this`freeHead, this`free
      ensures FreeOk(arena, freeHead, free) && |arena| == |old(arena)| && SlotOk(arena[slot])
      ensures arena == old(arena)[slot := arena[slot]] && old(arena)[slot].generation <= arena[slot].generation
      ensures EntryOf(arena[slot].state) == None && !arena[slot].state.Occupied? && !arena[slot].state.Parked?
      ensures arena[slot].state.Vacant? ==> old(arena)[slot].generation < arena[slot].generation
    {
      if arena[slot].generation == GENERATION_MAX { return; }
      arena := arena[slot := Slot(arena[slot].generation + 1, Vacant(freeHead))];
      freeHead := Some(slot);
      RecycleFree(old(arena), free, slot, old(freeHead));
      free := [slot] + free;
    }

    lemma RecycleFree(arena: seq<Slot<T>>, free: seq<nat>, slot: nat, head: Option<nat>)
      requires slot < |arena| && arena[slot].state == Retired && FreeOk(arena, head, free)
      ensures FreeOk(arena[slot := Slot(arena[slot].generation + 1, Vacant(head))], Some(slot), [slot] + free)
    {
      hide Next, FreePoints;
      var a, f := arena[slot := Slot(arena[slot].generation + 1, Vacant(head))], [slot] + free;
      PushedPoints(arena, free, slot, head, 0);
      forall i: nat | i < |f| ensures FreePoints(a, f, i) { PushedPoints(arena, free, slot, head, i); }
      forall i: nat, j: nat | i < j < |f| ensures f[i] != f[j] {
        var k := j - 1;
        assert f[j] == free[k];
        PushedPoints(arena, free, slot, head, j);
        if i > 0 { var l := i - 1; assert f[i] == free[l]; }
      }
      forall s: nat | s < |a| && a[s].state.Vacant? ensures s in f { if s != slot { assert arena[s] == a[s]; } }
    }

    lemma PushedPoints(arena: seq<Slot<T>>, free: seq<nat>, slot: nat, head: Option<nat>, i: nat)
      requires slot < |arena| && arena[slot].state == Retired && FreeOk(arena, head, free) && i <= |free|
      ensures FreePoints(arena[slot := Slot(arena[slot].generation + 1, Vacant(head))], [slot] + free, i)
      ensures Next([slot] + free, 0) == Some(slot) && (i > 0 ==> ([slot] + free)[i] != slot)
    {
      if i > 0 { var j := i - 1; assert FreePoints(arena, free, j); }
    }

    /** Takes a live slot out of use. */
    method Remove(slot: nat) returns (value: T)
      requires Valid() && slot < |arena| && (arena[slot].state.Occupied? || arena[slot].state.Parked?)
      modifies this
      ensures Valid() && capacity == old(capacity) && issued == old(issued) && live == old(live) - 1
              && owner == old(owner)
      ensures value == old(arena)[slot].state.value
      ensures forall t :: Holds(t) == if t.slot == slot then None else old(Holds(t))
    {
      hide Linked, Heap, FreeOk, Keys;
      value := arena[slot].state.value;
      ghost var a0 := arena;
      if arena[slot].state.Occupied? {
        OccupiedPlace(arena, heap, slot);
        var s := Detach(arena[slot].state.index);
      } else {
        SameSelf(arena);
        assert slot in ParkedSlots(arena) by { assert IsParked(arena, slot); }
      }
      SameAt(a0, arena, slot);
      SameRest(a0, arena, freeHead, free, issued);
      SameParked(a0, arena);
      LooseMay(arena, heap, slot, arena[slot].(state := Retired), if a0[slot].state.Occupied? then Some(slot)
               else None);
      RetireFree(arena, freeHead, free, slot);
      live := live - 1;
      ghost var a1 := arena;
      arena := arena[slot := arena[slot].(state := Retired)];
      Recycle(slot);
      LooseMay(a1[slot := a1[slot].(state := Retired)], heap, slot, arena[slot], None);
      assert arena == a1[slot := arena[slot]];
      RemovedRest(a0, a1, arena, slot, issued);
      forall t ensures Holds(t) == if t.slot == slot then None else old(Holds(t)) { SameLook(owner, a0, a1, t); }
    }

    /** Puts a slot that is off the heap on it. */
    method Lift(slot: nat, expires: nat, value: T, generation: nat)
      requires HeapOk(arena, heap) && slot < |arena| && !arena[slot].state.Occupied?
      modifies this`arena, this`heap
      ensures HeapOk(arena, heap) && Same(old(arena)[slot := Slot(generation, Occupied(expires, value, 0))], arena)
              && |heap| == |old(heap)| + 1
    {
      hide Linked, HeapUnder, Heap, Keys, Same;
      PushLinked(arena, heap, slot, generation, expires, value);
      Pushed(Keys(arena, heap), expires);
      var index := |heap|;
      ghost var a := arena[slot := Slot(generation, Occupied(expires, value, 0))];
      arena := arena[slot := Slot(generation, Occupied(expires, value, index))];
      SamePut(old(arena), slot, generation, expires, value, index);
      heap := heap + [slot];
      ghost var was := arena;
      SiftUp(index, None);
      SameTrans(a, was, arena);
    }

    /**
      Registers a deadline: under a token never given out before, or not at all. The flags say whether room can be had.
    */
    method TryRegister(expires: nat, value: T, heapRoom: bool, arenaRoom: bool) returns (r: Option<Token>)
      requires Valid()
      modifies this
      ensures Valid() && owner == old(owner)
      ensures r == None <==>
              owner.None? || !heapRoom || (old(freeHead) == None && (!arenaRoom || |old(arena)| >= SLOT_MAX))
      ensures r == None ==>
              arena == old(arena) && heap == old(heap) && freeHead == old(freeHead) && live == old(live)
              && issued == old(issued)
      ensures r.Some? ==>
              TokenOk(r.value) && r.value !in old(issued) && issued == old(issued) + {r.value} && live == old(live) + 1
      ensures r.Some? ==> old(Holds(r.value)) == None
      ensures r.Some? ==>
              forall t :: Holds(t) == if t == r.value then Some(Entry(Some(expires), value)) else old(Holds(t))
    {
      hide HeapOk, Rest, Same, ParkedSlots;
      if owner.None? || !heapRoom { return None; }
      var required := live + 1;
      if capacity < required { capacity := required; }
      if freeHead.None? && (!arenaRoom || |arena| >= SLOT_MAX) { return None; }
      var slot: nat, generation: nat;
      if freeHead.Some? {
        slot := freeHead.value;
        TakeRest(arena, freeHead, free, issued, slot, expires, value);
        generation := arena[slot].generation;
        freeHead := arena[slot].state.next;
        free := free[1..];
      } else {
        slot := |arena|;
        GrowRest(arena, freeHead, free, issued, heap, expires, value);
        arena := arena + [Slot(1, Retired)];
        generation := 1;
      }
      ghost var a := arena;
      Lift(slot, expires, value, generation);
      live := required;
      r := Some(Token(owner.value, slot, generation));
      ghost var put := a[slot := Slot(generation, Occupied(expires, value, 0))];
      ParkedPut(a, slot, put[slot]);
      SameParked(put, arena);
      SameRest(put, arena, freeHead, free, issued);
      IssueOne(arena, freeHead, free, issued, r.value, put);
      issued := issued + {r.value};
      SameSize(put, arena);
      forall t
        ensures Holds(t) == if t == r.value then Some(Entry(Some(expires), value)) else old(Holds(t))
      {
        SameLook(owner, put, arena, t);
      }
    }

    /** Cancelling takes the entry out, once; a token that is not live changes nothing. */
    method Cancel(t: Token) returns (r: Option<T>)
      requires Valid()
      modifies this
      ensures Valid() && owner == old(owner) && issued == old(issued) && capacity == old(capacity)
      ensures r == if old(Holds(t)).Some? then Some(old(Holds(t)).value.value) else None
      ensures live == old(live) - if r.Some? then 1 else 0
      ensures r == None ==> arena == old(arena) && heap == old(heap)
      ensures forall u :: Holds(u) == if u == t then None else old(Holds(u))
    {
      hide HeapOk, Rest;
      if owner != Some(t.owner) { return None; }
      if !(t.slot < |arena| && t.generation != 0 && arena[t.slot].generation == t.generation) { return None; }
      if arena[t.slot].state.Occupied? || arena[t.slot].state.Parked? {
        var value := Remove(t.slot);
        r := Some(value);
      } else {
        r := None;
      }
    }

    /** The value of a live entry is replaced; its deadline and its token stay. */
    method SetValue(t: Token, value: T) returns (ok: bool)
      requires Valid()
      modifies this`arena
      ensures Valid() && ok == old(Holds(t)).Some?
      ensures forall u ::
              Holds(u) == if u == t && ok then Some(Entry(old(Holds(t)).value.deadline, value)) else old(Holds(u))
    {
      hide Rest, Linked, Heap, Keys;
      if owner != Some(t.owner) { return false; }
      if !(t.slot < |arena| && t.generation != 0 && arena[t.slot].generation == t.generation) { return false; }
      if !(arena[t.slot].state.Occupied? || arena[t.slot].state.Parked?) { return false; }
      var x := arena[t.slot].(state := arena[t.slot].state.(value := value));
      PutRest(arena, freeHead, free, issued, t.slot, x);
      ValueLinked(arena, heap, t.slot, value);
      ParkedPut(arena, t.slot, x);
      arena := arena[t.slot := x];
      ok := true;
    }

    /**
      A deadline is moved, under the same token; a parked entry goes back on the heap, for which there is room already.
    */
    method Reschedule(t: Token, deadline: nat) returns (ok: bool)
      requires Valid()
      modifies this`arena, this`heap
      ensures Valid() && ok == old(Holds(t)).Some?
      ensures |heap| <= capacity
      ensures forall u ::
              Holds(u) == if u == t && ok then Some(Entry(Some(deadline), old(Holds(t)).value.value)) else old(Holds(u))
    {
      hide HeapOk, Rest, Same;
      if owner != Some(t.owner) { return false; }
      if !(t.slot < |arena| && t.generation != 0 && arena[t.slot].generation == t.generation) { return false; }
      if !(arena[t.slot].state.Occupied? || arena[t.slot].state.Parked?) { return false; }
      ghost var put := arena[t.slot := Slot(t.generation, Occupied(deadline, arena[t.slot].state.value, 0))];
      PutRest(arena, freeHead, free, issued, t.slot, put[t.slot]);
      ParkedPut(arena, t.slot, put[t.slot]);
      if arena[t.slot].state.Parked? {
        Lift(t.slot, deadline, arena[t.slot].state.value, t.generation);
      } else {
        MoveDeadline(t.slot, deadline);
      }
      SameParked(put, arena);
      SameRest(put, arena, freeHead, free, issued);
      SameSize(put, arena);
      forall u ensures Look(owner, arena, u) == Look(owner, put, u) { SameLook(owner, put, arena, u); }
      ok := true;
    }

    /** The heap place of a slot is put right for a new deadline. */
    method MoveDeadline(slot: nat, deadline: nat)
      requires HeapOk(arena, heap) && slot < |arena| && arena[slot].state.Occupied?
      modifies this`arena, this`heap
      ensures HeapOk(arena, heap) && |heap| == |old(heap)|
      ensures Same(old(arena)[slot := old(arena)[slot].(state := Occupied(deadline, old(arena)[slot].state.value, 0))],
                   arena)
    {
      hide Linked, HeapUnder, HeapOver, Heap, Keys, Same;
      OccupiedPlace(arena, heap, slot);
      var before, index := arena[slot].state.expires, arena[slot].state.index;
      DeadlineLinked(arena, heap, slot, deadline);
      ghost var keys := Keys(arena, heap);
      ghost var a := arena[slot := arena[slot].(state := Occupied(deadline, arena[slot].state.value, 0))];
      SamePut(arena, slot, arena[slot].generation, deadline, arena[slot].state.value, index);
      arena := arena[slot := arena[slot].(state := Occupied(deadline, arena[slot].state.value, index))];
      ghost var was := arena;
      SameSelf(arena);
      if deadline < before {
        Lowered(keys, index, deadline);
        SiftUp(index, None);
      } else if deadline > before {
        Raised(keys, index, deadline);
        SiftDown(index, None);
      } else {
        assert keys[index := deadline] == keys;
      }
      SameTrans(a, was, arena);
    }

    /** A parked entry keeps its token and value and has no deadline. */
    method Park(t: Token) returns (ok: bool)
      requires Valid()
      modifies this`arena, this`heap
      ensures Valid() && ok == old(Holds(t)).Some?
      ensures forall u ::
              Holds(u) == if u == t && ok then Some(Entry(None, old(Holds(t)).value.value)) else old(Holds(u))
    {
      hide Linked, Heap, Rest, Same, Keys;
      if owner != Some(t.owner) { return false; }
      if !(t.slot < |arena| && t.generation != 0 && arena[t.slot].generation == t.generation) { return false; }
      if arena[t.slot].state.Parked? { return true; }
      if !arena[t.slot].state.Occupied? { return false; }
      ghost var a0 := arena;
      OccupiedPlace(arena, heap, t.slot);
      var removed := Detach(arena[t.slot].state.index);
      SameAt(a0, arena, t.slot);
      SameRest(a0, arena, freeHead, free, issued);
      SameParked(a0, arena);
      SameSize(a0, arena);
      var x := Slot(arena[t.slot].generation, Parked(arena[t.slot].state.value));
      LooseMay(arena, heap, t.slot, x, Some(t.slot));
      PutRest(arena, freeHead, free, issued, t.slot, x);
      ParkedPut(arena, t.slot, x);
      forall u ensures Look(owner, arena, u) == Look(owner, a0, u) { SameLook(owner, a0, arena, u); }
      arena := arena[t.slot := x];
      ok := true;
    }

    /** The entry that expires first. */
    method Peek() returns (r: Option<(Token, nat, T)>)
      requires Valid()
      ensures r.None? ==> forall t :: Due(t) == None
      ensures r.Some? ==>
              Holds(r.value.0) == Some(Entry(Some(r.value.1), r.value.2)) && Due(r.value.0) == Some(r.value.1)
      ensures r.Some? ==> forall t :: Due(t).Some? ==> r.value.1 <= Due(t).value
    {
      hide Rest, Linked, Heap, Keys;
      if |heap| == 0 {
        forall t ensures Due(t) == None { if Due(t).Some? { OccupiedPlace(arena, heap, t.slot); } }
        return None;
      }
      var slot := heap[0];
      FirstPlace(arena, heap);
      SlotAt(arena, freeHead, free, issued, slot);
      r := Some((Token(owner.value, slot, arena[slot].generation), arena[slot].state.expires, arena[slot].state.value));
      forall t | Due(t).Some? ensures r.value.1 <= Due(t).value { LeastFirst(arena, heap, t.slot); }
    }

    /** Pops an entry that has expired, one that expires first; nothing when none has. */
    method PopExpired(now: nat) returns (r: Option<(Token, T)>)
      requires Valid()
      modifies this
      ensures Valid() && owner == old(owner) && issued == old(issued) && capacity == old(capacity)
      ensures r.None? ==> arena == old(arena) && heap == old(heap) && live == old(live)
      ensures r.None? ==> forall t :: old(Due(t)).Some? ==> old(Due(t)).value > now
      ensures r.Some? ==> var token := r.value.0;
              old(Holds(token)) == Some(Entry(old(Due(token)), r.value.1)) && old(Due(token)).Some?
              && old(Due(token)).value <= now
      ensures r.Some? ==> var token := r.value.0;
              forall t :: old(Due(t)).Some? ==> old(Due(token)).value <= old(Due(t)).value
      ensures r.Some? ==>
              live == old(live) - 1 && forall t :: Holds(t) == if t == r.value.0 then None else old(Holds(t))
    {
      hide Rest, HeapOk;
      var first := Peek();
      assert forall t :: old(Due(t)) == Due(t);
      if first.None? || first.value.1 > now { return None; }
      var slot, generation := first.value.0.slot, arena[first.value.0.slot].generation;
      var value := Remove(slot);
      r := Some((Token(owner.value, slot, generation), value));
    }

    lemma OccupiedPlace(arena: seq<Slot<T>>, heap: seq<nat>, s: nat)
      requires Linked(arena, heap, None) && s < |arena| && arena[s].state.Occupied?
      ensures arena[s].state.index < |heap| && heap[arena[s].state.index] == s
    {}

    lemma FirstPlace(arena: seq<Slot<T>>, heap: seq<nat>)
      requires Linked(arena, heap, None) && |heap| > 0
      ensures heap[0] < |arena| && arena[heap[0]].state.Occupied?
    {
      assert Points(arena, heap, 0);
    }

    lemma LeastFirst(arena: seq<Slot<T>>, heap: seq<nat>, s: nat)
      requires HeapOk(arena, heap) && s < |arena| && arena[s].state.Occupied?
      ensures |heap| > 0 && heap[0] < |arena| && arena[heap[0]].state.Occupied?
              && arena[heap[0]].state.expires <= arena[s].state.expires
    {
      OccupiedPlace(arena, heap, s);
      FirstPlace(arena, heap);
      FirstIsLeast(Keys(arena, heap), arena[s].state.index);
    }

    lemma SlotAt(arena: seq<Slot<T>>, head: Option<nat>, free: seq<nat>, issued: set<Token>, s: nat)
      requires Rest(arena, head, free, issued) && s < |arena|
      ensures SlotOk(arena[s])
    {}

    lemma SameAt(a: seq<Slot<T>>, b: seq<Slot<T>>, s: nat)
      requires Same(a, b) && s < |a|
      ensures |a| == |b| && Bare(a[s]) == Bare(b[s])
    {}

    lemma SameSize(a: seq<Slot<T>>, b: seq<Slot<T>>)
      requires Same(a, b)
      ensures |a| == |b|
    {}

    lemma SamePut(arena: seq<Slot<T>>, s: nat, g: nat, expires: nat, value: T, index: nat)
      requires s < |arena|
      ensures Same(arena[s := Slot(g, Occupied(expires, value, 0))],
                   arena[s := Slot(g, Occupied(expires, value, index))])
    {}

    lemma RetireFree(arena: seq<Slot<T>>, head: Option<nat>, free: seq<nat>, s: nat)
      requires FreeOk(arena, head, free) && s < |arena| && !arena[s].state.Vacant?
      ensures FreeOk(arena[s := arena[s].(state := Retired)], head, free)
    {
      var a := arena[s := arena[s].(state := Retired)];
      forall i | 0 <= i < |free| ensures FreePoints(a, free, i) { assert FreePoints(arena, free, i); }
    }

    lemma RemovedRest(a0: seq<Slot<T>>, a1: seq<Slot<T>>, a: seq<Slot<T>>, slot: nat, issued: set<Token>)
      requires Same(a0, a1) && slot < |a1| && |a| == |a1| && a == a1[slot := a[slot]]
               && a1[slot].generation <= a[slot].generation
      requires !a[slot].state.Parked? && (a[slot].state.Vacant? ==> a1[slot].generation < a[slot].generation)
      requires (forall t :: t in issued ==> IssuedOk(a1, t)) && (a0[slot].state.Occupied? || a0[slot].state.Parked?)
      ensures forall t :: t in issued ==> IssuedOk(a, t)
      ensures |ParkedSlots(a)| == |ParkedSlots(a0)| - if a0[slot].state.Parked? then 1 else 0
    {
      forall t | t in issued ensures IssuedOk(a, t) { assert IssuedOk(a1, t); }
      SameParked(a0, a1);
      SameAt(a0, a1, slot);
      ParkedPut(a1, slot, a[slot]);
    }

    lemma ParkedPut(arena: seq<Slot<T>>, s: nat, x: Slot<T>)
      requires s < |arena|
      ensures |ParkedSlots(arena[s := x])|
              == |ParkedSlots(arena)| - (if arena[s].state.Parked? then 1 else 0) + if x.state.Parked? then 1 else 0
      ensures arena[s].state.Parked? ==> |ParkedSlots(arena)| > 0
    {
      var a := arena[s := x];
      ParkedAt(arena, s, x);
      hide IsParked;
      var others := ParkedSlots(arena) - {s};
      assert ParkedSlots(arena) == if arena[s].state.Parked? then others + {s} else others;
      assert ParkedSlots(a) == if x.state.Parked? then others + {s} else others;
    }

    lemma ParkedAt(arena: seq<Slot<T>>, s: nat, x: Slot<T>)
      requires s < |arena|
      ensures IsParked(arena[s := x], s) == x.state.Parked? && IsParked(arena, s) == arena[s].state.Parked?
      ensures forall q: nat :: q != s ==> IsParked(arena[s := x], q) == IsParked(arena, q)
    {}

    /** A slot in use, or retired, may be written over with one like it. */
    lemma PutRest(arena: seq<Slot<T>>, head: Option<nat>, free: seq<nat>, issued: set<Token>, s: nat, x: Slot<T>)
      requires Rest(arena, head, free, issued) && s < |arena| && !arena[s].state.Vacant? && !x.state.Vacant?
               && x.generation == arena[s].generation
      ensures Rest(arena[s := x], head, free, issued)
    {
      var a := arena[s := x];
      forall i | 0 <= i < |free| ensures FreePoints(a, free, i) { assert FreePoints(arena, free, i); }
      forall t | t in issued ensures IssuedOk(a, t) { assert IssuedOk(arena, t); }
      assert SlotOk(arena[s]);
    }

    /** The first free slot is taken; its generation has not been given out. */
    lemma TakeRest(arena: seq<Slot<T>>, head: Option<nat>, free: seq<nat>, issued: set<Token>, s: nat, expires: nat,
                   value: T)
      requires Rest(arena, head, free, issued) && head == Some(s)
      ensures s < |arena| && arena[s].state.Vacant? && free != [] && 0 < arena[s].generation <= GENERATION_MAX
      ensures Rest(arena[s := Slot(arena[s].generation, Occupied(expires, value, 0))], arena[s].state.next, free[1..],
                   issued)
      ensures forall t :: t in issued ==> t.slot != s || t.generation != arena[s].generation
    {
      assert FreePoints(arena, free, 0) && SlotOk(arena[s]);
      var x := Slot(arena[s].generation, Occupied(expires, value, 0));
      var a, f := arena[s := x], free[1..];
      TakeFree(arena, head, free, s, x);
      forall t | t in issued
        ensures IssuedOk(a, t) && (t.slot != s || t.generation != arena[s].generation)
      {
        assert IssuedOk(arena, t);
      }
    }

    lemma TakeFree(arena: seq<Slot<T>>, head: Option<nat>, free: seq<nat>, s: nat, x: Slot<T>)
      requires FreeOk(arena, head, free) && head == Some(s) && s < |arena| && !x.state.Vacant? && arena[s].state.Vacant?
      ensures free != [] && FreeOk(arena[s := x], arena[s].state.next, free[1..])
    {
      hide FreePoints;
      var a, f := arena[s := x], free[1..];
      TakenPoints(arena, head, free, s, x, 0);
      forall i: nat | i < |f| ensures FreePoints(a, f, i) { TakenPoints(arena, head, free, s, x, i); }
      forall q: nat | q < |a| && a[q].state.Vacant? ensures q in f { assert q in free && q != free[0]; }
    }

    lemma TakenPoints(arena: seq<Slot<T>>, head: Option<nat>, free: seq<nat>, s: nat, x: Slot<T>, i: nat)
      requires FreeOk(arena, head, free) && head == Some(s) && s < |arena|
      ensures arena[s].state == Vacant(Next(free[1..], 0)) && free != [] && free[0] == s
      ensures i < |free[1..]| ==> FreePoints(arena[s := x], free[1..], i)
    {
      assert FreePoints(arena, free, 0);
      if i < |free[1..]| { var j := i + 1; assert FreePoints(arena, free, j) && free[0] != free[j]; }
    }

    /** The arena grows by a slot no token has named. */
    lemma GrowRest(arena: seq<Slot<T>>, head: Option<nat>, free: seq<nat>, issued: set<Token>, heap: seq<nat>,
                   expires: nat, value: T)
      requires Rest(arena, head, free, issued) && HeapOk(arena, heap)
      ensures var a := arena + [Slot(1, Retired)];
              && HeapOk(a, heap) && ParkedSlots(a) == ParkedSlots(arena)
              && Rest(a[|arena| := Slot(1, Occupied(expires, value, 0))], head, free, issued)
      ensures forall t :: t in issued ==> t.slot != |arena|
    {
      var a := arena + [Slot(1, Retired)];
      forall i | 0 <= i < |heap| ensures Points(a, heap, i) { assert Points(arena, heap, i); }
      forall q: nat | q < |a| && a[q].state.Occupied?
        ensures a[q].state.index < |heap| && heap[a[q].state.index] == q
      {
        assert arena[q].state.Occupied?;
      }
      assert Keys(a, heap) == Keys(arena, heap);
      forall q: nat ensures IsParked(a, q) == IsParked(arena, q) {}
      GrownRest(arena, head, free, issued, Slot(1, Occupied(expires, value, 0)));
      assert a[|arena| := Slot(1, Occupied(expires, value, 0))] == arena + [Slot(1, Occupied(expires, value, 0))];
    }

    lemma GrownRest(arena: seq<Slot<T>>, head: Option<nat>, free: seq<nat>, issued: set<Token>, x: Slot<T>)
      requires Rest(arena, head, free, issued) && x.generation == 1 && !x.state.Vacant?
      ensures Rest(arena + [x], head, free, issued) && forall t :: t in issued ==> t.slot != |arena|
    {
      var a := arena + [x];
      forall i | 0 <= i < |free| ensures FreePoints(a, free, i) { assert FreePoints(arena, free, i); }
      forall t | t in issued ensures IssuedOk(a, t) && t.slot != |arena| { assert IssuedOk(arena, t); }
    }

    lemma IssueOne(arena: seq<Slot<T>>, head: Option<nat>, free: seq<nat>, issued: set<Token>, t: Token,
                   put: seq<Slot<T>>)
      requires Rest(arena, head, free, issued) && Same(put, arena) && t.slot < |put|
               && put[t.slot].generation == t.generation && put[t.slot].state.Occupied?
      ensures Rest(arena, head, free, issued + {t}) && SlotOk(put[t.slot])
    {
      SameAt(put, arena, t.slot);
      assert SlotOk(arena[t.slot]);
    }

    lemma ValueLinked(arena: seq<Slot<T>>, heap: seq<nat>, s: nat, value: T)
      requires HeapOk(arena, heap) && s < |arena| && (arena[s].state.Occupied? || arena[s].state.Parked?)
      ensures HeapOk(arena[s := arena[s].(state := arena[s].state.(value := value))], heap)
    {
      var a := arena[s := arena[s].(state := arena[s].state.(value := value))];
      forall i | 0 <= i < |heap| ensures Points(a, heap, i) { assert Points(arena, heap, i); }
      forall q: nat | q < |a| && a[q].state.Occupied?
        ensures a[q].state.index < |heap| && heap[a[q].state.index] == q
      {
        assert arena[q].state.Occupied?;
      }
      assert Keys(a, heap) == Keys(arena, heap);
    }

    lemma DeadlineLinked(arena: seq<Slot<T>>, heap: seq<nat>, s: nat, deadline: nat)
      requires Linked(arena, heap, None) && s < |arena| && arena[s].state.Occupied?
      ensures var index, a := arena[s].state.index,
              arena[s := arena[s].(state := Occupied(deadline, arena[s].state.value, arena[s].state.index))];
              && Linked(a, heap, None) && index < |heap| && Keys(a, heap) == Keys(arena, heap)[index := deadline]
                  && Keys(arena, heap)[index] == arena[s].state.expires
    {
      var index, a := arena[s].state.index,
          arena[s := arena[s].(state := Occupied(deadline, arena[s].state.value, arena[s].state.index))];
      OccupiedPlace(arena, heap, s);
      forall i | 0 <= i < |heap|
        ensures Points(a, heap, i) && (heap[i] == s ==> i == index)
      {
        assert Points(arena, heap, i);
      }
      forall q: nat | q < |a| && a[q].state.Occupied?
        ensures a[q].state.index < |heap| && heap[a[q].state.index] == q
      {
        assert arena[q].state.Occupied?;
      }
      assert Keys(a, heap) == Keys(arena, heap)[index := deadline];
    }
  }
}
