/** The whole plan: managed memory divided into permanent, boot-held, metadata, heap, recovery and user-free parts. */
module SupplyPlan {
  import opened Wrappers
  import opened SupplyRanges
  import opened MemorySupply

  datatype Requirements = Requirements(
    page: nat, metadataBytes: nat, heapSize: nat, heapCount: nat, ticketSize: nat, ticketCount: nat)

  datatype Plan = Plan(
    permanent: seq<Range>, bootHeld: seq<Range>, metadata: Range, heap: seq<Range>, recovery: seq<Range>,
        userFree: seq<Range>,
    managedBytes: nat, permanentBytes: nat, bootHeldBytes: nat, systemBytes: nat, userFreeBytes: nat)

  datatype Planning = Planned(plan: Plan) | Refused(error: PlanError)

  predicate PowerOfTwo(n: nat) { n == 1 || (n > 1 && n % 2 == 0 && PowerOfTwo(n / 2)) }

  /** What a policy has to satisfy, with room for so many heap chunks and recovery tickets. */
  predicate PolicyOk(q: Requirements, heapLimit: nat, ticketLimit: nat) {
    && PowerOfTwo(q.page) && q.metadataBytes > 0 && q.heapCount <= heapLimit && q.ticketCount <= ticketLimit
    && (q.heapCount > 0 ==> PowerOfTwo(q.heapSize) && q.heapSize >= q.page)
    && (q.ticketCount > 0 ==> q.ticketSize > 0 && q.ticketSize % q.page == 0)
  }

  lemma {:induction false} PowersDivide(m: nat, n: nat)
    requires PowerOfTwo(m) && PowerOfTwo(n) && n <= m
    ensures n > 0 && m % n == 0
    decreases n
  {
    if n > 1 {
      PowersDivide(m / 2, n / 2);
      DivParts(m / 2, n / 2);
      assert m == m / 2 / (n / 2) * n;
      MultipleOf(m / 2 / (n / 2), n);
    }
  }

  lemma {:induction false} PowerTimes(m: nat, n: nat)
    requires PowerOfTwo(m) && PowerOfTwo(n)
    ensures PowerOfTwo(m * n)
    decreases n
  {
    if n > 1 {
      PowerTimes(m, n / 2);
      assert m * n == 2 * (m * (n / 2));
    }
  }

  lemma SixteenIsPower()
    ensures PowerOfTwo(16)
  {}

  /** A word holds a whole number of blocks of any size that is a power of two. */
  lemma WordDivides(n: nat)
    requires PowerOfTwo(n) && n <= U64_MAX
    ensures n > 0 && WORD % n == 0
  {
    hide PowerOfTwo;
    SixteenIsPower();
    PowerTimes(16, 16);
    PowerTimes(0x100, 0x100);
    PowerTimes(0x1_0000, 0x1_0000);
    PowerTimes(0x1_0000_0000, 0x1_0000_0000);
    PowersDivide(WORD, n);
  }

  // ---- accounting --------------------------------------------------------------------------------------

  /** The parts given out cover, once each, exactly what is marked unavailable, and only managed memory. */
  ghost predicate Accounted(ms: seq<Range>, un: seq<Range>, parts: seq<Range>) {
    && Tidy(un) && AllReal(parts)
    && (forall x: nat :: Count(parts, x) == One(Covers(un, x)))
    && (forall x: nat :: Covers(un, x) ==> Covers(ms, x))
  }

  lemma FreeMeans(r: Range, cuts: seq<Range>, x: nat)
    requires Free(r, cuts) && Has(r, x)
    ensures !Covers(cuts, x)
  {
    if Covers(cuts, x) { var i := CoversSome(cuts, x); }
  }

  /** One more part is given out. */
  lemma AccountedStep(ms: seq<Range>, un: seq<Range>, parts: seq<Range>, r: Range, i: nat)
    requires Accounted(ms, un, parts) && Real(r) && Free(r, un) && i < |ms| && Inside(r, ms[i])
    ensures Accounted(ms, Normalized(un + [r]), parts + [r]) && |Normalized(un + [r])| <= |un| + 1
  {
    hide Count, Normalized, Tidy;
    TidyReal(un);
    NormalizedMeans(un + [r]);
    forall x: nat
      ensures Count(parts + [r], x) == One(Covers(Normalized(un + [r]), x))
              && (Covers(Normalized(un + [r]), x) ==> Covers(ms, x))
    {
      CountPush(parts, r, x);
      CountPush(un, r, x);
      if Has(r, x) {
        FreeMeans(r, un, x);
        CoversAt(ms, x, i);
      }
    }
  }

  lemma TidyReal(s: seq<Range>)
    requires Tidy(s)
    ensures AllReal(s)
  {}

  /** Cutting the parts out of the memories leaves what completes them. */
  lemma AccountedAll(ms: seq<Range>, un: seq<Range>, parts: seq<Range>)
    requires Tidy(ms) && Accounted(ms, un, parts)
    ensures AllReal(Subtract(ms, un)) && Total(parts) + Total(Subtract(ms, un)) == Total(ms)
    ensures forall x: nat :: Count(parts, x) + Count(Subtract(ms, un), x) == Count(ms, x)
  {
    hide Count, Subtract, Tidy, Total;
    var free := Subtract(ms, un);
    forall x: nat ensures Count(parts, x) + Count(free, x) == Count(ms, x) && Count(parts + free, x) == Count(ms, x) {
      SubtractMeans(ms, un, x);
      TidyCount(ms, x);
      CountConcat(parts, free, x);
    }
    SubtractMeans(ms, un, 0);
    TidyReal(ms);
    SameCountSameTotal(parts + free, ms);
    TotalConcat(parts, free);
  }

  // ---- what a plan promises ----------------------------------------------------------------------------

  /** Every address is in as many parts as it is in managed ranges: in one if it is managed, in none if it is not. */
  ghost predicate Partitions(p: Plan, managed: seq<Range>) {
    forall x: nat ::
      && Count(managed, x) <= 1
      && PartCount(p, x) == Count(managed, x)
  }

  /** In how many parts an address is. */
  function PartCount(p: Plan, x: nat): nat {
    Count(p.permanent, x) + Count(p.bootHeld, x) + One(Has(p.metadata, x)) + Count(p.heap, x) + Count(p.recovery, x)
        + Count(p.userFree, x)
  }

  /**
    Permanent memory is what is asked for and managed; boot-held memory is what is asked for, managed and not
    permanent.
  */
  ghost predicate Classifies(permanent: seq<Range>, bootHeld: seq<Range>, managed: seq<Range>, fixed: seq<Range>,
                             boot: seq<Range>) {
    forall x: nat ::
      && Count(permanent, x) == One(Covers(managed, x) && Covers(fixed, x))
      && Count(bootHeld, x) == One(Covers(managed, x) && Covers(boot, x) && !Covers(fixed, x))
  }

  ghost predicate AllBlocks(s: seq<Range>, len: nat, alignment: nat)
    requires alignment > 0
  {
    forall i :: 0 <= i < |s| ==> IsBlock(s[i], len, alignment)
  }

  /** The sizes and places the policy asks for. */
  ghost predicate Supplies(metadata: Range, heap: seq<Range>, recovery: seq<Range>, q: Requirements)
    requires q.page > 0
  {
    && AlignUp(q.metadataBytes, q.page).Some? && IsBlock(metadata, AlignUp(q.metadataBytes, q.page).value, q.page)
    && |heap| == q.heapCount && (q.heapCount > 0 ==> q.heapSize > 0 && AllBlocks(heap, q.heapSize, q.heapSize))
    && |recovery| == q.ticketCount && AllBlocks(recovery, q.ticketSize, q.page)
  }

  ghost predicate Adds(p: Plan, managed: seq<Range>) {
    && p.managedBytes == Total(managed) && p.permanentBytes == Total(p.permanent)
        && p.bootHeldBytes == Total(p.bootHeld)
    && p.systemBytes == Total([p.metadata]) + Total(p.heap) + Total(p.recovery) && p.userFreeBytes == Total(p.userFree)
    && p.permanentBytes + p.bootHeldBytes + p.systemBytes + p.userFreeBytes == p.managedBytes
  }

  /** The workspace the kernel sizes for so many ranges, chunks and tickets. */
  function Bound(managed: nat, fixed: nat, boot: nat, heapCount: nat, ticketCount: nat): nat {
    managed + 2 * (managed * fixed) + managed * boot + 1 + heapCount + ticketCount
  }

  /** A workspace sized for the most of everything is large enough for less. */
  lemma BoundGrows(m: nat, f: nat, b: nat, h: nat, t: nat, managed: nat, fixed: nat, boot: nat, heapCount: nat,
                   ticketCount: nat)
    requires m <= managed && f <= fixed && b <= boot && h <= heapCount && t <= ticketCount
    ensures Bound(m, f, b, h, t) <= Bound(managed, fixed, boot, heapCount, ticketCount)
  {
    LessTimes(m, managed, f);
    LessTimes(f, fixed, managed);
    LessTimes(m, managed, b);
    LessTimes(b, boot, managed);
  }

  // ---- small facts about the lists ---------------------------------------------------------------------

  lemma {:induction false} BlocksTotal(s: seq<Range>, len: nat, alignment: nat)
    requires alignment > 0 && AllBlocks(s, len, alignment)
    ensures Total(s) == len * |s|
  {
    if s != [] {
      var n := |s| - 1;
      BlocksTotal(s[..n], len, alignment);
      assert len * (n + 1) == len * n + len;
    }
  }

  lemma SortSame(s: seq<Range>, t: seq<Range>)
    requires t == SortByStart(s)
    ensures |t| == |s| && forall x: nat :: Count(t, x) == Count(s, x)
  {
    SortMeans(s);
    forall x: nat ensures Count(t, x) == Count(s, x) { SortCount(s, x); }
  }

  lemma EndsStay(s: seq<Range>, n: nat)
    requires forall i :: 0 <= i < |s| ==> s[i].end <= n
    ensures forall i :: 0 <= i < |SortByStart(s)| ==> SortByStart(s)[i].end <= n
  {
    forall i | 0 <= i < |SortByStart(s)| ensures SortByStart(s)[i].end <= n { SortKeeps(s, i); }
  }

  /** What the first stage leaves in the buffers, given what it was asked. */
  ghost predicate Gathered(ms: seq<Range>, permanent: seq<Range>, held: seq<Range>, un: seq<Range>,
                           managed: seq<Range>, fixed: seq<Range>, boot: seq<Range>) {
    && Tidy(ms) && |ms| == |managed| && (forall x: nat :: Count(ms, x) == Count(managed, x))
    && AllReal(permanent) && AllReal(held) && Classifies(permanent, held, managed, fixed, boot)
    && Accounted(ms, un, permanent + held) && |un| <= 2 * (|managed| * |fixed|) + |managed| * |boot|
  }

  lemma ClippedMeans(rs: seq<Range>, ms: seq<Range>)
    ensures var c := Normalized(Clip(rs, ms));
            Tidy(c) && |c| <= |ms| * |rs| && forall x: nat :: Count(c, x) == One(Covers(rs, x) && Covers(ms, x))
  {
    hide Count, Tidy, Normalized, Clip;
    ClipMeans(rs, ms, 0);
    NormalizedMeans(Clip(rs, ms));
    forall x: nat ensures Count(Normalized(Clip(rs, ms)), x) == One(Covers(rs, x) && Covers(ms, x)) {
      ClipMeans(rs, ms, x);
      TidyCount(Normalized(Clip(rs, ms)), x);
    }
  }

  lemma GatherMeans(managed: seq<Range>, fixed: seq<Range>, boot: seq<Range>, ms: seq<Range>, permanent: seq<Range>,
                    raw: seq<Range>, held: seq<Range>, un: seq<Range>)
    requires Tidy(ms) && ms == SortByStart(managed) && permanent == Normalized(Clip(fixed, ms))
             && raw == Normalized(Clip(boot, ms))
    requires held == Subtract(raw, permanent) && un == Normalized(permanent + held)
    ensures Gathered(ms, permanent, held, un, managed, fixed, boot)
  {
    hide Count, Tidy, Normalized, Clip, Subtract, SortByStart, AllReal;
    SortSame(managed, ms);
    ClippedMeans(fixed, ms);
    ClippedMeans(boot, ms);
    TidyReal(permanent);
    SubtractPieces(raw, permanent);
    SubtractMeans(raw, permanent, 0);
    RealConcat(permanent, held);
    NormalizedMeans(permanent + held);
    forall x: nat
      ensures Count(permanent, x) == One(Covers(managed, x) && Covers(fixed, x))
      ensures Count(held, x) == One(Covers(managed, x) && Covers(boot, x) && !Covers(fixed, x))
      ensures Count(permanent + held, x) == One(Covers(un, x)) && (Covers(un, x) ==> Covers(ms, x))
    {
      SubtractMeans(raw, permanent, x);
      CountConcat(permanent, held, x);
    }
  }

  /** What is wrong with the ranges given, if anything. */
  ghost function InputRefusal(managed: seq<Range>, fixed: seq<Range>, boot: seq<Range>, page: nat): Option<PlanError>
    requires page > 0
  {
    if !AllOk(managed, page) then Some(InvalidRange)
    else if Overlapping(managed) then Some(MemoryOverlap)
    else if !AllOk(fixed, page) || !AllOk(boot, page) then Some(InvalidRange)
    else None
  }

  class Planner {
    const memories: RangeBuffer
    const permanent: RangeBuffer
    const rawBoot: RangeBuffer
    const bootHeld: RangeBuffer
    const unavailable: RangeBuffer
    const userFree: RangeBuffer
    const capacity: nat
    const heapLimit: nat
    const ticketLimit: nat

    /** Six buffers of their own. */
    ghost predicate Shape() {
      && Apart(memories, permanent) && Apart(memories, rawBoot) && Apart(memories, bootHeld)
          && Apart(memories, unavailable) && Apart(memories, userFree)
      && Apart(permanent, rawBoot) && Apart(permanent, bootHeld) && Apart(permanent, unavailable)
          && Apart(permanent, userFree)
      && Apart(rawBoot, bootHeld) && Apart(rawBoot, unavailable) && Apart(rawBoot, userFree)
      && Apart(bootHeld, unavailable) && Apart(bootHeld, userFree) && Apart(unavailable, userFree)
      && memories.entries.Length == permanent.entries.Length == rawBoot.entries.Length == capacity
      && bootHeld.entries.Length == unavailable.entries.Length == userFree.entries.Length == capacity
    }

    constructor (ranges: nat, heapSlots: nat, ticketSlots: nat)
      ensures Shape() && capacity == ranges && heapLimit == heapSlots && ticketLimit == ticketSlots
    {
      memories := new RangeBuffer(ranges);
      permanent := new RangeBuffer(ranges);
      rawBoot := new RangeBuffer(ranges);
      bootHeld := new RangeBuffer(ranges);
      unavailable := new RangeBuffer(ranges);
      userFree := new RangeBuffer(ranges);
      capacity, heapLimit, ticketLimit := ranges, heapSlots, ticketSlots;
    }

    /** Sorts the memories, clips and merges what is asked for, and marks it unavailable. */
    method Gather(managed: seq<Range>, fixed: seq<Range>, boot: seq<Range>, page: nat)
        returns (problem: Option<PlanError>)
      requires Shape() && page > 0
      modifies memories, memories.entries, permanent, permanent.entries, rawBoot, rawBoot.entries, bootHeld,
               bootHeld.entries, unavailable, unavailable.entries
      ensures problem.None? ==> memories.Valid() && permanent.Valid() && bootHeld.Valid() && unavailable.Valid()
      ensures problem.None? ==> memories.Items() == SortByStart(managed) && AllReal(managed)
      ensures problem.None? ==>
              Gathered(memories.Items(), permanent.Items(), bootHeld.Items(), unavailable.Items(), managed, fixed, boot)
      ensures problem.None? ==> InputRefusal(managed, fixed, boot, page) == None
      ensures problem.Some? && problem != Some(CapacityExhausted) ==>
              problem == InputRefusal(managed, fixed, boot, page)
      ensures problem == Some(CapacityExhausted) ==>
              capacity < |managed| + 2 * (|managed| * |fixed|) + |managed| * |boot|
    {
      hide Tidy, Normalized, Clip, Subtract, SortByStart, Gathered, AllOk, Overlapping;
      problem := NormalizeMemories(managed, page, memories);
      if problem.Some? { return; }
      OkReal(managed, page);
      ghost var ms := memories.Items();
      SortSame(managed, ms);
      problem := ClipInto(fixed, memories, page, permanent);
      if problem.Some? { return; }
      problem := ClipInto(boot, memories, page, rawBoot);
      if problem.Some? { return; }
      ghost var fs, raw := permanent.Items(), rawBoot.Items();
      ClippedMeans(fixed, ms);
      ClippedMeans(boot, ms);
      var full := SubtractInto(rawBoot, permanent, bootHeld);
      if full { return Some(CapacityExhausted); }
      ghost var held := bootHeld.Items();
      SubtractPieces(raw, fs);
      full := CopyInto(permanent, unavailable);
      if full { return Some(CapacityExhausted); }
      full := Append(unavailable, bootHeld);
      if full { return Some(CapacityExhausted); }
      unavailable.Normalize();
      GatherMeans(managed, fixed, boot, ms, fs, raw, held, unavailable.Items());
      problem := None;
    }

    static lemma OkReal(s: seq<Range>, page: nat)
      requires page > 0 && AllOk(s, page)
      ensures AllReal(s)
    {}

    /** Places one block and marks it unavailable. */
    method PlaceBlock(len: nat, alignment: nat, ghost parts: seq<Range>) returns (r: Placed, full: bool)
      requires Shape() && memories.Valid() && unavailable.Valid() && alignment > 0 && len > 0 && WORD % alignment == 0
      requires Tidy(memories.Items()) && Low(memories.Items())
               && Accounted(memories.Items(), unavailable.Items(), parts)
      modifies unavailable, unavailable.entries
      ensures unavailable.Valid() && (full ==> old(unavailable.len) >= capacity)
      ensures r.Found? && !full ==>
              IsBlock(r.range, len, alignment) && Real(r.range)
              && Accounted(memories.Items(), unavailable.Items(), parts + [r.range])
      ensures r.Found? && !full ==> unavailable.len <= old(unavailable.len) + 1
      ensures !r.Found? ==>
              unavailable.Items() == old(unavailable.Items())
              && Blocked(memories.Items(), unavailable.Items(), len, alignment)
    {
      hide Normalized, Count, Free, IsBlock, Inside, Blocked;
      ghost var ms, un := memories.Items(), unavailable.Items();
      AccountedTidy(ms, un, parts);
      hide Accounted;
      ghost var y;
      r, y := PlaceOne(memories.entries[..memories.len], unavailable.entries[..unavailable.len], len, alignment);
      full := false;
      if r.Found? {
        ghost var i :| 0 <= i < |ms| && Inside(r.range, ms[i]);
        AccountedStep(ms, un, parts, r.range, i);
        var ok := unavailable.Push(r.range);
        if !ok { return r, true; }
        unavailable.Normalize();
      }
    }

    /** Memory that a word can address. */
    static ghost predicate Low(ms: seq<Range>) { forall i :: 0 <= i < |ms| ==> ms[i].end <= U64_MAX }

    lemma AccountedTidy(ms: seq<Range>, un: seq<Range>, parts: seq<Range>)
      requires Accounted(ms, un, parts)
      ensures Tidy(un)
    {}

    /** Places so many blocks, one after the other. */
    method PlaceMany(count: nat, len: nat, alignment: nat, short: PlanError, ghost parts: seq<Range>)
        returns (ranges: seq<Range>, problem: Option<PlanError>)
      requires Shape() && memories.Valid() && unavailable.Valid() && alignment > 0 && (count > 0 ==> len > 0)
               && WORD % alignment == 0
      requires Tidy(memories.Items()) && Low(memories.Items())
               && Accounted(memories.Items(), unavailable.Items(), parts)
      modifies unavailable, unavailable.entries
      ensures unavailable.Valid()
      ensures problem.None? ==> |ranges| == count && AllReal(ranges) && unavailable.len <= old(unavailable.len) + count
      ensures problem != Some(CapacityExhausted) ==>
              AllBlocks(ranges, len, alignment) && Accounted(memories.Items(), unavailable.Items(), parts + ranges)
      ensures problem.Some? ==> problem.value in {short, CapacityExhausted, ArithmeticOverflow}
      ensures problem.Some? && problem != Some(CapacityExhausted) ==>
              |ranges| < count && Blocked(memories.Items(), unavailable.Items(), len, alignment)
      ensures problem == Some(CapacityExhausted) && short != CapacityExhausted ==>
              capacity < old(unavailable.len) + count
    {
      hide Accounted, IsBlock, Tidy, Blocked;
      ranges, problem := [], None;
      assert parts + [] == parts;
      for index := 0 to count
        invariant unavailable.Valid() && |ranges| == index && AllBlocks(ranges, len, alignment) && AllReal(ranges)
        invariant Accounted(memories.Items(), unavailable.Items(), parts + ranges)
                  && unavailable.len <= old(unavailable.len) + index
        invariant memories.Items() == old(memories.Items())
      {
        var r, full := PlaceBlock(len, alignment, parts + ranges);
        if r == Overflow { return ranges, Some(ArithmeticOverflow); }
        if r == NoRoom { return ranges, Some(short); }
        if full { return ranges, Some(CapacityExhausted); }
        assert (parts + ranges) + [r.range] == parts + (ranges + [r.range]);
        ranges := ranges + [r.range];
      }
    }

    /** Length and alignment of the block that comes after so many: metadata, heap chunks, recovery tickets. */
    static ghost function NextLen(q: Requirements, n: nat): nat
      requires q.page > 0
    {
      if n > q.heapCount then q.ticketSize else if n > 0 then q.heapSize
      else if AlignUp(q.metadataBytes, q.page).Some? then AlignUp(q.metadataBytes, q.page).value else 0
    }

    static ghost function NextAlignment(q: Requirements, n: nat): nat {
      if 0 < n <= q.heapCount then q.heapSize else q.page
    }

    static function Shortage(q: Requirements, n: nat): PlanError {
      if n == 0 then InsufficientMetadata else if n <= q.heapCount then InsufficientHeap else InsufficientRecovery
    }

    /** Blocks set aside in order, each as the policy asks. */
    static ghost predicate InOrder(aside: seq<Range>, q: Requirements)
      requires q.page > 0 && (q.heapCount > 0 ==> q.heapSize > 0)
    {
      forall n :: 0 <= n < |aside| ==> IsBlock(aside[n], NextLen(q, n), NextAlignment(q, n))
    }

    /** The block after those set aside has no place, and the error says which it is or that none can be computed. */
    ghost predicate Stuck(q: Requirements, aside: seq<Range>, un: seq<Range>, error: PlanError)
      requires memories.Valid() && q.page > 0 && (q.heapCount > 0 ==> q.heapSize > 0)
      reads memories, memories.entries
    {
      && |aside| < 1 + q.heapCount + q.ticketCount && InOrder(aside, q)
      && error in {Shortage(q, |aside|), ArithmeticOverflow}
      && Blocked(memories.Items(), un, NextLen(q, |aside|), NextAlignment(q, |aside|))
    }

    /** Sets aside the metadata, the heap chunks and the recovery tickets. */
    method SetAside(q: Requirements, ghost parts: seq<Range>)
        returns (problem: Option<PlanError>, metadata: Range, heap: seq<Range>, recovery: seq<Range>,
                 ghost aside: seq<Range>)
      requires Shape() && memories.Valid() && unavailable.Valid() && PolicyOk(q, heapLimit, ticketLimit) && q.page > 0
               && WORD % q.page == 0 && (q.heapCount > 0 ==> q.heapSize > 0 && WORD % q.heapSize == 0)
      requires Tidy(memories.Items()) && Low(memories.Items())
               && Accounted(memories.Items(), unavailable.Items(), parts)
      modifies unavailable, unavailable.entries
      ensures unavailable.Valid()
      ensures problem.None? ==> Accounted(memories.Items(), unavailable.Items(), parts + [metadata] + heap + recovery)
      ensures problem.None? ==>
              Supplies(metadata, heap, recovery, q)
              && unavailable.len <= old(unavailable.len) + 1 + q.heapCount + q.ticketCount
      ensures problem == Some(CapacityExhausted) ==> capacity < old(unavailable.len) + 1 + q.heapCount + q.ticketCount
      ensures AlignUp(q.metadataBytes, q.page).None? ==> problem == Some(ArithmeticOverflow)
      ensures AlignUp(q.metadataBytes, q.page).Some? && problem.Some? && problem != Some(CapacityExhausted) ==>
              Stuck(q, aside, unavailable.Items(), problem.value)
              && Accounted(memories.Items(), unavailable.Items(), parts + aside)
    {
      hide Accounted, Tidy, Free, PowerOfTwo, Inside, AllReal, Blocked, IsBlock, AllBlocks;
      problem, metadata, heap, recovery, aside := None, Range(0, 0), [], [], [];
      var aligned := AlignUp(q.metadataBytes, q.page);
      if aligned.None? { problem := Some(ArithmeticOverflow); return; }
      AlignLeast(q.metadataBytes, q.page, 0);
      var r, full := PlaceBlock(aligned.value, q.page, parts);
      assert parts + [] == parts;
      if r == Overflow { problem := Some(ArithmeticOverflow); return; }
      if r == NoRoom { problem := Some(InsufficientMetadata); return; }
      if full { problem := Some(CapacityExhausted); return; }
      metadata := r.range;
      NoReal();
      NoBlocks(q);
      assert parts + [metadata] + [] == parts + [metadata];
      if q.heapCount > 0 {
        heap, problem := PlaceMany(q.heapCount, q.heapSize, q.heapSize, InsufficientHeap, parts + [metadata]);
        if problem.Some? {
          aside := [metadata] + heap;
          assert parts + [metadata] + heap == parts + aside;
          if problem != Some(CapacityExhausted) { HeapInOrder(metadata, heap, q); }
          return;
        }
      }
      recovery, problem :=
          PlaceMany(q.ticketCount, q.ticketSize, q.page, InsufficientRecovery, parts + [metadata] + heap);
      aside := [metadata] + heap + recovery;
      assert parts + [metadata] + heap + recovery == parts + aside;
      if problem != Some(CapacityExhausted) { AllInOrder(metadata, heap, recovery, q); }
    }

    static lemma NoBlocks(q: Requirements)
      requires q.page > 0
      ensures q.heapCount > 0 && q.heapSize > 0 ==> AllBlocks([], q.heapSize, q.heapSize)
    {}

    static lemma HeapInOrder(metadata: Range, heap: seq<Range>, q: Requirements)
      requires q.page > 0 && q.heapSize > 0 && AlignUp(q.metadataBytes, q.page).Some? && |heap| <= q.heapCount
      requires IsBlock(metadata, AlignUp(q.metadataBytes, q.page).value, q.page)
               && AllBlocks(heap, q.heapSize, q.heapSize)
      ensures InOrder([metadata] + heap, q)
    {
      hide IsBlock, AlignUp;
    }

    static lemma AllInOrder(metadata: Range, heap: seq<Range>, recovery: seq<Range>, q: Requirements)
      requires q.page > 0 && AlignUp(q.metadataBytes, q.page).Some? && |heap| == q.heapCount
               && (q.heapCount > 0 ==> q.heapSize > 0 && AllBlocks(heap, q.heapSize, q.heapSize))
      requires IsBlock(metadata, AlignUp(q.metadataBytes, q.page).value, q.page)
               && AllBlocks(recovery, q.ticketSize, q.page)
      ensures InOrder([metadata] + heap + recovery, q)
    {
      hide IsBlock, AlignUp;
    }

    static lemma NoReal()
      ensures AllReal([])
    {}

    /** Cuts the free memory out and adds everything up; the sum is always that of the managed memory. */
    method Tally(q: Requirements, metadata: Range, heap: seq<Range>, recovery: seq<Range>) returns (r: Planning)
      requires Shape() && memories.Valid() && permanent.Valid() && bootHeld.Valid() && unavailable.Valid() && q.page > 0
      requires Tidy(memories.Items()) && AllReal(permanent.Items()) && AllReal(bootHeld.Items())
               && Supplies(metadata, heap, recovery, q)
      requires forall i :: 0 <= i < memories.len ==> memories.entries[i].end <= U64_MAX
      requires Accounted(memories.Items(), unavailable.Items(),
                         permanent.Items() + bootHeld.Items() + [metadata] + heap + recovery)
      modifies userFree, userFree.entries
      ensures r.Refused? ==> r.error == CapacityExhausted && capacity < memories.len + unavailable.len
      ensures r.Planned? ==> var p := r.plan;
              && p.permanent == permanent.Items() && p.bootHeld == bootHeld.Items() && p.metadata == metadata
                  && p.heap == heap && p.recovery == recovery
              && Adds(p, memories.Items()) && forall x: nat :: PartCount(p, x) == Count(memories.Items(), x)
    {
      hide Tidy, Subtract, Count, Total, Accounted, AllReal, AllBlocks, IsBlock, AlignUp;
      ghost var ms, un, fs, held := memories.Items(), unavailable.Items(), permanent.Items(), bootHeld.Items();
      AccountedTidy(ms, un, fs + held + [metadata] + heap + recovery);
      AccountedAll(ms, un, fs + held + [metadata] + heap + recovery);
      PartTotals(fs, held, metadata, heap, recovery);
      AsideTotals(metadata, heap, recovery, q);
      TidyTotal(ms);
      TidyReal(ms);
      RealOrder(ms);
      RealOrder(fs);
      RealOrder(held);
      var full := SubtractInto(memories, unavailable, userFree);
      if full { return Refused(CapacityExhausted); }
      RealOrder(userFree.Items());
      var managedBytes := memories.Bytes();
      var permanentBytes := permanent.Bytes();
      var bootBytes := bootHeld.Bytes();
      var metadataLen := AlignUp(q.metadataBytes, q.page);
      var systemBytes := metadataLen.value + q.heapSize * q.heapCount + q.ticketSize * q.ticketCount;
      var freeBytes := userFree.Bytes();
      if managedBytes.None? || permanentBytes.None? || bootBytes.None? || freeBytes.None? || systemBytes > U64_MAX {
        return Refused(ArithmeticOverflow);
      }
      var classified := permanentBytes.value + bootBytes.value + systemBytes + freeBytes.value;
      if classified > U64_MAX { return Refused(ArithmeticOverflow); }
      if classified != managedBytes.value { return Refused(ClassificationMismatch); }
      r := Planned(Plan(permanent.entries[..permanent.len], bootHeld.entries[..bootHeld.len], metadata, heap, recovery,
                        userFree.entries[..userFree.len],
                        managedBytes.value, permanentBytes.value, bootBytes.value, systemBytes, freeBytes.value));
      forall x: nat ensures PartCount(r.plan, x) == Count(ms, x) { PartCounts(fs, held, metadata, heap, recovery, x); }
    }

    static lemma RealOrder(s: seq<Range>)
      requires AllReal(s)
      ensures forall i :: 0 <= i < |s| ==> s[i].start <= s[i].end
    {}

    static lemma PartCounts(fs: seq<Range>, held: seq<Range>, metadata: Range, heap: seq<Range>, recovery: seq<Range>,
                            x: nat)
      ensures Count(fs + held + [metadata] + heap + recovery, x)
              == Count(fs, x) + Count(held, x) + One(Has(metadata, x)) + Count(heap, x) + Count(recovery, x)
    {
      hide Count;
      CountConcat(fs + held + [metadata] + heap, recovery, x);
      CountConcat(fs + held + [metadata], heap, x);
      CountPush(fs + held, metadata, x);
      CountConcat(fs, held, x);
    }

    static lemma PartTotals(fs: seq<Range>, held: seq<Range>, metadata: Range, heap: seq<Range>, recovery: seq<Range>)
      ensures Total(fs + held + [metadata] + heap + recovery)
              == Total(fs) + Total(held) + Total([metadata]) + Total(heap) + Total(recovery)
    {
      hide Total;
      TotalConcat(fs + held + [metadata] + heap, recovery);
      TotalConcat(fs + held + [metadata], heap);
      TotalConcat(fs + held, [metadata]);
      TotalConcat(fs, held);
    }

    static lemma AsideTotals(metadata: Range, heap: seq<Range>, recovery: seq<Range>, q: Requirements)
      requires q.page > 0 && Supplies(metadata, heap, recovery, q)
      ensures Total([metadata]) == AlignUp(q.metadataBytes, q.page).value && Total(heap) == q.heapSize * q.heapCount
              && Total(recovery) == q.ticketSize * q.ticketCount
    {
      assert [metadata][..0] == [];
      if q.heapCount > 0 { BlocksTotal(heap, q.heapSize, q.heapSize); }
      BlocksTotal(recovery, q.ticketSize, q.page);
    }

    /**
      Divides managed memory. On success every managed byte is in exactly one part and no other byte is in any; the
      sizes always add up; and a workspace as large as the kernel's is never too small.
    */
    method Divide(managed: seq<Range>, fixed: seq<Range>, boot: seq<Range>, q: Requirements)
        returns (r: Planning, ghost aside: seq<Range>)
      requires Shape() && (forall i :: 0 <= i < |managed| ==> managed[i].end <= U64_MAX)
               && q.page <= U64_MAX && q.heapSize <= U64_MAX
      modifies memories, memories.entries, permanent, permanent.entries, rawBoot, rawBoot.entries, bootHeld,
               bootHeld.entries
      modifies unavailable, unavailable.entries, userFree, userFree.entries
      ensures r == Refused(InvalidRequirements) <==> !PolicyOk(q, heapLimit, ticketLimit)
      ensures r != Refused(ClassificationMismatch)
      ensures capacity >= Bound(|managed|, |fixed|, |boot|, q.heapCount, q.ticketCount) ==>
              r != Refused(CapacityExhausted)
      ensures Sized(|managed|, |fixed|, |boot|) ==> r != Refused(CapacityExhausted)
      ensures r.Planned? ==>
              q.page > 0 && Partitions(r.plan, managed) && Supplies(r.plan.metadata, r.plan.heap, r.plan.recovery, q)
              && Adds(r.plan, managed)
      ensures r.Planned? ==> Classifies(r.plan.permanent, r.plan.bootHeld, managed, fixed, boot)
      ensures PolicyOk(q, heapLimit, ticketLimit) ==>
              q.page > 0
              && (r.Refused? && r.error in {InvalidRange, MemoryOverlap} ==>
                  InputRefusal(managed, fixed, boot, q.page) == Some(r.error))
              && (InputRefusal(managed, fixed, boot, q.page).Some? && r != Refused(CapacityExhausted) ==>
                  r == Refused(InputRefusal(managed, fixed, boot, q.page).value))
      ensures r.Refused? && r.error !in {InvalidRequirements, InvalidRange, MemoryOverlap, CapacityExhausted} ==>
              q.page > 0 && Hindered(managed, fixed, boot, q, aside, r.error)
    {
      hide Tidy, Subtract, Count, Total, Accounted, AllReal, AllBlocks, IsBlock, AlignUp, SortByStart, Free, Inside,
           Classifies, Hindered, Stuck, InputRefusal, PowerOfTwo, Sized, PolicyOk, Supplies, Partitions, Adds, Low;
      aside := [];
      if !PolicyOk(q, heapLimit, ticketLimit) { return Refused(InvalidRequirements), []; }
      PolicyMeans(q);
      SizedMeans(|managed|, |fixed|, |boot|, q);
      r, aside := Carve(managed, fixed, boot, q);
    }

    /** Everything after the policy has been accepted. */
    method Carve(managed: seq<Range>, fixed: seq<Range>, boot: seq<Range>, q: Requirements)
        returns (r: Planning, ghost aside: seq<Range>)
      requires Shape() && (forall i :: 0 <= i < |managed| ==> managed[i].end <= U64_MAX)
      requires PolicyOk(q, heapLimit, ticketLimit) && q.page > 0 && WORD % q.page == 0
               && (q.heapCount > 0 ==> q.heapSize > 0 && WORD % q.heapSize == 0)
      modifies memories, memories.entries, permanent, permanent.entries, rawBoot, rawBoot.entries, bootHeld,
               bootHeld.entries
      modifies unavailable, unavailable.entries, userFree, userFree.entries
      ensures r !in {Refused(ClassificationMismatch), Refused(InvalidRequirements)}
      ensures capacity >= Bound(|managed|, |fixed|, |boot|, q.heapCount, q.ticketCount) ==>
              r != Refused(CapacityExhausted)
      ensures r.Planned? ==>
              Partitions(r.plan, managed) && Supplies(r.plan.metadata, r.plan.heap, r.plan.recovery, q)
              && Adds(r.plan, managed) && Classifies(r.plan.permanent, r.plan.bootHeld, managed, fixed, boot)
      ensures InputRefusal(managed, fixed, boot, q.page).Some? && r != Refused(CapacityExhausted) ==>
              r == Refused(InputRefusal(managed, fixed, boot, q.page).value)
      ensures r.Refused? && r.error in {InvalidRange, MemoryOverlap} ==>
              InputRefusal(managed, fixed, boot, q.page) == Some(r.error)
      ensures r.Refused? && r.error !in {InvalidRange, MemoryOverlap, CapacityExhausted} ==>
              Hindered(managed, fixed, boot, q, aside, r.error)
    {
      hide Tidy, Subtract, Count, Total, Accounted, AllReal, AllBlocks, IsBlock, AlignUp, SortByStart, Free, Inside,
           Classifies, Hindered, Stuck, InputRefusal, PolicyOk, Supplies, Partitions, Adds, PartCount;
      aside := [];
      var problem := Gather(managed, fixed, boot, q.page);
      if problem.Some? {
        RefusalIs(managed, fixed, boot, q.page);
        return Refused(problem.value), [];
      }
      ghost var ms, fs, held, un := memories.Items(), permanent.Items(), bootHeld.Items(), unavailable.Items();
      EndsStay(managed, U64_MAX);
      var metadata, heap, recovery;
      problem, metadata, heap, recovery, aside := SetAside(q, fs + held);
      if problem.Some? {
        if problem.value != CapacityExhausted {
          HinderedWhen(ms, fs, held, un, managed, fixed, boot, q, aside, problem.value);
          HinderedIs(managed, fixed, boot, q, aside, problem.value);
        }
        return Refused(problem.value), aside;
      }
      r := Tally(q, metadata, heap, recovery);
      if r.Planned? { PlanMeans(r.plan, ms, managed, q); }
    }

    /** The workspace is sized for at least so many ranges and for every chunk and ticket there can be. */
    ghost predicate Sized(managed: nat, fixed: nat, boot: nat) {
      exists m: nat, f: nat, b: nat ::
        managed <= m && fixed <= f && boot <= b && capacity >= Bound(m, f, b, heapLimit, ticketLimit)
    }

    lemma SizedMeans(managed: nat, fixed: nat, boot: nat, q: Requirements)
      requires PolicyOk(q, heapLimit, ticketLimit)
      ensures Sized(managed, fixed, boot) ==> capacity >= Bound(managed, fixed, boot, q.heapCount, q.ticketCount)
    {
      if Sized(managed, fixed, boot) {
        var m: nat, f: nat, b: nat :|
          managed <= m && fixed <= f && boot <= b && capacity >= Bound(m, f, b, heapLimit, ticketLimit);
        BoundGrows(managed, fixed, boot, q.heapCount, q.ticketCount, m, f, b, heapLimit, ticketLimit);
      }
    }

    lemma PolicyMeans(q: Requirements)
      requires PolicyOk(q, heapLimit, ticketLimit) && q.page <= U64_MAX && q.heapSize <= U64_MAX
      ensures q.page > 0 && WORD % q.page == 0 && (q.heapCount > 0 ==> q.heapSize > 0 && WORD % q.heapSize == 0)
    {
      hide PowerOfTwo;
      WordDivides(q.page);
      if q.heapCount > 0 { WordDivides(q.heapSize); }
    }

    static lemma HinderedIs(managed: seq<Range>, fixed: seq<Range>, boot: seq<Range>, q: Requirements,
                            aside: seq<Range>, error: PlanError)
      requires q.page > 0 && Hindered(managed, fixed, boot, q, aside, error)
      ensures error in {ArithmeticOverflow, InsufficientMetadata, InsufficientHeap, InsufficientRecovery}
    {}

    static lemma RefusalIs(managed: seq<Range>, fixed: seq<Range>, boot: seq<Range>, page: nat)
      requires page > 0
      ensures InputRefusal(managed, fixed, boot, page).Some? ==>
              InputRefusal(managed, fixed, boot, page).value in {InvalidRange, MemoryOverlap}
    {}

    /** Why setting blocks aside stopped: the next one overflows, or every place for it meets what is taken. */
    static ghost predicate Hindered(managed: seq<Range>, fixed: seq<Range>, boot: seq<Range>, q: Requirements,
                                    aside: seq<Range>, error: PlanError)
      requires q.page > 0
    {
      if AlignUp(q.metadataBytes, q.page).None? then error == ArithmeticOverflow
      else
        && (q.heapCount > 0 ==> q.heapSize > 0) && |aside| < 1 + q.heapCount + q.ticketCount && InOrder(aside, q)
        && error in {Shortage(q, |aside|), ArithmeticOverflow}
        && forall i, b: Range ::
            0 <= i < |managed| && IsBlock(b, NextLen(q, |aside|), NextAlignment(q, |aside|))
            && Inside(b, managed[i]) ==>
            Met(b, fixed, boot, aside)
    }

    static ghost predicate Met(b: Range, fixed: seq<Range>, boot: seq<Range>, aside: seq<Range>) {
      exists x: nat :: Has(b, x) && (Covers(fixed, x) || Covers(boot, x) || Covers(aside, x))
    }

    lemma HinderedWhen(ms: seq<Range>, fs: seq<Range>, held: seq<Range>, un: seq<Range>, managed: seq<Range>,
                       fixed: seq<Range>, boot: seq<Range>, q: Requirements, aside: seq<Range>, error: PlanError)
      requires memories.Valid() && unavailable.Valid() && PolicyOk(q, heapLimit, ticketLimit) && q.page > 0
               && (q.heapCount > 0 ==> q.heapSize > 0)
      requires ms == memories.Items() == SortByStart(managed) && Gathered(ms, fs, held, un, managed, fixed, boot)
      requires if AlignUp(q.metadataBytes, q.page).None? then error == ArithmeticOverflow
               else Stuck(q, aside, unavailable.Items(), error)
                    && Accounted(ms, unavailable.Items(), fs + held + aside)
      ensures Hindered(managed, fixed, boot, q, aside, error)
    {
      hide Count, SortByStart, Tidy, AlignUp, InOrder, NextLen, NextAlignment, PowerOfTwo, Total;
      if AlignUp(q.metadataBytes, q.page).Some? {
        var len, alignment := NextLen(q, |aside|), NextAlignment(q, |aside|);
        LenPositive(q, |aside|);
        SortMeans(managed);
        forall i, b: Range | 0 <= i < |managed| && IsBlock(b, len, alignment) && Inside(b, managed[i])
          ensures Met(b, fixed, boot, aside)
        {
          assert managed[i] in multiset(ms);
          assert managed[i] in ms;
          var j :| 0 <= j < |ms| && ms[j] == managed[i];
          assert !Free(b, unavailable.Items());
          MetWhen(ms, fs, held, un, unavailable.Items(), managed, fixed, boot, aside, b);
        }
      }
    }

    static lemma LenPositive(q: Requirements, n: nat)
      requires q.page > 0 && q.metadataBytes > 0 && AlignUp(q.metadataBytes, q.page).Some?
               && n < 1 + q.heapCount + q.ticketCount
      requires (q.heapCount > 0 ==> q.heapSize > 0) && (q.ticketCount > 0 ==> q.ticketSize > 0)
      ensures NextLen(q, n) > 0 && NextAlignment(q, n) > 0
    {
      AlignLeast(q.metadataBytes, q.page, 0);
    }

    /** A block that is not free meets something asked for or something set aside. */
    static lemma MetWhen(ms: seq<Range>, fs: seq<Range>, held: seq<Range>, un: seq<Range>, now: seq<Range>,
                         managed: seq<Range>, fixed: seq<Range>, boot: seq<Range>, aside: seq<Range>, b: Range)
      requires Gathered(ms, fs, held, un, managed, fixed, boot) && Accounted(ms, now, fs + held + aside)
      requires Real(b) && !Free(b, now)
      ensures Met(b, fixed, boot, aside)
    {
      hide Count, Tidy;
      var k :| 0 <= k < |now| && !(b.end <= now[k].start || now[k].end <= b.start);
      var x := Max(b.start, now[k].start);
      UnReal(ms, now, fs + held + aside, k);
      CoversAt(now, x, k);
      CountConcat(fs + held, aside, x);
      CountConcat(fs, held, x);
      assert Count(fs + held + aside, x) == One(Covers(now, x));
      assert Count(fs, x) == One(Covers(managed, x) && Covers(fixed, x));
      assert Count(held, x) == One(Covers(managed, x) && Covers(boot, x) && !Covers(fixed, x));
      assert Has(b, x);
    }

    static lemma UnReal(ms: seq<Range>, un: seq<Range>, parts: seq<Range>, k: nat)
      requires Accounted(ms, un, parts) && k < |un|
      ensures Real(un[k])
    {}

    lemma PlanMeans(p: Plan, ms: seq<Range>, managed: seq<Range>, q: Requirements)
      requires Tidy(ms) && AllReal(managed) && (forall x: nat :: Count(ms, x) == Count(managed, x)) && Adds(p, ms)
               && (forall x: nat :: PartCount(p, x) == Count(ms, x))
      ensures Partitions(p, managed) && Adds(p, managed)
    {
      hide Count, Total, Tidy;
      forall x: nat ensures Count(managed, x) <= 1 && PartCount(p, x) == Count(managed, x) { TidyCount(ms, x); }
      TidyReal(ms);
      SameCountSameTotal(ms, managed);
    }
  }
}
