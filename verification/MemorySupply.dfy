/** The boot-time planner of physical memory: fixed buffers of ranges, filled, sorted, merged and cut in place. */
module MemorySupply {
  import opened Wrappers
  import opened SupplyRanges

  datatype PlanError =
    | InvalidRequirements | InvalidRange | MemoryOverlap | CapacityExhausted | ArithmeticOverflow
    | InsufficientMetadata | InsufficientHeap | InsufficientRecovery | ClassificationMismatch

  // ---- fitting -----------------------------------------------------------------------------------------

  datatype Placed = Found(range: Range) | NoRoom | Overflow

  const WORD: nat := U64_MAX + 1

  /** Rounding up to a multiple; with a power of two this is what masking the low bits does. */
  function AlignUp(value: nat, alignment: nat): Option<nat>
    requires alignment > 0
  {
    if value + (alignment - 1) > U64_MAX then None else Some((value + (alignment - 1)) / alignment * alignment)
  }

  function Fit(start: nat, end: nat, len: nat, alignment: nat): Placed
    requires alignment > 0
  {
    if start >= end then NoRoom
    else
      var aligned := AlignUp(start, alignment);
      if aligned.None? || aligned.value + len > U64_MAX then Overflow
      else if aligned.value + len <= end then Found(Range(aligned.value, aligned.value + len)) else NoRoom
  }

  /** A block of the right size and alignment. */
  predicate IsBlock(r: Range, len: nat, alignment: nat)
    requires alignment > 0
  {
    r.start % alignment == 0 && r.end == r.start + len
  }

  lemma AlignLeast(value: nat, alignment: nat, a: nat)
    requires alignment > 0
    ensures var up := (value + (alignment - 1)) / alignment * alignment;
            up % alignment == 0 && value <= up && (a % alignment == 0 && a >= value ==> up <= a)
  {
    var q := (value + (alignment - 1)) / alignment;
    DivParts(value + (alignment - 1), alignment);
    MultipleOf(q, alignment);
    if a % alignment == 0 && a >= value {
      DivParts(a, alignment);
      var k := a / alignment;
      if q > k { LessTimes(k + 1, q, alignment); }
      else { LessTimes(q, k, alignment); }
    }
  }

  lemma MultipleOf(q: nat, b: nat)
    requires b > 0
    ensures q * b % b == 0
  {
    DivParts(q * b, b);
    var d := q - q * b / b;
    assert d * b == q * b % b;
    if d >= 1 { LessTimes(1, d, b); }
  }

  /** A gap is said to have no room only when no block fits in it; a block found lies in the gap. */
  lemma FitMeans(start: nat, end: nat, len: nat, alignment: nat, b: Range)
    requires alignment > 0 && len > 0
    ensures Fit(start, end, len, alignment).Found? ==>
            var r := Fit(start, end, len, alignment).range;
                IsBlock(r, len, alignment) && start <= r.start < r.end <= end
    ensures Fit(start, end, len, alignment) == NoRoom && IsBlock(b, len, alignment) ==>
            !(start <= b.start && b.end <= end)
  {
    AlignLeast(start, alignment, b.start);
  }

  lemma MultiplesApart(x: nat, y: nat, b: nat)
    requires b > 0 && x % b == 0 && y % b == 0 && x < y
    ensures x + b <= y
  {
    DivParts(x, b);
    DivParts(y, b);
    if x / b >= y / b { LessTimes(y / b, x / b, b); } else { LessTimes(x / b + 1, y / b, b); }
  }

  /** No block from the address on ends within a word. */
  predicate TooHigh(x: nat, len: nat, alignment: nat)
    requires alignment > 0
  {
    AlignUp(x, alignment).None? || AlignUp(x, alignment).value + len > U64_MAX
  }

  lemma TooHighMeans(x: nat, len: nat, alignment: nat, b: Range)
    requires alignment > 0 && WORD % alignment == 0 && TooHigh(x, len, alignment) && IsBlock(b, len, alignment)
             && x <= b.start
    ensures len > 0 ==> b.end > U64_MAX
  {
    AlignLeast(x, alignment, b.start);
    if b.start < WORD { MultiplesApart(b.start, WORD, alignment); }
  }

  lemma FitOverflows(start: nat, end: nat, len: nat, alignment: nat)
    requires alignment > 0 && Fit(start, end, len, alignment) == Overflow
    ensures TooHigh(start, len, alignment)
  {}

  // ---- placing one block -------------------------------------------------------------------------------

  ghost predicate Free(r: Range, cuts: seq<Range>) {
    forall i :: 0 <= i < |cuts| ==> r.end <= cuts[i].start || cuts[i].end <= r.start
  }

  predicate Inside(r: Range, m: Range) { m.start <= r.start && r.end <= m.end }

  /** Every free block of a memory that the first cuts allow starts at the cursor or later. */
  ghost predicate NoneBefore(m: Range, cuts: seq<Range>, cursor: nat, len: nat, alignment: nat)
    requires alignment > 0
  {
    forall b: Range :: IsBlock(b, len, alignment) && Inside(b, m) && Free(b, cuts) ==> cursor <= b.start
  }

  /** Cuts met so far are behind the cursor or beyond the memory. */
  ghost predicate Behind(cuts: seq<Range>, n: nat, cursor: nat, end: nat) {
    n <= |cuts| && forall i :: 0 <= i < n ==> cuts[i].end <= cursor || cuts[i].start >= end
  }

  lemma GapMeans(m: Range, cuts: seq<Range>, n: nat, cursor: nat, len: nat, alignment: nat)
    requires alignment > 0 && len > 0 && Tidy(cuts) && m.start <= cursor && Behind(cuts, n, cursor, m.end)
             && NoneBefore(m, cuts, cursor, len, alignment)
    requires n < |cuts| && cuts[n].end > cursor && cuts[n].start < m.end
    ensures var f := Fit(cursor, Min(cuts[n].start, m.end), len, alignment);
            && (f.Found? ==>
                IsBlock(f.range, len, alignment) && Real(f.range) && Inside(f.range, m) && Free(f.range, cuts))
            && (f == NoRoom ==> NoneBefore(m, cuts, Min(cuts[n].end, m.end), len, alignment))
  {
    var gap := Min(cuts[n].start, m.end);
    var f := Fit(cursor, gap, len, alignment);
    if f.Found? {
      FitMeans(cursor, gap, len, alignment, f.range);
      forall i | 0 <= i < |cuts| ensures f.range.end <= cuts[i].start || cuts[i].end <= f.range.start {
        if i > n { assert cuts[n].end <= cuts[i].start; }
      }
    }
    if f == NoRoom {
      forall b: Range | IsBlock(b, len, alignment) && Inside(b, m) && Free(b, cuts)
        ensures Min(cuts[n].end, m.end) <= b.start
      {
        FitMeans(cursor, gap, len, alignment, b);
        assert b.end <= cuts[n].start || cuts[n].end <= b.start;
      }
    }
  }

  lemma TailMeans(m: Range, cuts: seq<Range>, cursor: nat, len: nat, alignment: nat)
    requires alignment > 0 && len > 0 && m.start <= cursor && Behind(cuts, |cuts|, cursor, m.end)
             && NoneBefore(m, cuts, cursor, len, alignment)
    ensures var f := Fit(cursor, m.end, len, alignment);
            && (f.Found? ==>
                IsBlock(f.range, len, alignment) && Real(f.range) && Inside(f.range, m) && Free(f.range, cuts))
            && (f == NoRoom ==> forall b: Range :: IsBlock(b, len, alignment) && Inside(b, m) ==> !Free(b, cuts))
  {
    var f := Fit(cursor, m.end, len, alignment);
    if f.Found? { FitMeans(cursor, m.end, len, alignment, f.range); }
    if f == NoRoom {
      forall b: Range | IsBlock(b, len, alignment) && Inside(b, m)
        ensures !Free(b, cuts)
      {
        FitMeans(cursor, m.end, len, alignment, b);
      }
    }
  }

  /** Where a block cannot be computed there is none, in this memory or above it. */
  lemma OverflowMeans(m: Range, cuts: seq<Range>, cursor: nat, len: nat, alignment: nat)
    requires alignment > 0 && len > 0 && WORD % alignment == 0 && m.start <= cursor < m.end <= U64_MAX
             && NoneBefore(m, cuts, cursor, len, alignment) && TooHigh(cursor, len, alignment)
    ensures forall b: Range :: IsBlock(b, len, alignment) && Inside(b, m) ==> !Free(b, cuts)
    ensures forall b: Range :: IsBlock(b, len, alignment) && m.end <= b.start ==> b.end > U64_MAX
  {
    hide TooHigh;
    forall b: Range | IsBlock(b, len, alignment) && cursor <= b.start ensures b.end > U64_MAX {
      TooHighMeans(cursor, len, alignment, b);
    }
  }

  /** One memory, walked once along the cuts. */
  method PlaceIn(m: Range, cuts: seq<Range>, len: nat, alignment: nat) returns (r: Placed, ghost y: nat)
    requires alignment > 0 && len > 0 && WORD % alignment == 0 && Real(m) && m.end <= U64_MAX && Tidy(cuts)
    ensures r.Found? ==> IsBlock(r.range, len, alignment) && Real(r.range) && Inside(r.range, m) && Free(r.range, cuts)
    ensures !r.Found? ==> forall b: Range :: IsBlock(b, len, alignment) && Inside(b, m) ==> !Free(b, cuts)
    ensures r == Overflow ==>
            Has(m, y) && TooHigh(y, len, alignment)
            && forall b: Range :: IsBlock(b, len, alignment) && m.end <= b.start ==> b.end > U64_MAX
  {
    hide Fit, IsBlock, Free, Inside, NoneBefore, TooHigh;
    var cursor := m.start;
    StartsThere(m, cuts, len, alignment);
    var i := 0;
    while i < |cuts|
      invariant 0 <= i <= |cuts| && m.start <= cursor < m.end && Behind(cuts, i, cursor, m.end)
                && NoneBefore(m, cuts, cursor, len, alignment)
    {
      if !(cuts[i].end <= cursor || cuts[i].start >= m.end) {
        GapMeans(m, cuts, i, cursor, len, alignment);
        var f := Fit(cursor, Min(cuts[i].start, m.end), len, alignment);
        if f == Overflow {
          FitOverflows(cursor, Min(cuts[i].start, m.end), len, alignment);
          OverflowMeans(m, cuts, cursor, len, alignment);
        }
        if f != NoRoom { return f, cursor; }
        cursor := Min(cuts[i].end, m.end);
        if cursor == m.end {
          FullHere(m, cuts, len, alignment);
          FitEmpty(m.end, len, alignment);
          return NoRoom, 0;
        }
      }
      i := i + 1;
    }
    TailMeans(m, cuts, cursor, len, alignment);
    r, y := Fit(cursor, m.end, len, alignment), cursor;
    if r == Overflow {
      FitOverflows(cursor, m.end, len, alignment);
      OverflowMeans(m, cuts, cursor, len, alignment);
    }
  }

  lemma StartsThere(m: Range, cuts: seq<Range>, len: nat, alignment: nat)
    requires alignment > 0
    ensures NoneBefore(m, cuts, m.start, len, alignment)
  {}

  lemma FullHere(m: Range, cuts: seq<Range>, len: nat, alignment: nat)
    requires alignment > 0 && len > 0 && NoneBefore(m, cuts, m.end, len, alignment)
    ensures forall b: Range :: IsBlock(b, len, alignment) && Inside(b, m) ==> !Free(b, cuts)
  {}

  lemma FitEmpty(end: nat, len: nat, alignment: nat)
    requires alignment > 0
    ensures Fit(end, end, len, alignment) == NoRoom
  {}

  /** No free block of the size and alignment is left inside any memory. */
  ghost predicate Blocked(ms: seq<Range>, cuts: seq<Range>, len: nat, alignment: nat)
    requires alignment > 0
  {
    forall i, b: Range :: 0 <= i < |ms| && IsBlock(b, len, alignment) && Inside(b, ms[i]) ==> !Free(b, cuts)
  }

  /** The first free aligned block of any memory; none is found only when there is none. */
  method PlaceOne(ms: seq<Range>, cuts: seq<Range>, len: nat, alignment: nat) returns (r: Placed, ghost y: nat)
    requires alignment > 0 && len > 0 && WORD % alignment == 0 && Tidy(ms) && Tidy(cuts)
             && forall i :: 0 <= i < |ms| ==> ms[i].end <= U64_MAX
    ensures r.Found? ==>
            IsBlock(r.range, len, alignment) && Real(r.range) && Free(r.range, cuts)
            && exists i :: 0 <= i < |ms| && Inside(r.range, ms[i])
    ensures !r.Found? ==> Blocked(ms, cuts, len, alignment)
    ensures r == Overflow ==> Covers(ms, y) && TooHigh(y, len, alignment)
  {
    hide IsBlock, Free, TooHigh, Covers;
    var i := 0;
    while i < |ms|
      invariant 0 <= i <= |ms|
      invariant forall j, b: Range :: 0 <= j < i && IsBlock(b, len, alignment) && Inside(b, ms[j]) ==> !Free(b, cuts)
    {
      var f;
      f, y := PlaceIn(ms[i], cuts, len, alignment);
      if f != NoRoom {
        if f == Overflow { CoversAt(ms, y, i); }
        return f, y;
      }
      i := i + 1;
    }
    return NoRoom, 0;
  }

  // ---- buffers -----------------------------------------------------------------------------------------

  class RangeBuffer {
    const entries: array<Range>
    var len: nat

    ghost predicate Valid()
      reads this
    {
      len <= entries.Length
    }

    ghost function Items(): seq<Range>
      requires Valid()
      reads this, entries
    {
      entries[..len]
    }

    constructor (size: nat)
      ensures Valid() && len == 0 && entries.Length == size && fresh(entries)
    {
      entries := new Range[size](_ => Range(0, 0));
      len := 0;
    }

    method Clear()
      modifies this
      ensures Valid() && Items() == []
    {
      len := 0;
    }

    method Push(r: Range) returns (ok: bool)
      requires Valid()
      modifies this, entries
      ensures Valid() && ok == (|old(Items())| < entries.Length)
      ensures Items() == if ok then old(Items()) + [r] else old(Items())
    {
      if len == entries.Length { return false; }
      entries[len] := r;
      len := len + 1;
      ok := true;
    }

    /** The library's sort, by start. */
    method Sort()
      requires Valid()
      modifies entries
      ensures Items() == SortByStart(old(Items()))
    {
      hide SortByStart;
      SortMeans(entries[..len]);
      Write(SortByStart(entries[..len]));
    }

    /** Writes a list over the entries. */
    method Write(s: seq<Range>)
      requires len == |s| <= entries.Length
      modifies entries
      ensures entries[..len] == s
    {
      for i := 0 to len
        invariant entries[..i] == s[..i]
      {
        entries[i] := s[i];
      }
    }

    /** Sorts, then merges in place, each range into the last one kept or after it. */
    method Normalize()
      requires Valid()
      modifies this, entries
      ensures Valid() && Items() == Normalized(old(Items()))
    {
      hide SortByStart, Merge, MergeStep;
      Sort();
      ghost var s := Items();
      var output: nat := 0;
      MergeFront(s, 0);
      for input := 0 to len
        invariant output <= input && len == |s| == old(len)
        invariant entries[..output] == Merge(s[..input])
        invariant forall k :: input <= k < len ==> entries[k] == s[k]
      {
        ghost var m := entries[..output];
        MergeFront(s, input);
        var range := entries[input];
        StepParts(m, range);
        if output > 0 && range.start <= entries[output - 1].end {
          entries[output - 1] := Range(entries[output - 1].start, Max(entries[output - 1].end, range.end));
          assert entries[..output] == m[..output - 1] + [Range(m[output - 1].start, Max(m[output - 1].end, range.end))];
        } else {
          entries[output] := range;
          output := output + 1;
          assert entries[..output] == m + [range];
        }
      }
      assert s[..len] == s;
      len := output;
    }

    static lemma MergeFront(s: seq<Range>, i: nat)
      requires i <= |s|
      ensures Merge([]) == [] && s[..0] == [] && (i < |s| ==> Merge(s[..i + 1]) == MergeStep(Merge(s[..i]), s[i]))
    {
      if i < |s| { assert s[..i + 1][..i] == s[..i]; }
    }

    static lemma StepParts(m: seq<Range>, r: Range)
      ensures MergeStep(m, r) == if m != []
              && r.start <= m[|m| - 1].end then m[..|m| - 1] + [Range(m[|m| - 1].start, Max(m[|m| - 1].end, r.end))]
              else m + [r]
    {}

    /** The bytes of all ranges, unless the sum overflows. */
    method Bytes() returns (r: Option<nat>)
      requires Valid() && forall i :: 0 <= i < len ==> entries[i].start <= entries[i].end
      ensures r == if Total(Items()) <= U64_MAX then Some(Total(Items())) else None
    {
      hide Total;
      ghost var s := entries[..len];
      var total: nat := 0;
      NoTotal(s);
      for i := 0 to len
        invariant total == Total(s[..i]) <= U64_MAX
      {
        TotalFront(s, i);
        if total + (entries[i].end - entries[i].start) > U64_MAX { return None; }
        total := total + (entries[i].end - entries[i].start);
      }
      assert s[..len] == s;
      return Some(total);
    }

    static lemma NoTotal(s: seq<Range>)
      ensures s[..0] == [] && Total([]) == 0
    {}

    static lemma {:induction false} TotalFront(s: seq<Range>, i: nat)
      requires i < |s|
      ensures s[..i] + [s[i]] == s[..i + 1] && Total(s[..i + 1]) == Total(s[..i]) + Length(s[i]) <= Total(s)
    {
      assert s[..i + 1][..i] == s[..i];
      assert s == s[..i + 1] + s[i + 1..];
      TotalConcat(s[..i + 1], s[i + 1..]);
    }
  }

  // ---- the stages of a plan ----------------------------------------------------------------------------

  ghost predicate Apart(a: RangeBuffer, b: RangeBuffer) { a != b && a.entries != b.entries }

  predicate RangeOk(r: Range, page: nat)
    requires page > 0
  {
    r.start < r.end && r.start % page == 0 && r.end % page == 0
  }

  ghost predicate AllOk(s: seq<Range>, page: nat)
    requires page > 0
  {
    forall i :: 0 <= i < |s| ==> RangeOk(s[i], page)
  }

  ghost predicate Overlapping(s: seq<Range>) { exists i, j :: 0 <= i < j < |s| && Overlap(s[i], s[j]) != [] }

  /** The managed ranges, checked, sorted, and refused if any two overlap. */
  method NormalizeMemories(input: seq<Range>, page: nat, output: RangeBuffer) returns (problem: Option<PlanError>)
    requires page > 0
    modifies output, output.entries
    ensures output.Valid()
    ensures problem.None? ==> AllOk(input, page) && output.Items() == SortByStart(input) && Tidy(output.Items())
    ensures problem == Some(CapacityExhausted) ==> |input| > output.entries.Length
    ensures problem.None? || problem.value in {InvalidRange, CapacityExhausted, MemoryOverlap}
    ensures problem == Some(InvalidRange) ==> !AllOk(input, page)
    ensures problem == Some(MemoryOverlap) ==> AllOk(input, page) && Overlapping(input)
    ensures problem.None? ==> !Overlapping(input)
  {
    hide SortByStart, Tidy, Overlapping;
    output.Clear();
    for i := 0 to |input|
      invariant output.Valid() && output.Items() == input[..i] && AllOk(input[..i], page)
    {
      if input[i].start >= input[i].end || input[i].start % page != 0 || input[i].end % page != 0 {
        return Some(InvalidRange);
      }
      var ok := output.Push(input[i]);
      if !ok { return Some(CapacityExhausted); }
      assert input[..i + 1] == input[..i] + [input[i]];
    }
    assert input[..|input|] == input;
    output.Sort();
    problem := CheckOverlap(input, output, page);
  }

  method CheckOverlap(ghost input: seq<Range>, output: RangeBuffer, ghost page: nat)
      returns (problem: Option<PlanError>)
    requires page > 0 && output.Valid() && AllOk(input, page) && output.Items() == SortByStart(input)
    ensures problem.None? ==> Tidy(output.Items())
    ensures problem.None? || problem == Some(MemoryOverlap)
    ensures problem == Some(MemoryOverlap) <==> Overlapping(input)
  {
    ghost var s := output.Items();
    SortMeans(input);
    SortReal(input, page);
    hide SortByStart;
    var i: nat := 1;
    while i < output.len
      invariant 1 <= i && (i <= output.len || output.len == 0)
                && forall j :: 0 < j < i && j < |s| ==> s[j - 1].end <= s[j].start
    {
      if output.entries[i - 1].end > output.entries[i].start {
        SortedOverlap(input, s, i);
        return Some(MemoryOverlap);
      }
      i := i + 1;
    }
    TidyFromSteps(s);
    NoneOverlap(input, s);
    return None;
  }

  /** Ranges that are apart once sorted were apart before. */
  lemma NoneOverlap(input: seq<Range>, s: seq<Range>)
    requires multiset(s) == multiset(input) && Tidy(s)
    ensures !Overlapping(input)
  {
    forall i, j | 0 <= i < j < |input| ensures Overlap(input[i], input[j]) == [] {
      TwoIn(input, i, j);
      var p, q := TwoPlaces(s, input[i], input[j]);
      assert if p < q then s[p].end <= s[q].start else s[q].end <= s[p].start;
    }
  }

  lemma TwoIn(s: seq<Range>, i: nat, j: nat)
    requires i < j < |s|
    ensures multiset{s[i], s[j]} <= multiset(s)
  {
    assert s == s[..i] + [s[i]] + s[i + 1..j] + [s[j]] + s[j + 1..];
  }

  lemma SortReal(input: seq<Range>, page: nat)
    requires page > 0 && AllOk(input, page)
    ensures AllReal(SortByStart(input))
  {
    forall i | 0 <= i < |SortByStart(input)| ensures Real(SortByStart(input)[i]) { SortKeeps(input, i); }
  }

  lemma TidyFromSteps(s: seq<Range>)
    requires AllReal(s) && forall j :: 0 < j < |s| ==> s[j - 1].end <= s[j].start
    ensures Tidy(s)
  {
    forall i, j | 0 <= i < j < |s| ensures s[i].end <= s[j].start { StepsReach(s, i, j); }
  }

  lemma {:induction false} StepsReach(s: seq<Range>, i: nat, j: nat)
    requires AllReal(s) && i < j < |s| && forall k :: 0 < k < |s| ==> s[k - 1].end <= s[k].start
    ensures s[i].end <= s[j].start
    decreases j
  {
    var k := j - 1;
    assert s[j - 1].end <= s[j].start && Real(s[k]);
    if i < k { StepsReach(s, i, k); }
  }

  /** Two neighbours that overlap after sorting are two ranges of the input that do. */
  lemma SortedOverlap(input: seq<Range>, s: seq<Range>, i: nat)
    requires 0 < i < |s| && multiset(s) == multiset(input) && Sorted(s) && AllReal(s) && s[i - 1].end > s[i].start
    ensures Overlapping(input)
  {
    var a, b := s[i - 1], s[i];
    TwoIn(s, i - 1, i);
    var j, k := TwoPlaces(input, a, b);
    if j < k { assert Overlap(input[j], input[k]) != []; } else { assert Overlap(input[k], input[j]) != []; }
  }

  lemma TwoPlaces(input: seq<Range>, a: Range, b: Range) returns (j: nat, k: nat)
    requires multiset{a, b} <= multiset(input)
    ensures j < |input| && k < |input| && j != k && input[j] == a && input[k] == b
  {
    assert multiset(input)[a] >= multiset{a, b}[a] > 0 && multiset(input)[b] >= multiset{a, b}[b] > 0;
    assert a in input && b in input;
    j :| 0 <= j < |input| && input[j] == a;
    if a != b {
      k :| 0 <= k < |input| && input[k] == b;
    } else {
      var rest := input[..j] + input[j + 1..];
      assert input == input[..j] + [a] + input[j + 1..];
      assert multiset(input) == multiset(rest) + multiset{a};
      assert multiset{a, b}[a] == 2;
      assert a in rest;
      var q :| 0 <= q < |rest| && rest[q] == a;
      k := if q < j then q else q + 1;
    }
  }

  /** What a list and the memories both cover, in order. */
  method ClipInto(input: seq<Range>, memories: RangeBuffer, page: nat, output: RangeBuffer)
      returns (problem: Option<PlanError>)
    requires page > 0 && memories.Valid() && Apart(memories, output)
    modifies output, output.entries
    ensures output.Valid()
    ensures problem.None? ==> AllOk(input, page) && output.Items() == Normalized(Clip(input, memories.Items()))
    ensures problem.None? || problem.value in {InvalidRange, CapacityExhausted}
    ensures problem == Some(InvalidRange) ==> !AllOk(input, page)
    ensures problem == Some(CapacityExhausted) ==> |input| * memories.len > output.entries.Length
  {
    hide Clip, ClipRow, Overlap, SortByStart, Merge;
    ghost var ms := memories.Items();
    output.Clear();
    ClipNone(ms);
    for i := 0 to |input|
      invariant output.Valid() && memories.Items() == ms && output.Items() == Clip(input[..i], ms)
                && AllOk(input[..i], page)
    {
      if input[i].start >= input[i].end || input[i].start % page != 0 || input[i].end % page != 0 {
        return Some(InvalidRange);
      }
      ClipFront(input, i, ms);
      var full := ClipRange(input[i], memories, output, input, i);
      if full { return Some(CapacityExhausted); }
      assert input[..i + 1] == input[..i] + [input[i]];
    }
    assert input[..|input|] == input;
    output.Normalize();
    return None;
  }

  method ClipRange(r: Range, memories: RangeBuffer, output: RangeBuffer, ghost input: seq<Range>, ghost i: nat)
      returns (full: bool)
    requires memories.Valid() && output.Valid() && Apart(memories, output) && i < |input|
             && output.Items() == Clip(input[..i], memories.Items())
    modifies output, output.entries
    ensures output.Valid() && (full ==> |input| * memories.len > output.entries.Length)
    ensures !full ==> output.Items() == old(output.Items()) + ClipRow(r, memories.Items())
  {
    hide Clip, ClipRow, Overlap;
    ghost var ms, before := memories.Items(), output.Items();
    ClipRowFront(r, ms, 0);
    for j := 0 to memories.len
      invariant output.Valid() && memories.Items() == ms && output.Items() == before + ClipRow(r, ms[..j])
    {
      ClipRowFront(r, ms, j);
      var start, end := Max(r.start, memories.entries[j].start), Min(r.end, memories.entries[j].end);
      OverlapParts(r, ms[j]);
      if start < end {
        ClipRoom(input, i, r, ms, j);
        var ok := output.Push(Range(start, end));
        if !ok { return true; }
      }
    }
    assert ms[..memories.len] == ms;
    return false;
  }

  lemma ClipNone(ms: seq<Range>)
    ensures Clip([], ms) == []
  {}

  lemma ClipFront(input: seq<Range>, i: nat, ms: seq<Range>)
    requires i < |input|
    ensures Clip(input[..i + 1], ms) == Clip(input[..i], ms) + ClipRow(input[i], ms)
  {
    assert input[..i + 1][..i] == input[..i];
  }

  lemma ClipRowFront(r: Range, ms: seq<Range>, j: nat)
    requires j <= |ms|
    ensures ms[..0] == [] && ClipRow(r, []) == []
            && (j < |ms| ==> ClipRow(r, ms[..j + 1]) == ClipRow(r, ms[..j]) + Overlap(r, ms[j]))
  {
    if j < |ms| { assert ms[..j + 1][..j] == ms[..j]; }
  }

  lemma OverlapParts(r: Range, m: Range)
    ensures Overlap(r, m) == if Max(r.start, m.start) < Min(r.end, m.end) then
            [Range(Max(r.start, m.start), Min(r.end, m.end))] else []
  {}

  /** There is room for as many pieces as there are pairs. */
  lemma ClipRoom(input: seq<Range>, i: nat, r: Range, ms: seq<Range>, j: nat)
    requires i < |input| && j < |ms|
    ensures |Clip(input[..i], ms)| + |ClipRow(r, ms[..j])| < |input| * |ms|
  {
    hide *;
    ClipMeans(input[..i], ms, 0);
    ClipRowMeans(r, ms[..j], 0);
    LessTimes(i + 1, |input|, |ms|);
    assert (i + 1) * |ms| == i * |ms| + |ms|;
  }

  /** What is left of the source when the reserved ranges are cut out. */
  method SubtractInto(source: RangeBuffer, reserved: RangeBuffer, output: RangeBuffer) returns (full: bool)
    requires source.Valid() && reserved.Valid() && Apart(source, output) && Apart(reserved, output)
             && Tidy(source.Items()) && Tidy(reserved.Items())
    modifies output, output.entries
    ensures output.Valid() && (full ==> source.len + reserved.len > output.entries.Length)
    ensures !full ==> output.Items() == Subtract(source.Items(), reserved.Items())
  {
    hide Subtract, SubtractRow, Tidy;
    ghost var ss, cs := source.Items(), reserved.Items();
    output.Clear();
    SubtractFront(ss, cs, 0);
    for i := 0 to source.len
      invariant output.Valid() && source.Items() == ss && reserved.Items() == cs
                && output.Items() == Subtract(ss[..i], cs)
    {
      SubtractFront(ss, cs, i);
      full := SubtractRange(source.entries[i], reserved, output, ss, i);
      if full { return; }
    }
    assert ss[..source.len] == ss;
    full := false;
  }

  method SubtractRange(r: Range, reserved: RangeBuffer, output: RangeBuffer, ghost ss: seq<Range>, ghost i: nat)
      returns (full: bool)
    requires reserved.Valid() && output.Valid() && Apart(reserved, output) && Tidy(ss) && Tidy(reserved.Items())
    requires i < |ss| && ss[i] == r && output.Items() == Subtract(ss[..i], reserved.Items())
    modifies output, output.entries
    ensures output.Valid() && (full ==> |ss| + reserved.len > output.entries.Length)
    ensures !full ==> output.Items() == old(output.Items()) + SubtractRow(r, reserved.Items())
  {
    hide Subtract, SubtractRow, WalkOver, CutStep, Rest, Tidy;
    ghost var cs, before := reserved.Items(), output.Items();
    var cursor := r.start;
    ghost var w := Walk(r.start, []);
    WalkFront(r, cs, 0);
    RealAt(ss, i);
    var j: nat := 0;
    while j < reserved.len
      invariant j <= reserved.len && cursor < r.end && output.Valid() && reserved.Items() == cs
      invariant w == WalkOver(r, cs[..j]) && cursor == w.cursor && output.Items() == before + w.pieces
    {
      var cut := reserved.entries[j];
      WalkFront(r, cs, j);
      CutParts(r, w, cut);
      PieceRoom(ss, cs, i, j + 1);
      w := WalkOver(r, cs[..j + 1]);
      j := j + 1;
      if !(cut.end <= cursor || cut.start >= r.end) {
        var cutStart := Max(cut.start, cursor);
        if cursor < cutStart {
          var ok := output.Push(Range(cursor, cutStart));
          if !ok { return true; }
        }
        cursor := Min(cut.end, r.end);
        if cursor == r.end { break; }
      }
    }
    WalkDone(r, cs, j);
    PieceRoom(ss, cs, i, j);
    RestParts(r, w);
    if cursor < r.end {
      var ok := output.Push(Range(cursor, r.end));
      if !ok { return true; }
    }
    full := false;
  }

  lemma RealAt(s: seq<Range>, i: nat)
    requires Tidy(s) && i < |s|
    ensures Real(s[i])
  {}

  lemma RestParts(r: Range, w: Walk)
    ensures Rest(r, w) == if w.cursor < r.end then w.pieces + [Range(w.cursor, r.end)] else w.pieces
  {}

  /** A walk that has reached the end is over, and so is one that has met every cut. */
  lemma {:induction false} WalkDone(r: Range, cs: seq<Range>, j: nat)
    requires j <= |cs| && (j == |cs| || WalkOver(r, cs[..j]).cursor == r.end)
    ensures WalkOver(r, cs) == WalkOver(r, cs[..j]) && SubtractRow(r, cs) == Rest(r, WalkOver(r, cs[..j]))
    decreases |cs|
  {
    if j == |cs| {
      assert cs[..j] == cs;
    } else {
      var n := |cs| - 1;
      assert cs[..n][..j] == cs[..j];
      WalkDone(r, cs[..n], j);
    }
  }

  /** There is room for one piece for each range and one for each cut. */
  lemma PieceRoom(ss: seq<Range>, cs: seq<Range>, i: nat, k: nat)
    requires Tidy(ss) && Tidy(cs) && i < |ss| && k <= |cs|
    ensures var w := WalkOver(ss[i], cs[..k]);
            |Subtract(ss[..i], cs)| + |w.pieces| + One(w.cursor < ss[i].end) <= |ss| + |cs|
  {
    SubtractPieces(ss[..i], cs);
    WalkPieces(ss[i], cs[..k]);
    InsideFront(cs, k, ss[i]);
    EndsApart(cs, if i > 0 then ss[i - 1].end else 0, ss[i]);
  }

  lemma {:induction false} InsideFront(cs: seq<Range>, k: nat, r: Range)
    requires k <= |cs|
    ensures EndsInside(cs[..k], r) <= EndsInside(cs, r)
    decreases |cs|
  {
    if k < |cs| {
      var n := |cs| - 1;
      assert cs[..n][..k] == cs[..k];
      InsideFront(cs[..n], k, r);
    } else {
      assert cs[..k] == cs;
    }
  }

  lemma SubtractFront(ss: seq<Range>, cs: seq<Range>, i: nat)
    requires i <= |ss|
    ensures ss[..0] == [] && Subtract([], cs) == []
            && (i < |ss| ==> Subtract(ss[..i + 1], cs) == Subtract(ss[..i], cs) + SubtractRow(ss[i], cs))
  {
    if i < |ss| { assert ss[..i + 1][..i] == ss[..i]; }
  }

  lemma WalkFront(r: Range, cs: seq<Range>, j: nat)
    requires j <= |cs|
    ensures cs[..0] == [] && WalkOver(r, []) == Walk(r.start, [])
            && (j < |cs| ==> WalkOver(r, cs[..j + 1]) == CutStep(r, WalkOver(r, cs[..j]), cs[j]))
  {
    if j < |cs| { assert cs[..j + 1][..j] == cs[..j]; }
  }

  lemma CutParts(r: Range, w: Walk, cut: Range)
    ensures CutStep(r, w, cut) == if w.cursor == r.end || cut.end <= w.cursor || cut.start >= r.end then w
                                  else Walk(Min(cut.end, r.end), if w.cursor < Max(cut.start, w.cursor) then
                                            w.pieces + [Range(w.cursor, Max(cut.start, w.cursor))] else w.pieces)
  {}

  /** Adds every range of a buffer to another. */
  method Append(target: RangeBuffer, source: RangeBuffer) returns (full: bool)
    requires target.Valid() && source.Valid() && Apart(source, target)
    modifies target, target.entries
    ensures target.Valid() && (full ==> |old(target.Items())| + source.len > target.entries.Length)
    ensures !full ==> target.Items() == old(target.Items()) + source.Items()
  {
    ghost var before, ss := target.Items(), source.Items();
    for i := 0 to source.len
      invariant target.Valid() && source.Items() == ss && target.Items() == before + ss[..i]
    {
      var ok := target.Push(source.entries[i]);
      if !ok { return true; }
      assert ss[..i + 1] == ss[..i] + [ss[i]];
    }
    assert ss[..source.len] == ss;
    full := false;
  }

  method CopyInto(source: RangeBuffer, target: RangeBuffer) returns (full: bool)
    requires source.Valid() && Apart(source, target)
    modifies target, target.entries
    ensures target.Valid() && (full ==> source.len > target.entries.Length)
            && (!full ==> target.Items() == source.Items())
  {
    target.Clear();
    full := Append(target, source);
    assert [] + source.Items() == source.Items();
  }
}
