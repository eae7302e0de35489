/**
  Lists of address ranges: what they cover, how often and how much, and the sorting, merging, clipping and cutting of
  them.
*/
module SupplyRanges {
  import opened Wrappers

  predicate Real(r: Range) { r.start < r.end }

  predicate Has(r: Range, x: nat) { r.start <= x < r.end }

  ghost predicate AllReal(s: seq<Range>) { forall i :: 0 <= i < |s| ==> Real(s[i]) }

  /** How many ranges of a list hold an address. */
  function Count(s: seq<Range>, x: nat): nat { if s == [] then 0 else Count(s[..|s| - 1], x) + One(Has(s[|s| - 1], x)) }

  predicate Covers(s: seq<Range>, x: nat) { Count(s, x) > 0 }

  function Total(s: seq<Range>): nat { if s == [] then 0 else Total(s[..|s| - 1]) + Length(s[|s| - 1]) }

  function Length(r: Range): nat { if r.start <= r.end then r.end - r.start else 0 }

  /** In ascending order, none overlapping. */
  ghost predicate Tidy(s: seq<Range>) { AllReal(s) && forall i, j :: 0 <= i < j < |s| ==> s[i].end <= s[j].start }

  ghost predicate Sorted(s: seq<Range>) { forall i, j :: 0 <= i < j < |s| ==> s[i].start <= s[j].start }

  // ---- counting ----------------------------------------------------------------------------------------

  lemma CountPush(s: seq<Range>, r: Range, x: nat)
    ensures Count(s + [r], x) == Count(s, x) + One(Has(r, x))
  {
    assert (s + [r])[..|s|] == s;
  }

  lemma CountFew(r: Range, x: nat)
    ensures Count([], x) == 0 && Count([r], x) == One(Has(r, x))
  {
    assert [r][..0] == [];
  }

  lemma {:induction false} CountConcat(a: seq<Range>, b: seq<Range>, x: nat)
    ensures Count(a + b, x) == Count(a, x) + Count(b, x)
  {
    if b == [] {
      assert a + b == a;
    } else {
      var n := |b| - 1;
      CountConcat(a, b[..n], x);
      assert (a + b)[..|a| + n] == a + b[..n];
    }
  }

  lemma {:induction false} TotalConcat(a: seq<Range>, b: seq<Range>)
    ensures Total(a + b) == Total(a) + Total(b)
  {
    if b == [] {
      assert a + b == a;
    } else {
      var n := |b| - 1;
      TotalConcat(a, b[..n]);
      assert (a + b)[..|a| + n] == a + b[..n];
    }
  }

  lemma {:induction false} CoversSome(s: seq<Range>, x: nat) returns (i: nat)
    requires Covers(s, x)
    ensures i < |s| && Has(s[i], x)
  {
    var n := |s| - 1;
    if Has(s[n], x) { i := n; } else { i := CoversSome(s[..n], x); }
  }

  lemma {:induction false} CoversAt(s: seq<Range>, x: nat, i: nat)
    requires i < |s| && Has(s[i], x)
    ensures Covers(s, x)
  {
    var n := |s| - 1;
    if i < n { CoversAt(s[..n], x, i); }
  }

  /** Ranges in order cover an address at most once. */
  lemma {:induction false} TidyCount(s: seq<Range>, x: nat)
    requires Tidy(s)
    ensures Count(s, x) == One(Covers(s, x))
  {
    if s != [] {
      var n := |s| - 1;
      TidyCount(s[..n], x);
      if Covers(s[..n], x) && Has(s[n], x) {
        var i := CoversSome(s[..n], x);
        assert s[i].end <= s[n].start;
      }
    }
  }

  /** The addresses below a bound, each as often as it is covered. */
  function Sweep(s: seq<Range>, n: nat): nat { if n == 0 then 0 else Sweep(s, n - 1) + Count(s, n - 1) }

  lemma {:induction false} SweepPush(s: seq<Range>, r: Range, n: nat)
    requires r.start <= r.end
    ensures Sweep(s + [r], n) == Sweep(s, n) + Min(r.end, n) - Min(r.start, n)
  {
    if n > 0 {
      SweepPush(s, r, n - 1);
      CountPush(s, r, n - 1);
    }
  }

  lemma {:induction false} SweepIsTotal(s: seq<Range>, n: nat)
    requires AllReal(s) && forall i :: 0 <= i < |s| ==> s[i].end <= n
    ensures Sweep(s, n) == Total(s)
  {
    if s == [] {
      SweepNone(n);
    } else {
      var m := |s| - 1;
      SweepIsTotal(s[..m], n);
      SweepPush(s[..m], s[m], n);
      assert s[..m] + [s[m]] == s;
    }
  }

  lemma {:induction false} SweepNone(n: nat)
    ensures Sweep([], n) == 0
  {
    if n > 0 { SweepNone(n - 1); }
  }

  lemma {:induction false} SweepSame(a: seq<Range>, b: seq<Range>, n: nat)
    requires forall x: nat :: Count(a, x) == Count(b, x)
    ensures Sweep(a, n) == Sweep(b, n)
  {
    if n > 0 { SweepSame(a, b, n - 1); }
  }

  function MaxEnd(s: seq<Range>): nat { if s == [] then 0 else Max(MaxEnd(s[..|s| - 1]), s[|s| - 1].end) }

  lemma {:induction false} EndsWithin(s: seq<Range>, i: nat)
    requires i < |s|
    ensures s[i].end <= MaxEnd(s)
  {
    var n := |s| - 1;
    if i < n { EndsWithin(s[..n], i); }
  }

  /** Two lists that cover every address equally often are equally long. */
  lemma SameCountSameTotal(a: seq<Range>, b: seq<Range>)
    requires AllReal(a) && AllReal(b) && forall x: nat :: Count(a, x) == Count(b, x)
    ensures Total(a) == Total(b)
  {
    var n := MaxEnd(a) + MaxEnd(b);
    forall i | 0 <= i < |a| ensures a[i].end <= n { EndsWithin(a, i); }
    forall i | 0 <= i < |b| ensures b[i].end <= n { EndsWithin(b, i); }
    SweepIsTotal(a, n);
    SweepIsTotal(b, n);
    SweepSame(a, b, n);
  }

  /** Ranges in order take up no more than the addresses up to the last. */
  lemma {:induction false} TidyTotal(s: seq<Range>)
    requires Tidy(s)
    ensures Total(s) <= if s == [] then 0 else s[|s| - 1].end
  {
    if s != [] {
      var n := |s| - 1;
      TidyTotal(s[..n]);
      if n > 0 { assert s[n - 1].end <= s[n].start; }
    }
  }

  // ---- sorting -----------------------------------------------------------------------------------------

  function Place(s: seq<Range>, r: Range): seq<Range> {
    if s == [] || s[|s| - 1].start <= r.start then s + [r] else Place(s[..|s| - 1], r) + [s[|s| - 1]]
  }

  function SortByStart(s: seq<Range>): seq<Range> {
    if s == [] then [] else Place(SortByStart(s[..|s| - 1]), s[|s| - 1])
  }

  lemma {:induction false} PlaceBelow(s: seq<Range>, r: Range, y: nat)
    requires r.start <= y && forall i :: 0 <= i < |s| ==> s[i].start <= y
    ensures |Place(s, r)| == |s| + 1 && forall i :: 0 <= i < |s| + 1 ==> Place(s, r)[i].start <= y
  {
    if s != [] { PlaceBelow(s[..|s| - 1], r, y); }
  }

  lemma {:induction false} PlaceSorted(s: seq<Range>, r: Range)
    requires Sorted(s)
    ensures Sorted(Place(s, r))
  {
    if s != [] && s[|s| - 1].start > r.start {
      var n := |s| - 1;
      PlaceSorted(s[..n], r);
      PlaceBelow(s[..n], r, s[n].start);
    }
  }

  lemma {:induction false} PlaceMeans(s: seq<Range>, r: Range)
    ensures multiset(Place(s, r)) == multiset(s) + multiset{r} && |Place(s, r)| == |s| + 1
  {
    if s != [] && s[|s| - 1].start > r.start {
      var n := |s| - 1;
      PlaceMeans(s[..n], r);
      assert s == s[..n] + [s[n]];
    }
  }

  lemma {:induction false} SortMeans(s: seq<Range>)
    ensures Sorted(SortByStart(s)) && multiset(SortByStart(s)) == multiset(s) && |SortByStart(s)| == |s|
  {
    if s != [] {
      var n := |s| - 1;
      SortMeans(s[..n]);
      PlaceMeans(SortByStart(s[..n]), s[n]);
      PlaceSorted(SortByStart(s[..n]), s[n]);
      assert s == s[..n] + [s[n]];
    }
  }

  lemma {:induction false} PlaceCount(s: seq<Range>, r: Range, x: nat)
    ensures Count(Place(s, r), x) == Count(s, x) + One(Has(r, x))
  {
    if s == [] || s[|s| - 1].start <= r.start {
      CountPush(s, r, x);
    } else {
      var n := |s| - 1;
      PlaceCount(s[..n], r, x);
      CountPush(Place(s[..n], r), s[n], x);
    }
  }

  /** Sorting changes no count and keeps every range as it is. */
  lemma {:induction false} SortCount(s: seq<Range>, x: nat)
    ensures Count(SortByStart(s), x) == Count(s, x)
  {
    if s != [] {
      var n := |s| - 1;
      SortCount(s[..n], x);
      PlaceCount(SortByStart(s[..n]), s[n], x);
    }
  }

  lemma SortKeeps(s: seq<Range>, i: nat)
    requires i < |SortByStart(s)|
    ensures SortByStart(s)[i] in s
  {
    SortMeans(s);
    assert SortByStart(s)[i] in multiset(SortByStart(s));
  }

  // ---- merging -----------------------------------------------------------------------------------------

  /** A range that touches or overlaps the last one is taken into it. */
  function MergeStep(m: seq<Range>, r: Range): seq<Range> {
    if m != [] && r.start <= m[|m| - 1].end then m[..|m| - 1] + [Range(m[|m| - 1].start, Max(m[|m| - 1].end, r.end))]
        else m + [r]
  }

  function Merge(s: seq<Range>): seq<Range> { if s == [] then [] else MergeStep(Merge(s[..|s| - 1]), s[|s| - 1]) }

  predicate StartsBy(m: seq<Range>, y: nat) { m == [] || m[|m| - 1].start <= y }

  lemma StepTidy(m: seq<Range>, r: Range)
    requires Tidy(m) && Real(r) && StartsBy(m, r.start)
    ensures Tidy(MergeStep(m, r)) && |MergeStep(m, r)| <= |m| + 1 && MergeStep(m, r) != []
            && StartsBy(MergeStep(m, r), r.start)
  {}

  lemma StepCovers(m: seq<Range>, r: Range, x: nat)
    requires Tidy(m) && Real(r) && StartsBy(m, r.start)
    ensures Covers(MergeStep(m, r), x) <==> Covers(m, x) || Has(r, x)
  {
    hide Count;
    if m != [] && r.start <= m[|m| - 1].end {
      var k := |m| - 1;
      assert m == m[..k] + [m[k]];
      CountPush(m[..k], m[k], x);
      CountPush(m[..k], Range(m[k].start, Max(m[k].end, r.end)), x);
    } else {
      CountPush(m, r, x);
    }
  }

  lemma {:induction false} MergeTidy(s: seq<Range>)
    requires Sorted(s) && AllReal(s)
    ensures Tidy(Merge(s)) && |Merge(s)| <= |s| && (s != [] ==> StartsBy(Merge(s), s[|s| - 1].start))
  {
    if s != [] {
      hide MergeStep, Tidy;
      var n := |s| - 1;
      SortedFront(s);
      MergeTidy(s[..n]);
      StepTidy(Merge(s[..n]), s[n]);
    }
  }

  lemma SortedFront(s: seq<Range>)
    requires Sorted(s) && AllReal(s) && s != []
    ensures var n := |s| - 1;
            Sorted(s[..n]) && AllReal(s[..n]) && Real(s[n])
            && forall m :: n > 0 && StartsBy(m, s[..n][n - 1].start) ==> StartsBy(m, s[n].start)
  {
    var n := |s| - 1;
    if n > 0 { assert s[n - 1].start <= s[n].start; }
  }

  /** Merging a sorted list covers the same addresses. */
  lemma {:induction false} MergeCovers(s: seq<Range>, x: nat)
    requires Sorted(s) && AllReal(s)
    ensures Covers(Merge(s), x) <==> Covers(s, x)
  {
    if s != [] {
      var n := |s| - 1;
      SortedFront(s);
      MergeCovers(s[..n], x);
      MergeTidy(s[..n]);
      StepCovers(Merge(s[..n]), s[n], x);
    }
  }

  function Normalized(s: seq<Range>): seq<Range> { Merge(SortByStart(s)) }

  /** A list sorted and merged is in order and covers the same addresses. */
  lemma NormalizedMeans(s: seq<Range>)
    requires AllReal(s)
    ensures Tidy(Normalized(s)) && |Normalized(s)| <= |s| && forall x: nat :: Covers(Normalized(s), x) <==> Covers(s, x)
  {
    hide Count, SortByStart, Merge, Tidy;
    SortMeans(s);
    forall i | 0 <= i < |SortByStart(s)| ensures Real(SortByStart(s)[i]) { SortKeeps(s, i); }
    MergeTidy(SortByStart(s));
    forall x: nat ensures Covers(Normalized(s), x) <==> Covers(s, x) {
      MergeCovers(SortByStart(s), x);
      SortCount(s, x);
    }
  }

  // ---- clipping ----------------------------------------------------------------------------------------

  function Overlap(r: Range, m: Range): seq<Range> {
    if Max(r.start, m.start) < Min(r.end, m.end) then [Range(Max(r.start, m.start), Min(r.end, m.end))] else []
  }

  function ClipRow(r: Range, ms: seq<Range>): seq<Range> {
    if ms == [] then [] else ClipRow(r, ms[..|ms| - 1]) + Overlap(r, ms[|ms| - 1])
  }

  function Clip(rs: seq<Range>, ms: seq<Range>): seq<Range> {
    if rs == [] then [] else Clip(rs[..|rs| - 1], ms) + ClipRow(rs[|rs| - 1], ms)
  }

  lemma {:induction false} ClipRowMeans(r: Range, ms: seq<Range>, x: nat)
    ensures Covers(ClipRow(r, ms), x) <==> Has(r, x) && Covers(ms, x)
    ensures AllReal(ClipRow(r, ms)) && |ClipRow(r, ms)| <= |ms|
  {
    if ms != [] {
      var n := |ms| - 1;
      ClipRowMeans(r, ms[..n], x);
      CountConcat(ClipRow(r, ms[..n]), Overlap(r, ms[n]), x);
      OverlapMeans(r, ms[n], x);
    }
  }

  lemma OverlapMeans(r: Range, m: Range, x: nat)
    ensures Count(Overlap(r, m), x) == One(Has(r, x) && Has(m, x))
  {
    hide Count;
    CountFew(Range(Max(r.start, m.start), Min(r.end, m.end)), x);
  }

  /** Clipping keeps what both cover, in at most as many pieces as there are pairs. */
  lemma {:induction false} ClipMeans(rs: seq<Range>, ms: seq<Range>, x: nat)
    ensures Covers(Clip(rs, ms), x) <==> Covers(rs, x) && Covers(ms, x)
    ensures AllReal(Clip(rs, ms)) && |Clip(rs, ms)| <= |rs| * |ms|
  {
    if rs != [] {
      var n := |rs| - 1;
      ClipMeans(rs[..n], ms, x);
      ClipRowMeans(rs[n], ms, x);
      CountConcat(Clip(rs[..n], ms), ClipRow(rs[n], ms), x);
      assert (n + 1) * |ms| == n * |ms| + |ms|;
    }
  }

  // ---- cutting out -------------------------------------------------------------------------------------

  datatype Walk = Walk(cursor: nat, pieces: seq<Range>)

  /** One cut met on the way through a range. */
  function CutStep(r: Range, w: Walk, cut: Range): Walk {
    if w.cursor == r.end || cut.end <= w.cursor || cut.start >= r.end then w
    else Walk(Min(cut.end, r.end), if w.cursor < Max(cut.start, w.cursor) then
              w.pieces + [Range(w.cursor, Max(cut.start, w.cursor))] else w.pieces)
  }

  function WalkOver(r: Range, cuts: seq<Range>): Walk {
    if cuts == [] then Walk(r.start, []) else CutStep(r, WalkOver(r, cuts[..|cuts| - 1]), cuts[|cuts| - 1])
  }

  function Rest(r: Range, w: Walk): seq<Range> {
    if w.cursor < r.end then w.pieces + [Range(w.cursor, r.end)] else w.pieces
  }

  function SubtractRow(r: Range, cuts: seq<Range>): seq<Range> { Rest(r, WalkOver(r, cuts)) }

  function Subtract(rs: seq<Range>, cuts: seq<Range>): seq<Range> {
    if rs == [] then [] else Subtract(rs[..|rs| - 1], cuts) + SubtractRow(rs[|rs| - 1], cuts)
  }

  /** What a walk leaves behind it is what the cuts so far do not cover; ahead of it no cut so far reaches. */
  predicate Walked(r: Range, w: Walk, last: nat, covered: bool, x: nat) {
    && r.start <= w.cursor <= r.end && (r.start < w.cursor ==> w.cursor <= last) && (covered ==> x < last)
    && Count(w.pieces, x) == One(r.start <= x < w.cursor && !covered)
    && (w.cursor <= x < r.end ==> !covered)
  }

  lemma CutStepMeans(r: Range, w: Walk, cut: Range, last: nat, covered: bool, x: nat)
    requires Real(r) && Real(cut) && last <= cut.start && Walked(r, w, last, covered, x) && AllReal(w.pieces)
    ensures Walked(r, CutStep(r, w, cut), cut.end, covered || Has(cut, x), x) && AllReal(CutStep(r, w, cut).pieces)
  {
    hide Count;
    CountPush(w.pieces, Range(w.cursor, Max(cut.start, w.cursor)), x);
  }

  lemma {:induction false} WalkMeans(r: Range, cuts: seq<Range>, x: nat)
    requires Real(r) && Tidy(cuts)
    ensures Walked(r, WalkOver(r, cuts), if cuts == [] then 0 else cuts[|cuts| - 1].end, Covers(cuts, x), x)
            && AllReal(WalkOver(r, cuts).pieces)
  {
    if cuts != [] {
      var n := |cuts| - 1;
      WalkMeans(r, cuts[..n], x);
      if n > 0 { assert cuts[n - 1].end <= cuts[n].start; }
      CutStepMeans(r, WalkOver(r, cuts[..n]), cuts[n], if n == 0 then 0 else cuts[n - 1].end, Covers(cuts[..n], x), x);
    }
  }

  lemma SubtractRowMeans(r: Range, cuts: seq<Range>, x: nat)
    requires Real(r) && Tidy(cuts)
    ensures Count(SubtractRow(r, cuts), x) == One(Has(r, x) && !Covers(cuts, x)) && AllReal(SubtractRow(r, cuts))
  {
    WalkMeans(r, cuts, x);
    var w := WalkOver(r, cuts);
    CountPush(w.pieces, Range(w.cursor, r.end), x);
  }

  /** Cutting leaves, once each, the addresses of the ranges that no cut covers. */
  lemma {:induction false} SubtractMeans(rs: seq<Range>, cuts: seq<Range>, x: nat)
    requires Tidy(rs) && Tidy(cuts)
    ensures Count(Subtract(rs, cuts), x) == One(Covers(rs, x) && !Covers(cuts, x)) && AllReal(Subtract(rs, cuts))
  {
    hide Count, SubtractRow, Tidy, AllReal;
    SubtractLast(rs, cuts, x);
    if rs != [] {
      var n := |rs| - 1;
      SubtractMeans(rs[..n], cuts, x);
      SubtractRowMeans(rs[n], cuts, x);
      CountConcat(Subtract(rs[..n], cuts), SubtractRow(rs[n], cuts), x);
      RealConcat(Subtract(rs[..n], cuts), SubtractRow(rs[n], cuts));
      TidyCount(rs, x);
    }
  }

  lemma SubtractLast(rs: seq<Range>, cuts: seq<Range>, x: nat)
    requires Tidy(rs)
    ensures rs == [] ==> Count(rs, x) == 0 && AllReal([])
    ensures rs != [] ==> var n := |rs| - 1;
            Tidy(rs[..n]) && Real(rs[n]) && Count(rs, x) == Count(rs[..n], x) + One(Has(rs[n], x))
  {}

  lemma RealConcat(a: seq<Range>, b: seq<Range>)
    requires AllReal(a) && AllReal(b)
    ensures AllReal(a + b)
  {}

  // ---- how many pieces ---------------------------------------------------------------------------------

  /** The cuts that end inside a range, and those that end below an address. */
  function EndsInside(cuts: seq<Range>, r: Range): nat {
    if cuts == [] then 0 else EndsInside(cuts[..|cuts| - 1], r) + One(r.start < cuts[|cuts| - 1].end < r.end)
  }

  function EndsBelow(cuts: seq<Range>, y: nat): nat {
    if cuts == [] then 0 else EndsBelow(cuts[..|cuts| - 1], y) + One(cuts[|cuts| - 1].end < y)
  }

  lemma {:induction false} WalkPieces(r: Range, cuts: seq<Range>)
    requires Real(r) && Tidy(cuts)
    ensures var w := WalkOver(r, cuts);
            r.start <= w.cursor <= r.end && |w.pieces| <= EndsInside(cuts, r) + One(w.cursor == r.end)
  {
    if cuts != [] { WalkPieces(r, cuts[..|cuts| - 1]); }
  }

  lemma {:induction false} EndsApart(cuts: seq<Range>, y: nat, r: Range)
    requires y <= r.start && Real(r)
    ensures EndsBelow(cuts, y) + EndsInside(cuts, r) <= EndsBelow(cuts, r.end) <= |cuts|
  {
    if cuts != [] { EndsApart(cuts[..|cuts| - 1], y, r); }
  }

  /** Cutting gives at most one piece for each range and one for each cut. */
  lemma {:induction false} SubtractPieces(rs: seq<Range>, cuts: seq<Range>)
    requires Tidy(rs) && Tidy(cuts)
    ensures |Subtract(rs, cuts)| <= |rs| + (if rs == [] then 0 else EndsBelow(cuts, rs[|rs| - 1].end))
            && |Subtract(rs, cuts)| <= |rs| + |cuts|
  {
    if rs != [] {
      var n := |rs| - 1;
      SubtractPieces(rs[..n], cuts);
      WalkPieces(rs[n], cuts);
      EndsApart(cuts, if n > 0 then rs[n - 1].end else 0, rs[n]);
    }
  }
}
