/** Cutting, reprotecting and coalescing regions without changing what the rest of the ledger says. */
module SpacePieces {
  import opened Wrappers
  import opened SpaceLedger

  /** A region to be written at commit; `minted` ones take the allocation minted by the change. */
  datatype Template = Template(body: Body, minted: bool, successor: bool)

  function TemplateStart(t: Template): nat { t.body.range.start }

  function TemplateBodies(ts: seq<Template>): (bs: seq<Body>)
    ensures |bs| == |ts| && forall i :: 0 <= i < |ts| ==> bs[i] == ts[i].body
  {
    seq(|ts|, i requires 0 <= i < |ts| => ts[i].body)
  }

  function WritableObject(b: Body): Option<nat> {
    if b.kind.Mapping? && b.kind.source.Object? && b.kind.current == ReadWrite then Some(b.kind.source.id) else None
  }

  function Reprotected(k: Kind, p: Option<Protection>): Kind {
    if k.Mapping? && p.Some? then k.(current := p.value) else k
  }

  /** The part of a region over `range`, under the given protection if any. */
  function TemplateFrom(r: Region, range: Range, p: Option<Protection>): Template
    requires r.body.range.start <= range.start
  {
    var kind := Reprotected(Shifted(r.body.kind, range.start - r.body.range.start), p);
    Template(Body(r.body.allocation, range, r.body.owner, kind), false,
             r.permit.Some? && kind.Mapping? && kind.current == ReadWrite)
  }

  function Cut(r: Range, q: Range): Range { Range(Max(r.start, q.start), Min(r.end, q.end)) }

  function LeftPiece(r: Region, range: Range): seq<Template> {
    var cut := Cut(r.body.range, range);
    if r.body.range.start < cut.start then [TemplateFrom(r, Range(r.body.range.start, cut.start), None)] else []
  }

  function RightPiece(r: Region, range: Range): seq<Template> {
    var cut := Cut(r.body.range, range);
    if cut.end < r.body.range.end
        && r.body.range.start <= cut.end then [TemplateFrom(r, Range(cut.end, r.body.range.end), None)] else []
  }

  function MiddlePiece(r: Region, range: Range, p: Protection): seq<Template> {
    [TemplateFrom(r, Cut(r.body.range, range), Some(p))]
  }

  /** What is left of the first `n` of the regions from `lo` when `range` is unmapped. */
  function UnmapPieces(rs: seq<Region>, lo: nat, n: nat, range: Range): seq<Template>
    requires lo <= n <= |rs|
  {
    if n == lo then []
    else UnmapPieces(rs, lo, n - 1, range) + LeftPiece(rs[n - 1], range) + RightPiece(rs[n - 1], range)
  }

  /** The first `n` of the regions from `lo` with `range` reprotected. */
  function ProtectPieces(rs: seq<Region>, lo: nat, n: nat, range: Range, p: Protection): seq<Template>
    requires lo <= n <= |rs|
  {
    if n == lo then []
    else ProtectPieces(rs, lo, n - 1, range, p) + LeftPiece(rs[n - 1], range) + MiddlePiece(rs[n - 1], range, p)
         + RightPiece(rs[n - 1], range)
  }

  // ---- views of pieces --------------------------------------------------------------------

  function OrElse<T>(a: Option<T>, b: Option<T>): Option<T> { if a.Some? then a else b }

  lemma {:induction false} ViewConcat(a: seq<Body>, b: seq<Body>, x: nat)
    ensures View(a + b, x) == OrElse(View(a, x), View(b, x))
    decreases |a|
  {
    if a == [] {
      assert a + b == b;
    } else {
      ViewConcat(a[1..], b, x);
      assert (a + b)[1..] == a[1..] + b;
    }
  }

  function Seen(ts: seq<Template>, x: nat): Option<Cell> { View(TemplateBodies(ts), x) }

  lemma SeenConcat(a: seq<Template>, b: seq<Template>, x: nat)
    ensures Seen(a + b, x) == OrElse(Seen(a, x), Seen(b, x))
  {
    assert TemplateBodies(a + b) == TemplateBodies(a) + TemplateBodies(b);
    ViewConcat(TemplateBodies(a), TemplateBodies(b), x);
  }

  lemma NothingSeen(x: nat)
    ensures Seen([], x) == None && Ledger([], x) == None
  {}

  lemma SeenOne(t: Template, x: nat)
    ensures Seen([t], x) == if Within(t.body.range, x) then Some(At(t.body, x)) else None
  {
    var bs := TemplateBodies([t]);
    assert bs == [t.body];
    assert View(bs[1..], x) == None;
  }

  function Ledger(rs: seq<Region>, x: nat): Option<Cell> { View(Bodies(rs), x) }

  lemma LedgerConcat(a: seq<Region>, b: seq<Region>, x: nat)
    ensures Ledger(a + b, x) == OrElse(Ledger(a, x), Ledger(b, x))
  {
    assert Bodies(a + b) == Bodies(a) + Bodies(b);
    ViewConcat(Bodies(a), Bodies(b), x);
  }

  lemma LedgerOne(r: Region, x: nat)
    ensures Ledger([r], x) == if Within(r.body.range, x) then Some(At(r.body, x)) else None
  {
    var bs := Bodies([r]);
    assert bs == [r.body];
    assert View(bs[1..], x) == None;
  }

  ghost predicate Meets(r: Region, range: Range) { Overlaps(r.body.range, range) }

  /** A cell under another protection. */
  function Repainted(c: Option<Cell>, p: Protection): Option<Cell> {
    if c.Some? then Some(c.value.(kind := Reprotected(c.value.kind, Some(p)))) else None
  }

  lemma PiecesOutside(r: Region, range: Range, x: nat)
    requires Meets(r, range) && range.start < range.end
    ensures Seen(LeftPiece(r, range) + RightPiece(r, range), x)
         == if Within(range, x) then None else Ledger([r], x)
  {
    SeenConcat(LeftPiece(r, range), RightPiece(r, range), x);
    LedgerOne(r, x);
    PieceSeen(LeftPiece(r, range), x);
    PieceSeen(RightPiece(r, range), x);
  }

  lemma PieceSeen(ts: seq<Template>, x: nat)
    requires |ts| <= 1
    ensures Seen(ts, x) == if |ts| == 1 && Within(ts[0].body.range, x) then Some(At(ts[0].body, x)) else None
  {
    if |ts| == 1 { SeenOne(ts[0], x); assert ts == [ts[0]]; }
  }

  lemma PiecesInside(r: Region, range: Range, p: Protection, x: nat)
    requires Meets(r, range) && range.start < range.end
    ensures Seen(LeftPiece(r, range) + MiddlePiece(r, range, p) + RightPiece(r, range), x)
         == if Within(range, x) then Repainted(Ledger([r], x), p) else Ledger([r], x)
  {
    SeenConcat(LeftPiece(r, range) + MiddlePiece(r, range, p), RightPiece(r, range), x);
    SeenConcat(LeftPiece(r, range), MiddlePiece(r, range, p), x);
    LedgerOne(r, x);
    PieceSeen(LeftPiece(r, range), x);
    PieceSeen(MiddlePiece(r, range, p), x);
    PieceSeen(RightPiece(r, range), x);
  }

  /** Unmapping takes away the range and keeps every other address as it was. */
  lemma {:induction false} UnmapView(rs: seq<Region>, lo: nat, n: nat, range: Range, x: nat)
    requires lo <= n <= |rs| && range.start < range.end && forall i :: lo <= i < n ==> Meets(rs[i], range)
    ensures Seen(UnmapPieces(rs, lo, n, range), x) == if Within(range, x) then None else Ledger(rs[lo..n], x)
    decreases n - lo
  {
    hide Seen, Ledger, LeftPiece, RightPiece, Meets;
    if n == lo {
      NothingSeen(x);
    } else {
      var r, before := rs[n - 1], UnmapPieces(rs, lo, n - 1, range);
      UnmapView(rs, lo, n - 1, range, x);
      assert before + LeftPiece(r, range) + RightPiece(r, range)
             == before + (LeftPiece(r, range) + RightPiece(r, range));
      SeenConcat(before, LeftPiece(r, range) + RightPiece(r, range), x);
      PiecesOutside(r, range, x);
      assert rs[lo..n] == rs[lo..n - 1] + [r];
      LedgerConcat(rs[lo..n - 1], [r], x);
    }
  }

  /** Protecting changes the current protection inside the range and nothing else. */
  lemma {:induction false} ProtectView(rs: seq<Region>, lo: nat, n: nat, range: Range, p: Protection, x: nat)
    requires lo <= n <= |rs| && range.start < range.end && forall i :: lo <= i < n ==> Meets(rs[i], range)
    ensures Seen(ProtectPieces(rs, lo, n, range, p), x)
         == if Within(range, x) then Repainted(Ledger(rs[lo..n], x), p) else Ledger(rs[lo..n], x)
    decreases n - lo
  {
    hide Seen, Ledger, LeftPiece, RightPiece, MiddlePiece, Meets, Reprotected;
    if n == lo {
      NothingSeen(x);
    } else {
      var r, before := rs[n - 1], ProtectPieces(rs, lo, n - 1, range, p);
      var all := LeftPiece(r, range) + MiddlePiece(r, range, p) + RightPiece(r, range);
      ProtectView(rs, lo, n - 1, range, p, x);
      assert before + LeftPiece(r, range) + MiddlePiece(r, range, p) + RightPiece(r, range) == before + all;
      SeenConcat(before, all, x);
      PiecesInside(r, range, p, x);
      assert rs[lo..n] == rs[lo..n - 1] + [r];
      LedgerConcat(rs[lo..n - 1], [r], x);
    }
  }

  // ---- order of pieces ----------------------------------------------------------------------

  ghost predicate Neat(ts: seq<Template>) { Sorted(TemplateBodies(ts)) }

  ghost predicate Inside(ts: seq<Template>, lo: nat, hi: nat) {
    forall i :: 0 <= i < |ts| ==> lo <= ts[i].body.range.start && ts[i].body.range.end <= hi
  }

  lemma NeatConcat(a: seq<Template>, b: seq<Template>, lo: nat, mid: nat, hi: nat)
    requires Neat(a) && Neat(b) && Inside(a, lo, mid) && Inside(b, mid, hi) && lo <= mid <= hi
    ensures Neat(a + b) && Inside(a + b, lo, hi)
  {
    var all := TemplateBodies(a + b);
    forall i, j | 0 <= i < j < |all| ensures all[i].range.end <= all[j].range.start {
      if j < |a| {
        assert TemplateBodies(a)[i].range.end <= TemplateBodies(a)[j].range.start;
      } else if i >= |a| {
        assert TemplateBodies(b)[i - |a|].range.end <= TemplateBodies(b)[j - |a|].range.start;
      }
    }
  }

  lemma OnePieceNeat(r: Region, range: Range, p: Protection)
    requires Meets(r, range) && range.start < range.end && r.body.range.start < r.body.range.end
    ensures var cut := Cut(r.body.range, range);
            && Neat(LeftPiece(r, range)) && Inside(LeftPiece(r, range), r.body.range.start, cut.start)
            && Neat(MiddlePiece(r, range, p)) && Inside(MiddlePiece(r, range, p), cut.start, cut.end)
            && Neat(RightPiece(r, range)) && Inside(RightPiece(r, range), cut.end, r.body.range.end)
            && r.body.range.start <= cut.start < cut.end <= r.body.range.end
  {}

  lemma {:induction false} UnmapNeat(rs: seq<Region>, lo: nat, n: nat, range: Range)
    requires lo < n <= |rs| && range.start < range.end && Sorted(Bodies(rs))
             && forall i :: lo <= i < n ==> Meets(rs[i], range)
    ensures Neat(UnmapPieces(rs, lo, n, range))
            && Inside(UnmapPieces(rs, lo, n, range), rs[lo].body.range.start, rs[n - 1].body.range.end)
    decreases n - lo
  {
    var r := rs[n - 1];
    var start, cut := r.body.range.start, Cut(r.body.range, range);
    var before := UnmapPieces(rs, lo, n - 1, range);
    assert Bodies(rs)[n - 1].range.start < Bodies(rs)[n - 1].range.end;
    OnePieceNeat(r, range, ReadOnly);
    if n - 1 > lo {
      UnmapNeat(rs, lo, n - 1, range);
      assert Bodies(rs)[n - 2].range.end <= Bodies(rs)[n - 1].range.start;
      assert Bodies(rs)[lo].range.start < Bodies(rs)[lo].range.end <= Bodies(rs)[n - 1].range.start;
    }
    NeatConcat(before, LeftPiece(r, range), rs[lo].body.range.start, start, cut.start);
    NeatConcat(before + LeftPiece(r, range), RightPiece(r, range), rs[lo].body.range.start, cut.end, r.body.range.end);
  }

  lemma {:induction false} ProtectNeat(rs: seq<Region>, lo: nat, n: nat, range: Range, p: Protection)
    requires lo < n <= |rs| && range.start < range.end && Sorted(Bodies(rs))
             && forall i :: lo <= i < n ==> Meets(rs[i], range)
    ensures Neat(ProtectPieces(rs, lo, n, range, p)) && ProtectPieces(rs, lo, n, range, p) != []
    ensures Inside(ProtectPieces(rs, lo, n, range, p), rs[lo].body.range.start, rs[n - 1].body.range.end)
    decreases n - lo
  {
    var r := rs[n - 1];
    var start, cut := r.body.range.start, Cut(r.body.range, range);
    var before := ProtectPieces(rs, lo, n - 1, range, p);
    assert Bodies(rs)[n - 1].range.start < Bodies(rs)[n - 1].range.end;
    OnePieceNeat(r, range, p);
    if n - 1 > lo {
      ProtectNeat(rs, lo, n - 1, range, p);
      assert Bodies(rs)[n - 2].range.end <= Bodies(rs)[n - 1].range.start;
      assert Bodies(rs)[lo].range.start < Bodies(rs)[lo].range.end <= Bodies(rs)[n - 1].range.start;
    }
    var l, m := LeftPiece(r, range), MiddlePiece(r, range, p);
    NeatConcat(before, l, rs[lo].body.range.start, start, cut.start);
    NeatConcat(before + l, m, rs[lo].body.range.start, cut.start, cut.end);
    NeatConcat(before + l + m, RightPiece(r, range), rs[lo].body.range.start, cut.end, r.body.range.end);
  }

  // ---- coalescing ---------------------------------------------------------------------------

  /** Two neighbouring templates that one template can stand for. */
  predicate Compatible(l: Template, r: Template) {
    && l.body.range.end == r.body.range.start && l.body.owner == r.body.owner
    && !l.minted && !r.minted && l.body.allocation == r.body.allocation
    && (|| (l.body.kind.Guard? && r.body.kind.Guard?)
        || (&& l.body.kind.Mapping? && r.body.kind.Mapping? && WritableObject(l.body) == None
            && l.body.range.start <= l.body.range.end
            && Shifted(l.body.kind, l.body.range.end - l.body.range.start) == r.body.kind))
  }

  function Merged(l: Template, r: Template): Template {
    l.(body := l.body.(range := Range(l.body.range.start, r.body.range.end)))
  }

  /** The first `n` templates with compatible neighbours merged. */
  function Normalized(ts: seq<Template>, n: nat): (out: seq<Template>)
    requires n <= |ts|
    ensures |out| <= n && (n > 0 ==> out != [])
  {
    if n == 0 then []
    else
      var out := Normalized(ts, n - 1);
      if out != [] && Compatible(out[|out| - 1], ts[n - 1]) then out[..|out| - 1] + [Merged(out[|out| - 1], ts[n - 1])]
      else out + [ts[n - 1]]
  }

  lemma NormalizedIs(ts: seq<Template>, n: nat)
    requires n <= |ts|
    ensures n == 0 ==> Normalized(ts, n) == []
    ensures n > 0 ==> var out := Normalized(ts, n - 1);
                      Normalized(ts, n) == if out != [] && Compatible(out[|out| - 1], ts[n - 1])
                                           then out[..|out| - 1] + [Merged(out[|out| - 1], ts[n - 1])]
                                           else out + [ts[n - 1]]
  {}

  lemma MergedSeen(l: Template, r: Template, x: nat)
    requires Compatible(l, r) && l.body.range.start <= l.body.range.end && r.body.range.start <= r.body.range.end
    ensures Seen([Merged(l, r)], x) == OrElse(Seen([l], x), Seen([r], x))
  {
    SeenOne(Merged(l, r), x);
    SeenOne(l, x);
    SeenOne(r, x);
  }

  /** Coalescing keeps the order and the outer ends. */
  lemma {:induction false} NormalizedNeat(ts: seq<Template>, n: nat)
    requires n <= |ts| && Neat(ts)
    ensures Neat(Normalized(ts, n)) && (n > 0 ==> EndOf(Normalized(ts, n)) == ts[n - 1].body.range.end)
    ensures n > 0 ==> Normalized(ts, n)[0].body.range.start == ts[0].body.range.start
    decreases n
  {
    hide Compatible, Merged, Neat, EndOf, TemplateBodies;
    if n == 0 {
      NothingNeat();
    } else {
      NormalizedNeat(ts, n - 1);
      var out, t := Normalized(ts, n - 1), ts[n - 1];
      PlainTemplate(ts, n - 1);
      if out != [] && Compatible(out[|out| - 1], t) {
        MergeStep(out, t);
      } else {
        AppendStep(ts, n - 1, out);
      }
    }
  }

  /** Coalescing keeps what every address says. */
  lemma {:induction false} NormalizedSame(ts: seq<Template>, n: nat, x: nat)
    requires n <= |ts| && Neat(ts)
    ensures Seen(Normalized(ts, n), x) == Seen(ts[..n], x)
    decreases n
  {
    hide Compatible, Merged, Neat, Seen, TemplateBodies, Normalized;
    NormalizedIs(ts, n);
    if n == 0 {
      NothingSeen(x);
    } else {
      NormalizedSame(ts, n - 1, x);
      NormalizedNeat(ts, n - 1);
      var out, t := Normalized(ts, n - 1), ts[n - 1];
      assert ts[..n] == ts[..n - 1] + [t];
      SeenConcat(ts[..n - 1], [t], x);
      PlainTemplate(ts, n - 1);
      if out != [] && Compatible(out[|out| - 1], t) {
        MergeSeen(out, t, x);
      } else {
        SeenConcat(out, [t], x);
      }
    }
  }

  lemma MergeSeen(out: seq<Template>, t: Template, x: nat)
    requires out != [] && Neat(out) && Compatible(out[|out| - 1], t) && t.body.range.start < t.body.range.end
    ensures Seen(out[..|out| - 1] + [Merged(out[|out| - 1], t)], x) == OrElse(Seen(out, x), Seen([t], x))
  {
    hide Seen, Compatible, Merged, Neat;
    var before, l := out[..|out| - 1], out[|out| - 1];
    assert out == before + [l];
    PlainTemplate(out, |out| - 1);
    SeenConcat(before, [l], x);
    SeenConcat(before, [Merged(l, t)], x);
    MergedSeen(l, t, x);
  }

  lemma NothingNeat()
    ensures Neat([])
  {}

  function EndOf(ts: seq<Template>): nat
    requires ts != []
  {
    ts[|ts| - 1].body.range.end
  }

  lemma PlainTemplate(ts: seq<Template>, i: nat)
    requires Neat(ts) && i < |ts|
    ensures ts[i].body.range.start < ts[i].body.range.end
    ensures i > 0 ==> ts[i - 1].body.range.end <= ts[i].body.range.start
  {
    assert TemplateBodies(ts)[i].range.start < TemplateBodies(ts)[i].range.end;
    if i > 0 { assert TemplateBodies(ts)[i - 1].range.end <= TemplateBodies(ts)[i].range.start; }
  }

  lemma MergeStep(out: seq<Template>, t: Template)
    requires out != [] && Neat(out) && Compatible(out[|out| - 1], t) && t.body.range.start < t.body.range.end
    ensures var q := out[..|out| - 1] + [Merged(out[|out| - 1], t)];
            && Neat(q) && EndOf(q) == t.body.range.end && q[0].body.range.start == out[0].body.range.start
  {
    var q := out[..|out| - 1] + [Merged(out[|out| - 1], t)];
    PlainTemplate(out, |out| - 1);
    forall i, j | 0 <= i < j < |q| ensures TemplateBodies(q)[i].range.end <= TemplateBodies(q)[j].range.start {
      assert TemplateBodies(out)[i].range.end <= TemplateBodies(out)[j].range.start;
    }
    forall i | 0 <= i < |q| ensures TemplateBodies(q)[i].range.start < TemplateBodies(q)[i].range.end {
      assert TemplateBodies(out)[i].range.start < TemplateBodies(out)[i].range.end;
    }
  }

  lemma AppendStep(ts: seq<Template>, n: nat, out: seq<Template>)
    requires n < |ts| && Neat(ts) && Neat(out) && (n > 0 ==> out != [] && EndOf(out) == ts[n - 1].body.range.end)
             && (n == 0 ==> out == [])
    ensures Neat(out + [ts[n]])
    ensures EndOf(out + [ts[n]]) == ts[n].body.range.end
  {
    PlainTemplate(ts, n);
    var q := out + [ts[n]];
    forall i, j | 0 <= i < j < |q| ensures TemplateBodies(q)[i].range.end <= TemplateBodies(q)[j].range.start {
      if j < |out| {
        assert TemplateBodies(out)[i].range.end <= TemplateBodies(out)[j].range.start;
      } else if i < |out| - 1 {
        var last := TemplateBodies(out)[|out| - 1].range;
        assert TemplateBodies(out)[i].range.end <= last.start < last.end;
      }
    }
    forall i | 0 <= i < |q| ensures TemplateBodies(q)[i].range.start < TemplateBodies(q)[i].range.end {
      if i < |out| { assert TemplateBodies(out)[i].range.start < TemplateBodies(out)[i].range.end; }
    }
  }
}
