/** Protect's preflight: every page of the range must be mapped, ours, and carry the expected flags. */
module PageCheck {
  import opened Wrappers
  import opened Pte
  import opened PageTree

  datatype MapError =
    | OutOfRange
    | Conflict(vpn: nat)
    | NotMapped(vpn: nat)
    | ProtectionMismatch(vpn: nat)
    | FrameExhausted
    | InvalidFlags
    | AllocationFailed

  type Check = Result<nat, MapError>

  function CheckEntry(level: nat, e: Entry, b: nat, lo: nat, hi: nat, foreign: bool, from: nat): Check
    decreases level, 0
  {
    if Outside(b, Pages(level), lo, hi) then Ok(0)
    else if foreign then Err(Conflict(Max(b, lo)))
    else
      match e
      case Invalid => Err(NotMapped(Max(b, lo)))
      case Leaf(_, flags) => if flags != from then Err(ProtectionMismatch(Max(b, lo)))
        else Ok(SplitCount(level, b, lo, hi))
      case Branch(_, sub) => if level == 0 || |sub| != ENTRIES then Ok(0)
        else CheckTable(level - 1, sub, b, lo, hi, {}, from, ENTRIES)
  }

  /** The slots before `n`, stopping at the first that fails. */
  function CheckTable(level: nat, t: seq<Entry>, base: nat, lo: nat, hi: nat, shared: set<nat>, from: nat,
                      n: nat): Check
    requires |t| == ENTRIES && n <= ENTRIES
    decreases level, 1, n
  {
    if n == 0 then Ok(0)
    else
      var before := CheckTable(level, t, base, lo, hi, shared, from, n - 1);
      if before.Err? then before
      else
        var c := CheckEntry(level, t[n - 1], SlotBase(base, Pages(level), n - 1), lo, hi, n - 1 in shared, from);
        if c.Err? then c else Ok(before.value + c.value)
  }

  /** One page is fit to be protected. */
  predicate Fit(m: Option<Target>, from: nat) { m.Some? && m.value.flags == from }

  /** What an error says about the page it names. */
  predicate Explains(error: MapError, foreign: bool, m: Option<Target>, from: nat) {
    match error
    case Conflict(_) => foreign
    case NotMapped(_) => !foreign && m.None?
    case ProtectionMismatch(_) => !foreign && m.Some? && m.value.flags != from
    case _ => false
  }

  predicate Names(error: MapError) { error.Conflict? || error.NotMapped? || error.ProtectionMismatch? }

  // ---- the count -----------------------------------------------------------------

  lemma {:induction false} EntryCount(level: nat, e: Entry, b: nat, lo: nat, hi: nat, from: nat)
    ensures var c := CheckEntry(level, e, b, lo, hi, false, from); c.Ok? ==> c.value == Need(level, e, b, lo, hi)
    decreases level, 0
  {
    if e.Branch? && level > 0 && |e.table| == ENTRIES { TableCount(level - 1, e.table, b, lo, hi, {}, from, ENTRIES); }
  }

  /** A check that passes has counted what the edit will take. */
  lemma {:induction false} TableCount(level: nat, t: seq<Entry>, base: nat, lo: nat, hi: nat, shared: set<nat>,
                                      from: nat, n: nat)
    requires |t| == ENTRIES && n <= ENTRIES
    ensures var c := CheckTable(level, t, base, lo, hi, shared, from, n);
            c.Ok? ==> c.value == TableNeed(level, t, base, lo, hi, shared, n)
    decreases level, 1, n
  {
    if n > 0 {
      TableCount(level, t, base, lo, hi, shared, from, n - 1);
      EntryCount(level, t[n - 1], SlotBase(base, Pages(level), n - 1), lo, hi, from);
    }
  }

  lemma {:induction false} SlotChecked(level: nat, t: seq<Entry>, base: nat, lo: nat, hi: nat, shared: set<nat>,
                                       from: nat, i: nat, n: nat)
    requires |t| == ENTRIES && i < n <= ENTRIES && CheckTable(level, t, base, lo, hi, shared, from, n).Ok?
    ensures CheckEntry(level, t[i], SlotBase(base, Pages(level), i), lo, hi, i in shared, from).Ok?
    decreases n
  {
    if i < n - 1 { SlotChecked(level, t, base, lo, hi, shared, from, i, n - 1); }
  }

  lemma {:induction false} ErrorSticks(level: nat, t: seq<Entry>, base: nat, lo: nat, hi: nat, shared: set<nat>,
                                       from: nat, i: nat, n: nat)
    requires |t| == ENTRIES && i <= n <= ENTRIES && CheckTable(level, t, base, lo, hi, shared, from, i).Err?
    ensures CheckTable(level, t, base, lo, hi, shared, from, n) == CheckTable(level, t, base, lo, hi, shared, from, i)
    decreases n
  {
    if i < n { ErrorSticks(level, t, base, lo, hi, shared, from, i, n - 1); }
  }

  /** The pieces of a leaf that passes, pass. */
  lemma {:induction false} PiecesChecked(level: nat, ppn: nat, flags: nat, b: nat, lo: nat, hi: nat, n: nat)
    requires level > 0 && n <= ENTRIES
    ensures CheckTable(level - 1, Split(level, ppn, flags), b, lo, hi, {}, flags, n).Ok?
  {
    if n > 0 { PiecesChecked(level, ppn, flags, b, lo, hi, n - 1); }
  }

  // ---- what a verdict means ----------------------------------------------------------

  /** Page `v`, if it is in the range, is ours and fit. */
  predicate EntryFit(level: nat, e: Entry, b: nat, lo: nat, hi: nat, foreign: bool, from: nat, v: nat) {
    b <= v < b + Pages(level) && lo <= v < hi ==> !foreign && Fit(Flat(level, e, b, v), from)
  }

  predicate TableFit(level: nat, t: seq<Entry>, base: nat, lo: nat, hi: nat, shared: set<nat>, from: nat, v: nat)
    requires |t| == ENTRIES
  {
    base <= v < base + 512 * Pages(level) && lo <= v < hi ==>
      SlotOf(base, Pages(level), v) !in shared && Fit(Forget(Lookup(level, t, base, v)), from)
  }

  lemma {:induction false} EntryVerdict(level: nat, e: Entry, b: nat, lo: nat, hi: nat, foreign: bool, from: nat,
                                        v: nat)
    requires lo < hi && (foreign || WfEntry(level, e))
    ensures match CheckEntry(level, e, b, lo, hi, foreign, from)
            case Ok(_) => EntryFit(level, e, b, lo, hi, foreign, from, v)
            case Err(x) =>
              && Names(x) && b <= x.vpn < b + Pages(level) && lo <= x.vpn < hi
                  && Explains(x, foreign, Flat(level, e, b, x.vpn), from)
              && (v < x.vpn ==> EntryFit(level, e, b, lo, hi, foreign, from, v))
    decreases level, 0
  {
    if !Outside(b, Pages(level), lo, hi) && !foreign && e.Branch? {
      TableVerdict(level - 1, e.table, b, lo, hi, {}, from, ENTRIES, v);
    }
  }

  /** Pass means every page of the range is fit; failure names the first page that is not, and why. */
  lemma {:induction false} TableVerdict(level: nat, t: seq<Entry>, base: nat, lo: nat, hi: nat, shared: set<nat>,
                                        from: nat, n: nat, v: nat)
    requires lo < hi && WfTable(level, t, shared) && n <= ENTRIES
    ensures match CheckTable(level, t, base, lo, hi, shared, from, n)
            case Ok(_) => v < SlotBase(base, Pages(level), n) ==> TableFit(level, t, base, lo, hi, shared, from, v)
            case Err(x) =>
              && Names(x) && base <= x.vpn < base + 512 * Pages(level) && lo <= x.vpn < hi
              && Explains(x, SlotOf(base, Pages(level), x.vpn) in shared, Forget(Lookup(level, t, base, x.vpn)), from)
              && (v < x.vpn ==> TableFit(level, t, base, lo, hi, shared, from, v))
    decreases level, 1, n
  {
    if n > 0 {
      TableVerdict(level, t, base, lo, hi, shared, from, n - 1, v);
      if CheckTable(level, t, base, lo, hi, shared, from, n - 1).Ok? {
        var i, b := n - 1, SlotBase(base, Pages(level), n - 1);
        EntryVerdict(level, t[i], b, lo, hi, i in shared, from, v);
        SlotVerdict(level, t, base, lo, hi, shared, from, i, v);
        var c := CheckEntry(level, t[i], b, lo, hi, i in shared, from);
        if c.Err? { SlotVerdict(level, t, base, lo, hi, shared, from, i, c.error.vpn); }
      }
    }
  }

  /** Reading a page through the table is reading it through its slot. */
  lemma SlotVerdict(level: nat, t: seq<Entry>, base: nat, lo: nat, hi: nat, shared: set<nat>, from: nat, i: nat, v: nat)
    requires |t| == ENTRIES && i < ENTRIES
    ensures var b := SlotBase(base, Pages(level), i);
            && b + Pages(level) == SlotBase(base, Pages(level), i + 1) <= base + 512 * Pages(level)
            && (b <= v < b + Pages(level) ==>
                  && SlotOf(base, Pages(level), v) == i && base <= v
                  && Forget(Lookup(level, t, base, v)) == Flat(level, t[i], b, v)
                  && (TableFit(level, t, base, lo, hi, shared, from, v) <==>
                      EntryFit(level, t[i], b, lo, hi, i in shared, from, v)))
  {
    AtSlot(level, base, i, v);
  }

  /** Pages of slot `i` are the ones between its base and the next. */
  lemma AtSlot(level: nat, base: nat, i: nat, v: nat)
    requires i < ENTRIES
    ensures SlotBase(base, Pages(level), i) + Pages(level)
            == SlotBase(base, Pages(level), i + 1) <= base + 512 * Pages(level)
    ensures SlotBase(base, Pages(level), i) <= v < SlotBase(base, Pages(level), i + 1) ==>
            SlotOf(base, Pages(level), v) == i
  {
    var p := Pages(level);
    assert (i + 1) * p == i * p + p;
    MulMono(i, ENTRIES, p);
    if base <= v { SlotUnique(base, p, v, i); }
  }

  // ---- a range of no pages -----------------------------------------------------------

  /** Page `v` is the first of the slot its walk ends in. */
  predicate FirstOfSlot(level: nat, e: Entry, b: nat, v: nat, foreign: bool)
    requires b <= v < b + Pages(level)
    decreases level, 0
  {
    v == b || (!foreign && e.Branch? && level > 0 && |e.table| == ENTRIES && StartsSlot(level - 1, e.table, b, v, {}))
  }

  predicate StartsSlot(level: nat, t: seq<Entry>, base: nat, v: nat, shared: set<nat>)
    requires |t| == ENTRIES && base <= v < base + 512 * Pages(level)
    decreases level, 1
  {
    SlotInTable(base, Pages(level), v);
    var i := SlotOf(base, Pages(level), v);
    FirstOfSlot(level, t[i], SlotBase(base, Pages(level), i), v, i in shared)
  }

  lemma {:induction false} EmptyEntry(level: nat, e: Entry, b: nat, v: nat, foreign: bool, from: nat)
    requires b <= v < b + Pages(level) && (foreign || WfEntry(level, e))
    ensures CheckEntry(level, e, b, v, v, foreign, from).Ok?
       <==> FirstOfSlot(level, e, b, v, foreign) || (!foreign && Fit(Flat(level, e, b, v), from))
    decreases level, 0
  {
    if v != b && !foreign && e.Branch? { EmptyVerdict(level - 1, e.table, b, v, {}, from); }
  }

  /** Protecting no pages is still refused when its start is unfit, unless the slot there begins with it. */
  lemma {:induction false} EmptyVerdict(level: nat, t: seq<Entry>, base: nat, v: nat, shared: set<nat>, from: nat)
    requires WfTable(level, t, shared) && base <= v < base + 512 * Pages(level)
    ensures CheckTable(level, t, base, v, v, shared, from, ENTRIES).Ok?
       <==> StartsSlot(level, t, base, v, shared)
            || (SlotOf(base, Pages(level), v) !in shared && Fit(Forget(Lookup(level, t, base, v)), from))
    decreases level, 1
  {
    SlotInTable(base, Pages(level), v);
    var i := SlotOf(base, Pages(level), v);
    EmptyEntry(level, t[i], SlotBase(base, Pages(level), i), v, i in shared, from);
    OneSlotChecked(level, t, base, v, shared, from, ENTRIES);
  }

  lemma {:induction false} OneSlotChecked(level: nat, t: seq<Entry>, base: nat, v: nat, shared: set<nat>, from: nat,
                                          n: nat)
    requires |t| == ENTRIES && n <= ENTRIES && base <= v < base + 512 * Pages(level)
    ensures var i := SlotOf(base, Pages(level), v);
            i < ENTRIES
            && (CheckTable(level, t, base, v, v, shared, from, n).Ok? <==>
                n <= i || CheckEntry(level, t[i], SlotBase(base, Pages(level), i), v, v, i in shared, from).Ok?)
    decreases n
  {
    SlotInTable(base, Pages(level), v);
    if n > 0 {
      OneSlotChecked(level, t, base, v, shared, from, n - 1);
      SlotUnique(base, Pages(level), v, n - 1);
    }
  }

  /** Past the last page there is nothing to refuse. */
  lemma {:induction false} EmptyAtEnd(level: nat, t: seq<Entry>, base: nat, shared: set<nat>, from: nat, n: nat)
    requires |t| == ENTRIES && n <= ENTRIES
    ensures var end := base + 512 * Pages(level); CheckTable(level, t, base, end, end, shared, from, n).Ok?
    decreases n
  {
    if n > 0 {
      EmptyAtEnd(level, t, base, shared, from, n - 1);
      AtSlot(level, base, n - 1, base);
    }
  }
}
