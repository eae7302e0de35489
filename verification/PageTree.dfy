/** The page-table tree as a value: what each entry reaches, and what a range edit of it is. */
module PageTree {
  import opened Wrappers
  import opened Pte

  /** An entry together with everything below it. */
  datatype Entry =
    | Invalid
    | Leaf(ppn: nat, flags: nat)
    | Branch(frame: nat, table: seq<Entry>)

  /** Where a page goes; `level` is the level of the leaf that maps it. */
  datatype Mapped = Mapped(ppn: nat, flags: nat, level: nat)

  /** The flat view of a translation forgets which level maps it. */
  datatype Target = Target(ppn: nat, flags: nat)

  /** Table frames still to be used, and table frames taken out of the tree. */
  datatype Supply = Supply(frames: seq<nat>, retired: seq<nat>)

  /** What a range edit does to a wholly covered leaf. */
  datatype Edit = Remove | SetFlags(to: nat)

  datatype Edited = Edited(entry: Entry, supply: Supply)

  datatype EditedTable = EditedTable(table: seq<Entry>, supply: Supply)

  // ---- reading -------------------------------------------------------------

  function Lookup(level: nat, t: seq<Entry>, base: nat, vpn: nat): Option<Mapped>
    requires |t| == ENTRIES
    requires base <= vpn < base + 512 * Pages(level)
    decreases level, 1
  {
    SlotInTable(base, Pages(level), vpn);
    var i := SlotOf(base, Pages(level), vpn);
    LookupEntry(level, t[i], SlotBase(base, Pages(level), i), vpn)
  }

  function LookupEntry(level: nat, e: Entry, b: nat, vpn: nat): Option<Mapped>
    requires b <= vpn < b + Pages(level)
    decreases level, 0
  {
    match e
    case Invalid => None
    case Leaf(ppn, flags) => Some(Mapped(ppn + (vpn - b), flags, level))
    case Branch(_, sub) =>
      if level == 0 || |sub| != ENTRIES then None else Lookup(level - 1, sub, b, vpn)
  }

  function Forget(m: Option<Mapped>): Option<Target> {
    match m
    case None => None
    case Some(x) => Some(Target(x.ppn, x.flags))
  }

  /** The flat map of one entry: page to physical page and flags. */
  function Flat(level: nat, e: Entry, b: nat, vpn: nat): Option<Target>
    requires b <= vpn < b + Pages(level)
  {
    Forget(LookupEntry(level, e, b, vpn))
  }

  // ---- shape ---------------------------------------------------------------

  predicate WfEntry(level: nat, e: Entry)
    decreases e, 0
  {
    match e
    case Invalid => true
    case Leaf(ppn, flags) => ValidLeafFlags(flags) && ppn % Pages(level) == 0 && ppn + Pages(level) <= MAX_PPN
    case Branch(frame, sub) => frame < MAX_PPN && level > 0 && WfTable(level - 1, sub, {})
  }

  /** Slots named by `shared` belong to someone else and are not constrained. */
  predicate WfTable(level: nat, t: seq<Entry>, shared: set<nat>)
    decreases t, 1
  {
    && |t| == ENTRIES
    && forall i :: 0 <= i < |t| && i !in shared ==> WfEntry(level, t[i])
  }

  predicate AllInvalid(t: seq<Entry>) { forall i :: 0 <= i < |t| ==> t[i] == Invalid }

  /** How often the table frame `f` is linked at or below an entry. */
  function Links(e: Entry, f: nat): nat
    decreases e, 0
  {
    match e
    case Branch(frame, sub) => (if frame == f then 1 else 0) + TableLinks(sub, {}, |sub|, f)
    case _ => 0
  }

  function TableLinks(t: seq<Entry>, shared: set<nat>, n: nat, f: nat): nat
    requires n <= |t|
    decreases t, n
  {
    if n == 0 then 0
    else TableLinks(t, shared, n - 1, f) + (if n - 1 in shared then 0 else Links(t[n - 1], f))
  }

  // ---- range edits: what Unmap and Protect leave behind ----------------------

  predicate Outside(b: nat, p: nat, lo: nat, hi: nat) { b >= hi || b + p <= lo }

  predicate Covered(b: nat, p: nat, lo: nat, hi: nat) { lo <= b && b + p <= hi }

  /** The table that replaces a leaf of `level`: 512 leaves one level down. */
  function Split(level: nat, ppn: nat, flags: nat): (t: seq<Entry>)
    requires level > 0
    ensures |t| == ENTRIES
  {
    seq(ENTRIES, (k: nat) => Leaf(SlotBase(ppn, Pages(level - 1), k), flags))
  }

  function Pop(s: Supply): Supply
    requires |s.frames| > 0
  {
    s.(frames := s.frames[..|s.frames| - 1])
  }

  function Top(s: Supply): nat
    requires |s.frames| > 0
  {
    s.frames[|s.frames| - 1]
  }

  function EditLeaf(op: Edit, ppn: nat, flags: nat): Entry {
    match op
    case Remove => Invalid
    case SetFlags(to) => Leaf(ppn, to)
  }

  function EditEntry(op: Edit, level: nat, e: Entry, b: nat, lo: nat, hi: nat, s: Supply): Edited
    decreases level, 0
  {
    if Outside(b, Pages(level), lo, hi) then Edited(e, s) else
    match e
    case Invalid => Edited(e, s)
    case Leaf(ppn, flags) =>
      if Covered(b, Pages(level), lo, hi) then Edited(EditLeaf(op, ppn, flags), s)
      else if level == 0 || |s.frames| == 0 then Edited(e, s)
      else
        var r := EditTable(op, level - 1, Split(level, ppn, flags), b, lo, hi, {}, ENTRIES, Pop(s));
        Edited(Branch(Top(s), r.table), r.supply)
    case Branch(frame, sub) =>
      if level == 0 || |sub| != ENTRIES then Edited(e, s)
      else
        var r := EditTable(op, level - 1, sub, b, lo, hi, {}, ENTRIES, s);
        if op.Remove? && AllInvalid(r.table)
        then Edited(Invalid, r.supply.(retired := r.supply.retired + [frame]))
        else Edited(Branch(frame, r.table), r.supply)
  }

  /** The first `n` slots after the edit, in slot order, drawing on one supply. */
  function EditTable(op: Edit, level: nat, t: seq<Entry>, base: nat, lo: nat, hi: nat, shared: set<nat>, n: nat,
                     s: Supply): (r: EditedTable)
    requires |t| == ENTRIES && n <= ENTRIES
    ensures |r.table| == n
    decreases level, 1, n
  {
    if n == 0 then EditedTable([], s)
    else
      var r := EditTable(op, level, t, base, lo, hi, shared, n - 1, s);
      var u := if n - 1 in shared then Edited(t[n - 1], r.supply)
               else EditEntry(op, level, t[n - 1], SlotBase(base, Pages(level), n - 1), lo, hi, r.supply);
      EditedTable(r.table + [u.entry], u.supply)
  }

  // ---- preflight: what a range edit will need and free ------------------------

  /** Tables needed to cut a leaf of `level` down to the range. */
  function SplitCount(level: nat, b: nat, lo: nat, hi: nat): nat
    decreases level, 0
  {
    if Covered(b, Pages(level), lo, hi) || level == 0 then 0
    else 1 + SplitCountBelow(level - 1, b, lo, hi, ENTRIES)
  }

  function SplitCountBelow(level: nat, base: nat, lo: nat, hi: nat, n: nat): nat
    decreases level, 1, n
  {
    if n == 0 then 0
    else
      var b := SlotBase(base, Pages(level), n - 1);
      SplitCountBelow(level, base, lo, hi, n - 1)
          + (if Outside(b, Pages(level), lo, hi) then 0 else SplitCount(level, b, lo, hi))
  }

  function Need(level: nat, e: Entry, b: nat, lo: nat, hi: nat): nat
    decreases level, 0
  {
    if Outside(b, Pages(level), lo, hi) then 0 else
    match e
    case Invalid => 0
    case Leaf(_, _) => SplitCount(level, b, lo, hi)
    case Branch(_, sub) =>
      if level == 0 || |sub| != ENTRIES then 0 else TableNeed(level - 1, sub, b, lo, hi, {}, ENTRIES)
  }

  function TableNeed(level: nat, t: seq<Entry>, base: nat, lo: nat, hi: nat, shared: set<nat>, n: nat): nat
    requires |t| == ENTRIES && n <= ENTRIES
    decreases level, 1, n
  {
    if n == 0 then 0
    else
      TableNeed(level, t, base, lo, hi, shared, n - 1)
      + (if n - 1 in shared then 0 else Need(level, t[n - 1], SlotBase(base, Pages(level), n - 1), lo, hi))
  }

  /** Whether nothing of the entry is left once the range is removed. */
  predicate Gone(level: nat, e: Entry, b: nat, lo: nat, hi: nat)
    decreases level, 0
  {
    match e
    case Invalid => true
    case Leaf(_, _) => Covered(b, Pages(level), lo, hi) && !Outside(b, Pages(level), lo, hi)
    case Branch(_, sub) =>
      level > 0 && |sub| == ENTRIES && !Outside(b, Pages(level), lo, hi)
          && TableGone(level - 1, sub, b, lo, hi, {}, ENTRIES)
  }

  predicate TableGone(level: nat, t: seq<Entry>, base: nat, lo: nat, hi: nat, shared: set<nat>, n: nat)
    requires |t| == ENTRIES && n <= ENTRIES
    decreases level, 1, n
  {
    n == 0 || (TableGone(level, t, base, lo, hi, shared, n - 1)
               && n - 1 !in shared && Gone(level, t[n - 1], SlotBase(base, Pages(level), n - 1), lo, hi))
  }

  /** Tables emptied, hence retired, by removing the range. */
  function Freed(level: nat, e: Entry, b: nat, lo: nat, hi: nat): nat
    decreases level, 0
  {
    match e
    case Branch(_, sub) =>
      if level == 0 || |sub| != ENTRIES || Outside(b, Pages(level), lo, hi) then 0
      else TableFreed(level - 1, sub, b, lo, hi, {}, ENTRIES)
           + (if TableGone(level - 1, sub, b, lo, hi, {}, ENTRIES) then 1 else 0)
    case _ => 0
  }

  function TableFreed(level: nat, t: seq<Entry>, base: nat, lo: nat, hi: nat, shared: set<nat>, n: nat): nat
    requires |t| == ENTRIES && n <= ENTRIES
    decreases level, 1, n
  {
    if n == 0 then 0
    else
      TableFreed(level, t, base, lo, hi, shared, n - 1)
      + (if n - 1 in shared then 0 else Freed(level, t[n - 1], SlotBase(base, Pages(level), n - 1), lo, hi))
  }
}
