/** Emptying a tree one slot at a time with a cursor that remembers one index per level. */
module PageDrain {
  import opened Wrappers
  import opened Pte
  import opened PageTree
  import opened PageTreeMap
  import opened PageMemory

  datatype Cursor = Cursor(frames: seq<Option<nat>>, indices: seq<nat>, level: nat, complete: bool)

  datatype DrainStep = Progress | Retired(owner: nat) | Complete

  /** The cursor's path from the table `t` of `level` in `frame` down to level `low`. */
  ghost predicate OnWay(c: Cursor, low: nat, level: nat, t: seq<Entry>, frame: nat)
    decreases level
  {
    && low <= level < |c.frames| == |c.indices| && |t| == ENTRIES && c.frames[level] == Some(frame)
    && (low < level ==>
          1 <= c.indices[level] <= ENTRIES
          && var e := t[c.indices[level] - 1];
             e.Branch? && OnWay(c, low, level - 1, e.table, e.frame))
  }

  ghost predicate Cleared(t: seq<Entry>, shared: set<nat>, n: nat)
    requires n <= |t|
  {
    forall k :: 0 <= k < n && k !in shared ==> t[k] == Invalid
  }

  /** Everything the cursor has passed is empty, except the way down itself. */
  ghost predicate Swept(c: Cursor, level: nat, t: seq<Entry>, shared: set<nat>, frame: nat)
    requires OnWay(c, c.level, level, t, frame)
    decreases level
  {
    && c.indices[level] <= ENTRIES
    && if level == c.level then Cleared(t, shared, c.indices[level])
       else
         && c.indices[level] - 1 !in shared && Cleared(t, shared, c.indices[level] - 1)
         && Swept(c, level - 1, t[c.indices[level] - 1].table, {}, t[c.indices[level] - 1].frame)
  }

  lemma {:induction false} CursorHere(c: Cursor, level: nat, t: seq<Entry>, shared: set<nat>, frame: nat)
    requires OnWay(c, c.level, level, t, frame) && Swept(c, level, t, shared, frame)
    ensures c.level <= level && c.indices[c.level] <= ENTRIES && c.frames[c.level].Some?
    decreases level
  {
    if c.level < level {
      var e := t[c.indices[level] - 1];
      CursorHere(c, level - 1, e.table, {}, e.frame);
    }
  }

  /** The table at level `low` on the cursor's way, and the frame it is in. */
  ghost function TableAt(c: Cursor, low: nat, level: nat, t: seq<Entry>, frame: nat): (r: (seq<Entry>, nat))
    requires OnWay(c, low, level, t, frame)
    ensures |r.0| == ENTRIES && c.frames[low] == Some(r.1)
    decreases level
  {
    if level == low then (t, frame)
    else
      var e := t[c.indices[level] - 1];
      TableAt(c, low, level - 1, e.table, e.frame)
  }

  /** The tree with slot `k` of that table emptied. */
  ghost function Erase(c: Cursor, low: nat, level: nat, t: seq<Entry>, frame: nat, k: nat): (r: seq<Entry>)
    requires OnWay(c, low, level, t, frame) && k < ENTRIES
    ensures |r| == ENTRIES
    decreases level
  {
    if level == low then t[k := Invalid]
    else
      var i := c.indices[level] - 1;
      t[i := Branch(t[i].frame, Erase(c, low, level - 1, t[i].table, t[i].frame, k))]
  }

  // ---- steps left -----------------------------------------------------------------------

  /** Steps spent in a table from slot `i` on: one a slot, and for an own branch its table and its retirement. */
  ghost function Steps(level: nat, t: seq<Entry>, shared: set<nat>, i: nat): nat
    requires i <= |t|
    decreases level, |t| - i
  {
    if i == |t| then 0
    else
      1 + (if i !in shared && t[i].Branch? && level > 0 then Steps(level - 1, t[i].table, {}, 0) + 1 else 0)
          + Steps(level, t, shared, i + 1)
  }

  ghost function Left(c: Cursor, level: nat, t: seq<Entry>, shared: set<nat>, frame: nat): nat
    requires OnWay(c, c.level, level, t, frame) && Swept(c, level, t, shared, frame)
    decreases level
  {
    Steps(level, t, shared, c.indices[level])
    + (if level == c.level then 0
       else
         var e := t[c.indices[level] - 1];
         1 + Left(c, level - 1, e.table, {}, e.frame))
  }

  /** The cursor's way is in the tree and everything behind it is empty; when complete, everything is. */
  ghost predicate DrainAt(c: Cursor, level: nat, t: seq<Entry>, shared: set<nat>, frame: nat) {
    && |t| == ENTRIES && |c.frames| == level + 1
    && if c.complete then Cleared(t, shared, ENTRIES)
        else OnWay(c, c.level, level, t, frame) && Swept(c, level, t, shared, frame)
  }

  /** Steps until the drain reports completion. */
  ghost function LeftAt(c: Cursor, level: nat, t: seq<Entry>, shared: set<nat>, frame: nat): nat
    requires DrainAt(c, level, t, shared, frame)
  {
    if c.complete then 0 else 1 + Left(c, level, t, shared, frame)
  }

  lemma {:induction false} StepsOfSuffix(level: nat, x: seq<Entry>, y: seq<Entry>, shared: set<nat>, i: nat)
    requires |x| == |y| && i <= |x| && forall k :: i <= k < |x| ==> x[k] == y[k]
    ensures Steps(level, x, shared, i) == Steps(level, y, shared, i)
    decreases |x| - i
  {
    if i < |x| { StepsOfSuffix(level, x, y, shared, i + 1); }
  }

  // ---- a step down, a slot emptied, a table retired ------------------------------------------

  /** Advancing past slot `k` of the current table, emptied if it was a leaf. */
  lemma {:induction false} Advance(c: Cursor, level: nat, t: seq<Entry>, shared: set<nat>, frame: nat)
    requires OnWay(c, c.level, level, t, frame) && Swept(c, level, t, shared, frame) && c.indices[c.level] < ENTRIES
    requires var e := TableAt(c, c.level, level, t, frame).0[c.indices[c.level]];
             e.Branch? ==> level == c.level && c.indices[c.level] in shared
    ensures var k := c.indices[c.level];
            var d := c.(indices := c.indices[c.level := k + 1]);
            var u := if level == c.level && k in shared then t else Erase(c, c.level, level, t, frame, k);
            && OnWay(d, d.level, level, u, frame) && Swept(d, level, u, shared, frame)
            && Left(d, level, u, shared, frame) + 1 == Left(c, level, t, shared, frame)
    decreases level
  {
    hide Links;
    var k := c.indices[c.level];
    var d := c.(indices := c.indices[c.level := k + 1]);
    if level == c.level {
      StepsOfSuffix(level, t[k := Invalid], t, shared, k + 1);
    } else {
      var i := c.indices[level] - 1;
      Advance(c, level - 1, t[i].table, {}, t[i].frame);
      var u := Erase(c, c.level, level, t, frame, k);
      StepsOfSuffix(level, u, t, shared, i + 1);
    }
  }

  /** Going down into the table of a branch. */
  lemma {:induction false} Descend(c: Cursor, level: nat, t: seq<Entry>, shared: set<nat>, frame: nat)
    requires OnWay(c, c.level, level, t, frame) && Swept(c, level, t, shared, frame) && c.indices[c.level] < ENTRIES
             && c.level > 0
    requires level == c.level ==> c.indices[c.level] !in shared
    requires var e := TableAt(c, c.level, level, t, frame).0[c.indices[c.level]]; e.Branch? && |e.table| == ENTRIES
    ensures var k := c.indices[c.level];
            var e := TableAt(c, c.level, level, t, frame).0[k];
            var d := c.(frames := c.frames[c.level - 1 := Some(e.frame)],
                        indices := c.indices[c.level := k + 1][c.level - 1 := 0], level := c.level - 1);
            && OnWay(d, d.level, level, t, frame) && Swept(d, level, t, shared, frame)
            && Left(d, level, t, shared, frame) + 1 == Left(c, level, t, shared, frame)
    decreases level
  {
    if level > c.level {
      var i := c.indices[level] - 1;
      Descend(c, level - 1, t[i].table, {}, t[i].frame);
    }
  }

  /** Leaving an emptied table: its branch is erased one level up. */
  lemma {:induction false} Ascend(c: Cursor, level: nat, t: seq<Entry>, shared: set<nat>, frame: nat)
    requires c.level < level && OnWay(c, c.level, level, t, frame) && Swept(c, level, t, shared, frame)
             && c.indices[c.level] == ENTRIES
    ensures OnWay(c, c.level + 1, level, t, frame) && 1 <= c.indices[c.level + 1] <= ENTRIES
    ensures var k := c.indices[c.level + 1] - 1;
            var d := c.(frames := c.frames[c.level := None], indices := c.indices[c.level := 0], level := c.level + 1);
            var u := Erase(c, c.level + 1, level, t, frame, k);
            && TableAt(c, c.level + 1, level, t, frame).0[k]
                == Branch(TableAt(c, c.level, level, t, frame).1, TableAt(c, c.level, level, t, frame).0)
            && AllInvalid(TableAt(c, c.level, level, t, frame).0)
            && OnWay(d, d.level, level, u, frame) && Swept(d, level, u, shared, frame)
            && Left(d, level, u, shared, frame) + 1 == Left(c, level, t, shared, frame)
    decreases level
  {
    var i := c.indices[level] - 1;
    if level == c.level + 1 {
      StepsOfSuffix(level, t[i := Invalid], t, shared, i + 1);
    } else {
      Ascend(c, level - 1, t[i].table, {}, t[i].frame);
      var u := Erase(c, c.level + 1, level, t, frame, c.indices[c.level + 1] - 1);
      StepsOfSuffix(level, u, t, shared, i + 1);
    }
  }

  // ---- the tree in memory -----------------------------------------------------------------

  lemma {:induction false} EraseStores(m: Memory, c: Cursor, low: nat, level: nat, t: seq<Entry>, shared: set<nat>,
                                       frame: nat, k: nat)
    requires WfMemory(m) && Stores(m, frame, t) && OnWay(c, low, level, t, frame) && k < ENTRIES
    requires TableApart(frame, t, shared, Supply([], [])) && (low < level ==> c.indices[level] - 1 !in shared)
             && (low == level ==> k !in shared)
    ensures var f := TableAt(c, low, level, t, frame).1;
            f in m && Stores(Put(m, f, k, INVALID), frame, Erase(c, low, level, t, frame, k))
                && (low < level ==> TableLinks(t, shared, ENTRIES, f) > 0)
    decreases level
  {
    var f := TableAt(c, low, level, t, frame).1;
    if level == low {
      var m1 := Put(m, f, k, INVALID);
      StoresAfterSlot(m, m1, frame, t, shared, Supply([], []), k, Invalid);
    } else {
      var i := c.indices[level] - 1;
      var e := t[i];
      SubApart(frame, t, shared, i);
      EraseStores(m, c, low, level - 1, e.table, {}, e.frame, k);
      var m1 := Put(m, f, k, INVALID);
      LinkedBelow(e, f);
      SlotLinks(t, shared, ENTRIES, i, f);
      StoresAfterSlot(m, m1, frame, t, shared, Supply([], []), i,
                      Branch(e.frame, Erase(c, low, level - 1, e.table, e.frame, k)));
    }
  }

  lemma LinkedBelow(e: Entry, f: nat)
    requires e.Branch? && |e.table| == ENTRIES && (f == e.frame || TableLinks(e.table, {}, ENTRIES, f) > 0)
    ensures Links(e, f) > 0
  {}

  lemma SubApart(frame: nat, t: seq<Entry>, shared: set<nat>, i: nat)
    requires |t| == ENTRIES && TableApart(frame, t, shared, Supply([], [])) && i < ENTRIES && i !in shared
             && t[i].Branch?
    ensures TableApart(t[i].frame, t[i].table, {}, Supply([], [])) && t[i].frame != frame
    ensures forall f :: Links(t[i], f) > 0 ==> f != frame
  {
    var e := t[i];
    forall f ensures Links(e, f) == (if f == e.frame then 1 else 0) + TableLinks(e.table, {}, |e.table|, f)
                  && Links(e, f) + (if f == frame then 1 else 0) <= 1 {
      SlotLinks(t, shared, ENTRIES, i, f);
    }
    assert Links(e, e.frame) > 0;
  }

  /** Erasing a slot takes away exactly the links below it. */
  lemma {:induction false} EraseLinks(c: Cursor, low: nat, level: nat, t: seq<Entry>, shared: set<nat>, frame: nat,
                                      k: nat, f: nat)
    requires OnWay(c, low, level, t, frame) && k < ENTRIES
    requires (low < level ==> c.indices[level] - 1 !in shared) && (low == level ==> k !in shared)
    ensures TableLinks(Erase(c, low, level, t, frame, k), shared, ENTRIES, f)
            + Links(TableAt(c, low, level, t, frame).0[k], f)
         == TableLinks(t, shared, ENTRIES, f)
    decreases level
  {
    if level == low {
      LinksOfUpdate(t, k, Invalid, shared, ENTRIES, f);
    } else {
      var i := c.indices[level] - 1;
      EraseLinks(c, low, level - 1, t[i].table, {}, t[i].frame, k, f);
      LinksOfUpdate(t, i, Erase(c, low, level, t, frame, k)[i], shared, ENTRIES, f);
    }
  }

  lemma {:induction false} EraseWf(c: Cursor, low: nat, level: nat, t: seq<Entry>, shared: set<nat>, frame: nat, k: nat)
    requires OnWay(c, low, level, t, frame) && k < ENTRIES && WfTable(level, t, shared)
    requires low < level ==> c.indices[level] - 1 !in shared
    ensures WfTable(level, Erase(c, low, level, t, frame, k), shared)
    decreases level
  {
    if level > low {
      var i := c.indices[level] - 1;
      EraseWf(c, low, level - 1, t[i].table, {}, t[i].frame, k);
    }
  }

  lemma {:induction false} TableAtWf(c: Cursor, low: nat, level: nat, t: seq<Entry>, shared: set<nat>, frame: nat,
                                     m: Memory)
    requires OnWay(c, low, level, t, frame) && WfTable(level, t, shared) && Stores(m, frame, t)
    requires low < level ==> c.indices[level] - 1 !in shared
    ensures WfTable(low, TableAt(c, low, level, t, frame).0, if low == level then shared else {})
    ensures Stores(m, TableAt(c, low, level, t, frame).1, TableAt(c, low, level, t, frame).0)
    decreases level
  {
    if level > low {
      var i := c.indices[level] - 1;
      TableAtWf(c, low, level - 1, t[i].table, {}, t[i].frame, m);
    }
  }
}
