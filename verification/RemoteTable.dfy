/** The fixed table of remote-call slots, one row for each hart, and reserving a whole batch of targets in it. */
module RemoteTable {
  import opened Wrappers

  const SLOTS_PER_HART: nat := 4

  datatype ReserveError = InvalidTarget | Full

  datatype BatchError = EmptyTargets | InvalidTargets | NoMemory | Busy

  datatype Phase = Empty | Reserved | Pending | Taken | Retired

  datatype Slot<T> = Slot(generation: nat, phase: Phase, value: Option<T>)

  datatype Reservation = Reservation(table: nat, target: nat, slot: nat, generation: nat)

  type Rows<T> = seq<seq<Slot<T>>>

  function Put<T>(rows: Rows<T>, h: nat, s: nat, x: Slot<T>): (r: Rows<T>)
    requires h < |rows| && s < |rows[h]|
    ensures |r| == |rows| && forall p :: 0 <= p < |rows| ==> |r[p]| == |rows[p]|
  {
    rows[h := rows[h][s := x]]
  }

  /** The lowest slot of a row in a phase. */
  function First<T>(row: seq<Slot<T>>, phase: Phase): (r: Option<nat>)
    ensures r.Some? ==>
            r.value < |row| && row[r.value].phase == phase && forall s :: 0 <= s < r.value ==> row[s].phase != phase
    ensures r.None? ==> forall s :: 0 <= s < |row| ==> row[s].phase != phase
    decreases |row|
  {
    if row == [] then None
    else if row[0].phase == phase then Some(0)
    else
      var rest := First(row[1..], phase);
      if rest.None? then
        assert forall s :: 1 <= s < |row| ==> row[s] == row[1..][s - 1];
        None
      else
        assert forall s :: 1 <= s <= rest.value ==> row[s] == row[1..][s - 1];
        Some(rest.value + 1)
  }

  /** The slot a finished call leaves behind. */
  function Finished<T>(x: Slot<T>): Slot<T> {
    if x.generation == U32_MAX then x.(phase := Retired) else x.(generation := x.generation + 1, phase := Empty)
  }

  // ---- a batch of targets ------------------------------------------------------------------------------

  /** Every target has an empty slot. */
  predicate AllFree<T>(rows: Rows<T>, targets: set<nat>) {
    forall h :: h in targets ==> h < |rows| && First(rows[h], Empty).Some?
  }

  /** One slot of each target is reserved, the lowest empty one. */
  function ReserveAll<T>(rows: Rows<T>, targets: set<nat>): (r: Rows<T>)
    requires AllFree(rows, targets)
  {
    seq(|rows|, h requires 0 <= h < |rows| =>
      if h in targets then var s := First(rows[h], Empty).value;
          rows[h][s := rows[h][s].(phase := Reserved)] else rows[h])
  }

  function Pick<T>(rows: Rows<T>, table: nat, h: nat): Reservation
    requires h < |rows| && First(rows[h], Empty).Some?
  {
    var s := First(rows[h], Empty).value;
    Reservation(table, h, s, rows[h][s].generation)
  }

  function Picks<T>(rows: Rows<T>, table: nat, targets: set<nat>): (r: map<nat, Reservation>)
    requires AllFree(rows, targets)
  {
    map h | h in targets :: Pick(rows, table, h)
  }

  predicate Live<T>(rows: Rows<T>, table: nat, r: Reservation, phase: Phase) {
    r.table == table && r.target < |rows| && r.slot < |rows[r.target]|
        && rows[r.target][r.slot].generation == r.generation && rows[r.target][r.slot].phase == phase
  }

  /** Every slot a batch holds gets one phase and value. */
  function SetAll<T>(rows: Rows<T>, picks: map<nat, Reservation>, phase: Phase, value: Option<T>): (r: Rows<T>) {
    seq(|rows|, h requires 0 <= h < |rows| =>
      if h in picks
          && picks[h].slot < |rows[h]| then
          rows[h][picks[h].slot := rows[h][picks[h].slot].(phase := phase, value := value)] else rows[h])
  }

  /** Every slot a batch holds is still reserved for it. */
  predicate AllReserved<T>(rows: Rows<T>, table: nat, picks: map<nat, Reservation>) {
    forall h :: h in picks ==> Live(rows, table, picks[h], Reserved)
  }

  /** A batch holds one slot of each of its targets, with nothing in it. */
  predicate HeldOnly<T>(rows: Rows<T>, table: nat, picks: map<nat, Reservation>) {
    && AllReserved(rows, table, picks)
    && forall h :: h in picks ==> h < HARTS && picks[h].target == h && rows[h][picks[h].slot].value == None
  }

  function Upto(picks: map<nat, Reservation>, n: nat): map<nat, Reservation> { map h | h in picks && h < n :: picks[h] }

  lemma SetCell<T>(rows: Rows<T>, picks: map<nat, Reservation>, phase: Phase, value: Option<T>, h: nat, i: nat)
    requires h < |rows| && i < |rows[h]|
    ensures |SetAll(rows, picks, phase, value)| == |rows| && |SetAll(rows, picks, phase, value)[h]| == |rows[h]|
    ensures SetAll(rows, picks, phase, value)[h][i] == if h in picks
            && picks[h].slot == i then rows[h][i].(phase := phase, value := value) else rows[h][i]
  {}

  /** One more slot is set. */
  lemma SetOne<T>(rows: Rows<T>, picks: map<nat, Reservation>, phase: Phase, value: Option<T>, n: nat)
    requires n < |rows| && (n in picks ==> picks[n].slot < |rows[n]|)
    ensures var now := SetAll(rows, Upto(picks, n), phase, value);
            && |now| == |rows| && now[n] == rows[n]
            && SetAll(rows, Upto(picks, n + 1), phase, value)
               == if n in picks then Put(now, n, picks[n].slot, Slot(rows[n][picks[n].slot].generation, phase, value))
                   else now
  {}

  lemma SetEnds<T>(rows: Rows<T>, picks: map<nat, Reservation>, phase: Phase, value: Option<T>)
    requires forall h :: h in picks ==> h < HARTS
    ensures SetAll(rows, Upto(picks, 0), phase, value) == rows && Upto(picks, HARTS) == picks
  {}

  class RemoteCalls<T> {
    const table: nat
    var rows: Rows<T>

    constructor (id: nat)
      ensures table == id && |rows| == HARTS
              && forall h :: 0 <= h < HARTS ==> rows[h] == seq(SLOTS_PER_HART, _ => Slot(1, Empty, None))
    {
      table := id;
      rows := seq(HARTS, _ => seq(SLOTS_PER_HART, _ => Slot(1, Empty, None)));
    }

    /** The lowest empty slot of a target. */
    method Reserve(target: nat) returns (r: Result<Reservation, ReserveError>)
      modifies this`rows
      ensures r == if target >= |old(rows)| then Err(InvalidTarget)
                   else if First(old(rows)[target], Empty).None? then Err(Full)
                   else Ok(Pick(old(rows), table, target))
      ensures rows == if r.Ok? then
              Put(old(rows), target, r.value.slot, old(rows)[target][r.value.slot].(phase := Reserved)) else old(rows)
    {
      if target >= |rows| { return Err(InvalidTarget); }
      var s := 0;
      while s < |rows[target]|
        invariant 0 <= s <= |rows[target]| && rows == old(rows)
        invariant forall q :: 0 <= q < s ==> rows[target][q].phase != Empty
      {
        if rows[target][s].phase == Empty {
          rows := Put(rows, target, s, rows[target][s].(phase := Reserved));
          return Ok(Reservation(table, target, s, rows[target][s].generation));
        }
        s := s + 1;
      }
      return Err(Full);
    }

    /** A reserved slot is given back, as it was before it was reserved. */
    method Cancel(r: Reservation) returns (ok: bool)
      modifies this`rows
      ensures ok == Live(old(rows), table, r, Reserved)
      ensures rows == if ok then Put(old(rows), r.target, r.slot, old(rows)[r.target][r.slot].(phase := Empty))
              else old(rows)
    {
      if r.table != table || r.target >= |rows| || r.slot >= |rows[r.target]|
          || rows[r.target][r.slot].generation != r.generation {
        return false;
      }
      if rows[r.target][r.slot].phase != Reserved { return false; }
      rows := Put(rows, r.target, r.slot, rows[r.target][r.slot].(phase := Empty));
      ok := true;
    }

    method Publish(r: Reservation, value: T) returns (ok: bool)
      modifies this`rows
      ensures ok == Live(old(rows), table, r, Reserved)
      ensures rows == if ok then Put(old(rows), r.target, r.slot, Slot(r.generation, Pending, Some(value)))
              else old(rows)
    {
      if r.table != table || r.target >= |rows| || r.slot >= |rows[r.target]|
          || rows[r.target][r.slot].generation != r.generation {
        return false;
      }
      if rows[r.target][r.slot].phase != Reserved { return false; }
      rows := Put(rows, r.target, r.slot, rows[r.target][r.slot].(value := Some(value), phase := Pending));
      ok := true;
    }

    /** The lowest pending call of a hart. */
    method Take(target: nat) returns (r: Option<(Reservation, T)>)
      requires forall h, s ::
               0 <= h < |rows| && 0 <= s < |rows[h]| ==> (rows[h][s].value.Some? <==> rows[h][s].phase == Pending)
      modifies this`rows
      ensures r.Some? <==> target < |old(rows)| && First(old(rows)[target], Pending).Some?
      ensures r.None? ==> rows == old(rows)
      ensures r.Some? ==> var s := First(old(rows)[target], Pending).value; var x := old(rows)[target][s];
                          && r.value == (Reservation(table, target, s, x.generation), x.value.value)
                              && rows == Put(old(rows), target, s, Slot(x.generation, Taken, None))
    {
      if target >= |rows| { return None; }
      var s := 0;
      while s < |rows[target]|
        invariant 0 <= s <= |rows[target]| && rows == old(rows)
        invariant forall q :: 0 <= q < s ==> rows[target][q].phase != Pending
      {
        if rows[target][s].phase == Pending {
          var value := rows[target][s].value.value;
          rows := Put(rows, target, s, rows[target][s].(phase := Taken, value := None));
          return Some((Reservation(table, target, s, rows[target][s].generation), value));
        }
        s := s + 1;
      }
      return None;
    }

    method Finish(r: Reservation) returns (ok: bool)
      modifies this`rows
      ensures ok == Live(old(rows), table, r, Taken)
      ensures rows == if ok then Put(old(rows), r.target, r.slot, Finished(old(rows)[r.target][r.slot])) else old(rows)
    {
      if r.table != table || r.target >= |rows| || r.slot >= |rows[r.target]|
          || rows[r.target][r.slot].generation != r.generation {
        return false;
      }
      if rows[r.target][r.slot].phase != Taken { return false; }
      if rows[r.target][r.slot].generation == U32_MAX {
        rows := Put(rows, r.target, r.slot, rows[r.target][r.slot].(phase := Retired));
      } else {
        rows := Put(rows, r.target, r.slot, rows[r.target][r.slot].(generation := r.generation + 1, phase := Empty));
      }
      ok := true;
    }

    /** Reserves every target or none: on failure the table is as it was. */
    method ReserveBatch(targets: set<nat>, admitted: set<nat>, memory: bool)
        returns (r: Result<map<nat, Reservation>, BatchError>)
      requires |rows| == HARTS
      modifies this`rows
      ensures r == if targets == {} then Err(EmptyTargets)
                   else if !(targets <= admitted) || exists h :: h in targets && h >= HARTS then Err(InvalidTargets)
                   else if !memory then Err(NoMemory)
                   else if !AllFree(old(rows), targets) then Err(Busy)
                   else Ok(Picks(old(rows), table, targets))
      ensures rows == if r.Ok? then ReserveAll(old(rows), targets) else old(rows)
    {
      if targets == {} { return Err(EmptyTargets); }
      if !(targets <= admitted) || exists h :: h in targets && h >= HARTS { return Err(InvalidTargets); }
      if !memory { return Err(NoMemory); }
      var got := ReserveTargets(targets);
      r := if got.Some? then Ok(got.value) else Err(Busy);
    }

    method ReserveTargets(targets: set<nat>) returns (r: Option<map<nat, Reservation>>)
      requires |rows| == HARTS && forall h :: h in targets ==> h < HARTS
      modifies this`rows
      ensures r.Some? <==> AllFree(old(rows), targets)
      ensures r.Some? ==> r.value == Picks(old(rows), table, targets) && rows == ReserveAll(old(rows), targets)
      ensures r.None? ==> rows == old(rows)
    {
      hide First, ReserveAll, Picks, Below;
      ghost var before := rows;
      var got: map<nat, Reservation> := map[];
      NoneReserved(before, table);
      BelowEnds(targets);
      var target: nat := 0;
      while target < HARTS
        invariant target <= HARTS && AllFree(before, Below(targets, target))
        invariant rows == ReserveAll(before, Below(targets, target))
                  && got == Picks(before, table, Below(targets, target))
      {
        if target in targets {
          BelowNext(targets, target);
          ReservedRow(before, Below(targets, target), target);
          var s := Reserve(target);
          if s.Err? {
            assert !AllFree(before, targets);
            Rollback(before, Below(targets, target), got);
            return None;
          }
          got := got[target := s.value];
          OneMore(before, table, Below(targets, target), target);
        } else {
          BelowSkip(targets, target);
        }
        target := target + 1;
      }
      r := Some(got);
    }

    /** Publishes a whole batch, one slot after the other; a batch that still holds its slots is never refused. */
    method PublishBatch(picks: map<nat, Reservation>, value: T)
      requires |rows| == HARTS && HeldOnly(rows, table, picks)
      modifies this`rows
      ensures rows == SetAll(old(rows), picks, Pending, Some(value))
    {
      hide SetAll, Upto;
      ghost var before := rows;
      SetEnds(before, picks, Pending, Some(value));
      var target: nat := 0;
      while target < HARTS
        invariant target <= HARTS && rows == SetAll(before, Upto(picks, target), Pending, Some(value))
      {
        SetOne(before, picks, Pending, Some(value), target);
        if target in picks {
          var ok := Publish(picks[target], value);
          assert ok;
        }
        target := target + 1;
      }
    }

    /** Gives a whole batch back, one slot after the other. */
    method CancelBatch(picks: map<nat, Reservation>)
      requires |rows| == HARTS && HeldOnly(rows, table, picks)
      modifies this`rows
      ensures rows == SetAll(old(rows), picks, Empty, None)
    {
      hide SetAll, Upto;
      ghost var before := rows;
      SetEnds<T>(before, picks, Empty, None);
      var target: nat := 0;
      while target < HARTS
        invariant target <= HARTS && rows == SetAll(before, Upto(picks, target), Empty, None)
      {
        SetOne<T>(before, picks, Empty, None, target);
        if target in picks {
          var ok := Cancel(picks[target]);
          assert ok;
        }
        target := target + 1;
      }
    }

    /** Gives back what a failed batch had reserved, one target after the other. */
    method Rollback(ghost before: Rows<T>, ghost done: set<nat>, got: map<nat, Reservation>)
      requires AllFree(before, done) && rows == ReserveAll(before, done) && got == Picks(before, table, done)
               && |rows| == HARTS && forall h :: h in done ==> h < HARTS
      modifies this`rows
      ensures rows == before
    {
      hide First, ReserveAll, Picks, Below;
      NoneReserved(before, table);
      BelowEnds(done);
      assert done - {} == done;
      var target: nat := 0;
      while target < HARTS
        invariant target <= HARTS && rows == ReserveAll(before, done - Below(done, target))
      {
        ghost var left := done - Below(done, target);
        PicksAt(before, table, done, target);
        if target in got {
          BelowNext(done, target);
          ReservedRow(before, left, target);
          var ok := Cancel(got[target]);
          assert ok;
          assert left == (done - Below(done, target + 1)) + {target};
          OneLess(before, done - Below(done, target + 1), target);
        } else {
          BelowSkip(done, target);
        }
        target := target + 1;
      }
      assert done - Below(done, HARTS) == {};
    }
  }

  function Below(targets: set<nat>, n: nat): set<nat> { set h | h in targets && h < n }

  lemma BelowNext(targets: set<nat>, n: nat)
    requires n in targets
    ensures Below(targets, n + 1) == Below(targets, n) + {n} && n !in Below(targets, n)
  {}

  lemma BelowSkip(targets: set<nat>, n: nat)
    requires n !in targets
    ensures Below(targets, n + 1) == Below(targets, n)
  {}

  lemma BelowEnds(targets: set<nat>)
    requires forall h :: h in targets ==> h < HARTS
    ensures Below(targets, 0) == {} && Below(targets, HARTS) == targets
  {}

  lemma NoneReserved<T>(rows: Rows<T>, table: nat)
    ensures AllFree(rows, {}) && ReserveAll(rows, {}) == rows && Picks(rows, table, {}) == map[]
  {}

  lemma PicksAt<T>(rows: Rows<T>, table: nat, done: set<nat>, h: nat)
    requires AllFree(rows, done)
    ensures h in Picks(rows, table, done) <==> h in done
    ensures h in done ==> Picks(rows, table, done)[h] == Pick(rows, table, h)
  {}

  lemma ReservedRow<T>(rows: Rows<T>, done: set<nat>, h: nat)
    requires AllFree(rows, done) && h < |rows|
    ensures |ReserveAll(rows, done)| == |rows|
    ensures h !in done ==> ReserveAll(rows, done)[h] == rows[h]
    ensures h in done ==> var s := First(rows[h], Empty).value;
            ReserveAll(rows, done)[h] == rows[h][s := rows[h][s].(phase := Reserved)]
  {}

  lemma OneMore<T>(rows: Rows<T>, table: nat, done: set<nat>, h: nat)
    requires AllFree(rows, done) && h < |rows| && h !in done && First(rows[h], Empty).Some?
    ensures AllFree(rows, done + {h})
    ensures var s := First(rows[h], Empty).value;
            ReserveAll(rows, done + {h}) == ReserveAll(rows, done)[h := rows[h][s := rows[h][s].(phase := Reserved)]]
    ensures Picks(rows, table, done + {h}) == Picks(rows, table, done)[h := Pick(rows, table, h)]
  {}

  lemma OneLess<T>(rows: Rows<T>, done: set<nat>, h: nat)
    requires AllFree(rows, done + {h}) && h < |rows| && h !in done
    ensures AllFree(rows, done)
    ensures var s := First(rows[h], Empty).value; var all: Rows<T> := ReserveAll(rows, done + {h});
            |all| == |rows| && s < |all[h]|
                && Put(all, h, s, Slot(all[h][s].generation, Empty, all[h][s].value)) == ReserveAll(rows, done)
  {
    var s := First(rows[h], Empty).value;
    var all: Rows<T> := ReserveAll(rows, done + {h});
    assert Slot(all[h][s].generation, Empty, all[h][s].value) == rows[h][s];
    assert all[h][s := rows[h][s]] == rows[h];
  }
}
