/**
  Remote calls over whole runs: batches reserved and published by some harts, executed, acknowledged and completed by
  others, in any order.
*/
module RemoteRun {
  import opened Wrappers
  import opened RemoteTable

  const TABLE: nat := 1

  datatype Stage = Held | Sent | Dropped

  /**
    A batch of targets with its completion word. `picks` are the slots it was given, `remaining` the targets that
    have not acknowledged, `fenced` the targets that have executed its fence, `closer` the hart that owes the sink
    its one call, and `sinks` how often the sink was called.
  */
  datatype Batch = Batch(stage: Stage, targets: set<nat>, picks: map<nat, Reservation>, remaining: set<nat>,
                         fenced: set<nat>, closer: Option<nat>, sinks: nat)

  /** Where a hart is in its drain loop. */
  datatype Hart =
    | Idle
    | Running(b: nat, token: Reservation)
    | Fenced(b: nat, token: Reservation)
    | Acked(b: nat, token: Reservation, last: bool)
    | Done(b: nat, last: bool)

  /** `panicked` is set when one of the program's asserts fails. */
  datatype State = State(rows: Rows<nat>, harts: seq<Hart>, batches: map<nat, Batch>, panicked: bool)

  datatype Step =
    | DoReserve(b: nat, targets: set<nat>)
    | DoDrop(b: nat)
    | DoPublish(b: nat)
    | DoTake(h: nat)
    | DoFence(h: nat)
    | DoAck(h: nat)
    | DoFinish(h: nat)
    | DoSink(h: nat)

  function Initial(): State {
    State(seq(HARTS, _ => seq(SLOTS_PER_HART, _ => Slot(1, Empty, None))), seq(HARTS, _ => Idle), map[], false)
  }

  predicate Enabled(s: State, step: Step) {
    match step
    case DoReserve(b, targets) => b !in s.batches && targets != {} && forall h :: h in targets ==> h < |s.rows|
    case DoDrop(b) => b in s.batches && s.batches[b].stage == Held
    case DoPublish(b) => b in s.batches && s.batches[b].stage == Held
    case DoTake(h) => h < |s.harts| && h < |s.rows| && s.harts[h].Idle? && First(s.rows[h], Pending).Some?
    case DoFence(h) => h < |s.harts| && s.harts[h].Running?
    case DoAck(h) => h < |s.harts| && s.harts[h].Fenced?
    case DoFinish(h) => h < |s.harts| && s.harts[h].Acked?
    case DoSink(h) => h < |s.harts| && s.harts[h].Done?
  }

  function Next(s: State, step: Step): State
    requires Enabled(s, step)
  {
    match step
    case DoReserve(b, targets) =>
      if AllFree(s.rows, targets) then
        s.(rows := ReserveAll(s.rows, targets),
           batches := s.batches[b := Batch(Held, targets, Picks(s.rows, TABLE, targets), targets, {}, None, 0)])
      else s
    case DoDrop(b) =>
      if !AllReserved(s.rows, TABLE, s.batches[b].picks) then s.(panicked := true)
      else s.(rows := SetAll(s.rows, s.batches[b].picks, Empty, None),
              batches := s.batches[b := s.batches[b].(stage := Dropped)])
    case DoPublish(b) =>
      if !AllReserved(s.rows, TABLE, s.batches[b].picks) then s.(panicked := true)
      else s.(rows := SetAll(s.rows, s.batches[b].picks, Pending, Some(b)),
              batches := s.batches[b := s.batches[b].(stage := Sent)])
    case DoTake(h) => TakeStep(s, h)
    case DoFence(h) =>
      var b := s.harts[h].b;
      if b !in s.batches then s.(panicked := true)
      else s.(harts := s.harts[h := Fenced(b, s.harts[h].token)],
              batches := s.batches[b := s.batches[b].(fenced := s.batches[b].fenced + {h})])
    case DoAck(h) =>
      var b := s.harts[h].b;
      if b !in s.batches || h !in s.batches[b].remaining then s.(panicked := true)
      else
        var last := s.batches[b].remaining == {h};
        s.(harts := s.harts[h := Acked(b, s.harts[h].token, last)],
           batches := s.batches[b := s.batches[b].(
                                  remaining := s.batches[b].remaining - {h},
                                  closer := if last then Some(h) else s.batches[b].closer)])
    case DoFinish(h) =>
      var token := s.harts[h].token;
      if !Live(s.rows, TABLE, token, Taken) then s.(panicked := true)
      else s.(harts := s.harts[h := Done(s.harts[h].b, s.harts[h].last)],
              rows := Put(s.rows, token.target, token.slot, Finished(s.rows[token.target][token.slot])))
    case DoSink(h) =>
      var b := s.harts[h].b;
      if !s.harts[h].last then s.(harts := s.harts[h := Idle])
      else if b !in s.batches then s.(panicked := true)
      else s.(harts := s.harts[h := Idle],
              batches := s.batches[b := s.batches[b].(closer := None, sinks := s.batches[b].sinks + 1)])
  }

  function TakeStep(s: State, h: nat): State
    requires Enabled(s, DoTake(h))
  {
    var i := First(s.rows[h], Pending).value;
    var x := s.rows[h][i];
    if x.value.None? then s.(panicked := true)
    else s.(rows := Put(s.rows, h, i, Slot(x.generation, Taken, None)),
            harts := s.harts[h := Running(x.value.value, Reservation(TABLE, h, i, x.generation))])
  }

  ghost predicate Run(s: State, steps: seq<Step>, e: State)
    decreases |steps|
  {
    if steps == [] then s == e else Enabled(s, steps[0]) && Run(Next(s, steps[0]), steps[1..], e)
  }

  // ---- the invariant -----------------------------------------------------------------------------------

  predicate On(hart: Hart, b: nat) { (hart.Running? || hart.Fenced?) && hart.b == b }

  predicate Closing(hart: Hart, b: nat) { (hart.Acked? || hart.Done?) && hart.b == b && hart.last }

  predicate Holds(hart: Hart, token: Reservation) {
    (hart.Running? || hart.Fenced? || hart.Acked?) && hart.token == token
  }

  predicate SlotInv(s: State, h: nat, i: nat)
    requires |s.harts| == |s.rows|
  {
    h < |s.rows| && i < |s.rows[h]| ==>
      var x := s.rows[h][i];
      && (x.value.Some? <==> x.phase == Pending)
      && (x.phase == Pending ==>
            var b := x.value.value;
            && b in s.batches && s.batches[b].stage == Sent && h in s.batches[b].remaining && h in s.batches[b].picks
            && s.batches[b].picks[h] == Reservation(TABLE, h, i, x.generation) && !On(s.harts[h], b))
      && (x.phase == Taken <==> Holds(s.harts[h], Reservation(TABLE, h, i, x.generation)))
  }

  /** The call is waiting in the slot the batch was given. */
  predicate Waits(rows: Rows<nat>, picks: map<nat, Reservation>, h: nat, b: nat) {
    h in picks && picks[h].target == h && Live(rows, TABLE, picks[h], Pending)
        && rows[h][picks[h].slot].value == Some(b)
  }

  predicate BatchInv(s: State, b: nat)
    requires |s.harts| == |s.rows|
  {
    b in s.batches ==>
      var a := s.batches[b];
      && a.targets != {} && (forall h :: h in a.targets ==> h < |s.rows|) && a.remaining <= a.targets
          && a.fenced <= a.targets && a.picks.Keys == a.targets
      && (a.stage == Held ==>
          a.remaining == a.targets && a.fenced == {}
          && (forall h :: h in a.picks ==> a.picks[h].target == h && Live(s.rows, TABLE, a.picks[h], Reserved)))
      && (a.stage != Sent ==> a.closer == None && a.sinks == 0)
      && (a.stage == Sent ==>
            && (forall h :: h in a.remaining ==> On(s.harts[h], b) || Waits(s.rows, a.picks, h, b))
            && a.targets - a.remaining <= a.fenced
            && a.sinks + One(a.closer.Some?) == One(a.remaining == {}))
      && (a.closer.Some? ==> a.closer.value < |s.harts| && Closing(s.harts[a.closer.value], b))
  }

  predicate HartInv(s: State, h: nat)
    requires |s.harts| == |s.rows|
  {
    h < |s.harts| && !s.harts[h].Idle? ==>
      var x := s.harts[h];
      && x.b in s.batches && s.batches[x.b].stage == Sent
      && (x.Running? || x.Fenced? ==> h in s.batches[x.b].remaining)
      && (x.Fenced? ==> h in s.batches[x.b].fenced)
      && (x.Running? || x.Fenced? || x.Acked? ==> x.token.target == h && Live(s.rows, TABLE, x.token, Taken))
      && (Closing(x, x.b) ==> s.batches[x.b].closer == Some(h))
  }

  /** Two batches hold different slots. */
  predicate Apart(s: State, b: nat, c: nat) {
    b != c && b in s.batches && c in s.batches && s.batches[b].stage == Held && s.batches[c].stage == Held ==>
      forall h :: h in s.batches[b].picks && h in s.batches[c].picks ==>
        s.batches[b].picks[h].slot != s.batches[c].picks[h].slot
  }

  ghost predicate Inv(s: State) {
    && |s.harts| == |s.rows| && !s.panicked
    && (forall h: nat, i: nat :: SlotInv(s, h, i))
    && (forall b: nat :: BatchInv(s, b))
    && (forall h: nat :: HartInv(s, h))
    && (forall b: nat, c: nat :: Apart(s, b, c))
  }

  lemma InitialOk()
    ensures Inv(Initial())
  {}

  // ---- steps by those who call -------------------------------------------------------------------------

  lemma ReserveCell(rows: Rows<nat>, targets: set<nat>, h: nat, i: nat)
    requires AllFree(rows, targets) && h < |rows| && i < |rows[h]|
    ensures |ReserveAll(rows, targets)| == |rows| && |ReserveAll(rows, targets)[h]| == |rows[h]|
    ensures ReserveAll(rows, targets)[h][i] == if h in targets
            && i == First(rows[h], Empty).value then rows[h][i].(phase := Reserved) else rows[h][i]
    ensures ReserveAll(rows, targets)[h][i] != rows[h][i] ==> rows[h][i].phase == Empty
  {}

  lemma ReserveKeeps(s: State, b: nat, targets: set<nat>)
    requires Inv(s) && Enabled(s, DoReserve(b, targets)) && AllFree(s.rows, targets)
    ensures Inv(Next(s, DoReserve(b, targets)))
  {
    hide First, ReserveAll, Picks;
    var n := Next(s, DoReserve(b, targets));
    ReserveSize(s.rows, targets);
    forall h: nat, i: nat
      ensures SlotInv(n, h, i)
    {
      assert SlotInv(s, h, i);
      if h < |s.rows| && i < |s.rows[h]| { ReserveCell(s.rows, targets, h, i); }
    }
    forall c: nat ensures BatchInv(n, c) { ReserveBatchKeeps(s, b, targets, c); }
    forall h: nat ensures HartInv(n, h) {
      assert HartInv(s, h);
      if h < |s.harts| && (s.harts[h].Running? || s.harts[h].Fenced? || s.harts[h].Acked?) {
        ReserveCell(s.rows, targets, h, s.harts[h].token.slot);
      }
    }
    forall c: nat, d: nat ensures Apart(n, c, d) {
      assert Apart(s, c, d);
      ReserveApart(s, b, targets, c);
      ReserveApart(s, b, targets, d);
    }
  }

  lemma ReserveSize(rows: Rows<nat>, targets: set<nat>)
    requires AllFree(rows, targets)
    ensures |ReserveAll(rows, targets)| == |rows|
            && forall h :: 0 <= h < |rows| ==> |ReserveAll(rows, targets)[h]| == |rows[h]|
  {}

  lemma ReserveApart(s: State, b: nat, targets: set<nat>, c: nat)
    requires Inv(s) && AllFree(s.rows, targets)
    ensures c in s.batches && s.batches[c].stage == Held ==>
            forall h :: h in Picks(s.rows, TABLE, targets) && h in s.batches[c].picks ==>
              Picks(s.rows, TABLE, targets)[h].slot != s.batches[c].picks[h].slot
  {
    assert BatchInv(s, c);
    if c in s.batches && s.batches[c].stage == Held {
      forall h | h in Picks(s.rows, TABLE, targets) && h in s.batches[c].picks
        ensures Picks(s.rows, TABLE, targets)[h].slot != s.batches[c].picks[h].slot
      {
        assert Live(s.rows, TABLE, s.batches[c].picks[h], Reserved);
      }
    }
  }

  lemma ReserveBatchKeeps(s: State, b: nat, targets: set<nat>, c: nat)
    requires Inv(s) && Enabled(s, DoReserve(b, targets)) && AllFree(s.rows, targets)
             && |Next(s, DoReserve(b, targets)).rows| == |s.rows|
    ensures BatchInv(Next(s, DoReserve(b, targets)), c)
  {
    hide First, ReserveAll, Picks;
    var n := Next(s, DoReserve(b, targets));
    assert BatchInv(s, c);
    if c == b {
      forall h ensures h in n.batches[b].picks <==> h in targets { PicksAt(s.rows, TABLE, targets, h); }
      forall h | h in targets
        ensures n.batches[b].picks[h].target == h && Live(n.rows, TABLE, n.batches[b].picks[h], Reserved)
      {
        PicksAt(s.rows, TABLE, targets, h);
        ReserveCell(s.rows, targets, h, First(s.rows[h], Empty).value);
      }
    } else if c in s.batches {
      var a := s.batches[c];
      forall h | h in a.picks
        ensures Live(s.rows, TABLE, a.picks[h], Reserved) ==> Live(n.rows, TABLE, a.picks[h], Reserved)
      {
        if Live(s.rows, TABLE, a.picks[h], Reserved) {
          ReserveCell(s.rows, targets, a.picks[h].target, a.picks[h].slot);
        }
      }
      forall h | h in a.picks && Waits(s.rows, a.picks, h, c)
        ensures Waits(n.rows, a.picks, h, c)
      {
        ReserveCell(s.rows, targets, h, a.picks[h].slot);
      }
    }
  }

  /** The slots a held batch has are reserved, for it alone. */
  lemma HeldSlots(s: State, b: nat)
    requires Inv(s) && b in s.batches && s.batches[b].stage == Held
    ensures AllReserved(s.rows, TABLE, s.batches[b].picks)
    ensures forall h ::
            h in s.batches[b].picks ==>
            h < |s.rows| && s.batches[b].picks[h].target == h && s.batches[b].picks[h].slot < |s.rows[h]|
  {
    assert BatchInv(s, b);
    forall h | h in s.batches[b].picks ensures Live(s.rows, TABLE, s.batches[b].picks[h], Reserved) {}
  }

  lemma ReleaseKeeps(s: State, b: nat, step: Step)
    requires Inv(s) && Enabled(s, step) && (step == DoDrop(b) || step == DoPublish(b))
    ensures Inv(Next(s, step))
  {
    hide SetAll;
    var n := Next(s, step);
    HeldSlots(s, b);
    SetSize(s.rows, s.batches[b].picks, if step.DoDrop? then Empty
            else Pending, if step.DoDrop? then None else Some(b));
    forall h: nat, i: nat ensures SlotInv(n, h, i) { ReleaseSlot(s, b, step, h, i); }
    forall c: nat ensures BatchInv(n, c) { ReleaseBatch(s, b, step, c); }
    forall h: nat ensures HartInv(n, h) {
      assert HartInv(s, h);
      if h < |s.harts| && (s.harts[h].Running? || s.harts[h].Fenced? || s.harts[h].Acked?) {
        ReleaseCell(s, b, step, h, s.harts[h].token.slot);
      }
    }
    forall c: nat, d: nat ensures Apart(n, c, d) { assert Apart(s, c, d); }
  }

  lemma SetSize(rows: Rows<nat>, picks: map<nat, Reservation>, phase: Phase, value: Option<nat>)
    ensures |SetAll(rows, picks, phase, value)| == |rows|
            && forall h :: 0 <= h < |rows| ==> |SetAll(rows, picks, phase, value)[h]| == |rows[h]|
  {}

  lemma ReleaseCell(s: State, b: nat, step: Step, h: nat, i: nat)
    requires Inv(s) && Enabled(s, step) && (step == DoDrop(b) || step == DoPublish(b)) && h < |s.rows|
             && i < |s.rows[h]|
    ensures var n := Next(s, step); var picks := s.batches[b].picks;
            && |n.rows| == |s.rows| && |n.rows[h]| == |s.rows[h]| && n.harts == s.harts && !n.panicked
            && n.batches == s.batches[b := s.batches[b].(stage := if step.DoDrop? then Dropped else Sent)]
            && (h in picks && picks[h].slot == i ==>
                s.rows[h][i].phase == Reserved && picks[h] == Reservation(TABLE, h, i, s.rows[h][i].generation))
            && (h in picks && picks[h].slot == i ==>
                n.rows[h][i]
                == s.rows[h][i].(phase := if step.DoDrop? then Empty
                                 else Pending, value := if step.DoDrop? then None else Some(b)))
            && (!(h in picks && picks[h].slot == i) ==> n.rows[h][i] == s.rows[h][i])
  {
    HeldSlots(s, b);
    SetCell(s.rows, s.batches[b].picks, if step.DoDrop? then Empty
            else Pending, if step.DoDrop? then None else Some(b), h, i);
    if h in s.batches[b].picks { assert Live(s.rows, TABLE, s.batches[b].picks[h], Reserved); }
  }

  lemma ReleaseSlot(s: State, b: nat, step: Step, h: nat, i: nat)
    requires Inv(s) && Enabled(s, step) && (step == DoDrop(b) || step == DoPublish(b))
             && |Next(s, step).rows| == |Next(s, step).harts|
    ensures SlotInv(Next(s, step), h, i)
  {
    hide SetAll;
    assert SlotInv(s, h, i) && BatchInv(s, b);
    HeldSlots(s, b);
    SetSize(s.rows, s.batches[b].picks, if step.DoDrop? then Empty
            else Pending, if step.DoDrop? then None else Some(b));
    if h < |s.rows| && i < |s.rows[h]| {
      ReleaseCell(s, b, step, h, i);
      assert HartInv(s, h);
    }
  }

  lemma ReleaseBatch(s: State, b: nat, step: Step, c: nat)
    requires Inv(s) && Enabled(s, step) && (step == DoDrop(b) || step == DoPublish(b))
             && |Next(s, step).rows| == |Next(s, step).harts| == |s.rows|
    ensures BatchInv(Next(s, step), c)
  {
    hide SetAll;
    var n := Next(s, step);
    assert BatchInv(s, c) && BatchInv(s, b) && Apart(s, b, c);
    HeldSlots(s, b);
    if c in s.batches {
      var a := s.batches[c];
      forall h | h in a.picks && a.picks[h].target == h && Live(s.rows, TABLE, a.picks[h], Reserved) && a.stage == Held
          && c != b
        ensures Live(n.rows, TABLE, a.picks[h], Reserved)
      {
        ReleaseCell(s, b, step, h, a.picks[h].slot);
      }
      forall h | Waits(s.rows, a.picks, h, c)
        ensures Waits(n.rows, a.picks, h, c)
      {
        ReleaseCell(s, b, step, h, a.picks[h].slot);
      }
      if c == b && step.DoPublish? {
        forall h | h in a.remaining
          ensures Waits(n.rows, a.picks, h, c)
        {
          ReleaseCell(s, b, step, h, a.picks[h].slot);
        }
      }
    }
  }

  // ---- steps by the harts that are called --------------------------------------------------------------

  lemma TakeKeeps(s: State, h: nat)
    requires Inv(s) && Enabled(s, DoTake(h))
    ensures Inv(Next(s, DoTake(h)))
  {
    hide First;
    var n := Next(s, DoTake(h));
    var i := First(s.rows[h], Pending).value;
    FirstAt(s.rows[h], Pending);
    assert SlotInv(s, h, i);
    var b := s.rows[h][i].value.value;
    forall p: nat, q: nat ensures SlotInv(n, p, q) { assert SlotInv(s, p, q) && SlotInv(s, h, i); }
    forall c: nat ensures BatchInv(n, c) {
      assert BatchInv(s, c);
      if c in s.batches && s.batches[c].stage == Sent {
        forall p | p in s.batches[c].remaining ensures On(n.harts[p], c) || Waits(n.rows, s.batches[c].picks, p, c) {
          if p == h && !On(s.harts[p], c) { assert Waits(s.rows, s.batches[c].picks, p, c); }
        }
      }
    }
    forall p: nat ensures HartInv(n, p) { assert HartInv(s, p); }
    forall c: nat, d: nat ensures Apart(n, c, d) { assert Apart(s, c, d); }
  }

  lemma FirstAt(row: seq<Slot<nat>>, phase: Phase)
    requires First(row, phase).Some?
    ensures First(row, phase).value < |row| && row[First(row, phase).value].phase == phase
  {}

  lemma FenceKeeps(s: State, h: nat)
    requires Inv(s) && Enabled(s, DoFence(h))
    ensures Inv(Next(s, DoFence(h)))
  {
    var n := Next(s, DoFence(h));
    assert HartInv(s, h);
    var b := s.harts[h].b;
    assert BatchInv(s, b);
    forall p: nat, q: nat ensures SlotInv(n, p, q) { assert SlotInv(s, p, q); }
    forall c: nat ensures BatchInv(n, c) { assert BatchInv(s, c); }
    forall p: nat ensures HartInv(n, p) { assert HartInv(s, p); }
    forall c: nat, d: nat ensures Apart(n, c, d) { assert Apart(s, c, d); }
  }

  lemma AckKeeps(s: State, h: nat)
    requires Inv(s) && Enabled(s, DoAck(h))
    ensures Inv(Next(s, DoAck(h)))
  {
    var n := Next(s, DoAck(h));
    assert HartInv(s, h);
    var b := s.harts[h].b;
    assert BatchInv(s, b);
    forall p: nat, q: nat ensures SlotInv(n, p, q) { assert SlotInv(s, p, q); }
    forall c: nat ensures BatchInv(n, c) { assert BatchInv(s, c); }
    forall p: nat ensures HartInv(n, p) { assert HartInv(s, p); }
    forall c: nat, d: nat ensures Apart(n, c, d) { assert Apart(s, c, d); }
  }

  lemma FinishKeeps(s: State, h: nat)
    requires Inv(s) && Enabled(s, DoFinish(h))
    ensures Inv(Next(s, DoFinish(h)))
  {
    var n := Next(s, DoFinish(h));
    assert HartInv(s, h);
    var b, token := s.harts[h].b, s.harts[h].token;
    assert BatchInv(s, b) && SlotInv(s, h, token.slot);
    forall p: nat, q: nat ensures SlotInv(n, p, q) { assert SlotInv(s, p, q); }
    forall c: nat ensures BatchInv(n, c) { FinishBatch(s, h, c); }
    forall p: nat ensures HartInv(n, p) { assert HartInv(s, p); }
    forall c: nat, d: nat ensures Apart(n, c, d) { assert Apart(s, c, d); }
  }

  lemma FinishBatch(s: State, h: nat, c: nat)
    requires Inv(s) && Enabled(s, DoFinish(h)) && |Next(s, DoFinish(h)).harts| == |Next(s, DoFinish(h)).rows|
    ensures BatchInv(Next(s, DoFinish(h)), c)
  {
    var n := Next(s, DoFinish(h));
    assert HartInv(s, h) && BatchInv(s, c);
    if c in s.batches {
      var a := s.batches[c];
      forall p | p in a.picks
          && Live(s.rows, TABLE, a.picks[p], Reserved) ensures Live(n.rows, TABLE, a.picks[p], Reserved) {}
      forall p | Waits(s.rows, a.picks, p, c) ensures Waits(n.rows, a.picks, p, c) {}
    }
  }

  lemma SinkKeeps(s: State, h: nat)
    requires Inv(s) && Enabled(s, DoSink(h))
    ensures Inv(Next(s, DoSink(h)))
  {
    var n := Next(s, DoSink(h));
    assert HartInv(s, h);
    var b := s.harts[h].b;
    assert BatchInv(s, b);
    forall p: nat, q: nat ensures SlotInv(n, p, q) { assert SlotInv(s, p, q); }
    forall c: nat ensures BatchInv(n, c) { assert BatchInv(s, c); }
    forall p: nat ensures HartInv(n, p) { assert HartInv(s, p); }
    forall c: nat, d: nat ensures Apart(n, c, d) { assert Apart(s, c, d); }
  }

  lemma StepKeeps(s: State, step: Step)
    requires Inv(s) && Enabled(s, step)
    ensures Inv(Next(s, step))
  {
    hide Inv;
    match step
    case DoReserve(b, targets) => if AllFree(s.rows, targets) { ReserveKeeps(s, b, targets); }
    case DoDrop(b) => ReleaseKeeps(s, b, step);
    case DoPublish(b) => ReleaseKeeps(s, b, step);
    case DoTake(h) => TakeKeeps(s, h);
    case DoFence(h) => FenceKeeps(s, h);
    case DoAck(h) => AckKeeps(s, h);
    case DoFinish(h) => FinishKeeps(s, h);
    case DoSink(h) => SinkKeeps(s, h);
  }

  // ---- whole runs --------------------------------------------------------------------------------------

  lemma {:induction false} RunKeeps(s: State, steps: seq<Step>, e: State)
    requires Inv(s) && Run(s, steps, e)
    ensures Inv(e)
    decreases |steps|
  {
    hide Inv, Enabled, Next;
    if steps != [] {
      StepKeeps(s, steps[0]);
      RunKeeps(Next(s, steps[0]), steps[1..], e);
    }
  }

  /** In every run none of the asserts fails: no target acknowledges twice, and no slot is lost to its holder. */
  lemma NeverPanics(steps: seq<Step>, e: State)
    requires Run(Initial(), steps, e)
    ensures !e.panicked
  {
    InitialOk();
    RunKeeps(Initial(), steps, e);
  }

  /**
    In every run the sink of a batch is called at most once, after every target has acknowledged and has fenced since
    the batch was sent.
  */
  lemma SinkOnce(steps: seq<Step>, e: State, b: nat)
    requires Run(Initial(), steps, e) && b in e.batches
    ensures e.batches[b].sinks <= 1
    ensures e.batches[b].sinks == 1 ==>
            e.batches[b].stage == Sent && e.batches[b].remaining == {} && e.batches[b].targets == e.batches[b].fenced
    ensures e.batches[b].stage == Held ==> e.batches[b].fenced == {}
  {
    InitialOk();
    RunKeeps(Initial(), steps, e);
    assert BatchInv(e, b);
  }

  /** A hart has a call to take or is in the middle of one. */
  predicate Busy(s: State, h: nat) {
    h < |s.harts| && h < |s.rows| && (!s.harts[h].Idle? || First(s.rows[h], Pending).Some?)
  }

  function HartStep(s: State, h: nat): Step
    requires Busy(s, h)
  {
    match s.harts[h]
    case Idle => DoTake(h)
    case Running(_, _) => DoFence(h)
    case Fenced(_, _) => DoAck(h)
    case Acked(_, _, _) => DoFinish(h)
    case Done(_, _) => DoSink(h)
  }

  /**
    In every run, a batch that is sent and not complete has a hart that can go on with it; so when all is quiet every
    sink has been called.
  */
  lemma NoneLost(steps: seq<Step>, e: State, b: nat) returns (h: nat)
    requires Run(Initial(), steps, e) && b in e.batches && e.batches[b].stage == Sent && e.batches[b].sinks == 0
    ensures Busy(e, h) && Enabled(e, HartStep(e, h)) && (h in e.batches[b].remaining || e.batches[b].closer == Some(h))
  {
    InitialOk();
    RunKeeps(Initial(), steps, e);
    assert BatchInv(e, b);
    if e.batches[b].remaining == {} {
      h := e.batches[b].closer.value;
    } else {
      h :| h in e.batches[b].remaining;
      if !On(e.harts[h], b) { assert Waits(e.rows, e.batches[b].picks, h, b); }
    }
  }

  // ---- every schedule ends -----------------------------------------------------------------------------

  function Waiting(row: seq<Slot<nat>>): nat {
    if row == [] then 0 else Waiting(row[..|row| - 1]) + One(row[|row| - 1].phase == Pending)
  }

  function Togo(hart: Hart): nat {
    match hart
    case Idle => 0
    case Running(_, _) => 4
    case Fenced(_, _) => 3
    case Acked(_, _, _) => 2
    case Done(_, _) => 1
  }

  /** The steps the first `n` harts still have to make. */
  function Work(s: State, n: nat): nat
    requires n <= |s.harts| == |s.rows|
  {
    if n == 0 then 0 else Work(s, n - 1) + 5 * Waiting(s.rows[n - 1]) + Togo(s.harts[n - 1])
  }

  lemma {:induction false} WaitingPut(row: seq<Slot<nat>>, i: nat, x: Slot<nat>)
    requires i < |row|
    ensures Waiting(row[i := x]) == Waiting(row) - One(row[i].phase == Pending) + One(x.phase == Pending)
  {
    var n := |row| - 1;
    if i == n {
      assert row[i := x][..n] == row[..n];
    } else {
      assert row[i := x][..n] == row[..n][i := x];
      WaitingPut(row[..n], i, x);
    }
  }

  lemma {:induction false} WorkChange(s: State, e: State, h: nat, n: nat)
    requires |s.harts| == |s.rows| == |e.harts| == |e.rows| && h < |s.harts| && n <= |s.harts|
    requires forall p :: 0 <= p < |s.harts| && p != h ==> s.harts[p] == e.harts[p] && s.rows[p] == e.rows[p]
    ensures Work(e, n) - Work(s, n) == if h < n then
            5 * Waiting(e.rows[h]) + Togo(e.harts[h]) - 5 * Waiting(s.rows[h]) - Togo(s.harts[h]) else 0
  {
    if n > 0 { WorkChange(s, e, h, n - 1); }
  }

  /** Each step of a hart leaves less to do; when nothing is left every batch sent has had its sink called. */
  lemma HartStepsEnd(s: State, h: nat)
    requires Inv(s) && Busy(s, h)
    ensures Enabled(s, HartStep(s, h)) && Inv(Next(s, HartStep(s, h))) && |Next(s, HartStep(s, h)).harts| == |s.harts|
    ensures Work(Next(s, HartStep(s, h)), |s.harts|) < Work(s, |s.harts|)
  {
    hide First;
    var step := HartStep(s, h);
    StepKeeps(s, step);
    var e := Next(s, step);
    assert HartInv(s, h);
    WorkChange(s, e, h, |s.harts|);
    if step.DoTake? {
      FirstAt(s.rows[h], Pending);
      var i := First(s.rows[h], Pending).value;
      WaitingPut(s.rows[h], i, Slot(s.rows[h][i].generation, Taken, None));
    } else if step.DoFinish? {
      var token := s.harts[h].token;
      WaitingPut(s.rows[h], token.slot, Finished(s.rows[h][token.slot]));
    }
  }

  // ---- slots are not used again too soon ---------------------------------------------------------------

  /** A slot a hart works from stays its own until that hart finishes with it. */
  lemma TakenStays(s: State, step: Step, h: nat)
    requires Inv(s) && Enabled(s, step) && h < |s.harts| && !s.harts[h].Idle? && !s.harts[h].Done?
             && step != DoFinish(h)
    ensures var e := Next(s, step);
            h < |e.harts| && !e.harts[h].Idle? && !e.harts[h].Done? && e.harts[h].token == s.harts[h].token
            && Live(e.rows, TABLE, s.harts[h].token, Taken)
  {
    StepKeeps(s, step);
    assert HartInv(s, h) && HartInv(Next(s, step), h);
  }

  /** The use of a slot that a token was for is over for good. */
  predicate Past(rows: Rows<nat>, token: Reservation) {
    token.target < |rows| && token.slot < |rows[token.target]| &&
    var x := rows[token.target][token.slot];
        x.generation > token.generation || (x.generation == token.generation && x.phase == Retired)
  }

  lemma FinishIsPast(s: State, h: nat)
    requires Inv(s) && Enabled(s, DoFinish(h))
    ensures Past(Next(s, DoFinish(h)).rows, s.harts[h].token)
  {
    assert HartInv(s, h);
  }

  lemma PastStays(s: State, step: Step, token: Reservation)
    requires Inv(s) && Enabled(s, step) && Past(s.rows, token)
    ensures Past(Next(s, step).rows, token)
            && forall phase :: phase != Retired ==> !Live(Next(s, step).rows, TABLE, token, phase)
  {
    var h, i := token.target, token.slot;
    match step
    case DoReserve(b, targets) => if AllFree(s.rows, targets) { ReserveCell(s.rows, targets, h, i); }
    case DoDrop(b) => ReleaseCell(s, b, step, h, i);
    case DoPublish(b) => ReleaseCell(s, b, step, h, i);
    case DoFinish(p) => assert HartInv(s, p);
    case DoTake(p) => assert First(s.rows[p], Pending).value < |s.rows[p]|;
    case _ =>
  }

  lemma {:induction false} PastForGood(s: State, steps: seq<Step>, e: State, token: Reservation)
    requires Inv(s) && Run(s, steps, e) && Past(s.rows, token)
    ensures Past(e.rows, token)
    decreases |steps|
  {
    hide Inv, Enabled, Next, Past;
    if steps != [] {
      StepKeeps(s, steps[0]);
      PastStays(s, steps[0], token);
      PastForGood(Next(s, steps[0]), steps[1..], e, token);
    }
  }

  /** In every run, once a hart has finished with a slot, its token is never live again: every call refuses it. */
  lemma FinishedForGood(before: seq<Step>, s: State, h: nat, later: seq<Step>, e: State)
    requires Run(Initial(), before, s) && Enabled(s, DoFinish(h)) && Run(Next(s, DoFinish(h)), later, e)
    ensures forall phase :: phase != Retired ==> !Live(e.rows, TABLE, s.harts[h].token, phase)
  {
    InitialOk();
    RunKeeps(Initial(), before, s);
    FinishIsPast(s, h);
    StepKeeps(s, DoFinish(h));
    PastForGood(Next(s, DoFinish(h)), later, e, s.harts[h].token);
  }
}
