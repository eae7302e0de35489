/**
  The fixed-capacity work-debt table: slots handed out by reservation, queued by owner, taken, parked and woken by
  one-use tokens.
*/
module WorkDebts {
  import opened Wrappers
  import opened DebtQueues

  datatype Reservation = Reservation(table: nat, slot: nat, generation: nat)

  /** The token of whoever runs a taken debt, and likewise the token that wakes one. */
  datatype Ticket = Ticket(table: nat, owner: nat, slot: nat, generation: nat)

  // ---- the table but for its links ---------------------------------------------------------------------

  function Bare<T>(x: Slot<T>): Slot<T> { x.(next := None) }

  function Views<T>(slots: seq<Slot<T>>): (v: seq<Slot<T>>)
    ensures |v| == |slots| && forall s :: 0 <= s < |slots| ==> v[s] == Bare(slots[s])
  {
    seq(|slots|, s requires 0 <= s < |slots| => Bare(slots[s]))
  }

  lemma PutViews<T>(slots: seq<Slot<T>>, s: nat, x: Slot<T>)
    requires s < |slots|
    ensures Views(slots[s := x]) == Views(slots)[s := Bare(x)]
  {}

  lemma LinkedViews<T>(slots: seq<Slot<T>>, tail: Option<nat>, s: nat)
    ensures Views(Linked(slots, tail, s)) == Views(slots)
  {}

  predicate SlotOk<T>(x: Slot<T>, owners: nat) {
    && 0 < x.generation <= U32_MAX
    && (x.phase == Pending || x.phase == Taken || x.phase == Parked ==> x.owner < owners)
    && (x.phase != Pending ==> x.next == None)
    && (x.value.Some? <==> x.phase == Pending || x.phase == Parked)
    && (x.armed ==> x.phase == Taken || x.phase == Parked)
    && (x.phase == Parked ==> x.armed)
    && (x.phase == Taken ==> !(x.armed && x.woken))
  }

  ghost predicate SlotsOk<T>(slots: seq<Slot<T>>, owners: nat) {
    forall s :: 0 <= s < |slots| ==> SlotOk(slots[s], owners)
  }

  // ---- tokens ------------------------------------------------------------------------------------------

  predicate LiveReservation<T>(v: seq<Slot<T>>, table: nat, r: Reservation) {
    r.table == table && r.slot < |v| && v[r.slot].phase == Reserved && v[r.slot].generation == r.generation
  }

  predicate Names<T>(v: seq<Slot<T>>, table: nat, t: Ticket) {
    t.table == table && t.slot < |v| && v[t.slot].generation == t.generation && v[t.slot].owner == t.owner
  }

  predicate LiveFinish<T>(v: seq<Slot<T>>, table: nat, t: Ticket) { Names(v, table, t) && v[t.slot].phase == Taken }

  predicate LiveWake<T>(v: seq<Slot<T>>, table: nat, t: Ticket) { Names(v, table, t) && v[t.slot].armed }

  /** The tokens given out and not used up are the ones the slots stand for: one reservation, finish or wake each. */
  ghost predicate TokensOk<T>(v: seq<Slot<T>>, table: nat, reservations: set<Reservation>, finishes: set<Ticket>,
                              wakes: set<Ticket>) {
    && (forall r :: r in reservations <==> LiveReservation(v, table, r))
    && (forall t :: t in finishes <==> LiveFinish(v, table, t))
    && (forall t :: t in wakes <==> LiveWake(v, table, t))
  }

  function ReservationOf<T>(x: Slot<T>, table: nat, s: nat): set<Reservation> {
    if x.phase == Reserved then {Reservation(table, s, x.generation)} else {}
  }

  function FinishOf<T>(x: Slot<T>, table: nat, s: nat): set<Ticket> {
    if x.phase == Taken then {Ticket(table, x.owner, s, x.generation)} else {}
  }

  function WakeOf<T>(x: Slot<T>, table: nat, s: nat): set<Ticket> {
    if x.armed then {Ticket(table, x.owner, s, x.generation)} else {}
  }

  /** A slot changes, and with it the tokens that stand for it. */
  lemma TokensStep<T>(v: seq<Slot<T>>, table: nat, rs: set<Reservation>, fs: set<Ticket>, ws: set<Ticket>, s: nat,
                      y: Slot<T>)
    requires TokensOk(v, table, rs, fs, ws) && s < |v|
    ensures TokensOk(v[s := y], table, rs - ReservationOf(v[s], table, s) + ReservationOf(y, table, s),
                     fs - FinishOf(v[s], table, s) + FinishOf(y, table, s),
                         ws - WakeOf(v[s], table, s) + WakeOf(y, table, s))
  {
    var n := v[s := y];
    var rs', fs', ws' := rs - ReservationOf(v[s], table, s) + ReservationOf(y, table, s),
        fs - FinishOf(v[s], table, s) + FinishOf(y, table, s), ws - WakeOf(v[s], table, s) + WakeOf(y, table, s);
    forall r ensures r in rs' <==> LiveReservation(n, table, r) { assert r in rs <==> LiveReservation(v, table, r); }
    forall t ensures t in fs' <==> LiveFinish(n, table, t) { assert t in fs <==> LiveFinish(v, table, t); }
    forall t ensures t in ws' <==> LiveWake(n, table, t) { assert t in ws <==> LiveWake(v, table, t); }
  }

  // ---- counting ----------------------------------------------------------------------------------------

  /** Debts an owner has to run or is running. */
  predicate IsRunnable<T>(x: Slot<T>, o: nat) { x.owner == o && (x.phase == Pending || x.phase == Taken) }

  function Runnable<T>(v: seq<Slot<T>>, o: nat): nat {
    if v == [] then 0 else Runnable(v[..|v| - 1], o) + if IsRunnable(v[|v| - 1], o) then 1 else 0
  }

  lemma {:induction false} RunnablePut<T>(v: seq<Slot<T>>, o: nat, s: nat, y: Slot<T>)
    requires s < |v|
    ensures Runnable(v[s := y], o)
            == Runnable(v, o) - (if IsRunnable(v[s], o) then 1 else 0) + if IsRunnable(y, o) then 1 else 0
    ensures IsRunnable(v[s], o) ==> Runnable(v, o) > 0
  {
    var n := |v| - 1;
    if s == n {
      assert v[s := y][..n] == v[..n];
    } else {
      assert v[s := y][..n] == v[..n][s := y];
      RunnablePut(v[..n], o, s, y);
    }
  }

  lemma {:induction false} RunnableNone<T>(v: seq<Slot<T>>, o: nat)
    ensures Runnable(v, o) == 0 <==> forall s :: 0 <= s < |v| ==> !IsRunnable(v[s], o)
  {
    if v != [] {
      var n := |v| - 1;
      RunnableNone(v[..n], o);
      if Runnable(v, o) == 0 {
        forall s | 0 <= s < |v| ensures !IsRunnable(v[s], o) { if s < n { assert v[s] == v[..n][s]; } }
      }
      else if Runnable(v[..n], o) > 0 { var s :| 0 <= s < n && IsRunnable(v[..n][s], o); assert IsRunnable(v[s], o); }
    }
  }

  // ---- the table ---------------------------------------------------------------------------------------

  /** Everything about a table that a caller can rely on. */
  datatype Ledger<T> = Ledger(view: seq<Slot<T>>, queues: seq<seq<nat>>, reservations: set<Reservation>,
                              finishes: set<Ticket>, wakes: set<Ticket>)

  /** One slot changed. */
  function Slotted<T>(n: Ledger<T>, s: nat, x: Slot<T>): Ledger<T>
    requires s < |n.view|
  {
    n.(view := n.view[s := x])
  }

  /** One slot more at the end of an owner's queue. */
  function Queued<T>(n: Ledger<T>, owner: nat, s: nat): Ledger<T>
    requires owner < |n.queues|
  {
    n.(queues := n.queues[owner := n.queues[owner] + [s]])
  }

  datatype Parking = ParkRefused | StaysParked | AlreadyWoken

  datatype Waking = WakeRefused | Latched | Woken(owner: nat)

  class WorkDebts<T> {
    const table: nat
    const slots: array<Slot<T>>
    const heads: array<Option<nat>>
    const tails: array<Option<nat>>
    var cursor: nat
    /** The owner queues, and the tokens given out and not used up. */
    ghost var queues: seq<seq<nat>>
    ghost var reservations: set<Reservation>
    ghost var finishes: set<Ticket>
    ghost var wakes: set<Ticket>

    ghost predicate Shape()
      reads this
    {
      && heads != tails && 0 < slots.Length && 0 < heads.Length == tails.Length && cursor < slots.Length
    }

    ghost predicate Valid()
      reads this, slots, heads, tails
    {
      && Shape() && ChainsOk(slots[..], heads[..], tails[..], queues, None) && SlotsOk(slots[..], heads.Length)
      && TokensOk(Views(slots[..]), table, reservations, finishes, wakes)
    }

    ghost function Now(): Ledger<T>
      reads this, slots
    {
      Ledger(Views(slots[..]), queues, reservations, finishes, wakes)
    }

    constructor (id: nat, owners: nat, size: nat)
      requires 0 < owners && 0 < size
      ensures Valid() && table == id && slots.Length == size && heads.Length == owners && fresh(slots) && fresh(heads)
              && fresh(tails)
      ensures queues == seq(owners, _ => []) && reservations == {} && finishes == {} && wakes == {}
      ensures forall s :: 0 <= s < size ==> slots[s].phase == Empty
    {
      table := id;
      slots := new Slot<T>[size](_ => Slot(1, Empty, 0, None, None, false, false));
      heads := new Option<nat>[owners](_ => None);
      tails := new Option<nat>[owners](_ => None);
      cursor := 0;
      queues, reservations, finishes, wakes := seq(owners, _ => []), {}, {}, {};
    }

    /** Writes a slot that is on no chain and stays off them. */
    method Put(s: nat, x: Slot<T>)
      requires Valid() && s < slots.Length && slots[s].phase != Pending && x.phase != Pending && SlotOk(x, heads.Length)
      modifies this`reservations, this`finishes, this`wakes, slots
      ensures Valid()
      ensures var n, was := old(Now()), old(slots[s]);
              Now() == Slotted(n, s, Bare(x)).(
                         reservations := n.reservations - ReservationOf(was, table, s) + ReservationOf(x, table, s),
                         finishes := n.finishes - FinishOf(was, table, s) + FinishOf(x, table, s),
                         wakes := n.wakes - WakeOf(was, table, s) + WakeOf(x, table, s))
    {
      hide ChainsOk, TokensOk, Views;
      ghost var a := slots[..];
      OffChain(a, heads[..], tails[..], queues, s, x);
      PutViews(a, s, x);
      TokensStep(Views(a), table, reservations, finishes, wakes, s, Bare(x));
      reservations := reservations - ReservationOf(slots[s], table, s) + ReservationOf(x, table, s);
      finishes := finishes - FinishOf(slots[s], table, s) + FinishOf(x, table, s);
      wakes := wakes - WakeOf(slots[s], table, s) + WakeOf(x, table, s);
      slots[s] := x;
      assert slots[..] == a[s := x];
    }

    /** Links a pending slot to the end of its owner's chain. */
    method Append(owner: nat, s: nat)
      requires Shape() && ChainsOk(slots[..], heads[..], tails[..], queues, Some(s))
               && SlotsOk(slots[..], heads.Length) && owner < heads.Length
      requires s < slots.Length && slots[s].phase == Pending && slots[s].owner == owner && slots[s].next == None
      modifies this`queues, slots, heads, tails
      ensures ChainsOk(slots[..], heads[..], tails[..], queues, None) && SlotsOk(slots[..], heads.Length)
              && Views(slots[..]) == Views(old(slots[..]))
      ensures queues == old(queues)[owner := old(queues)[owner] + [s]]
    {
      hide ChainsOk;
      ghost var a, hs, ts := slots[..], heads[..], tails[..];
      SameSize(a, hs, ts, queues, Some(s));
      LinkAll(a, hs, ts, queues, s, owner);
      LinkedViews(a, ts[owner], s);
      if tails[owner].Some? {
        slots[tails[owner].value] := slots[tails[owner].value].(next := Some(s));
      } else {
        heads[owner] := Some(s);
      }
      tails[owner] := Some(s);
      queues := queues[owner := queues[owner] + [s]];
      assert slots[..] == Linked(a, ts[owner], s);
      assert heads[..] == hs[owner := if ts[owner].None? then Some(s) else hs[owner]];
      assert tails[..] == ts[owner := Some(s)];
    }

    lemma SameSize(a: seq<Slot<T>>, hs: seq<Option<nat>>, ts: seq<Option<nat>>, qs: seq<seq<nat>>, loose: Option<nat>)
      requires ChainsOk(a, hs, ts, qs, loose)
      ensures |hs| == |ts| == |qs|
    {}

    /** Makes a slot pending, at the end of its owner's queue. */
    method Enqueue(owner: nat, s: nat, x: Slot<T>)
      requires Valid() && owner < heads.Length && s < slots.Length && slots[s].phase != Pending
      requires x.phase == Pending && x.owner == owner && x.next == None && SlotOk(x, heads.Length)
      modifies this`queues, this`reservations, this`finishes, this`wakes, slots, heads, tails
      ensures Valid() && |old(queues)| == heads.Length
      ensures var n, was := old(Now()), old(slots[s]);
              Now() == Queued(Slotted(n, s, Bare(x)), owner, s).(
                         reservations := n.reservations - ReservationOf(was, table, s),
                         finishes := n.finishes - FinishOf(was, table, s), wakes := n.wakes - WakeOf(was, table, s))
    {
      hide ChainsOk, TokensOk, Views;
      ghost var a := slots[..];
      SameSize(a, heads[..], tails[..], queues, None);
      OffChain(a, heads[..], tails[..], queues, s, x);
      PutViews(a, s, x);
      TokensStep(Views(a), table, reservations, finishes, wakes, s, Bare(x));
      reservations := reservations - ReservationOf(slots[s], table, s);
      finishes := finishes - FinishOf(slots[s], table, s);
      wakes := wakes - WakeOf(slots[s], table, s);
      slots[s] := x;
      assert slots[..] == a[s := x];
      assert forall b: set<Reservation> :: b + ReservationOf(Bare(x), table, s) == b;
      assert forall b: set<Ticket> :: b + FinishOf(Bare(x), table, s) == b == b + WakeOf(Bare(x), table, s);
      Append(owner, s);
    }

    lemma ReservationMeans(r: Reservation)
      requires Valid()
      ensures r in reservations <==>
              r.table == table && r.slot < slots.Length && slots[r.slot].generation == r.generation
              && slots[r.slot].phase == Reserved
    {}

    lemma TicketMeans(t: Ticket)
      requires Valid()
      ensures t in finishes <==>
              t.table == table && t.slot < slots.Length && slots[t.slot].generation == t.generation
              && slots[t.slot].owner == t.owner && slots[t.slot].phase == Taken
      ensures t in wakes <==>
              t.table == table && t.slot < slots.Length && slots[t.slot].generation == t.generation
              && slots[t.slot].owner == t.owner && slots[t.slot].armed
      ensures t in finishes || t in wakes ==> |queues| == heads.Length && SlotOk(slots[t.slot], heads.Length)
    {}

    /** The first empty slot of a range. */
    method FindEmpty(lo: nat, hi: nat) returns (r: Option<nat>)
      requires lo <= hi <= slots.Length
      ensures r.Some? ==>
              lo <= r.value < hi && slots[r.value].phase == Empty
              && forall s :: lo <= s < r.value ==> slots[s].phase != Empty
      ensures r.None? ==> forall s :: lo <= s < hi ==> slots[s].phase != Empty
    {
      var s := lo;
      while s < hi
        invariant lo <= s <= hi && forall q :: lo <= q < s ==> slots[q].phase != Empty
      {
        if slots[s].phase == Empty { return Some(s); }
        s := s + 1;
      }
      return None;
    }

    /** The first empty slot of a range when the search starts at `from` and wraps around. */
    ghost predicate FirstFrom(all: seq<Slot<T>>, lo: nat, hi: nat, from: nat, s: nat)
      requires lo <= from <= hi <= |all| && lo <= s < hi
    {
      && all[s].phase == Empty
      && if from <= s then forall q :: from <= q < s ==> all[q].phase != Empty
         else
           && (forall q :: from <= q < hi ==> all[q].phase != Empty)
           && (forall q :: lo <= q < s ==> all[q].phase != Empty)
    }

    /** Reserves a slot of a partition: one is found whenever one is empty there, and never outside it. */
    method ReserveIn(lo: nat, hi: nat) returns (r: Option<Reservation>)
      requires Valid()
      modifies this, slots
      ensures Valid()
      ensures r.Some? <==> lo < hi <= slots.Length && exists s :: lo <= s < hi && old(slots[s]).phase == Empty
      ensures r.None? ==> Now() == old(Now())
      ensures r.Some? ==>
              lo <= r.value.slot < hi && old(slots[r.value.slot]).phase == Empty && r.value !in old(reservations)
      ensures r.Some? ==>
              cursor == (r.value.slot + 1) % slots.Length
              && FirstFrom(old(slots[..]), lo, hi, if lo <= old(cursor) < hi then old(cursor) else lo, r.value.slot)
      ensures r.Some? ==> var n := old(Now());
              Now() == Slotted(n, r.value.slot,
                               n.view[r.value.slot].(phase := Reserved)).(reservations := n.reservations + {r.value})
    {
      hide ChainsOk, TokensOk, Views;
      if lo >= hi || hi > slots.Length { return None; }
      var from := if lo <= cursor < hi then cursor else lo;
      var found := FindEmpty(from, hi);
      if found.None? { found := FindEmpty(lo, from); }
      if found.None? { return None; }
      var s := found.value;
      ghost var x := slots[s];
      r := Some(Reservation(table, s, slots[s].generation));
      ReservationMeans(r.value);
      assert SlotOk(slots[s], heads.Length) && Views(slots[..])[s] == Bare(slots[..][s]);
      Put(s, slots[s].(phase := Reserved));
      cursor := (s + 1) % slots.Length;
      assert {} <= old(finishes) && old(finishes) - {} + {} == old(finishes) && old(wakes) - {} + {} == old(wakes)
             && old(reservations) - {} == old(reservations);
    }

    /** Gives a reserved slot back. */
    method Cancel(r: Reservation) returns (ok: bool)
      requires Valid()
      modifies this, slots
      ensures Valid() && ok == (r in old(reservations))
      ensures var n := old(Now());
              Now() == if ok then
                  Slotted(n, r.slot, n.view[r.slot].(phase := Empty)).(reservations := n.reservations - {r}) else n
    {
      hide ChainsOk, TokensOk, Views;
      ReservationMeans(r);
      if r.table != table || r.slot >= slots.Length || slots[r.slot].generation != r.generation
          || slots[r.slot].phase != Reserved {
        return false;
      }
      assert SlotOk(slots[r.slot], heads.Length) && Views(slots[..])[r.slot] == Bare(slots[..][r.slot]);
      Put(r.slot, slots[r.slot].(phase := Empty));
      ok := true;
    }

    /** A reserved slot becomes a debt at the end of its owner's queue. */
    method Publish(r: Reservation, owner: nat, value: T) returns (ok: bool)
      requires Valid()
      modifies this, slots, heads, tails
      ensures Valid() && ok == (r in old(reservations) && owner < heads.Length)
      ensures !ok ==> Now() == old(Now())
      ensures ok ==> |old(queues)| == heads.Length
      ensures ok ==> var n := old(Now());
              Now() == Queued(Slotted(n, r.slot,
                                      n.view[r.slot].(owner := owner, value := Some(value), phase := Pending)), owner,
                                      r.slot).(
                         reservations := n.reservations - {r})
    {
      hide ChainsOk, TokensOk, Views;
      ReservationMeans(r);
      if r.table != table || owner >= heads.Length { return false; }
      if r.slot >= slots.Length || slots[r.slot].generation != r.generation || slots[r.slot].phase != Reserved {
        return false;
      }
      assert SlotOk(slots[r.slot], heads.Length) && Views(slots[..])[r.slot] == Bare(slots[..][r.slot]);
      Enqueue(owner, r.slot, slots[r.slot].(owner := owner, next := None, value := Some(value), phase := Pending));
      ok := true;
    }

    /** The owner's oldest debt is taken to be run. */
    method Take(owner: nat) returns (r: Option<(Ticket, T)>)
      requires Valid()
      modifies this, slots, heads, tails
      ensures Valid() && |old(queues)| == heads.Length
      ensures r.Some? <==> owner < heads.Length && old(queues)[owner] != []
      ensures r.None? ==> Now() == old(Now())
      ensures r.Some? ==> var n, s, t := old(Now()), old(queues)[owner][0], r.value.0;
              && s < |n.view| && t == Ticket(table, owner, s, n.view[s].generation)
                  && n.view[s].value == Some(r.value.1)
              && t !in n.finishes
              && Now() == Slotted(n, s, n.view[s].(phase := Taken, woken := false, value := None)).(
                            queues := n.queues[owner := n.queues[owner][1..]], finishes := n.finishes + {t})
    {
      hide ChainsOk, TokensOk, Views;
      ghost var a, hs, ts := slots[..], heads[..], tails[..];
      SameSize(a, hs, ts, queues, None);
      if owner >= heads.Length || heads[owner].None? {
        if owner < heads.Length { HeadFirst(a, hs, ts, queues, owner); }
        return None;
      }
      var s := heads[owner].value;
      HeadFirst(a, hs, ts, queues, owner);
      ghost var x := a[s].(next := None, phase := Taken, woken := false, value := None);
      PopAll(a, hs, ts, queues, owner, x);
      assert SlotOk(slots[s], heads.Length) && Views(a)[s] == Bare(a[s]);
      PutViews(a, s, x);
      TokensStep(Views(a), table, reservations, finishes, wakes, s, Bare(x));
      TicketMeans(Ticket(table, owner, s, slots[s].generation));
      var next, generation, value := slots[s].next, slots[s].generation, slots[s].value.value;
      slots[s] := slots[s].(next := None);
      heads[owner] := next;
      if next.None? { tails[owner] := None; }
      slots[s] := slots[s].(phase := Taken, woken := false, value := None);
      r := Some((Ticket(table, owner, s, generation), value));
      queues := queues[owner := queues[owner][1..]];
      finishes := finishes + {r.value.0};
      assert slots[..] == a[s := x] && heads[..] == hs[owner := next]
             && tails[..] == ts[owner := if next.None? then None else ts[owner]];
      assert reservations - {} + {} == reservations && wakes - {} + {} == wakes && old(finishes) - {} == old(finishes);
    }

    lemma HeadFirst(a: seq<Slot<T>>, hs: seq<Option<nat>>, ts: seq<Option<nat>>, qs: seq<seq<nat>>, o: nat)
      requires ChainsOk(a, hs, ts, qs, None) && o < |qs|
      ensures |hs| == |qs| && (hs[o].None? <==> qs[o] == [])
              && (hs[o].Some? ==> hs[o].value < |a| && a[hs[o].value].phase == Pending && hs[o].value == qs[o][0])
    {
      assert ChainOk(a, o, hs[o], ts[o], qs[o]);
      if qs[o] != [] { assert LinkOk(a, o, qs[o], 0); }
    }

    /** A taken debt goes back to the end of the queue, unless it waits for something. */
    method Requeue(t: Ticket, value: T) returns (ok: bool)
      requires Valid()
      modifies this, slots, heads, tails
      ensures Valid() && ok == (t in old(finishes) && t !in old(wakes))
      ensures !ok ==> Now() == old(Now())
      ensures ok ==> |old(queues)| == heads.Length && t.owner < heads.Length
      ensures ok ==> var n := old(Now());
              Now() == Queued(Slotted(n, t.slot, n.view[t.slot].(value := Some(value), phase := Pending)), t.owner,
                              t.slot).(
                         finishes := n.finishes - {t})
    {
      hide ChainsOk, TokensOk, Views;
      TicketMeans(t);
      if t.table != table || t.slot >= slots.Length || slots[t.slot].generation != t.generation { return false; }
      if slots[t.slot].phase != Taken || slots[t.slot].owner != t.owner || slots[t.slot].armed { return false; }
      assert SlotOk(slots[t.slot], heads.Length) && Views(slots[..])[t.slot] == Bare(slots[..][t.slot]);
      Enqueue(t.owner, t.slot, slots[t.slot].(value := Some(value), next := None, phase := Pending));
      ok := true;
    }

    /** Who runs a debt may take one wake token for it, before it registers what it waits for. */
    method ArmWake(t: Ticket) returns (r: Option<Ticket>)
      requires Valid()
      modifies this, slots
      ensures Valid() && r == if t in old(finishes) && t !in old(wakes) && !old(Now()).view[t.slot].woken then Some(t)
              else None
      ensures var n := old(Now());
              Now() == if r.Some? then Slotted(n, t.slot, n.view[t.slot].(armed := true)).(wakes := n.wakes + {t})
                  else n
    {
      hide ChainsOk, TokensOk, Views;
      TicketMeans(t);
      if t.table != table || t.slot >= slots.Length || slots[t.slot].generation != t.generation { return None; }
      assert Views(slots[..])[t.slot] == Bare(slots[..][t.slot]);
      if slots[t.slot].phase != Taken || slots[t.slot].owner != t.owner || slots[t.slot].armed || slots[t.slot].woken {
        return None;
      }
      assert SlotOk(slots[t.slot], heads.Length);
      Put(t.slot, slots[t.slot].(armed := true));
      r := Some(t);
    }

    /** The wake token of a debt that has not parked may be given back. */
    method CancelWake(t: Ticket) returns (ok: bool)
      requires Valid()
      modifies this, slots
      ensures Valid() && ok == (t in old(wakes) && t in old(finishes))
      ensures var n := old(Now());
              Now() == if ok then Slotted(n, t.slot, n.view[t.slot].(armed := false)).(wakes := n.wakes - {t}) else n
    {
      hide ChainsOk, TokensOk, Views;
      TicketMeans(t);
      if t.table != table || t.slot >= slots.Length || slots[t.slot].generation != t.generation { return false; }
      if slots[t.slot].phase != Taken || slots[t.slot].owner != t.owner || !slots[t.slot].armed { return false; }
      assert SlotOk(slots[t.slot], heads.Length) && Views(slots[..])[t.slot] == Bare(slots[..][t.slot]);
      Put(t.slot, slots[t.slot].(armed := false));
      ok := true;
    }

    /** A debt that waits is parked; one already woken is queued again. */
    method Park(t: Ticket, value: T) returns (r: Parking)
      requires Valid()
      modifies this, slots, heads, tails
      ensures Valid()
      ensures r == ParkRefused <==> t !in old(finishes) || (t !in old(wakes) && !old(Now()).view[t.slot].woken)
      ensures r == ParkRefused ==> Now() == old(Now())
      ensures r == AlreadyWoken <==> t in old(finishes) && old(Now()).view[t.slot].woken
      ensures r == StaysParked ==> t in wakes && var n := old(Now());
              Now() == Slotted(n, t.slot,
                               n.view[t.slot].(value := Some(value), phase := Parked)).(finishes := n.finishes - {t})
      ensures r == AlreadyWoken ==> |old(queues)| == heads.Length && t.owner < heads.Length && t !in old(wakes)
      ensures r == AlreadyWoken ==> var n := old(Now());
              Now() == Queued(Slotted(n, t.slot,
                                      n.view[t.slot].(value := Some(value), phase := Pending, woken := false)),
                                      t.owner, t.slot).(
                         finishes := n.finishes - {t})
    {
      hide ChainsOk, TokensOk, Views;
      TicketMeans(t);
      if t.table != table || t.slot >= slots.Length || slots[t.slot].generation != t.generation { return ParkRefused; }
      assert Views(slots[..])[t.slot] == Bare(slots[..][t.slot]) && SlotOk(slots[t.slot], heads.Length);
      if slots[t.slot].phase != Taken || slots[t.slot].owner != t.owner
          || !(slots[t.slot].armed || slots[t.slot].woken) {
        return ParkRefused;
      }
      if slots[t.slot].woken {
        Enqueue(t.owner, t.slot, slots[t.slot].(value := Some(value), next := None, woken := false, phase := Pending));
        r := AlreadyWoken;
      } else {
        Put(t.slot, slots[t.slot].(value := Some(value), next := None, phase := Parked));
        r := StaysParked;
      }
    }

    /** A wake is never lost: it queues a parked debt, and is kept for one still running. */
    method Wake(t: Ticket) returns (r: Waking)
      requires Valid()
      modifies this, slots, heads, tails
      ensures Valid() && (r == WakeRefused <==> t !in old(wakes))
      ensures r == WakeRefused ==> Now() == old(Now())
      ensures t in old(wakes) ==> r == (if old(Now()).view[t.slot].phase == Parked then Woken(t.owner) else Latched)
      ensures r == Latched ==> var n := old(Now());
              Now() == Slotted(n, t.slot, n.view[t.slot].(armed := false, woken := true)).(wakes := n.wakes - {t})
      ensures r.Woken? ==> |old(queues)| == heads.Length && t.owner < heads.Length
      ensures r.Woken? ==> var n := old(Now());
              Now() == Queued(Slotted(n, t.slot, n.view[t.slot].(armed := false, phase := Pending)), t.owner, t.slot).(
                         wakes := n.wakes - {t})
    {
      hide ChainsOk, TokensOk, Views;
      TicketMeans(t);
      if t.table != table || t.slot >= slots.Length || slots[t.slot].generation != t.generation { return WakeRefused; }
      assert Views(slots[..])[t.slot] == Bare(slots[..][t.slot]) && SlotOk(slots[t.slot], heads.Length);
      if slots[t.slot].owner != t.owner || !slots[t.slot].armed
          || !(slots[t.slot].phase == Taken || slots[t.slot].phase == Parked) {
        return WakeRefused;
      }
      if slots[t.slot].phase == Taken {
        Put(t.slot, slots[t.slot].(armed := false, woken := true));
        r := Latched;
      } else {
        Enqueue(t.owner, t.slot, slots[t.slot].(armed := false, phase := Pending));
        r := Woken(t.owner);
      }
    }

    /** A debt is done with; its slot is empty again under a new generation, or out of use for good. */
    method Finish(t: Ticket) returns (ok: bool)
      requires Valid()
      modifies this, slots
      ensures Valid() && ok == (t in old(finishes) && t !in old(wakes))
      ensures !ok ==> Now() == old(Now())
      ensures ok ==> var x := old(Now()).view[t.slot];
              var n := old(Now());
              var done := if t.generation == U32_MAX then x.(phase := Retired)
                  else x.(phase := Empty, generation := t.generation + 1);
              Now() == Slotted(n, t.slot, done).(finishes := n.finishes - {t})
    {
      hide ChainsOk, TokensOk, Views;
      TicketMeans(t);
      if t.table != table || t.slot >= slots.Length || slots[t.slot].generation != t.generation { return false; }
      if slots[t.slot].phase != Taken || slots[t.slot].owner != t.owner || slots[t.slot].armed { return false; }
      assert SlotOk(slots[t.slot], heads.Length) && Views(slots[..])[t.slot] == Bare(slots[..][t.slot]);
      if slots[t.slot].generation == U32_MAX {
        Put(t.slot, slots[t.slot].(phase := Retired));
      } else {
        Put(t.slot, slots[t.slot].(generation := slots[t.slot].generation + 1, phase := Empty));
      }
      ok := true;
    }

    /** A debt is done with and its slot stays reserved for the same holder. */
    method Rearm(t: Ticket) returns (r: Option<Reservation>)
      requires Valid()
      modifies this, slots
      ensures Valid() && r == if t in old(finishes)
              && t !in old(wakes) then Some(Reservation(table, t.slot, t.generation)) else None
      ensures r.None? ==> Now() == old(Now())
      ensures r.Some? ==> r.value !in old(reservations)
      ensures r.Some? ==> var n := old(Now());
              Now() == Slotted(n, t.slot,
                               n.view[t.slot].(phase := Reserved)).(reservations := n.reservations + {r.value},
                               finishes := n.finishes - {t})
    {
      hide ChainsOk, TokensOk, Views;
      TicketMeans(t);
      if t.table != table || t.slot >= slots.Length || slots[t.slot].generation != t.generation { return None; }
      if slots[t.slot].phase != Taken || slots[t.slot].owner != t.owner || slots[t.slot].armed { return None; }
      assert SlotOk(slots[t.slot], heads.Length) && Views(slots[..])[t.slot] == Bare(slots[..][t.slot]);
      r := Some(Reservation(table, t.slot, t.generation));
      ReservationMeans(r.value);
      Put(t.slot, slots[t.slot].(phase := Reserved));
    }

    method HasPending(owner: nat) returns (r: bool)
      requires Valid()
      ensures |queues| == heads.Length && r == (owner < heads.Length && queues[owner] != [])
      ensures r <==> exists s :: 0 <= s < slots.Length && slots[s].phase == Pending && slots[s].owner == owner
    {
      SameSize(slots[..], heads[..], tails[..], queues, None);
      r := owner < heads.Length && heads[owner].Some?;
      if owner < heads.Length { HeadFirst(slots[..], heads[..], tails[..], queues, owner); }
      PendingIn(owner);
    }

    lemma PendingIn(owner: nat)
      requires Valid() && |queues| == heads.Length
      ensures (owner < heads.Length && queues[owner] != []) <==>
              exists s :: 0 <= s < slots.Length && slots[s].phase == Pending && slots[s].owner == owner
    {
      if owner < heads.Length && queues[owner] != [] {
        OnChain(slots[..], heads[..], tails[..], queues, None, owner, queues[owner][0]);
        assert slots[queues[owner][0]].phase == Pending;
      }
      forall s | 0 <= s < slots.Length && slots[s].phase == Pending && slots[s].owner == owner
        ensures owner < heads.Length && queues[owner] != []
      {
        assert InQueue(slots[..], queues, s);
      }
    }

    /** A debt is woken or has a wake token, never both. */
    lemma OneSignal(t: Ticket)
      requires Valid() && t in finishes
      ensures t.slot < slots.Length && t.owner < heads.Length && !(t in wakes && slots[t.slot].woken)
              && Now().view[t.slot] == Bare(slots[t.slot])
    {
      TicketMeans(t);
      assert SlotOk(slots[..][t.slot], heads.Length);
    }

    lemma PopOwner(owner: nat)
      requires Valid() && owner < heads.Length && heads[owner].Some?
      ensures |queues| == heads.Length && queues[owner] != [] && queues[owner][0] < slots.Length
      ensures var x := Now().view[queues[owner][0]]; x.phase == Pending && x.owner == owner
    {
      HeadFirst(slots[..], heads[..], tails[..], queues, owner);
      OnChain(slots[..], heads[..], tails[..], queues, None, owner, queues[owner][0]);
    }

    /**
      No debt is stranded: one that holds work is in its owner's queue once, or is parked with the one wake token that
      will queue it.
    */
    lemma NoneStranded(s: nat)
      requires Valid() && s < slots.Length
      ensures slots[s].value.Some? <==> slots[s].phase == Pending || slots[s].phase == Parked
      ensures slots[s].phase == Pending ==> slots[s].owner < |queues| && s in queues[slots[s].owner]
      ensures slots[s].phase == Parked ==> Ticket(table, slots[s].owner, s, slots[s].generation) in wakes
      ensures forall t, u :: t in wakes && u in wakes && t.slot == u.slot ==> t == u
      ensures forall t, u :: t in finishes && u in finishes && t.slot == u.slot ==> t == u
      ensures forall r, q :: r in reservations && q in reservations && r.slot == q.slot ==> r == q
    {
      assert SlotOk(slots[..][s], heads.Length);
      if slots[s].phase == Pending { assert InQueue(slots[..], queues, s); }
      TicketMeans(Ticket(table, slots[s].owner, s, slots[s].generation));
      forall t, u | t in wakes && u in wakes && t.slot == u.slot ensures t == u { TicketMeans(t); TicketMeans(u); }
      forall t, u | t in finishes && u in finishes && t.slot == u.slot
        ensures t == u
      {
        TicketMeans(t);
        TicketMeans(u);
      }
      forall r, q | r in reservations && q in reservations && r.slot == q.slot
        ensures r == q
      {
        ReservationMeans(r);
        ReservationMeans(q);
      }
    }
  }
}
