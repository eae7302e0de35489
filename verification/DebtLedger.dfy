/** The kernel's debt ledger: a work-debt table and, for each hart, a counter of the debts it has to run. */
module DebtLedger {
  import opened Wrappers
  import opened DebtQueues
  import opened WorkDebts

  /** Each counter is the number of debts its owner has pending or taken. */
  ghost predicate CountsOk<T>(v: seq<Slot<T>>, p: seq<nat>) { forall o :: 0 <= o < |p| ==> p[o] == Runnable(v, o) }

  function Weight<T>(x: Slot<T>, o: nat): int { if IsRunnable(x, o) then 1 else 0 }

  lemma CountsPut<T>(v: seq<Slot<T>>, p: seq<nat>, s: nat, y: Slot<T>, o: nat)
    requires CountsOk(v, p) && s < |v| && o < |p|
    requires forall q: nat :: q != o ==> Weight(v[s], q) == Weight(y, q)
    ensures Weight(v[s], o) == 1 ==> p[o] > 0
    ensures p[o] + Weight(y, o) - Weight(v[s], o) >= 0
            && CountsOk(v[s := y], p[o := p[o] + Weight(y, o) - Weight(v[s], o)])
  {
    RunnablePut(v, o, s, y);
    var r := p[o := p[o] + Weight(y, o) - Weight(v[s], o)];
    forall q | 0 <= q < |r| ensures r[q] == Runnable(v[s := y], q) {
      RunnablePut(v, q, s, y);
      assert Weight(v[s], q) == Weight(y, q) || q == o;
    }
  }

  class DebtLedger<T> {
    const debts: WorkDebts<T>
    const pending: array<nat>

    ghost predicate Valid()
      reads this, pending, debts, debts.slots, debts.heads, debts.tails
    {
      debts.Valid() && debts.heads.Length == HARTS == pending.Length && CountsOk(debts.Now().view, pending[..])
    }

    constructor (id: nat, size: nat)
      requires size > 0
      ensures Valid() && fresh(debts) && fresh(pending) && fresh(debts.slots) && fresh(debts.heads)
              && fresh(debts.tails)
      ensures debts.reservations == {} && debts.finishes == {} && debts.wakes == {} && debts.slots.Length == size
    {
      debts := new WorkDebts<T>(id, HARTS, size);
      pending := new nat[HARTS](_ => 0);
      new;
      forall o | 0 <= o < HARTS
        ensures pending[o] == Runnable(debts.Now().view, o)
      {
        RunnableNone(debts.Now().view, o);
      }
    }

    /** A slot of a partition is reserved; no hart has more to run for it. */
    method ReserveIn(lo: nat, hi: nat) returns (r: Option<Reservation>)
      requires Valid()
      modifies debts, debts.slots
      ensures Valid() && debts.queues == old(debts.queues) && debts.finishes == old(debts.finishes)
              && debts.wakes == old(debts.wakes)
      ensures r.Some? <==>
              lo < hi <= debts.slots.Length && exists s :: lo <= s < hi && old(debts.slots[s]).phase == Empty
      ensures r.Some? ==>
              lo <= r.value.slot < hi && r.value !in old(debts.reservations)
              && debts.reservations == old(debts.reservations) + {r.value}
      ensures r.None? ==> debts.Now() == old(debts.Now())
    {
      hide CountsOk;
      ghost var n, p := debts.Now(), pending[..];
      ghost var a := debts.slots[..];
      r := debts.ReserveIn(lo, hi);
      if r.Some? {
        assert n.view[r.value.slot] == Bare(a[r.value.slot]);
        CountsPut(n.view, p, r.value.slot, n.view[r.value.slot].(phase := Reserved), 0);
        assert p[0 := p[0]] == p;
      }
    }

    /** A reserved slot is published to the hart that runs, and counted; a live reservation is always accepted. */
    method Publish(r: Reservation, owner: nat, value: T)
      requires Valid() && r in debts.reservations && owner < HARTS
      modifies pending, debts, debts.slots, debts.heads, debts.tails
      ensures Valid() && debts.reservations == old(debts.reservations) - {r} && debts.finishes == old(debts.finishes)
              && debts.wakes == old(debts.wakes)
      ensures |old(debts.queues)| == HARTS
              && debts.queues == old(debts.queues)[owner := old(debts.queues)[owner] + [r.slot]]
      ensures pending[..] == old(pending[..])[owner := old(pending[owner]) + 1]
    {
      hide CountsOk;
      ghost var n, p := debts.Now(), pending[..];
      debts.ReservationMeans(r);
      var ok := debts.Publish(r, owner, value);
      assert ok;
      CountsPut(n.view, p, r.slot, n.view[r.slot].(owner := owner, value := Some(value), phase := Pending), owner);
      pending[owner] := pending[owner] + 1;
      assert pending[..] == p[owner := p[owner] + 1];
    }

    method Cancel(r: Reservation)
      requires Valid() && r in debts.reservations
      modifies debts, debts.slots
      ensures Valid() && debts.reservations == old(debts.reservations) - {r} && debts.queues == old(debts.queues)
      ensures debts.finishes == old(debts.finishes) && debts.wakes == old(debts.wakes)
    {
      hide CountsOk;
      ghost var n, p := debts.Now(), pending[..];
      debts.ReservationMeans(r);
      var ok := debts.Cancel(r);
      assert ok;
      CountsPut(n.view, p, r.slot, n.view[r.slot].(phase := Empty), 0);
      assert p[0 := p[0]] == p;
    }

    method Take(owner: nat) returns (r: Option<(Ticket, T)>)
      requires Valid()
      modifies debts, debts.slots, debts.heads, debts.tails
      ensures Valid() && |old(debts.queues)| == HARTS && (r.Some? <==> owner < HARTS && old(debts.queues)[owner] != [])
      ensures r.Some? ==>
              r.value.0.owner == owner && r.value.0.slot == old(debts.queues)[owner][0]
              && debts.finishes == old(debts.finishes) + {r.value.0}
      ensures r.Some? ==>
              debts.queues == old(debts.queues)[owner := old(debts.queues)[owner][1..]]
              && debts.reservations == old(debts.reservations) && debts.wakes == old(debts.wakes)
      ensures r.None? ==> debts.Now() == old(debts.Now())
    {
      hide CountsOk;
      ghost var n, p := debts.Now(), pending[..];
      ghost var s := if owner < HARTS && n.queues[owner] != [] then n.queues[owner][0] else 0;
      if owner < HARTS && debts.heads[owner].Some? {
        debts.HeadFirst(debts.slots[..], debts.heads[..], debts.tails[..], debts.queues, owner);
        debts.PopOwner(owner);
      }
      r := debts.Take(owner);
      if r.Some? {
        CountsPut(n.view, p, s, n.view[s].(phase := Taken, woken := false, value := None), owner);
        assert p[owner := p[owner]] == p;
      }
    }

    method Requeue(t: Ticket, value: T)
      requires Valid() && t in debts.finishes && t !in debts.wakes
      modifies debts, debts.slots, debts.heads, debts.tails
      ensures Valid() && t.owner < HARTS == |old(debts.queues)|
              && debts.queues == old(debts.queues)[t.owner := old(debts.queues)[t.owner] + [t.slot]]
      ensures debts.finishes == old(debts.finishes) - {t} && debts.wakes == old(debts.wakes)
              && debts.reservations == old(debts.reservations)
    {
      hide CountsOk;
      ghost var n, p := debts.Now(), pending[..];
      debts.TicketMeans(t);
      var ok := debts.Requeue(t, value);
      assert ok;
      CountsPut(n.view, p, t.slot, n.view[t.slot].(value := Some(value), phase := Pending), t.owner);
      assert p[t.owner := p[t.owner]] == p;
    }

    /** Parking uncounts a debt; one already woken stays counted and is queued. */
    method Park(t: Ticket, value: T) returns (stays: bool)
      requires Valid() && t in debts.finishes && (t in debts.wakes || debts.slots[t.slot].woken)
      modifies pending, debts, debts.slots, debts.heads, debts.tails
      ensures Valid() && t.owner < HARTS == |old(debts.queues)| && stays == (t in old(debts.wakes))
      ensures debts.finishes == old(debts.finishes) - {t} && debts.wakes == old(debts.wakes)
              && debts.reservations == old(debts.reservations)
      ensures debts.queues == if stays then old(debts.queues)
              else old(debts.queues)[t.owner := old(debts.queues)[t.owner] + [t.slot]]
      ensures stays ==>
              old(pending[t.owner]) > 0 && pending[..] == old(pending[..])[t.owner := old(pending[t.owner]) - 1]
      ensures !stays ==> pending[..] == old(pending[..])
    {
      hide CountsOk;
      ghost var n, p := debts.Now(), pending[..];
      debts.TicketMeans(t);
      debts.OneSignal(t);
      var result := debts.Park(t, value);
      if result == StaysParked {
        CountsPut(n.view, p, t.slot, n.view[t.slot].(value := Some(value), phase := Parked), t.owner);
        pending[t.owner] := pending[t.owner] - 1;
        assert pending[..] == p[t.owner := p[t.owner] - 1];
        stays := true;
      } else {
        CountsPut(n.view, p, t.slot, n.view[t.slot].(value := Some(value), phase := Pending, woken := false), t.owner);
        assert p[t.owner := p[t.owner]] == p;
        stays := false;
      }
    }

    method Finish(t: Ticket)
      requires Valid() && t in debts.finishes && t !in debts.wakes
      modifies pending, debts, debts.slots
      ensures Valid() && t.owner < HARTS && debts.queues == old(debts.queues)
      ensures debts.finishes == old(debts.finishes) - {t} && debts.wakes == old(debts.wakes)
              && debts.reservations == old(debts.reservations)
      ensures old(pending[t.owner]) > 0 && pending[..] == old(pending[..])[t.owner := old(pending[t.owner]) - 1]
    {
      hide CountsOk;
      ghost var n, p := debts.Now(), pending[..];
      debts.TicketMeans(t);
      var ok := debts.Finish(t);
      assert ok;
      ghost var x := n.view[t.slot];
      CountsPut(n.view, p, t.slot, if t.generation == U32_MAX then x.(phase := Retired)
                else x.(phase := Empty, generation := t.generation + 1), t.owner);
      pending[t.owner] := pending[t.owner] - 1;
      assert pending[..] == p[t.owner := p[t.owner] - 1];
    }

    method Rearm(t: Ticket) returns (r: Reservation)
      requires Valid() && t in debts.finishes && t !in debts.wakes
      modifies pending, debts, debts.slots
      ensures Valid() && t.owner < HARTS && debts.queues == old(debts.queues) && r !in old(debts.reservations)
      ensures debts.finishes == old(debts.finishes) - {t} && debts.wakes == old(debts.wakes)
              && debts.reservations == old(debts.reservations) + {r}
      ensures old(pending[t.owner]) > 0 && pending[..] == old(pending[..])[t.owner := old(pending[t.owner]) - 1]
    {
      hide CountsOk;
      ghost var n, p := debts.Now(), pending[..];
      debts.TicketMeans(t);
      var got := debts.Rearm(t);
      r := got.value;
      CountsPut(n.view, p, t.slot, n.view[t.slot].(phase := Reserved), t.owner);
      pending[t.owner] := pending[t.owner] - 1;
      assert pending[..] == p[t.owner := p[t.owner] - 1];
    }

    method ArmWake(t: Ticket) returns (r: Option<Ticket>)
      requires Valid() && t in debts.finishes
      modifies debts, debts.slots
      ensures Valid() && debts.queues == old(debts.queues) && debts.finishes == old(debts.finishes)
              && debts.reservations == old(debts.reservations)
      ensures r == if t !in old(debts.wakes) && !old(debts.slots[t.slot]).woken then Some(t) else None
      ensures debts.wakes == if r.Some? then old(debts.wakes) + {t} else old(debts.wakes)
    {
      hide CountsOk;
      ghost var n, p := debts.Now(), pending[..];
      debts.TicketMeans(t);
      r := debts.ArmWake(t);
      if r.Some? {
        CountsPut(n.view, p, t.slot, n.view[t.slot].(armed := true), t.owner);
        assert p[t.owner := p[t.owner]] == p;
      }
    }

    /** A wake queues and counts a parked debt, or is kept for the one that runs; it is never refused. */
    method WakeRaw(t: Ticket) returns (r: Waking)
      requires Valid() && t in debts.wakes
      modifies pending, debts, debts.slots, debts.heads, debts.tails
      ensures Valid() && t.owner < HARTS == |old(debts.queues)|
              && r == if old(debts.slots[t.slot]).phase == Parked then Woken(t.owner) else Latched
      ensures debts.wakes == old(debts.wakes) - {t} && debts.finishes == old(debts.finishes)
              && debts.reservations == old(debts.reservations)
      ensures r == Latched ==>
              t in debts.finishes && debts.slots[t.slot].woken && debts.queues == old(debts.queues)
              && pending[..] == old(pending[..])
      ensures r.Woken? ==> debts.queues == old(debts.queues)[t.owner := old(debts.queues)[t.owner] + [t.slot]]
      ensures r.Woken? ==> pending[..] == old(pending[..])[t.owner := old(pending[t.owner]) + 1]
    {
      hide CountsOk;
      ghost var n, p := debts.Now(), pending[..];
      debts.TicketMeans(t);
      r := debts.Wake(t);
      if r.Woken? {
        CountsPut(n.view, p, t.slot, n.view[t.slot].(armed := false, phase := Pending), t.owner);
        pending[t.owner] := pending[t.owner] + 1;
        assert pending[..] == p[t.owner := p[t.owner] + 1];
      } else {
        CountsPut(n.view, p, t.slot, n.view[t.slot].(armed := false, woken := true), t.owner);
        assert p[t.owner := p[t.owner]] == p;
        debts.TicketMeans(t);
        assert debts.Now().view[t.slot] == Bare(debts.slots[..][t.slot]);
      }
    }

    /** A zero counter means the owner has nothing to run. */
    lemma ZeroMeansIdle(owner: nat)
      requires Valid() && owner < HARTS
      ensures pending[owner] == 0 <==> forall s :: 0 <= s < debts.slots.Length ==> !IsRunnable(debts.slots[s], owner)
      ensures pending[owner] == 0 ==> |debts.queues| == HARTS && debts.queues[owner] == []
    {
      var v := debts.Now().view;
      RunnableNone(v, owner);
      forall s | 0 <= s < |v|
        ensures IsRunnable(v[s], owner) == IsRunnable(debts.slots[s], owner)
      {
        assert v[s] == Bare(debts.slots[..][s]);
      }
      if pending[owner] == 0 { debts.PendingIn(owner); }
    }
  }
}
