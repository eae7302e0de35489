/**
  Work-debt slots and the owner chains threaded through them, as values: what a chain is, and what putting a slot in or
  taking one out does.
*/
module DebtQueues {
  import opened Wrappers

  datatype Phase = Empty | Reserved | Pending | Taken | Parked | Retired

  datatype Slot<T> = Slot(generation: nat, phase: Phase, owner: nat, next: Option<nat>, value: Option<T>, armed: bool,
                          woken: bool)

  function At(q: seq<nat>, i: nat): Option<nat> { if i < |q| then Some(q[i]) else None }

  function Last(q: seq<nat>): Option<nat> { if q == [] then None else Some(q[|q| - 1]) }

  predicate LinkOk<T>(slots: seq<Slot<T>>, o: nat, q: seq<nat>, i: nat)
    requires i < |q|
  {
    q[i] < |slots| && slots[q[i]].phase == Pending && slots[q[i]].owner == o && slots[q[i]].next == At(q, i + 1)
  }

  /** One owner's chain: no slot twice, every link the next of the queue, the last without one. */
  ghost predicate ChainOk<T>(slots: seq<Slot<T>>, o: nat, head: Option<nat>, tail: Option<nat>, q: seq<nat>) {
    && head == At(q, 0) && tail == Last(q)
    && (forall i :: 0 <= i < |q| ==> LinkOk(slots, o, q, i))
    && (forall i, j :: 0 <= i < j < |q| ==> q[i] != q[j])
  }

  predicate InQueue<T>(slots: seq<Slot<T>>, queues: seq<seq<nat>>, s: nat)
    requires s < |slots|
  {
    slots[s].owner < |queues| && s in queues[slots[s].owner]
  }

  /** The chains hold exactly the pending slots, but for one that is about to be linked. */
  ghost predicate ChainsOk<T>(slots: seq<Slot<T>>, heads: seq<Option<nat>>, tails: seq<Option<nat>>,
                              queues: seq<seq<nat>>, loose: Option<nat>) {
    && |heads| == |tails| == |queues|
    && (forall o :: 0 <= o < |queues| ==> ChainOk(slots, o, heads[o], tails[o], queues[o]))
    && (forall s: nat :: s < |slots| && slots[s].phase == Pending && Some(s) != loose ==> InQueue(slots, queues, s))
    && (forall o :: 0 <= o < |queues| ==> NotIn(loose, queues[o]))
  }

  predicate NotIn(loose: Option<nat>, q: seq<nat>) { loose.None? || loose.value !in q }

  /** A chain does not see a change to a slot that is not on it. */
  lemma ChainFrame<T>(slots: seq<Slot<T>>, o: nat, head: Option<nat>, tail: Option<nat>, q: seq<nat>, s: nat,
                      x: Slot<T>)
    requires ChainOk(slots, o, head, tail, q) && s < |slots| && s !in q
    ensures ChainOk(slots[s := x], o, head, tail, q)
  {
    var a := slots[s := x];
    forall i | 0 <= i < |q| ensures LinkOk(a, o, q, i) { assert LinkOk(slots, o, q, i); }
  }

  /** A slot on a chain is pending there. */
  lemma OnChain<T>(slots: seq<Slot<T>>, heads: seq<Option<nat>>, tails: seq<Option<nat>>, queues: seq<seq<nat>>,
                   loose: Option<nat>, o: nat, s: nat)
    requires ChainsOk(slots, heads, tails, queues, loose) && o < |queues| && s in queues[o]
    ensures s < |slots| && slots[s].phase == Pending && slots[s].owner == o && Some(s) != loose
  {
    var i :| 0 <= i < |queues[o]| && queues[o][i] == s;
    assert ChainOk(slots, o, heads[o], tails[o], queues[o]) && LinkOk(slots, o, queues[o], i)
           && NotIn(loose, queues[o]);
  }

  /** A slot off the chains may change, and may become the loose pending one. */
  lemma OffChain<T>(slots: seq<Slot<T>>, heads: seq<Option<nat>>, tails: seq<Option<nat>>, queues: seq<seq<nat>>,
                    s: nat, x: Slot<T>)
    requires ChainsOk(slots, heads, tails, queues, None) && s < |slots| && slots[s].phase != Pending
    ensures ChainsOk(slots[s := x], heads, tails, queues, if x.phase == Pending then Some(s) else None)
  {
    hide ChainOk;
    forall o | 0 <= o < |queues| ensures ChainOk(slots[s := x], o, heads[o], tails[o], queues[o]) && s !in queues[o] {
      if s in queues[o] { OnChain(slots, heads, tails, queues, None, o, s); }
      ChainFrame(slots, o, heads[o], tails[o], queues[o], s, x);
    }
    forall q: nat | q < |slots| && q != s && slots[q].phase == Pending
      ensures InQueue(slots[s := x], queues, q)
    {
      assert InQueue(slots, queues, q);
    }
  }

  /** The loose slot goes to the end of its owner's chain. */
  function Linked<T>(slots: seq<Slot<T>>, tail: Option<nat>, s: nat): seq<Slot<T>> {
    if tail.Some? && tail.value < |slots| then slots[tail.value := slots[tail.value].(next := Some(s))] else slots
  }

  lemma LinkChain<T>(slots: seq<Slot<T>>, o: nat, head: Option<nat>, tail: Option<nat>, q: seq<nat>, s: nat)
    requires ChainOk(slots, o, head, tail, q) && s < |slots| && s !in q && slots[s].phase == Pending
             && slots[s].owner == o && slots[s].next == None
    ensures tail.None? <==> head.None?
    ensures tail.Some? ==>
            tail.value < |slots| && slots[tail.value].next == None && slots[tail.value].phase == Pending
            && tail.value in q
    ensures ChainOk(Linked(slots, tail, s), o, if tail.None? then Some(s) else head, Some(s), q + [s])
  {
    var n := |q|;
    if n > 0 { assert LinkOk(slots, o, q, n - 1); }
    var a, r := Linked(slots, tail, s), q + [s];
    forall i | 0 <= i < |r| ensures LinkOk(a, o, r, i) {
      if i < n { assert LinkOk(slots, o, q, i); if i < n - 1 { assert q[i] != q[n - 1]; } }
    }
  }

  lemma LinkAll<T>(slots: seq<Slot<T>>, heads: seq<Option<nat>>, tails: seq<Option<nat>>, queues: seq<seq<nat>>,
                   s: nat, o: nat)
    requires ChainsOk(slots, heads, tails, queues, Some(s)) && s < |slots| && o < |queues|
    requires slots[s].phase == Pending && slots[s].owner == o && slots[s].next == None
    ensures tails[o].None? <==> heads[o].None?
    ensures tails[o].Some? ==>
            tails[o].value < |slots| && slots[tails[o].value].next == None && slots[tails[o].value].phase == Pending
            && tails[o].value != s
    ensures ChainsOk(Linked(slots, tails[o], s), heads[o := if tails[o].None? then Some(s) else heads[o]],
                     tails[o := Some(s)], queues[o := queues[o] + [s]], None)
  {
    hide ChainOk;
    assert NotIn(Some(s), queues[o]);
    LinkChain(slots, o, heads[o], tails[o], queues[o], s);
    var a, hs, ts, qs := Linked(slots, tails[o], s), heads[o := if tails[o].None? then Some(s) else heads[o]],
        tails[o := Some(s)], queues[o := queues[o] + [s]];
    forall p | 0 <= p < |qs| ensures ChainOk(a, p, hs[p], ts[p], qs[p]) {
      if p != o && tails[o].Some? {
        var tail := tails[o].value;
        OnChain(slots, heads, tails, queues, Some(s), o, tail);
        if tail in queues[p] { OnChain(slots, heads, tails, queues, Some(s), p, tail); }
        ChainFrame(slots, p, heads[p], tails[p], queues[p], tail, slots[tail].(next := Some(s)));
      }
    }
    forall q: nat | q < |a| && a[q].phase == Pending ensures InQueue(a, qs, q) {
      if q != s { assert InQueue(slots, queues, q); }
    }
  }

  /** The first of a chain is taken off it. */
  lemma PopChain<T>(slots: seq<Slot<T>>, o: nat, head: Option<nat>, tail: Option<nat>, q: seq<nat>, x: Slot<T>)
    requires ChainOk(slots, o, head, tail, q) && head.Some?
    ensures q != [] && q[0] == head.value < |slots| && slots[head.value].phase == Pending
            && slots[head.value].owner == o && head.value !in q[1..]
    ensures ChainOk(slots[head.value := x], o, slots[head.value].next, if slots[head.value].next.None? then None
                    else tail, q[1..])
  {
    assert LinkOk(slots, o, q, 0);
    var r, a := q[1..], slots[q[0] := x];
    forall i: nat | i < |r|
      ensures LinkOk(a, o, r, i) && r[i] != q[0]
    {
      var j := i + 1;
      assert LinkOk(slots, o, q, j) && q[0] != q[j];
    }
  }

  lemma PopAll<T>(slots: seq<Slot<T>>, heads: seq<Option<nat>>, tails: seq<Option<nat>>, queues: seq<seq<nat>>, o: nat,
                  x: Slot<T>)
    requires ChainsOk(slots, heads, tails, queues, None) && o < |queues| && heads[o].Some? && x.phase != Pending
    ensures var s := heads[o].value;
            && queues[o] != [] && queues[o][0] == s < |slots| && slots[s].phase == Pending && slots[s].owner == o
            && ChainsOk(slots[s := x], heads[o := slots[s].next],
                        tails[o := if slots[s].next.None? then None else tails[o]], queues[o := queues[o][1..]], None)
  {
    hide ChainOk;
    PopChain(slots, o, heads[o], tails[o], queues[o], x);
    var s := heads[o].value;
    var a, hs, ts, qs := slots[s := x], heads[o := slots[s].next],
        tails[o := if slots[s].next.None? then None else tails[o]], queues[o := queues[o][1..]];
    forall p | 0 <= p < |qs| ensures ChainOk(a, p, hs[p], ts[p], qs[p]) {
      if p != o {
        if s in queues[p] { OnChain(slots, heads, tails, queues, None, p, s); }
        ChainFrame(slots, p, heads[p], tails[p], queues[p], s, x);
      }
    }
    forall q: nat | q < |a| && a[q].phase == Pending ensures InQueue(a, qs, q) {
      assert InQueue(slots, queues, q);
      if slots[q].owner == o { assert queues[o] == [s] + queues[o][1..]; }
    }
  }
}
