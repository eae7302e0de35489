/** The timeout race on a real queue: of one registration's tokens it holds those that the race says are live. */
module TimeoutQueue {
  import opened Wrappers
  import opened TimerQueue
  import opened TimeoutRace

  /** The queue may hold other tokens as well. */
  ghost predicate Mirrors<T>(q: TimerQueue<T>, s: State)
    reads q
  {
    && q.Valid() && s.live <= s.issued <= q.issued
    && forall t :: t in s.issued ==> (q.Holds(t).Some? <==> t in s.live)
  }

  /** Registering is a step of the race: the token is one the race has not seen. */
  method Register<T>(q: TimerQueue<T>, expires: nat, value: T, heapRoom: bool, arenaRoom: bool, ghost s: State)
      returns (r: Option<Token>, ghost n: State)
    requires Mirrors(q, s)
    modifies q
    ensures Mirrors(q, n)
    ensures if r.None? then n == s
            else Enabled(s, DoRegister(r.value)) && n == TimeoutRace.Next(s, DoRegister(r.value))
  {
    r := q.TryRegister(expires, value, heapRoom, arenaRoom);
    n := if r.None? then s else TimeoutRace.Next(s, DoRegister(r.value));
  }

  /** Cancelling a rejected token, or one that was taken, is that step; it finds the entry exactly when it is live. */
  method Withdraw<T>(q: TimerQueue<T>, t: Token, ghost s: State, ghost rejected: bool)
      returns (r: Option<T>, ghost n: State)
    requires Mirrors(q, s) && Inv(s) && t in (if rejected then s.rejected else s.taken)
    modifies q
    ensures Mirrors(q, n) && (r.Some? <==> t in s.live)
    ensures var step := if rejected then DoCancelRejected(t) else DoCancelTaken(t);
            Enabled(s, step) && n == TimeoutRace.Next(s, step)
  {
    HeldIsIssued(s, t);
    r := q.Cancel(t);
    n := TimeoutRace.Next(s, if rejected then DoCancelRejected(t) else DoCancelTaken(t));
  }

  lemma HeldIsIssued(s: State, t: Token)
    requires Inv(s) && (t in s.rejected || t in s.taken)
    ensures t in s.issued
  {
    assert TokenInv(s, t);
  }

  /** Popping an expired entry is a step of the race when the token is one of its own, and no step otherwise. */
  method Expire<T>(q: TimerQueue<T>, now: nat, ghost s: State) returns (r: Option<(Token, T)>, ghost n: State)
    requires Mirrors(q, s)
    modifies q
    ensures Mirrors(q, n)
    ensures if r.Some? && r.value.0 in s.issued
            then Enabled(s, DoPop(r.value.0)) && n == TimeoutRace.Next(s, DoPop(r.value.0)) else n == s
  {
    r := q.PopExpired(now);
    n := if r.Some? && r.value.0 in s.issued then TimeoutRace.Next(s, DoPop(r.value.0)) else s;
  }
}
