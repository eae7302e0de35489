/**
  The one-word timeout registration raced by the registering side, the completing side and the expiring side, over a
  timer queue.
*/
module TimeoutRace {
  import opened Wrappers
  import opened TimerQueue

  const CLOSED: nat := 0x8000_0000_0000_0000

  // ---- the word ----------------------------------------------------------------------------------------

  predicate IsClosed(word: nat) { word / CLOSED % 2 == 1 }

  function Publish(word: nat, t: Token): (r: (nat, bool)) {
    if Raw(t) == 0 || IsClosed(Raw(t)) || word != 0 then (word, false) else (Raw(t), true)
  }

  function Close(word: nat): nat { if IsClosed(word) then word else word + CLOSED }

  function Retire(word: nat, t: Token): (r: (nat, bool)) { if word == Raw(t) then (CLOSED, true) else (word, false) }

  /** Whether one turn of the loop that takes a cancellation has to try the exchange. */
  predicate Tries(current: nat) { IsClosed(current) && current != CLOSED }

  // ---- the machine -------------------------------------------------------------------------------------

  /**
    The word and everything in flight around it. `hand` are tokens registered and not yet offered to the word,
    `rejected` those it turned down, `taken` those handed to a completing side for cancellation, `popped` those an
    expiring side took off the queue. `takers` are the loops that take a cancellation, each with the word it read
    last. The rest counts what has happened.
  */
  datatype State = State(
    word: nat, live: set<Token>, hand: set<Token>, rejected: set<Token>, taken: set<Token>, popped: set<Token>,
    takers: map<nat, nat>, issued: set<Token>, published: set<Token>, takes: multiset<Token>,
    retires: multiset<Token>, removals: multiset<Token>)

  datatype Step =
    | DoRegister(t: Token)
    | DoPublish(t: Token)
    | DoCancelRejected(t: Token)
    | DoClose
    | DoLoad(taker: nat)
    | DoAttempt(taker: nat, spurious: bool)
    | DoCancelTaken(t: Token)
    | DoPop(t: Token)
    | DoRetire(t: Token)

  function Initial(): State {
    State(0, {}, {}, {}, {}, {}, map[], {}, {}, multiset{}, multiset{}, multiset{})
  }

  /** A queue never gives a token out twice; the rest are calls a side may make with what it holds. */
  predicate Enabled(s: State, step: Step) {
    match step
    case DoRegister(t) => TokenOk(t) && t !in s.issued
    case DoPublish(t) => t in s.hand
    case DoCancelRejected(t) => t in s.rejected
    case DoClose => true
    case DoLoad(_) => true
    case DoAttempt(taker, _) => taker in s.takers
    case DoCancelTaken(t) => t in s.taken
    case DoPop(t) => t in s.live
    case DoRetire(t) => t in s.popped
  }

  /** Cancelling takes the entry out if it is still there. */
  function CancelIn(s: State, t: Token): State {
    if t in s.live then s.(live := s.live - {t}, removals := s.removals + multiset{t}) else s
  }

  function Attempt(s: State, taker: nat, spurious: bool): State
    requires taker in s.takers
  {
    var current := s.takers[taker];
    if !Tries(current) then s.(takers := s.takers - {taker})
    else if s.word == current && !spurious then
      s.(word := CLOSED, takers := s.takers - {taker}, taken := s.taken + {Held(current)},
         takes := s.takes + multiset{Held(current)})
    else s.(takers := s.takers[taker := s.word])
  }

  /** The token in a word; the closed bit is put aside. */
  function Held(word: nat): Token {
    if word % CLOSED / 0x100 % 0x1000_0000 > 0 then FromRaw(word % CLOSED) else Token(0, 0, 0)
  }

  function Next(s: State, step: Step): State
    requires Enabled(s, step)
  {
    match step
    case DoRegister(t) => s.(live := s.live + {t}, hand := s.hand + {t}, issued := s.issued + {t})
    case DoPublish(t) =>
      var (word, ok) := Publish(s.word, t);
      if ok then s.(word := word, hand := s.hand - {t}, published := s.published + {t})
      else s.(word := word, hand := s.hand - {t}, rejected := s.rejected + {t})
    case DoCancelRejected(t) => CancelIn(s, t).(rejected := s.rejected - {t})
    case DoClose => s.(word := Close(s.word))
    case DoLoad(taker) => s.(takers := s.takers[taker := s.word])
    case DoAttempt(taker, spurious) => Attempt(s, taker, spurious)
    case DoCancelTaken(t) => CancelIn(s, t).(taken := s.taken - {t})
    case DoPop(t) => s.(live := s.live - {t}, popped := s.popped + {t}, removals := s.removals + multiset{t})
    case DoRetire(t) =>
      var (word, ok) := Retire(s.word, t);
      s.(word := word, popped := s.popped - {t}, retires := if ok then s.retires + multiset{t} else s.retires)
  }

  ghost predicate Run(s: State, steps: seq<Step>, e: State)
    decreases |steps|
  {
    if steps == [] then s == e else Enabled(s, steps[0]) && Run(Next(s, steps[0]), steps[1..], e)
  }

  // ---- the invariant -----------------------------------------------------------------------------------

  predicate Holding(word: nat, t: Token) { word == Raw(t) || word == CLOSED + Raw(t) }

  /** What is true of one token. */
  predicate TokenInv(s: State, t: Token) {
    && (t in s.issued ==> TokenOk(t))
    && (t in s.hand ==> t in s.issued && t !in s.published && t !in s.rejected)
    && (t in s.rejected ==> t in s.issued && t !in s.published)
    && (t in s.published ==> t in s.issued)
    && s.takes[t] + s.retires[t] + One(t in s.published && Holding(s.word, t)) == One(t in s.published)
    && s.removals[t] + One(t in s.live) == One(t in s.issued)
    && (t in s.live ==> t in s.hand || t in s.rejected || t in s.taken || (t in s.published && Holding(s.word, t)))
    && (t in s.popped ==> t in s.issued && t !in s.live)
    && (t in s.taken ==> s.takes[t] == 1)
    && (s.retires[t] == 1 ==> t !in s.live)
  }

  /** The word is empty, closed, or holds the one published token. */
  ghost predicate WordInv(s: State) {
    && (s.word == 0 ==> s.published == {})
    && (s.word != 0 && s.word != CLOSED ==> exists t :: t in s.published && Holding(s.word, t))
    && (forall t, u :: t in s.published && u in s.published ==> t == u)
  }

  ghost predicate Inv(s: State) { WordInv(s) && forall t :: TokenInv(s, t) }

  lemma RawWord(t: Token)
    requires TokenOk(t)
    ensures 0 < Raw(t) < CLOSED && !IsClosed(Raw(t)) && IsClosed(CLOSED + Raw(t)) && Held(Raw(t)) == t
            && Held(CLOSED + Raw(t)) == t
    ensures Close(Raw(t)) == CLOSED + Raw(t) == Close(CLOSED + Raw(t))
  {
    TokenRoundTrip(t);
    assert (CLOSED + Raw(t)) % CLOSED == Raw(t) && (CLOSED + Raw(t)) / CLOSED == 1 && Raw(t) / CLOSED == 0;
  }

  lemma StepKeeps(s: State, step: Step)
    requires Inv(s) && Enabled(s, step)
    ensures Inv(Next(s, step))
  {
    var n := Next(s, step);
    forall t ensures TokenInv(n, t) { TokenKeeps(s, step, t); }
    WordKeeps(s, step);
  }

  /** A token in the word is the one published. */
  lemma WordToken(s: State)
    requires Inv(s)
    ensures s.word == 0 || s.word == CLOSED
            || (TokenOk(Held(s.word)) && Held(s.word) in s.published && Holding(s.word, Held(s.word)))
    ensures forall t :: t in s.published ==> TokenOk(t)
  {
    if s.word != 0 && s.word != CLOSED {
      var t :| t in s.published && Holding(s.word, t);
      assert TokenInv(s, t);
      RawWord(t);
    }
    forall t | t in s.published ensures TokenOk(t) { assert TokenInv(s, t); }
  }

  lemma WordKeeps(s: State, step: Step)
    requires Inv(s) && Enabled(s, step)
    ensures WordInv(Next(s, step))
  {
    var n := Next(s, step);
    WordToken(s);
    if step.DoPublish? {
      assert TokenInv(s, step.t);
      RawWord(step.t);
      assert n.published != s.published ==> Holding(n.word, step.t) && step.t in n.published;
    }
    if step.DoClose? && s.word != 0 && s.word != CLOSED {
      RawWord(Held(s.word));
      assert Holding(n.word, Held(s.word));
    }
  }

  lemma TokenKeeps(s: State, step: Step, t: Token)
    requires Inv(s) && Enabled(s, step)
    ensures TokenInv(Next(s, step), t)
  {
    hide Raw, IsClosed, Held;
    assert TokenInv(s, t);
    if step.DoPublish? { PublishKeeps(s, step.t, t); }
    else if step.DoClose? { CloseKeeps(s, t); }
    else if step.DoAttempt? { AttemptKeeps(s, step.taker, step.spurious, t); }
    else if step.DoRetire? { RetireKeeps(s, step.t, t); }
    else if step.DoCancelTaken? { }
    else if step.DoCancelRejected? { }
    else if step.DoPop? { }
    else { }
  }

  lemma PublishKeeps(s: State, u: Token, t: Token)
    requires Inv(s) && u in s.hand
    ensures TokenInv(Next(s, DoPublish(u)), t)
  {
    assert TokenInv(s, t) && TokenInv(s, u);
    RawWord(u);
    hide Raw, IsClosed, Held;
  }

  lemma CloseKeeps(s: State, t: Token)
    requires Inv(s)
    ensures TokenInv(Next(s, DoClose), t)
  {
    assert TokenInv(s, t);
    WordToken(s);
    if t in s.published { RawWord(t); }
    if s.word != 0 && s.word != CLOSED { RawWord(Held(s.word)); }
    hide Raw, Held;
  }

  lemma AttemptKeeps(s: State, taker: nat, spurious: bool, t: Token)
    requires Inv(s) && taker in s.takers
    ensures TokenInv(Attempt(s, taker, spurious), t)
  {
    hide Raw, Held, WordInv;
    assert TokenInv(s, t);
    var current := s.takers[taker];
    if Tries(current) && s.word == current && !spurious {
      WordToken(s);
      var u := Held(current);
      assert TokenInv(s, u);
      RawWord(u);
      if t in s.published { RawWord(t); }
    }
  }

  lemma RetireKeeps(s: State, u: Token, t: Token)
    requires Inv(s) && u in s.popped
    ensures TokenInv(Next(s, DoRetire(u)), t)
  {
    assert TokenInv(s, t) && TokenInv(s, u);
    RawWord(u);
    WordToken(s);
    if s.word == Raw(u) {
      assert Held(s.word) == u && u in s.published;
      if t in s.published { RawWord(t); }
    }
  }

  // ---- whole runs --------------------------------------------------------------------------------------

  lemma {:induction false} RunKeeps(s: State, steps: seq<Step>, e: State)
    requires Inv(s) && Run(s, steps, e)
    ensures Inv(e)
    decreases |steps|
  {
    if steps != [] {
      StepKeeps(s, steps[0]);
      RunKeeps(Next(s, steps[0]), steps[1..], e);
    }
  }

  /** In every run, each published token is still in the word or has had one winner: one expiry, or one cancellation. */
  lemma OneWinner(steps: seq<Step>, e: State, t: Token)
    requires Run(Initial(), steps, e)
    ensures e.takes[t] + e.retires[t] <= 1
    ensures t in e.published && !Holding(e.word, t) ==> e.takes[t] + e.retires[t] == 1
    ensures t !in e.published ==> e.takes[t] + e.retires[t] == 0
    ensures forall u :: t in e.published && u in e.published ==> t == u
  {
    RunKeeps(Initial(), steps, e);
    assert TokenInv(e, t);
  }

  /**
    In every run, each entry leaves the queue at most once, and one that is still there has someone who will take it
    out.
  */
  lemma RemovedOnce(steps: seq<Step>, e: State, t: Token)
    requires Run(Initial(), steps, e)
    ensures e.removals[t] <= 1 && (t in e.issued ==> (e.removals[t] == 1 <==> t !in e.live))
    ensures t in e.live ==> t in e.hand || t in e.rejected || t in e.taken || (t in e.published && Holding(e.word, t))
  {
    RunKeeps(Initial(), steps, e);
    assert TokenInv(e, t);
  }

  /** Once the word is closed and taken from and everyone is done, no entry is left behind. */
  lemma NothingLeft(steps: seq<Step>, e: State)
    requires Run(Initial(), steps, e) && e.word == CLOSED && e.hand == {} && e.rejected == {} && e.taken == {}
    ensures e.live == {}
    ensures forall t :: t in e.issued ==> e.removals[t] == 1
    ensures forall t :: t in e.published ==> e.takes[t] + e.retires[t] == 1
  {
    RunKeeps(Initial(), steps, e);
    forall t
      ensures t !in e.live && (t in e.issued ==> e.removals[t] == 1)
              && (t in e.published ==> e.takes[t] + e.retires[t] == 1)
    {
      assert TokenInv(e, t);
      if t in e.published { RawWord(t); }
    }
  }

  /** An expiry wins exactly when its token is published and neither closed nor retired. */
  lemma RetireWins(steps: seq<Step>, s: State, t: Token)
    requires Run(Initial(), steps, s) && t in s.popped
    ensures Next(s, DoRetire(t)).retires[t] == 1 && s.retires[t] == 0 <==>
            t in s.published && Holding(s.word, t) && !IsClosed(s.word)
  {
    RunKeeps(Initial(), steps, s);
    assert TokenInv(s, t);
    RawWord(t);
    WordToken(s);
  }

  /** A closed word with nothing in it stays so, and gives nothing more. */
  lemma ClosedForGood(s: State, step: Step)
    requires Inv(s) && Enabled(s, step) && s.word == CLOSED
    ensures var n := Next(s, step);
            n.word == CLOSED && n.takes == s.takes && n.retires == s.retires && n.published == s.published
  {
    if step.DoRetire? { assert TokenInv(s, step.t); RawWord(step.t); }
  }

  /**
    An exchange that fails though nothing was spurious finds the word closed and empty: the loop ends on its next turn.
  */
  lemma TakerSettles(s: State, step: Step, taker: nat)
    requires Inv(s) && Enabled(s, step) && taker in s.takers && Tries(s.takers[taker])
             && s.word in {s.takers[taker], CLOSED}
    requires step != DoLoad(taker) && !(step.DoAttempt? && step.taker == taker)
    ensures var n := Next(s, step);
            taker in n.takers && n.takers[taker] == s.takers[taker] && n.word in {n.takers[taker], CLOSED}
  {
    hide Raw, Held, WordInv;
    WordToken(s);
    if s.word != CLOSED && s.word != 0 { RawWord(Held(s.word)); }
    if step.DoRetire? { assert TokenInv(s, step.t); RawWord(step.t); }
  }
}
