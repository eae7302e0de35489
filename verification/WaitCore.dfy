/** The lock-free core of a wait: any number of threads, each call broken into its atomic steps.
    A call holds the epoch of the round it was made for; the words it shares carry the epoch too. */
module WaitCore {
  import opened Wrappers

  /** Epochs that fit a word beside its three flag bits. */
  const LAST_EPOCH: nat := 0x1fff_ffff_ffff_ffff

  datatype Phase = Installing | Armed | Finishing | Done

  datatype Word = Word(epoch: nat, phase: Phase, abandoned: bool)

  datatype Slot = Empty | Writing | Ready

  datatype OutcomeWord = OutcomeWord(epoch: nat, state: Slot)

  /** Who competes for an armed round: the offerer with its own outcome, or the installer. */
  datatype Claimant = ByOffer(outcome: int) | ByInstaller

  datatype Answer =
    | Lost | Deferred | OfferCompletes(epoch: nat, outcome: int)
    | NothingYet | ArmedNow | Completes(epoch: nat, outcome: int) | ExternalCompleter
    | Marked(done: bool) | Abandoned(recorded: bool) | Restarted(ok: bool)

  /** Where a call is; `current` is the phase word it last saw. */
  datatype Pc =
    | OfferLoad(e: nat, outcome: int) | OfferReserve(e: nat, outcome: int) | OfferWrite(e: nat, outcome: int)
    | OfferPublish(e: nat, outcome: int) | OfferCheck(e: nat, outcome: int)
    | ClaimLoad(e: nat, who: Claimant) | ClaimSwap(e: nat, current: Word, who: Claimant)
    | FinishTest(e: nat) | FinishLoad(e: nat) | FinishSwap(e: nat, current: Word)
    | ArmLoad(e: nat) | ArmSwap(e: nat, current: Word) | ArmTest(e: nat)
    | ReadTest(e: nat) | ReadOutcome(e: nat)
    | DoneLoad(e: nat) | DoneSwap(e: nat, current: Word)
    | AbandonLoad(e: nat) | AbandonSwap(e: nat, current: Word)
    | RestartCheck | RestartClear(next: nat) | RestartOpen(next: nat)
    | Returned(answer: Answer)

  /** `first` and `completer` record, for each epoch, the first outcome to win the slot and who got to complete;
      `writer` and `restarter` name the thread between two of its stores. */
  datatype State = State(phase: Word, outcome: OutcomeWord, slot: int, threads: map<nat, Pc>,
                         first: map<nat, int>, completer: map<nat, nat>, writer: Option<nat>, restarter: Option<nat>)

  function Rank(p: Phase): nat {
    match p
    case Installing => 0
    case Armed => 1
    case Finishing => 2
    case Done => 3
  }

  function At(s: State, t: nat, pc: Pc): State { s.(threads := s.threads[t := pc]) }

  function Return(s: State, t: nat, a: Answer): State { At(s, t, Returned(a)) }

  /** The round passes to the thread that won the swap to Finishing. */
  function Won(s: State, t: nat): State {
    s.(phase := s.phase.(phase := Finishing), completer := s.completer[s.phase.epoch := t])
  }

  /** One atomic step of thread `t`; `weak` is a compare-exchange failing for no reason. */
  function Step(s: State, t: nat, weak: bool): State
    requires t in s.threads && !s.threads[t].Returned?
  {
    match s.threads[t]
    case OfferLoad(e, o) =>
      if s.phase.epoch != e || s.phase.phase == Done then Return(s, t, Lost) else At(s, t, OfferReserve(e, o))
    case OfferReserve(e, o) =>
      if s.outcome == OutcomeWord(e, Empty) then
        At(s, t, OfferWrite(e, o)).(outcome := OutcomeWord(e, Writing), writer := Some(t), first := s.first[e := o])
      else Return(s, t, Lost)
    case OfferWrite(e, o) => At(s, t, OfferPublish(e, o)).(slot := o)
    case OfferPublish(e, o) => At(s, t, OfferCheck(e, o)).(outcome := OutcomeWord(e, Ready), writer := None)
    case OfferCheck(e, o) =>
      if s.phase.epoch != e then Return(s, t, Lost)
      else
        (match s.phase.phase
         case Installing => Return(s, t, Deferred)
         case Armed => At(s, t, ClaimLoad(e, ByOffer(o)))
         case Finishing => Return(s, t, Lost)
         case Done => Return(s, t, Lost))
    case ClaimLoad(e, who) => At(s, t, ClaimSwap(e, s.phase, who))
    case ClaimSwap(e, c, who) =>
      if c.epoch != e || c.phase != Armed then Return(s, t, if who.ByOffer? then Lost else ExternalCompleter)
      else if s.phase == c && !weak then
        (if who.ByOffer? then Return(Won(s, t), t, OfferCompletes(e, who.outcome)) else At(Won(s, t), t, ReadTest(e)))
      else At(s, t, ClaimSwap(e, s.phase, who))
    case FinishTest(e) => if s.outcome == OutcomeWord(e, Ready) then At(s, t, FinishLoad(e))
      else Return(s, t, NothingYet)
    case FinishLoad(e) => At(s, t, FinishSwap(e, s.phase))
    case FinishSwap(e, c) =>
      if c.epoch != e || c.phase != Installing then Return(s, t, NothingYet)
      else if s.phase == c && !weak then At(Won(s, t), t, ReadTest(e))
      else At(s, t, FinishSwap(e, s.phase))
    case ArmLoad(e) => At(s, t, ArmSwap(e, s.phase))
    case ArmSwap(e, c) =>
      if c.epoch != e || c.phase != Installing then Return(s, t, ExternalCompleter)
      else if s.phase == c && !weak then At(s, t, ArmTest(e)).(phase := s.phase.(phase := Armed))
      else At(s, t, ArmSwap(e, s.phase))
    case ArmTest(e) => if s.outcome == OutcomeWord(e, Ready) then At(s, t, ClaimLoad(e, ByInstaller))
      else Return(s, t, ArmedNow)
    case ReadTest(e) => At(s, t, ReadOutcome(e))
    case ReadOutcome(e) => Return(s, t, Completes(e, s.slot))
    case DoneLoad(e) => At(s, t, DoneSwap(e, s.phase))
    case DoneSwap(e, c) =>
      if c.epoch != e || c.phase != Finishing then Return(s, t, Marked(false))
      else if s.phase == c && !weak then Return(s, t, Marked(true)).(phase := s.phase.(phase := Done))
      else At(s, t, DoneSwap(e, s.phase))
    case AbandonLoad(e) => At(s, t, AbandonSwap(e, s.phase))
    case AbandonSwap(e, c) =>
      if c.epoch != e || c.phase == Done || c.abandoned then Return(s, t, Abandoned(false))
      else if s.phase == c && !weak then Return(s, t, Abandoned(true)).(phase := s.phase.(abandoned := true))
      else At(s, t, AbandonSwap(e, s.phase))
    case RestartCheck =>
      if s.phase.phase == Done && s.phase.epoch != LAST_EPOCH then At(s, t, RestartClear(s.phase.epoch + 1))
      else Return(s, t, Restarted(false)).(restarter := None)
    case RestartClear(next) => At(s, t, RestartOpen(next)).(outcome := OutcomeWord(next, Empty))
    case RestartOpen(next) => Return(s, t, Restarted(true)).(phase := Word(next, Installing, false), restarter := None)
  }

  // ---- starting calls -------------------------------------------------------------------------------

  predicate Starts(pc: Pc) {
    pc.OfferLoad? || pc.FinishTest? || pc.ArmLoad? || pc.DoneLoad? || pc.AbandonLoad? || pc.RestartCheck?
  }

  /** A call of the given round that a restart must not run beside. */
  predicate ActiveIn(pc: Pc, e: nat) {
    match pc
    case OfferLoad(f, _) => f == e
    case OfferReserve(f, _) => f == e
    case OfferWrite(f, _) => f == e
    case OfferPublish(f, _) => f == e
    case OfferCheck(f, _) => f == e
    case ClaimLoad(f, _) => f == e
    case ClaimSwap(f, _, _) => f == e
    case FinishTest(f) => f == e
    case FinishLoad(f) => f == e
    case FinishSwap(f, _) => f == e
    case ArmLoad(f) => f == e
    case ArmSwap(f, _) => f == e
    case ArmTest(f) => f == e
    case ReadTest(f) => f == e
    case ReadOutcome(f) => f == e
    case RestartCheck => true
    case RestartClear(_) => true
    case RestartOpen(_) => true
    case _ => false
  }

  predicate IdleThread(s: State, t: nat) { t !in s.threads || s.threads[t].Returned? }

  /** Whether a thread may make the call: the caller of a restart keeps the current round's calls out while it runs. */
  ghost predicate MayStart(s: State, t: nat, pc: Pc) {
    && IdleThread(s, t) && Starts(pc)
    && (pc.RestartCheck? ==> forall u :: u in s.threads ==> !ActiveIn(s.threads[u], s.phase.epoch))
    && (s.restarter.Some? ==> !ActiveIn(pc, s.phase.epoch))
  }

  function Start(s: State, t: nat, pc: Pc): State {
    At(s, t, pc).(restarter := if pc.RestartCheck? then Some(t) else s.restarter)
  }

  function Initial(): State {
    State(Word(1, Installing, false), OutcomeWord(1, Empty), 0, map[], map[], map[], None, None)
  }

  // ---- the invariant ----------------------------------------------------------------------------------

  predicate OutcomeIs(s: State, e: nat, o: int) { e in s.first && s.first[e] == o }

  /** The call's outcome was published in its round: as long as the round lasts it stays ready. */
  predicate Published(s: State, e: nat) {
    e <= s.phase.epoch && (s.phase.epoch == e ==> s.outcome == OutcomeWord(e, Ready))
  }

  predicate PastInstalling(s: State, e: nat) {
    e <= s.phase.epoch && (s.phase.epoch == e ==> s.phase.phase != Installing)
  }

  /** A phase word some thread saw earlier. */
  predicate Behind(c: Word, w: Word) {
    c.epoch < w.epoch || (c.epoch == w.epoch && Rank(c.phase) <= Rank(w.phase))
  }

  predicate ClaimantOk(s: State, e: nat, who: Claimant) { who.ByOffer? ==> OutcomeIs(s, e, who.outcome) }

  predicate Owns(s: State, t: nat, e: nat) { e in s.completer && s.completer[e] == t }

  predicate PcOk(s: State, t: nat, pc: Pc) {
    match pc
    case OfferReserve(e, _) => e <= s.phase.epoch
    case OfferWrite(e, o) => s.writer == Some(t) && s.outcome == OutcomeWord(e, Writing) && s.phase.epoch == e
      && OutcomeIs(s, e, o)
    case OfferPublish(e, o) => s.writer == Some(t) && s.outcome == OutcomeWord(e, Writing) && s.phase.epoch == e
      && OutcomeIs(s, e, o) && s.slot == o
    case OfferCheck(e, o) => Published(s, e) && OutcomeIs(s, e, o)
    case ClaimLoad(e, who) => Published(s, e) && PastInstalling(s, e) && ClaimantOk(s, e, who)
    case ClaimSwap(e, c, who) => Published(s, e) && PastInstalling(s, e) && ClaimantOk(s, e, who) && Behind(c, s.phase)
      && (c.epoch == e ==> c.phase != Installing) && e <= c.epoch
    case FinishLoad(e) => Published(s, e)
    case FinishSwap(e, c) => Published(s, e) && Behind(c, s.phase)
    case ArmSwap(e, c) => Behind(c, s.phase)
    case ArmTest(e) => PastInstalling(s, e)
    case ReadTest(e) => Completing(s, t, e)
    case ReadOutcome(e) => Completing(s, t, e)
    case RestartCheck => s.restarter == Some(t)
    case RestartClear(next) => s.restarter == Some(t) && s.phase.phase == Done
      && next == s.phase.epoch + 1 <= LAST_EPOCH && s.outcome == OutcomeWord(s.phase.epoch, Ready)
    case RestartOpen(next) => s.restarter == Some(t) && s.phase.phase == Done
      && next == s.phase.epoch + 1 <= LAST_EPOCH && s.outcome == OutcomeWord(next, Empty)
    case Returned(a) => AnswerOk(s, t, a)
    case _ => true
  }

  /** The thread owns the round's completion and the outcome is there to be read. */
  predicate Completing(s: State, t: nat, e: nat) {
    s.phase.epoch == e && Rank(s.phase.phase) >= 2 && s.outcome == OutcomeWord(e, Ready) && Owns(s, t, e)
  }

  /** Whoever is told to complete a round owns it and has the first outcome of the round. */
  predicate AnswerOk(s: State, t: nat, a: Answer) {
    match a
    case OfferCompletes(e, o) => Owns(s, t, e) && OutcomeIs(s, e, o)
    case Completes(e, o) => Owns(s, t, e) && OutcomeIs(s, e, o)
    case _ => true
  }

  predicate Opening(s: State) {
    s.restarter.Some? && s.restarter.value in s.threads && s.threads[s.restarter.value].RestartOpen?
  }

  /** A call that will still try to complete the round. */
  predicate Responsible(pc: Pc, e: nat) {
    (pc.OfferCheck? || pc.ClaimLoad? || pc.ClaimSwap? || pc.ArmTest?) && pc.e == e
  }

  ghost predicate SomeoneCompletes(s: State) {
    s.phase.phase == Armed && s.outcome == OutcomeWord(s.phase.epoch, Ready) ==>
        exists t :: t in s.threads && Responsible(s.threads[t], s.phase.epoch)
  }

  ghost predicate WordsOk(s: State) {
    && (if Opening(s) then s.outcome == OutcomeWord(s.phase.epoch + 1, Empty) && s.phase.phase == Done
        else s.outcome.epoch == s.phase.epoch)
    && (Rank(s.phase.phase) >= 2 && !Opening(s) ==> s.outcome.state == Ready)
    && (s.outcome.state == Empty <==> s.outcome.epoch !in s.first)
    && (forall e :: e in s.first ==> e <= s.outcome.epoch)
    && (s.outcome.state == Ready ==> OutcomeIs(s, s.outcome.epoch, s.slot))
    && (Rank(s.phase.phase) >= 2 <==> s.phase.epoch in s.completer)
    && (forall e :: e in s.completer ==> e <= s.phase.epoch)
    && s.phase.epoch <= LAST_EPOCH
  }

  ghost predicate RolesOk(s: State) {
    && (s.outcome.state == Writing <==> s.writer.Some?)
    && (s.writer.Some? ==>
        s.writer.value in s.threads
        && (s.threads[s.writer.value].OfferWrite? || s.threads[s.writer.value].OfferPublish?))
    && (s.restarter.Some? ==> s.restarter.value in s.threads && Restarting(s.threads[s.restarter.value]))
    && (s.restarter.Some? ==>
        forall u :: u in s.threads && u != s.restarter.value ==> !ActiveIn(s.threads[u], s.phase.epoch))
  }

  predicate Restarting(pc: Pc) { pc.RestartCheck? || pc.RestartClear? || pc.RestartOpen? }

  ghost predicate ThreadsOk(s: State) {
    forall t :: t in s.threads ==> PcOk(s, t, s.threads[t])
  }

  ghost predicate Inv(s: State) {
    WordsOk(s) && RolesOk(s) && ThreadsOk(s) && SomeoneCompletes(s)
  }

  lemma InitialOk()
    ensures Inv(Initial())
  {}

  // ---- every step keeps it -----------------------------------------------------------------------------

  /** What a thread relies on is not about where the others are. */
  lemma PcReadsWords(s: State, t: nat, pc': Pc, u: nat, pc: Pc)
    ensures PcOk(At(s, t, pc'), u, pc) == PcOk(s, u, pc)
  {}

  /** The thread moves on without touching a shared word. */
  lemma Quiet(s: State, t: nat, pc: Pc)
    requires Inv(s) && PcOk(s, t, pc) && s.writer != Some(t) && s.restarter != Some(t)
    requires s.restarter.Some? ==> !ActiveIn(pc, s.phase.epoch)
    requires t in s.threads && Responsible(s.threads[t], s.phase.epoch) && s.phase.phase == Armed ==>
             Responsible(pc, s.phase.epoch)
    ensures Inv(At(s, t, pc))
  {
    hide PcOk, ActiveIn, Responsible;
    var s' := At(s, t, pc);
    forall u | u in s'.threads ensures PcOk(s', u, s'.threads[u]) { PcReadsWords(s, t, pc, u, s'.threads[u]); }
    StillSomeone(s, s', t);
  }

  /** Whoever would complete the round still will. */
  lemma StillSomeone(s: State, s': State, t: nat)
    requires SomeoneCompletes(s) && s'.phase.epoch == s.phase.epoch && t in s'.threads
             && s'.threads == s.threads[t := s'.threads[t]]
    requires s'.phase.phase == Armed && s'.outcome == OutcomeWord(s'.phase.epoch, Ready) ==>
               || Responsible(s'.threads[t], s.phase.epoch)
               || (s.phase.phase == Armed && s.outcome == s'.outcome
                   && !(t in s.threads && Responsible(s.threads[t], s.phase.epoch)))
    ensures SomeoneCompletes(s')
  {
    hide Responsible;
    if s'.phase.phase == Armed && s'.outcome == OutcomeWord(s'.phase.epoch, Ready)
        && !Responsible(s'.threads[t], s.phase.epoch) {
      var u :| u in s.threads && Responsible(s.threads[u], s.phase.epoch);
      assert u in s'.threads && Responsible(s'.threads[u], s'.phase.epoch);
    }
  }

  /** The phase word moves on inside its round. */
  lemma PcKeepsPhase(s: State, w: Word, completer: map<nat, nat>, u: nat, pc: Pc)
    requires PcOk(s, u, pc) && w.epoch == s.phase.epoch && Rank(s.phase.phase) <= Rank(w.phase) && s.phase.phase != Done
    requires forall e :: e in s.completer ==> e in completer && completer[e] == s.completer[e]
    ensures PcOk(s.(phase := w, completer := completer), u, pc)
  {}

  lemma PhaseMoves(s: State, t: nat, w: Word, completer: map<nat, nat>, pc: Pc)
    requires Inv(s) && s.restarter != Some(t) && s.writer != Some(t)
             && (s.restarter.Some? ==> !ActiveIn(pc, s.phase.epoch))
    requires w.epoch == s.phase.epoch && Rank(s.phase.phase) <= Rank(w.phase) && s.phase.phase != Done
             && !Restarting(pc)
    requires completer == if Rank(w.phase) >= 2 && Rank(s.phase.phase) < 2 then s.completer[w.epoch := t]
             else s.completer
    requires Rank(w.phase) >= 2 && Rank(s.phase.phase) < 2 ==> s.outcome == OutcomeWord(s.phase.epoch, Ready)
    requires PcOk(s.(phase := w, completer := completer), t, pc)
    requires w.phase == Armed && s.outcome == OutcomeWord(w.epoch, Ready) && !Responsible(pc, w.epoch) ==>
               s.phase.phase == Armed && !(t in s.threads && Responsible(s.threads[t], w.epoch))
    ensures Inv(At(s.(phase := w, completer := completer), t, pc))
  {
    hide PcOk, ActiveIn, Responsible;
    var s0 := s.(phase := w, completer := completer);
    var s' := At(s0, t, pc);
    forall u | u in s'.threads ensures PcOk(s', u, s'.threads[u]) {
      PcReadsWords(s0, t, pc, u, s'.threads[u]);
      if u != t { PcKeepsPhase(s, w, completer, u, s.threads[u]); }
    }
    NotOpening(s);
    StillSomeone(s, s', t);
  }

  lemma NotOpening(s: State)
    requires ThreadsOk(s) && s.phase.phase != Done
    ensures !Opening(s)
  {}

  // ---- the outcome slot -------------------------------------------------------------------------------

  /** What the others rely on when a thread takes the empty slot of the round. */
  lemma PcKeepsReserve(s: State, t: nat, o: int, u: nat, pc: Pc)
    requires WordsOk(s) && RolesOk(s) && s.outcome.state == Empty && s.outcome.epoch == s.phase.epoch && PcOk(s, u, pc)
    ensures PcOk(s.(outcome := OutcomeWord(s.phase.epoch, Writing), writer := Some(t),
                    first := s.first[s.phase.epoch := o]), u, pc)
  {}

  lemma Reserves(s: State, t: nat, o: int)
    requires Inv(s) && t in s.threads && s.threads[t] == OfferReserve(s.phase.epoch, o)
             && s.outcome == OutcomeWord(s.phase.epoch, Empty)
    ensures Inv(Step(s, t, false))
  {
    hide PcOk;
    var e := s.phase.epoch;
    var s0 := s.(outcome := OutcomeWord(e, Writing), writer := Some(t), first := s.first[e := o]);
    var s' := At(s0, t, OfferWrite(e, o));
    forall u | u in s'.threads ensures PcOk(s', u, s'.threads[u]) {
      PcReadsWords(s0, t, OfferWrite(e, o), u, s'.threads[u]);
      if u != t { PcKeepsReserve(s, t, o, u, s.threads[u]); } else { WriterOk(s0, t, o); }
    }
  }

  lemma WriterOk(s: State, t: nat, o: int)
    requires s.writer == Some(t) && s.outcome == OutcomeWord(s.phase.epoch, Writing) && OutcomeIs(s, s.phase.epoch, o)
    ensures PcOk(s, t, OfferWrite(s.phase.epoch, o))
  {}

  /** Only the writer's own step depends on the slot while it is being written. */
  lemma PcKeepsWriting(s: State, t: nat, slot: int, state: Slot, u: nat, pc: Pc)
    requires s.writer == Some(t) && u != t && PcOk(s, u, pc) && s.outcome == OutcomeWord(s.phase.epoch, Writing)
    ensures PcOk(s.(slot := slot), u, pc)
    ensures PcOk(s.(outcome := OutcomeWord(s.phase.epoch, Ready), writer := None), u, pc)
  {}

  lemma Writes(s: State, t: nat)
    requires Inv(s) && t in s.threads && s.threads[t].OfferWrite?
    ensures Inv(Step(s, t, false))
  {
    var o := s.threads[t].outcome;
    assert PcOk(s, t, s.threads[t]);
    var s0 := s.(slot := o);
    var s' := Step(s, t, false);
    hide PcOk;
    forall u | u in s'.threads ensures PcOk(s', u, s'.threads[u]) {
      PcReadsWords(s0, t, s'.threads[t], u, s'.threads[u]);
      if u != t { PcKeepsWriting(s, t, o, Writing, u, s.threads[u]); } else { WrittenOk(s0, t, o); }
    }
  }

  lemma WrittenOk(s: State, t: nat, o: int)
    requires s.writer == Some(t) && s.outcome == OutcomeWord(s.phase.epoch, Writing) && OutcomeIs(s, s.phase.epoch, o)
             && s.slot == o
    ensures PcOk(s, t, OfferPublish(s.phase.epoch, o))
  {}

  lemma Publishes(s: State, t: nat)
    requires Inv(s) && t in s.threads && s.threads[t].OfferPublish?
    ensures Inv(Step(s, t, false))
  {
    var o := s.threads[t].outcome;
    assert PcOk(s, t, s.threads[t]);
    var s0 := s.(outcome := OutcomeWord(s.phase.epoch, Ready), writer := None);
    var s' := Step(s, t, false);
    hide PcOk;
    forall u | u in s'.threads ensures PcOk(s', u, s'.threads[u]) {
      PcReadsWords(s0, t, s'.threads[t], u, s'.threads[u]);
      if u != t { PcKeepsWriting(s, t, o, Ready, u, s.threads[u]); } else { PublishedOk(s0, t, o); }
    }
    StillSomeone(s, s', t);
  }

  lemma PublishedOk(s: State, t: nat, o: int)
    requires s.outcome == OutcomeWord(s.phase.epoch, Ready) && OutcomeIs(s, s.phase.epoch, o)
    ensures PcOk(s, t, OfferCheck(s.phase.epoch, o))
  {}

  // ---- restarting --------------------------------------------------------------------------------------

  lemma PcKeepsClear(s: State, u: nat, pc: Pc)
    requires PcOk(s, u, pc) && !ActiveIn(pc, s.phase.epoch)
    ensures PcOk(s.(outcome := OutcomeWord(s.phase.epoch + 1, Empty)), u, pc)
  {}

  lemma Clears(s: State, t: nat)
    requires Inv(s) && t in s.threads && s.threads[t].RestartClear?
    ensures Inv(Step(s, t, false))
  {
    assert PcOk(s, t, s.threads[t]);
    var next := s.phase.epoch + 1;
    var s0 := s.(outcome := OutcomeWord(next, Empty));
    var s' := Step(s, t, false);
    hide PcOk, ActiveIn;
    forall u | u in s'.threads ensures PcOk(s', u, s'.threads[u]) {
      PcReadsWords(s0, t, s'.threads[t], u, s'.threads[u]);
      if u != t { PcKeepsClear(s, u, s.threads[u]); } else { OpenOk(s0, t); }
    }
    StepIsActive(s.phase.epoch, next);
  }

  lemma StepIsActive(e: nat, next: nat)
    ensures ActiveIn(RestartOpen(next), e)
  {}

  lemma OpenOk(s: State, t: nat)
    requires s.restarter == Some(t) && s.phase.phase == Done && s.phase.epoch < LAST_EPOCH
             && s.outcome == OutcomeWord(s.phase.epoch + 1, Empty)
    ensures PcOk(s, t, RestartOpen(s.phase.epoch + 1))
  {}

  lemma PcKeepsOpen(s: State, u: nat, pc: Pc)
    requires PcOk(s, u, pc) && !ActiveIn(pc, s.phase.epoch) && s.restarter.Some? && s.restarter.value != u
             && s.outcome == OutcomeWord(s.phase.epoch + 1, Empty)
    requires s.writer.None?
    ensures PcOk(s.(phase := Word(s.phase.epoch + 1, Installing, false), restarter := None), u, pc)
  {}

  lemma Opens(s: State, t: nat)
    requires Inv(s) && t in s.threads && s.threads[t].RestartOpen?
    ensures Inv(Step(s, t, false))
  {
    assert PcOk(s, t, s.threads[t]);
    var next := s.phase.epoch + 1;
    var s0 := s.(phase := Word(next, Installing, false), restarter := None);
    var s' := Step(s, t, false);
    hide PcOk, ActiveIn;
    forall u | u in s'.threads ensures PcOk(s', u, s'.threads[u]) {
      PcReadsWords(s0, t, s'.threads[t], u, s'.threads[u]);
      if u != t { PcKeepsOpen(s, u, s.threads[u]); } else { RestartedOk(s0, t); }
    }
  }

  lemma RestartedOk(s: State, t: nat)
    ensures PcOk(s, t, Returned(Restarted(true)))
  {}

  // ---- all steps -----------------------------------------------------------------------------------------

  /** A thread that is neither writing the slot nor restarting. */
  lemma PlainThread(s: State, t: nat)
    requires Inv(s) && t in s.threads && !s.threads[t].OfferWrite? && !s.threads[t].OfferPublish?
             && !Restarting(s.threads[t])
    ensures s.writer != Some(t) && s.restarter != Some(t) && PcOk(s, t, s.threads[t])
    ensures s.restarter.Some? ==> !ActiveIn(s.threads[t], s.phase.epoch)
  {
    hide PcOk, ActiveIn;
  }

  lemma OfferSteps(s: State, t: nat, weak: bool)
    requires Inv(s) && t in s.threads
    requires s.threads[t].OfferLoad? || s.threads[t].OfferReserve? || s.threads[t].OfferCheck?
    ensures Inv(Step(s, t, weak))
  {
    hide Inv;
    PlainThread(s, t);
    var pc := s.threads[t];
    if pc.OfferReserve? && s.outcome == OutcomeWord(pc.e, Empty) {
      SlotOfRound(s, pc.e);
      Reserves(s, t, pc.outcome);
    } else {
      Quiet(s, t, Step(s, t, weak).threads[t]);
    }
  }

  lemma SlotOfRound(s: State, e: nat)
    requires Inv(s) && s.outcome == OutcomeWord(e, Empty) && e <= s.phase.epoch
    ensures s.phase.epoch == e
  {
    hide ThreadsOk, RolesOk, SomeoneCompletes;
  }

  lemma ClaimSteps(s: State, t: nat, weak: bool)
    requires Inv(s) && t in s.threads && (s.threads[t].ClaimLoad? || s.threads[t].ClaimSwap?)
    ensures Inv(Step(s, t, weak))
  {
    hide Inv;
    PlainThread(s, t);
    var pc := s.threads[t];
    if pc.ClaimSwap? && pc.current.epoch == pc.e && pc.current.phase == Armed && s.phase == pc.current && !weak {
      RoundIsOpen(s, pc.e);
      PhaseMoves(s, t, s.phase.(phase := Finishing), s.completer[pc.e := t],
                 if pc.who.ByOffer? then Returned(OfferCompletes(pc.e, pc.who.outcome)) else ReadTest(pc.e));
    } else {
      Quiet(s, t, Step(s, t, weak).threads[t]);
    }
  }

  lemma RoundIsOpen(s: State, e: nat)
    requires Inv(s) && s.phase.epoch == e && Rank(s.phase.phase) < 2
    ensures e !in s.completer
  {
    hide ThreadsOk, RolesOk, SomeoneCompletes;
  }

  lemma FinishSteps(s: State, t: nat, weak: bool)
    requires Inv(s) && t in s.threads
             && (s.threads[t].FinishTest? || s.threads[t].FinishLoad? || s.threads[t].FinishSwap?)
    ensures Inv(Step(s, t, weak))
  {
    hide Inv;
    PlainThread(s, t);
    var pc := s.threads[t];
    if pc.FinishSwap? && pc.current.epoch == pc.e && pc.current.phase == Installing && s.phase == pc.current && !weak {
      RoundIsOpen(s, pc.e);
      PhaseMoves(s, t, s.phase.(phase := Finishing), s.completer[pc.e := t], ReadTest(pc.e));
    } else {
      if pc.FinishTest? && s.outcome == OutcomeWord(pc.e, Ready) { ReadyRound(s, pc.e); }
      Quiet(s, t, Step(s, t, weak).threads[t]);
    }
  }

  lemma ReadyRound(s: State, e: nat)
    requires Inv(s) && s.outcome == OutcomeWord(e, Ready)
    ensures s.phase.epoch == e
  {
    hide ThreadsOk, RolesOk, SomeoneCompletes;
  }

  lemma ArmSteps(s: State, t: nat, weak: bool)
    requires Inv(s) && t in s.threads && (s.threads[t].ArmLoad? || s.threads[t].ArmSwap? || s.threads[t].ArmTest?)
    ensures Inv(Step(s, t, weak))
  {
    hide Inv;
    PlainThread(s, t);
    var pc := s.threads[t];
    if pc.ArmSwap? && pc.current.epoch == pc.e && pc.current.phase == Installing && s.phase == pc.current && !weak {
      PhaseMoves(s, t, s.phase.(phase := Armed), s.completer, ArmTest(pc.e));
    } else if pc.ArmTest? && s.outcome != OutcomeWord(pc.e, Ready) {
      NotReady(s, t, pc.e);
    } else {
      if pc.ArmTest? { ReadyRound(s, pc.e); }
      Quiet(s, t, Step(s, t, weak).threads[t]);
    }
  }

  /** An installer that finds no outcome leaves; whoever publishes one later will find the round armed. */
  lemma NotReady(s: State, t: nat, e: nat)
    requires Inv(s) && t in s.threads && s.threads[t] == ArmTest(e) && s.outcome != OutcomeWord(e, Ready)
    ensures Inv(Return(s, t, ArmedNow))
  {
    hide PcOk, ActiveIn;
    PlainThread(s, t);
    var pc, s' := Returned(ArmedNow), Return(s, t, ArmedNow);
    ReturnOk(s, t);
    forall u | u in s'.threads ensures PcOk(s', u, s'.threads[u]) { PcReadsWords(s, t, pc, u, s'.threads[u]); }
    StillSomeone(s, s', t);
  }

  lemma ReturnOk(s: State, t: nat)
    ensures PcOk(s, t, Returned(ArmedNow)) && forall e :: !ActiveIn(Returned(ArmedNow), e)
  {}

  lemma ReadSteps(s: State, t: nat, weak: bool)
    requires Inv(s) && t in s.threads && (s.threads[t].ReadTest? || s.threads[t].ReadOutcome?)
    ensures Inv(Step(s, t, weak))
  {
    hide Inv;
    PlainThread(s, t);
    var e := s.threads[t].e;
    SlotIsFirst(s, e);
    Quiet(s, t, Step(s, t, weak).threads[t]);
  }

  lemma DoneSteps(s: State, t: nat, weak: bool)
    requires Inv(s) && t in s.threads && (s.threads[t].DoneLoad? || s.threads[t].DoneSwap?)
    ensures Inv(Step(s, t, weak))
  {
    hide Inv;
    PlainThread(s, t);
    var pc := s.threads[t];
    if pc.DoneSwap? && pc.current.epoch == pc.e && pc.current.phase == Finishing && s.phase == pc.current && !weak {
      PhaseMoves(s, t, s.phase.(phase := Done), s.completer, Returned(Marked(true)));
    } else {
      Quiet(s, t, Step(s, t, weak).threads[t]);
    }
  }

  lemma AbandonSteps(s: State, t: nat, weak: bool)
    requires Inv(s) && t in s.threads && (s.threads[t].AbandonLoad? || s.threads[t].AbandonSwap?)
    ensures Inv(Step(s, t, weak))
  {
    hide Inv;
    PlainThread(s, t);
    var pc := s.threads[t];
    if pc.AbandonSwap? && pc.current.epoch == pc.e && pc.current.phase != Done && !pc.current.abandoned
        && s.phase == pc.current && !weak {
      PhaseMoves(s, t, s.phase.(abandoned := true), s.completer, Returned(Abandoned(true)));
    } else {
      Quiet(s, t, Step(s, t, weak).threads[t]);
    }
  }

  lemma SlotIsFirst(s: State, e: nat)
    requires Inv(s) && s.outcome == OutcomeWord(e, Ready)
    ensures OutcomeIs(s, e, s.slot)
  {
    hide ThreadsOk, RolesOk, SomeoneCompletes;
  }

  lemma RestartCheckStep(s: State, t: nat)
    requires Inv(s) && t in s.threads && s.threads[t].RestartCheck?
    ensures Inv(Step(s, t, false))
  {
    assert PcOk(s, t, s.threads[t]);
    var s' := Step(s, t, false);
    var s0 := s.(restarter := s'.restarter);
    hide PcOk, ActiveIn;
    forall u | u in s'.threads ensures PcOk(s', u, s'.threads[u]) {
      PcReadsWords(s0, t, s'.threads[t], u, s'.threads[u]);
      if u == t { CheckedOk(s0, t); } else { PcIgnoresRestarter(s, s0, u, s.threads[u]); }
    }
    StillSomeone(s, s', t);
  }

  lemma CheckedOk(s: State, t: nat)
    ensures PcOk(s, t, Returned(Restarted(false)))
    ensures s.restarter == Some(t) && s.phase.phase == Done && s.phase.epoch < LAST_EPOCH
            && s.outcome == OutcomeWord(s.phase.epoch, Ready) ==>
            PcOk(s, t, RestartClear(s.phase.epoch + 1))
  {}

  lemma PcIgnoresRestarter(s: State, s0: State, u: nat, pc: Pc)
    requires PcOk(s, u, pc) && s0 == s.(restarter := s0.restarter) && s.restarter.Some? && s.restarter.value != u
    ensures PcOk(s0, u, pc)
  {}

  /** Every atomic step of every thread keeps the invariant. */
  lemma StepKeeps(s: State, t: nat, weak: bool)
    requires Inv(s) && t in s.threads && !s.threads[t].Returned?
    ensures Inv(Step(s, t, weak))
  {
    hide Inv;
    match s.threads[t] {
      case OfferLoad(_, _) => OfferSteps(s, t, weak);
      case OfferReserve(_, _) => OfferSteps(s, t, weak);
      case OfferWrite(_, _) => Writes(s, t);
      case OfferPublish(_, _) => Publishes(s, t);
      case OfferCheck(_, _) => OfferSteps(s, t, weak);
      case ClaimLoad(_, _) => ClaimSteps(s, t, weak);
      case ClaimSwap(_, _, _) => ClaimSteps(s, t, weak);
      case FinishTest(_) => FinishSteps(s, t, weak);
      case FinishLoad(_) => FinishSteps(s, t, weak);
      case FinishSwap(_, _) => FinishSteps(s, t, weak);
      case ArmLoad(_) => ArmSteps(s, t, weak);
      case ArmSwap(_, _) => ArmSteps(s, t, weak);
      case ArmTest(_) => ArmSteps(s, t, weak);
      case RestartCheck => RestartCheckStep(s, t);
      case RestartClear(_) => Clears(s, t);
      case RestartOpen(_) => Opens(s, t);
      case ReadTest(_) => ReadSteps(s, t, weak);
      case ReadOutcome(_) => ReadSteps(s, t, weak);
      case DoneLoad(_) => DoneSteps(s, t, weak);
      case DoneSwap(_, _) => DoneSteps(s, t, weak);
      case AbandonLoad(_) => AbandonSteps(s, t, weak);
      case AbandonSwap(_, _) => AbandonSteps(s, t, weak);
      case Returned(_) =>
    }
  }

  /** Starting a call within its contract keeps it too. */
  lemma StartKeeps(s: State, t: nat, pc: Pc)
    requires Inv(s) && MayStart(s, t, pc)
    ensures Inv(Start(s, t, pc))
  {
    IdleIsPlain(s, t);
    if pc.RestartCheck? {
      RestartStarts(s, t);
    } else {
      StartOk(s, t, pc);
      Quiet(s, t, pc);
    }
  }

  lemma IdleIsPlain(s: State, t: nat)
    requires Inv(s) && IdleThread(s, t)
    ensures s.writer != Some(t) && s.restarter != Some(t)
  {
    hide PcOk, ActiveIn;
  }

  lemma StartOk(s: State, t: nat, pc: Pc)
    requires Starts(pc) && !pc.RestartCheck?
    ensures PcOk(s, t, pc)
  {}

  lemma RestartStarts(s: State, t: nat)
    requires Inv(s) && MayStart(s, t, RestartCheck)
    ensures Inv(Start(s, t, RestartCheck))
  {
    assert s.restarter.None? || s.restarter == Some(t) by { RestartAlone(s); }
    var s' := Start(s, t, RestartCheck);
    var s0 := s.(restarter := Some(t));
    IdleIsPlain(s, t);
    hide PcOk, ActiveIn;
    forall u | u in s'.threads ensures PcOk(s', u, s'.threads[u]) {
      PcReadsWords(s0, t, RestartCheck, u, s'.threads[u]);
      if u == t { CheckOk(s0, t); } else { NobodyRestarts(s, s0, u, s.threads[u]); }
    }
    StillSomeone(s, s', t);
  }

  lemma RestartAlone(s: State)
    requires Inv(s) && forall u :: u in s.threads ==> !ActiveIn(s.threads[u], s.phase.epoch)
    ensures s.restarter.None?
  {
    hide PcOk;
  }

  lemma CheckOk(s: State, t: nat)
    requires s.restarter == Some(t)
    ensures PcOk(s, t, RestartCheck)
  {}

  lemma NobodyRestarts(s: State, s0: State, u: nat, pc: Pc)
    requires PcOk(s, u, pc) && s.restarter.None? && s0 == s.(restarter := s0.restarter)
    ensures PcOk(s0, u, pc)
  {}

  // ---- what it means -----------------------------------------------------------------------------------

  datatype Move = Go(thread: nat, weak: bool) | Call(thread: nat, pc: Pc)

  ghost predicate Allowed(s: State, m: Move) {
    match m
    case Go(t, _) => t in s.threads && !s.threads[t].Returned?
    case Call(t, pc) => MayStart(s, t, pc)
  }

  ghost function After(s: State, m: Move): State
    requires Allowed(s, m)
  {
    match m
    case Go(t, weak) => Step(s, t, weak)
    case Call(t, pc) => Start(s, t, pc)
  }

  lemma MoveKeeps(s: State, m: Move)
    requires Inv(s) && Allowed(s, m)
    ensures Inv(After(s, m))
  {
    hide Inv;
    match m
    case Go(t, weak) => StepKeeps(s, t, weak);
    case Call(t, pc) => StartKeeps(s, t, pc);
  }

  /** A round's first outcome and its completer, once there, are there for good. */
  lemma Permanent(s: State, m: Move, e: nat)
    requires Inv(s) && Allowed(s, m)
    ensures e in s.first ==> e in After(s, m).first && After(s, m).first[e] == s.first[e]
    ensures e in s.completer ==> e in After(s, m).completer && After(s, m).completer[e] == s.completer[e]
  {
    if m.Go? { KeepsRecords(s, m.thread, m.weak, e); }
  }

  lemma KeepsRecords(s: State, t: nat, weak: bool, e: nat)
    requires Inv(s) && t in s.threads && !s.threads[t].Returned?
    ensures e in s.first ==> e in Step(s, t, weak).first && Step(s, t, weak).first[e] == s.first[e]
    ensures e in s.completer ==> e in Step(s, t, weak).completer && Step(s, t, weak).completer[e] == s.completer[e]
  {
    hide RolesOk, SomeoneCompletes, PcOk;
  }

  ghost predicate Run(ss: seq<State>, ms: seq<Move>) {
    && |ss| == |ms| + 1 && ss[0] == Initial()
    && forall k :: 0 <= k < |ms| ==> Follows(ss, ms, k)
  }

  ghost predicate Follows(ss: seq<State>, ms: seq<Move>, k: nat)
    requires k < |ms| && |ss| == |ms| + 1
  {
    Allowed(ss[k], ms[k]) && ss[k + 1] == After(ss[k], ms[k])
  }

  lemma {:induction false} RunKeeps(ss: seq<State>, ms: seq<Move>, k: nat)
    requires Run(ss, ms) && k <= |ms|
    ensures Inv(ss[k])
    decreases k
  {
    hide Inv, Allowed, After;
    if k == 0 {
      InitialOk();
    } else {
      RunKeeps(ss, ms, k - 1);
      assert Follows(ss, ms, k - 1);
      MoveKeeps(ss[k - 1], ms[k - 1]);
    }
  }

  lemma {:induction false} RunPermanent(ss: seq<State>, ms: seq<Move>, j: nat, k: nat, e: nat)
    requires Run(ss, ms) && j <= k <= |ms|
    ensures e in ss[j].first ==> e in ss[k].first && ss[k].first[e] == ss[j].first[e]
    ensures e in ss[j].completer ==> e in ss[k].completer && ss[k].completer[e] == ss[j].completer[e]
    decreases k - j
  {
    hide Inv, Allowed, After;
    if j < k {
      RunPermanent(ss, ms, j, k - 1, e);
      RunKeeps(ss, ms, k - 1);
      assert Follows(ss, ms, k - 1);
      Permanent(ss[k - 1], ms[k - 1], e);
    }
  }

  /** The thread was told to complete the round with this outcome. */
  predicate ToldToComplete(s: State, t: nat, e: nat, o: int) {
    t in s.threads && (s.threads[t] == Returned(OfferCompletes(e, o)) || s.threads[t] == Returned(Completes(e, o)))
  }

  /** In any run at most one thread is ever told to complete a round, and always with the round's first outcome. */
  lemma OneCompletion(ss: seq<State>, ms: seq<Move>, j: nat, t: nat, o: int, k: nat, u: nat, q: int, e: nat)
    requires Run(ss, ms) && j <= k <= |ms| && ToldToComplete(ss[j], t, e, o) && ToldToComplete(ss[k], u, e, q)
    ensures t == u && o == q && e in ss[k].first && ss[k].first[e] == o
  {
    hide WordsOk, RolesOk, SomeoneCompletes;
    RunKeeps(ss, ms, j);
    RunKeeps(ss, ms, k);
    RunPermanent(ss, ms, j, k, e);
    assert PcOk(ss[j], t, ss[j].threads[t]) && PcOk(ss[k], u, ss[k].threads[u]);
  }

  /** With no call in progress, a round whose outcome is there and which was armed is being completed or done. */
  lemma NoLostCompletion(ss: seq<State>, ms: seq<Move>, k: nat)
    requires Run(ss, ms) && k <= |ms| && (forall t :: t in ss[k].threads ==> ss[k].threads[t].Returned?)
    requires ss[k].outcome == OutcomeWord(ss[k].phase.epoch, Ready) && ss[k].phase.phase != Installing
    ensures ss[k].phase.phase == Finishing || ss[k].phase.phase == Done
  {
    RunKeeps(ss, ms, k);
  }

  predicate SameWords(s: State, s': State) { s'.phase == s.phase && s'.outcome == s.outcome && s'.slot == s.slot }

  /** The round a call was made for. */
  predicate CallOf(pc: Pc, e: nat) {
    if pc.RestartCheck? || pc.RestartClear? || pc.RestartOpen? || pc.Returned? then false else pc.e == e
  }

  /** A call of an older round changes no shared word, whatever step it is at. */
  lemma StaleCallsChangeNothing(s: State, t: nat, weak: bool, e: nat)
    requires Inv(s) && t in s.threads && CallOf(s.threads[t], e) && e < s.phase.epoch
    ensures SameWords(s, Step(s, t, weak))
  {
    assert PcOk(s, t, s.threads[t]);
    hide RolesOk, SomeoneCompletes, ThreadsOk, PcOk;
  }

  /** The outcome is ready whenever a completer is about to read it: the check in front of the read never fails. */
  lemma OutcomeIsReady(s: State, t: nat)
    requires Inv(s) && t in s.threads && (s.threads[t].ReadTest? || s.threads[t].ReadOutcome?)
    ensures s.outcome == OutcomeWord(s.threads[t].e, Ready) && OutcomeIs(s, s.threads[t].e, s.slot)
  {
    hide RolesOk, SomeoneCompletes;
    assert PcOk(s, t, s.threads[t]);
  }

  // ---- words of 64 bits --------------------------------------------------------------------------------

  function Packed(w: Word): nat { w.epoch * 8 + (if w.abandoned then 4 else 0) + Rank(w.phase) }

  function PackedOutcome(w: OutcomeWord): nat {
    w.epoch * 4 + match w.state case Empty => 0 case Writing => 1 case Ready => 2
  }

  /** Packed words are equal exactly when what they hold is, so a swap that compares words compares rounds. */
  lemma PackedTells(v: Word, w: Word, x: OutcomeWord, y: OutcomeWord)
    ensures Packed(v) == Packed(w) <==> v == w
    ensures PackedOutcome(x) == PackedOutcome(y) <==> x == y
  {}

  /** In every run both words fit 64 bits: the last epoch is never left. */
  lemma WordsFit(ss: seq<State>, ms: seq<Move>, k: nat)
    requires Run(ss, ms) && k <= |ms|
    ensures Packed(ss[k].phase) <= U64_MAX && PackedOutcome(ss[k].outcome) <= U64_MAX
  {
    RunKeeps(ss, ms, k);
    var s := ss[k];
    if Opening(s) { assert PcOk(s, s.restarter.value, s.threads[s.restarter.value]); }
    hide PcOk, RolesOk, SomeoneCompletes, ThreadsOk;
  }

  /** A restart is refused exactly when the round is not done or is the last there can be; then nothing changes. */
  lemma RestartRefused(s: State, t: nat, weak: bool)
    requires t in s.threads && s.threads[t].RestartCheck?
    ensures Step(s, t, weak).threads[t] == Returned(Restarted(false))
       <==> s.phase.phase != Done || s.phase.epoch == LAST_EPOCH
    ensures SameWords(s, Step(s, t, weak))
  {}
}
