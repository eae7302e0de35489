/** One epoch of the monotonic clock: ticks to nanoseconds rounding down, deadlines to ticks rounding up. */
module ClockGeometry {
  import opened Wrappers

  const U128_MAX: nat := 0xFFFF_FFFF_FFFF_FFFF_FFFF_FFFF_FFFF_FFFF
  const NANOS_PER_SECOND: nat := 1_000_000_000

  datatype TimeError = InvalidFrequency | InvalidDeadline | OutOfRange

  datatype Deadline = Deadline(kind: nat, reserved: nat, atNs: nat)

  datatype Clock = Clock(frequency: nat, origin: nat, maxDeadline: nat)

  function Instant(d: Deadline): Result<Option<nat>, TimeError> {
    if d == Deadline(0, 0, 0) then Ok(None)
    else if d.kind == 1 && d.reserved == 0 then Ok(Some(d.atNs))
    else Err(InvalidDeadline)
  }

  function DivCeil(a: nat, b: nat): nat
    requires b > 0
  {
    if a % b == 0 then a / b else a / b + 1
  }

  /** The last tick, from the origin, whose reading still fits and which is not the one that switches the timer off. */
  function LastTick(frequency: nat, origin: nat): nat
    requires origin < U64_MAX && frequency > 0
  {
    Min(((U64_MAX + 1) * frequency - 1) / NANOS_PER_SECOND, U64_MAX - 1 - origin)
  }

  function New(frequency: nat, origin: nat): (r: Result<Clock, TimeError>) {
    if frequency == 0 then Err(InvalidFrequency)
    else if origin > U64_MAX - 1 then Err(OutOfRange)
    else Ok(Clock(frequency, origin, LastTick(frequency, origin) * NANOS_PER_SECOND / frequency))
  }

  predicate Valid(c: Clock) { 0 < c.frequency <= U64_MAX && c.origin < U64_MAX && New(c.frequency, c.origin) == Ok(c) }

  function ElapsedNs(c: Clock, ticks: nat): Result<nat, TimeError>
    requires c.frequency > 0
  {
    if ticks == U64_MAX || ticks < c.origin then Err(OutOfRange)
    else
      var ns := (ticks - c.origin) * NANOS_PER_SECOND / c.frequency;
      if ns > U64_MAX then Err(OutOfRange) else Ok(ns)
  }

  function DeadlineTicks(c: Clock, d: Deadline): Result<Option<nat>, TimeError> {
    if Instant(d).Err? then Err(Instant(d).error)
    else if Instant(d).value.None? then Ok(None)
    else
      var ns := Instant(d).value.value;
      if ns > c.maxDeadline then Err(OutOfRange)
      else
        var ticks := c.origin + DivCeil(ns * c.frequency, NANOS_PER_SECOND);
        if ticks >= U64_MAX then Err(OutOfRange) else Ok(Some(ticks))
  }

  function ResolutionNs(c: Clock): nat
    requires c.frequency > 0
  {
    if DivCeil(NANOS_PER_SECOND, c.frequency) < 1 then 1 else DivCeil(NANOS_PER_SECOND, c.frequency)
  }

  // ---- rounding ----------------------------------------------------------------------------------------

  /** A quotient rounded down reaches `n` exactly when the dividend does. */
  lemma FloorReaches(a: nat, b: nat, n: nat)
    requires b > 0
    ensures a / b >= n <==> a >= n * b
  {
    DivParts(a, b);
    if a >= n * b && a / b < n {
      LessTimes(a / b + 1, n, b);
    }
    if a / b >= n { LessTimes(n, a / b, b); }
  }

  /** A quotient rounded up is within `n` exactly when the dividend is. */
  lemma CeilWithin(a: nat, b: nat, n: nat)
    requires b > 0
    ensures DivCeil(a, b) <= n <==> a <= n * b
  {
    DivParts(a, b);
    FloorReaches(a, b, n);
    if a <= n * b && DivCeil(a, b) > n {
      assert a / b >= n;
      LessTimes(n, a / b, b);
    }
    if DivCeil(a, b) <= n { LessTimes(DivCeil(a, b), n, b); }
  }

  lemma Reaches(c: Clock, x: nat, ns: nat)
    requires c.frequency > 0
    ensures x * NANOS_PER_SECOND / c.frequency >= ns <==> x >= DivCeil(ns * c.frequency, NANOS_PER_SECOND)
  {
    FloorReaches(x * NANOS_PER_SECOND, c.frequency, ns);
    CeilWithin(ns * c.frequency, NANOS_PER_SECOND, x);
  }

  /** A reading fits 64 bits exactly up to a last tick. */
  lemma Readable(frequency: nat, x: nat)
    requires frequency > 0
    ensures x * NANOS_PER_SECOND / frequency <= U64_MAX <==> x <= ((U64_MAX + 1) * frequency - 1) / NANOS_PER_SECOND
  {
    FloorReaches(x * NANOS_PER_SECOND, frequency, U64_MAX + 1);
    FloorReaches((U64_MAX + 1) * frequency - 1, NANOS_PER_SECOND, x);
  }

  // ---- results -----------------------------------------------------------------------------------------

  /** The largest deadline fits 64 bits, so cutting it to that width loses nothing. */
  lemma MaxDeadlineFits(frequency: nat, origin: nat)
    requires 0 < frequency && origin < U64_MAX
    ensures New(frequency, origin).Ok? && New(frequency, origin).value.maxDeadline <= U64_MAX
  {
    Readable(frequency, LastTick(frequency, origin));
  }

  /** A deadline becomes the least tick, at or after the origin, at which the clock reads at least that time. */
  lemma LeastTick(c: Clock, ns: nat)
    requires Valid(c) && ns <= c.maxDeadline
    ensures var r := DeadlineTicks(c, Deadline(1, 0, ns));
            && r.Ok? && r.value.Some? && c.origin <= r.value.value < U64_MAX
            && ElapsedNs(c, r.value.value).Ok? && ElapsedNs(c, r.value.value).value >= ns
            && forall t: nat :: c.origin <= t < r.value.value ==> ElapsedNs(c, t).Ok? && ElapsedNs(c, t).value < ns
  {
    var offset := DivCeil(ns * c.frequency, NANOS_PER_SECOND);
    var last := LastTick(c.frequency, c.origin);
    Reaches(c, last, ns);
    Reaches(c, offset, ns);
    Readable(c.frequency, offset);
    forall t: nat | c.origin <= t < c.origin + offset ensures ElapsedNs(c, t).Ok? && ElapsedNs(c, t).value < ns {
      Reaches(c, t - c.origin, ns);
      Readable(c.frequency, t - c.origin);
    }
  }

  predicate ReadsAtLeast(c: Clock, ticks: nat, ns: nat)
    requires c.frequency > 0
  {
    ticks <= U64_MAX && ElapsedNs(c, ticks).Ok? && ElapsedNs(c, ticks).value >= ns
  }

  /** A time is admitted as a deadline exactly when some tick can be read at which it is reached. */
  lemma AdmittedExactly(c: Clock, ns: nat)
    requires Valid(c)
    ensures DeadlineTicks(c, Deadline(1, 0, ns)).Ok? <==> ns <= c.maxDeadline
    ensures ns <= c.maxDeadline <==> exists t: nat :: ReadsAtLeast(c, t, ns)
  {
    hide ElapsedNs, Valid, New;
    ValidFrequency(c);
    if ns <= c.maxDeadline {
      LeastTick(c, ns);
      assert ReadsAtLeast(c, DeadlineTicks(c, Deadline(1, 0, ns)).value.value, ns);
    }
    forall t: nat | ReadsAtLeast(c, t, ns) ensures ns <= c.maxDeadline { NoTickBeyond(c, t); }
  }

  lemma ValidFrequency(c: Clock)
    requires Valid(c)
    ensures c.frequency > 0
  {}

  /** No tick that can be read reads more than the largest deadline. */
  lemma NoTickBeyond(c: Clock, ticks: nat)
    requires Valid(c) && ticks <= U64_MAX && ElapsedNs(c, ticks).Ok?
    ensures ElapsedNs(c, ticks).value <= c.maxDeadline
  {
    var x, last := ticks - c.origin, LastTick(c.frequency, c.origin);
    Readable(c.frequency, x);
    LessTimes(x, last, NANOS_PER_SECOND);
    FloorReaches(last * NANOS_PER_SECOND, c.frequency, x * NANOS_PER_SECOND / c.frequency);
    FloorReaches(x * NANOS_PER_SECOND, c.frequency, x * NANOS_PER_SECOND / c.frequency);
  }

  /** Every product and sum fits 128 bits. */
  lemma NoOverflow(c: Clock, ns: nat, x: nat)
    requires Valid(c) && ns <= U64_MAX && x <= U64_MAX
    ensures (U64_MAX + 1) * c.frequency <= U128_MAX && x * NANOS_PER_SECOND <= U128_MAX && ns * c.frequency <= U128_MAX
    ensures c.origin + DivCeil(ns * c.frequency, NANOS_PER_SECOND) <= U128_MAX
  {
    LessTimes(c.frequency, U64_MAX, U64_MAX + 1);
    LessTimes(ns, U64_MAX, c.frequency);
    LessTimes(c.frequency, U64_MAX, U64_MAX);
    LessTimes(x, U64_MAX, NANOS_PER_SECOND);
    CeilWithin(ns * c.frequency, NANOS_PER_SECOND, ns * c.frequency);
    LessTimes(1, NANOS_PER_SECOND, ns * c.frequency);
  }

  /** The clock never goes back, and one tick moves it by no more than its resolution. */
  lemma TickMoves(c: Clock, ticks: nat)
    requires Valid(c) && ElapsedNs(c, ticks).Ok? && ElapsedNs(c, ticks + 1).Ok?
    ensures ElapsedNs(c, ticks).value <= ElapsedNs(c, ticks + 1).value <= ElapsedNs(c, ticks).value + ResolutionNs(c)
  {
    var x, f := ticks - c.origin, c.frequency;
    var a, b := x * NANOS_PER_SECOND, (x + 1) * NANOS_PER_SECOND;
    assert b == a + NANOS_PER_SECOND;
    FloorReaches(a, f, a / f);
    FloorReaches(b, f, a / f);
    CeilWithin(NANOS_PER_SECOND, f, DivCeil(NANOS_PER_SECOND, f));
    FloorReaches(a, f, a / f + 1);
    var r := DivCeil(NANOS_PER_SECOND, f);
    assert a < (a / f + 1) * f && NANOS_PER_SECOND <= r * f;
    assert (a / f + 1 + r) * f == (a / f + 1) * f + r * f;
    FloorReaches(b, f, a / f + 1 + r);
  }
}
