/** Whether a failed issuance attempt is repeated, and when (retry.rs, jobs.rs, service.rs). */
module Retry {
  import opened Common
  import opened Bytes

  const HOUR_MS: nat := 3_600_000
  const DAY_MS: nat := 86_400_000
  const RETRY_WINDOW_MS: nat := DAY_MS
  const MAX_DELAY_MS: nat := HOUR_MS
  const ATTEMPTS: nat := 3

  /** What kind of failure: a transient one may come with the server's Retry-After. */
  datatype Class = Transient(after: Option<nat>) | Permanent | Unknown

  function Min(a: nat, b: nat): nat { if a < b then a else b }
  function Max(a: nat, b: nat): nat { if a < b then b else a }

  const U64_MAX: nat := 0xFFFF_FFFF_FFFF_FFFF

  /** A product as 64 bits hold it, at least a millisecond and at most an hour. */
  function Capped(product: nat): nat { Max(1, Min(Min(product, U64_MAX), MAX_DELAY_MS)) }

  /** The doubled and capped base before jitter. */
  function Delay(base: nat, attempts: nat): nat {
    Capped(base * Pow2(Min(if attempts == 0 then 0 else attempts - 1, 32)))
  }

  function Half(base: nat, attempts: nat): nat { Delay(base, attempts) / 2 }

  /** As much of the half again as the jitter says. */
  function Portion(half: nat, jitter: real): (r: nat)
    ensures r <= half
  {
    var part := if jitter < 0.0 then 0.0 else if jitter > 1.0 then 1.0 else jitter;
    FloorOfPart(half, part);
    (half as real * part).Floor
  }

  lemma FloorOfPart(half: nat, part: real)
    requires 0.0 <= part <= 1.0
    ensures 0 <= (half as real * part).Floor <= half
  {
    PartOf(half as real, part);
  }

  lemma PartOf(x: real, part: real)
    requires 0.0 <= part <= 1.0 && 0.0 <= x
    ensures 0.0 <= x * part <= x
  {
    assert x * (1.0 - part) >= 0.0;
  }

  /** The wait after so many failed attempts. */
  function Backoff(base: nat, attempts: nat, jitter: real): nat {
    Half(base, attempts) + Portion(Half(base, attempts), jitter)
  }

  function NextAttempt(class_: Class, attempts: nat, base: nat, queuedAt: nat, now: nat, jitter: real): Option<nat> {
    match class_
    case Permanent => None
    case Unknown => if attempts >= ATTEMPTS then None else Some(now + Backoff(base, attempts, jitter))
    case Transient(after) =>
      var delay := Max(Backoff(base, attempts, jitter), Min(if after.Some? then after.value else 0, MAX_DELAY_MS));
      if now + delay <= queuedAt + RETRY_WINDOW_MS then Some(now + delay) else None
  }

  // --- Each wait ---------------------------------------------------------------------------------------------

  /** A wait is between half the capped delay and all of it, so at most an hour. */
  lemma WaitIsBounded(base: nat, attempts: nat, jitter: real)
    ensures Half(base, attempts) <= Backoff(base, attempts, jitter) <= Delay(base, attempts) <= MAX_DELAY_MS
  {
    hide Pow2, Portion;
  }

  /** The first wait is the base itself, if that is within the limits. */
  lemma FirstDelay(base: nat)
    ensures 1 <= base <= 3_600_000 ==> Delay(base, 0) == base && Delay(base, 1) == base
    ensures base == 0 ==> forall attempts: nat :: Delay(base, attempts) == 1
  {
    assert Pow2(0) == 1;
  }

  /** The jitter spreads waits over the whole half: none of it at 0, all of it at 1, and more of it the larger it is. */
  lemma JitterSpreads(base: nat, attempts: nat, less: real, more: real)
    requires less <= more
    ensures Backoff(base, attempts, 0.0) == Half(base, attempts)
    ensures Backoff(base, attempts, 1.0) == 2 * Half(base, attempts) >= Delay(base, attempts) - 1
    ensures Backoff(base, attempts, less) <= Backoff(base, attempts, more)
  {
    var half := Half(base, attempts);
    hide Delay;
    assert Portion(half, 0.0) == 0 && Portion(half, 1.0) == half;
    PortionGrows(half, less, more);
  }

  lemma PortionGrows(half: nat, less: real, more: real)
    requires less <= more
    ensures Portion(half, less) <= Portion(half, more)
  {
    var a := if less < 0.0 then 0.0 else if less > 1.0 then 1.0 else less;
    var b := if more < 0.0 then 0.0 else if more > 1.0 then 1.0 else more;
    assert half as real * (b - a) >= 0.0;
    assert half as real * a <= half as real * b;
  }

  /** What a server asked for, up to an hour. */
  function Asked(class_: Class): nat {
    if class_.Transient? && class_.after.Some? then Min(class_.after.value, 3_600_000) else 0
  }

  /** Neither before the backoff is over nor before the server asked to be left alone. */
  predicate MayRetry(at: nat, class_: Class, attempts: nat, base: nat, now: nat, jitter: real) {
    at >= now + Backoff(base, attempts, jitter) && at >= now + Asked(class_)
  }

  /**
   * A retry is at the earliest time that keeps both the backoff and what the server asked for. There is none for a
   * permanent error, after three attempts for an unknown one, and for a transient one iff that time is more than a day
   * after the job was queued.
   */
  lemma RetryIsEarliest(class_: Class, attempts: nat, base: nat, queuedAt: nat, now: nat, jitter: real, at: nat)
    requires MayRetry(at, class_, attempts, base, now, jitter)
    requires forall t: nat :: MayRetry(t, class_, attempts, base, now, jitter) ==> t >= at
    ensures NextAttempt(class_, attempts, base, queuedAt, now, jitter)
         == if class_.Permanent? || (class_.Unknown? && attempts >= 3)
               || (class_.Transient? && at > queuedAt + 86_400_000) then None else Some(at)
  {
    hide Backoff;
    assert MayRetry(now + Max(Backoff(base, attempts, jitter), Asked(class_)), class_, attempts, base, now, jitter);
  }

  lemma CappedDoubles(x: nat)
    requires x >= 1
    ensures Capped(2 * x) == Min(2 * Capped(x), MAX_DELAY_MS)
  {
  }

  /** The delay doubles up to the cap, and stays there. */
  lemma DelayDoubles(base: nat, attempts: nat)
    requires 1 <= attempts && base >= 1
    ensures Delay(base, attempts + 1) == Min(2 * Delay(base, attempts), MAX_DELAY_MS)
  {
    if attempts <= 32 { DelayDoublesBelow(base, attempts); } else { DelayStays(base, attempts); }
  }

  lemma DelayDoublesBelow(base: nat, attempts: nat)
    requires 1 <= attempts <= 32 && base >= 1
    ensures Delay(base, attempts + 1) == Min(2 * Delay(base, attempts), MAX_DELAY_MS)
  {
    var p := Pow2(attempts - 1);
    assert Pow2(attempts) == 2 * p;
    hide Pow2, Capped;
    AtLeast(base, p);
    CappedDoubles(base * p);
    Regroup(base, p);
  }

  lemma Regroup(a: nat, p: nat)
    ensures a * (2 * p) == 2 * (a * p)
  {
  }

  lemma DelayStays(base: nat, attempts: nat)
    requires attempts >= 33 && base >= 1
    ensures Delay(base, attempts) == Delay(base, attempts + 1) == MAX_DELAY_MS
  {
    var p := Pow2(32);
    AtLeast(base, p);
    TwoToThe32();
    hide Pow2;
    assert Capped(base * p) == MAX_DELAY_MS;
  }

  lemma AtLeast(a: nat, b: nat)
    requires a >= 1
    ensures a * b >= b
  {
  }

  lemma TwoToThe32()
    ensures Pow2(32) >= MAX_DELAY_MS
  {
    Pow2Eight();
    Pow2Adds(8, 8);
    Pow2Adds(16, 16);
    var x, y := Pow2(16), Pow2(32);
    hide Pow2;
    assert x == 65536 && y == x * x;
  }

  // --- Chains of attempts --------------------------------------------------------------------------------------

  /** A failed attempt: how it failed, when, and the jitter drawn. */
  datatype Failure = Failure(class_: Class, now: nat, jitter: real)

  /** Failures that each led to another attempt, none run before it was scheduled. */
  ghost predicate Chain(base: nat, queuedAt: nat, attempts: nat, fs: seq<Failure>, earliest: nat)
    decreases |fs|
  {
    fs == []
    || (var next := NextAttempt(fs[0].class_, attempts + 1, base, queuedAt, fs[0].now, fs[0].jitter);
        fs[0].now >= earliest && next.Some? && Chain(base, queuedAt, attempts + 1, fs[1..], next.value))
  }

  /** The least time so many attempts take. */
  function Total(base: nat, attempts: nat, n: nat): nat
    decreases n
  {
    if n == 0 then 0 else Half(base, attempts + 1) + Total(base, attempts + 1, n - 1)
  }

  /** A chain longer than the attempts an unknown failure gets fits the retry window, with all its waits. */
  lemma {:induction false} ChainFitsWindow(base: nat, queuedAt: nat, attempts: nat, fs: seq<Failure>, earliest: nat)
    requires Chain(base, queuedAt, attempts, fs, earliest) && fs != [] && attempts + |fs| >= ATTEMPTS
    ensures earliest + Total(base, attempts, |fs|) <= queuedAt + RETRY_WINDOW_MS
    decreases |fs|
  {
    var f := fs[0];
    WaitIsBounded(base, attempts + 1, f.jitter);
    hide Backoff, Half, Delay;
    var next := NextAttempt(f.class_, attempts + 1, base, queuedAt, f.now, f.jitter).value;
    if |fs| == 1 {
      assert Total(base, attempts + 1, 0) == 0;
    } else {
      ChainFitsWindow(base, queuedAt, attempts + 1, fs[1..], next);
    }
  }

  /** Over any attempt, a millisecond of base gives half of 2^k milliseconds, up to half an hour. */
  lemma {:induction false} HalfGrows(base: nat, attempts: nat, k: nat)
    requires base >= 1 && attempts >= k + 1
    ensures Delay(base, attempts) >= Min(Pow2(k), MAX_DELAY_MS)
    decreases k
  {
    if k == 0 {
      hide Pow2;
      assert Delay(base, attempts) >= 1;
      assert Min(1, MAX_DELAY_MS) == 1;
    } else {
      HalfGrows(base, attempts - 1, k - 1);
      DelayDoubles(base, attempts - 1);
      hide Delay;
    }
  }

  const LONGEST_CHAIN: nat := 70

  lemma TwoToThe22()
    ensures Pow2(22) >= MAX_DELAY_MS
  {
    Pow2Eight();
    Pow2Adds(8, 8);
    Pow2Adds(16, 6);
    assert Pow2(6) == 64;
    var x, y := Pow2(16), Pow2(22);
    hide Pow2;
    assert x == 65536 && y == 64 * x;
  }

  lemma {:induction false} CappedTotal(base: nat, attempts: nat, n: nat)
    requires base >= 1 && attempts >= 22
    ensures Total(base, attempts, n) >= n * (MAX_DELAY_MS / 2)
    decreases n
  {
    if n > 0 {
      TwoToThe22();
      HalfGrows(base, attempts + 1, 22);
      CappedTotal(base, attempts + 1, n - 1);
      hide Delay, Pow2;
    }
  }

  lemma {:induction false} TotalSkips(base: nat, attempts: nat, skip: nat, n: nat)
    requires skip <= n
    ensures Total(base, attempts, n) >= Total(base, attempts + skip, n - skip)
    decreases skip
  {
    hide Half;
    if skip > 0 { TotalSkips(base, attempts + 1, skip - 1, n - 1); }
  }

  /** Every chain of attempts ends. */
  lemma ChainEnds(base: nat, queuedAt: nat, fs: seq<Failure>)
    requires base >= 1 && Chain(base, queuedAt, 0, fs, queuedAt)
    ensures |fs| <= LONGEST_CHAIN
  {
    if |fs| > LONGEST_CHAIN {
      ChainFitsWindow(base, queuedAt, 0, fs, queuedAt);
      TotalSkips(base, 0, 22, |fs|);
      CappedTotal(base, 22, |fs| - 22);
    }
  }

  /** With no base delay, failures at one instant chain without end. */
  lemma {:induction false} NoBaseNeverEnds(queuedAt: nat, attempts: nat, fs: seq<Failure>)
    requires forall i :: 0 <= i < |fs| ==> fs[i] == Failure(Transient(None), queuedAt, 0.0)
    ensures Chain(0, queuedAt, attempts, fs, queuedAt)
    decreases |fs|
  {
    if fs != [] {
      assert Half(0, attempts + 1) == 0;
      hide Half;
      NoBaseNeverEnds(queuedAt, attempts + 1, fs[1..]);
    }
  }

  ghost predicate Ends(base: nat, queuedAt: nat, fs: seq<Failure>, longest: nat) {
    Chain(base, queuedAt, 0, fs, queuedAt) ==> |fs| <= longest
  }

  /** Chains of retries, whatever their failures, are bounded iff there is a base delay. */
  lemma ChainsAreBoundedIff(base: nat, queuedAt: nat, longest: nat)
    requires longest >= LONGEST_CHAIN
    ensures (forall fs :: Ends(base, queuedAt, fs, longest)) <==> base >= 1
  {
    hide Chain;
    if base >= 1 {
      forall fs ensures Ends(base, queuedAt, fs, longest) {
        if Chain(base, queuedAt, 0, fs, queuedAt) { ChainEnds(base, queuedAt, fs); }
      }
    } else {
      var fs := seq(longest + 1, i => Failure(Transient(None), queuedAt, 0.0));
      NoBaseNeverEnds(queuedAt, 0, fs);
      assert !Ends(base, queuedAt, fs, longest);
    }
  }

  // --- Giving up -----------------------------------------------------------------------------------------------

  /** The reconcile's question about a failed job: did it give up early? */
  predicate GaveUpEarly(createdAt: nat, updatedAt: nat) {
    (if updatedAt < createdAt then 0 else updatedAt - createdAt) < RETRY_WINDOW_MS / 2
  }

  /** A transient failure only gives up in the last hour of the window or after it: never early. */
  lemma TransientGivesUpLate(after: Option<nat>, attempts: nat, base: nat, queuedAt: nat, now: nat, jitter: real)
    requires NextAttempt(Transient(after), attempts, base, queuedAt, now, jitter).None?
    ensures now > queuedAt + 23 * HOUR_MS && !GaveUpEarly(queuedAt, now)
  {
    WaitIsBounded(base, attempts, jitter);
    hide Backoff, Delay, Half;
  }

  /**
   * What is requeued as having given up early: a job whose recorded
   * error is transient and that failed within half the window.
   */
  predicate Requeued(recorded: Class, createdAt: nat, updatedAt: nat) {
    GaveUpEarly(createdAt, updatedAt) && recorded.Transient?
  }

  /**
   * A job that gave up is requeued only when its failure was classified otherwise at the time than its recorded
   * reason is now: as unknown, after three attempts, or as permanent.
   */
  lemma RequeuedWasNotTransient(class_: Class, recorded: Class, attempts: nat, base: nat, queuedAt: nat, now: nat,
                                jitter: real)
    requires NextAttempt(class_, attempts, base, queuedAt, now, jitter).None? && Requeued(recorded, queuedAt, now)
    ensures class_.Permanent? || (class_.Unknown? && attempts >= ATTEMPTS)
  {
    if class_.Transient? { TransientGivesUpLate(class_.after, attempts, base, queuedAt, now, jitter); }
  }
}
