/** Bounded retry with exponential backoff. */
module Retry {
  import opened MachineInts
  import opened BrokerApi
  import opened OrderTracker

  datatype RetryPolicy = RetryPolicy(
    maxAttempts: U32, baseBackoffNs: U64, maxBackoffNs: U64, jitterBps: U32)

  /** A jitter source's answer: a float, finite or not. */
  datatype JitterUnit = Finite(value: real) | NotFinite

  function Pow2(n: nat): nat {
    if n == 0 then 1 else 2 * Pow2(n - 1)
  }

  function ClampReal(x: real, lo: real, hi: real): real {
    if x < lo then lo else if x > hi then hi else x
  }

  /** The exponential part: a saturating `u64` product, then the cap. */
  function CappedBackoff(policy: RetryPolicy, attempt: U32): U64
    requires attempt > 0
  {
    Min(Min(policy.baseBackoffNs * Pow2(Min(attempt - 1, 31)), U64_MAX), policy.maxBackoffNs)
  }

  function WithJitter(capped: U64, cap: U64, jitterBps: U32, jitter: JitterUnit): U64 {
    var unit := if jitter.Finite? then ClampReal(jitter.value, -1.0, 1.0) else 0.0;
    var delta := capped as real * (jitterBps as real / 10_000.0) * unit;
    ClampReal(capped as real + delta, 0.0, cap as real).Floor
  }

  /** The nanoseconds to wait after the given 1-based attempt has failed. */
  function BackoffForAttempt(policy: RetryPolicy, attempt: U32, jitter: JitterUnit): U64 {
    if attempt == 0 then 0
    else WithJitter(CappedBackoff(policy, attempt), policy.maxBackoffNs, policy.jitterBps, jitter)
  }

  /* ----- The schedule ----- */

  /** Without jitter the saturating schedule is the capped exponential. */
  lemma ScheduleExact(policy: RetryPolicy, attempt: U32, jitter: JitterUnit)
    requires attempt > 0
    requires jitter == Finite(0.0) || jitter.NotFinite? || policy.jitterBps == 0
    ensures BackoffForAttempt(policy, attempt, jitter)
         == Min(policy.maxBackoffNs, policy.baseBackoffNs * Pow2(Min(attempt - 1, 31)))
  {
    NoJitter(CappedBackoff(policy, attempt), policy.maxBackoffNs, policy.jitterBps, jitter);
  }

  lemma NoJitter(capped: U64, cap: U64, jitterBps: U32, jitter: JitterUnit)
    requires capped <= cap
    requires jitter == Finite(0.0) || jitter.NotFinite? || jitterBps == 0
    ensures WithJitter(capped, cap, jitterBps, jitter) == capped
  {
    var unit := if jitter.Finite? then ClampReal(jitter.value, -1.0, 1.0) else 0.0;
    ZeroProduct(capped as real, jitterBps as real / 10_000.0, unit);
    assert (capped as real).Floor == capped;
  }

  lemma ZeroProduct(a: real, b: real, c: real)
    requires b == 0.0 || c == 0.0
    ensures a * b * c == 0.0
  {
  }

  lemma {:induction false} Pow2Monotone(m: nat, n: nat)
    requires m <= n
    ensures 1 <= Pow2(m) <= Pow2(n)
    decreases n
  {
    if m < n {
      Pow2Monotone(m, n - 1);
    } else if n > 0 {
      Pow2Monotone(n - 1, n - 1);
    }
  }

  /** The schedule without jitter never decreases. */
  lemma ScheduleMonotone(policy: RetryPolicy, a: U32, b: U32)
    requires 0 < a <= b
    ensures BackoffForAttempt(policy, a, Finite(0.0)) <= BackoffForAttempt(policy, b, Finite(0.0))
  {
    hide BackoffForAttempt, Pow2;
    ScheduleExact(policy, a, Finite(0.0));
    ScheduleExact(policy, b, Finite(0.0));
    Pow2Monotone(Min(a - 1, 31), Min(b - 1, 31));
    MulMonotone(Pow2(Min(a - 1, 31)), Pow2(Min(b - 1, 31)), policy.baseBackoffNs);
  }

  /** No jitter takes a wait beyond the cap. */
  lemma BackoffCapped(policy: RetryPolicy, attempt: U32, jitter: JitterUnit)
    ensures BackoffForAttempt(policy, attempt, jitter) <= policy.maxBackoffNs
  {
  }

  /* ----- Jitter ----- */

  /** The jitter unit as it is used: between -1 and 1, and 0 when not finite. */
  function UnitOf(jitter: JitterUnit): real {
    match jitter
    case NotFinite => 0.0
    case Finite(x) => if x < -1.0 then -1.0 else if x > 1.0 then 1.0 else x
  }

  /** The jittered backoff before it is rounded and clamped. */
  function Unrounded(capped: U64, jitterBps: U32, unit: real): real {
    capped as real + capped as real * (jitterBps as real / 10_000.0) * unit
  }

  lemma JitteredIs(capped: U64, cap: U64, jitterBps: U32, jitter: JitterUnit)
    ensures WithJitter(capped, cap, jitterBps, jitter)
         == ClampReal(Unrounded(capped, jitterBps, UnitOf(jitter)), 0.0, cap as real).Floor
  {
  }

  /** `wait` is `base` moved by the unit's share of `bps` basis points of it,
      rounded down, and kept between 0 and the cap. */
  ghost predicate MovedBy(wait: int, base: int, bps: int, unit: real, cap: int) {
    var moved := TenThousandfold(base, bps, unit);
    if moved < 0.0 then wait == 0
    else if moved > cap as real * 10_000.0 then wait == cap
    else wait as real * 10_000.0 <= moved < (wait + 1) as real * 10_000.0
  }

  function TenThousandfold(base: int, bps: int, unit: real): real {
    base as real * (10_000.0 + bps as real * unit)
  }

  /** With jitter the wait is the schedule, so moved. */
  lemma JitterExact(policy: RetryPolicy, attempt: U32, jitter: JitterUnit)
    requires attempt > 0
    ensures var base := Min(policy.maxBackoffNs, policy.baseBackoffNs * Pow2(Min(attempt - 1, 31)));
            MovedBy(BackoffForAttempt(policy, attempt, jitter), base, policy.jitterBps, UnitOf(jitter),
                    policy.maxBackoffNs)
  {
    ScheduleCapped(policy, attempt);
    hide MovedBy, WithJitter, CappedBackoff, Pow2, UnitOf;
    JitterMoves(CappedBackoff(policy, attempt), policy.maxBackoffNs, policy.jitterBps, jitter);
  }

  lemma JitterMoves(capped: U64, cap: U64, bps: U32, jitter: JitterUnit)
    ensures MovedBy(WithJitter(capped, cap, bps, jitter), capped, bps, UnitOf(jitter), cap)
  {
    hide WithJitter, Unrounded, UnitOf, ClampReal, MovedBy, TenThousandfold;
    JitteredIs(capped, cap, bps, jitter);
    Share(capped, bps, UnitOf(jitter));
    Rounded(Unrounded(capped, bps, UnitOf(jitter)), capped, bps, UnitOf(jitter), cap);
  }

  lemma ScheduleCapped(policy: RetryPolicy, attempt: U32)
    requires attempt > 0
    ensures CappedBackoff(policy, attempt)
         == Min(policy.maxBackoffNs, policy.baseBackoffNs * Pow2(Min(attempt - 1, 31)))
  {
  }

  lemma Rounded(exact: real, base: int, bps: int, unit: real, cap: nat)
    requires exact * 10_000.0 == TenThousandfold(base, bps, unit)
    ensures MovedBy(ClampReal(exact, 0.0, cap as real).Floor, base, bps, unit, cap)
  {
    hide TenThousandfold;
    RoundedTo(exact, TenThousandfold(base, bps, unit), cap);
  }

  lemma RoundedTo(exact: real, moved: real, cap: nat)
    requires exact * 10_000.0 == moved
    ensures var wait := ClampReal(exact, 0.0, cap as real).Floor;
            if moved < 0.0 then wait == 0
            else if moved > cap as real * 10_000.0 then wait == cap
            else wait as real * 10_000.0 <= moved < (wait + 1) as real * 10_000.0
  {
    assert (cap as real).Floor == cap;
  }

  lemma Share(capped: U64, bps: U32, unit: real)
    ensures Unrounded(capped, bps, unit) * 10_000.0 == TenThousandfold(capped, bps, unit)
  {
    Scaled(capped as real, bps as real / 10_000.0, bps as real, unit);
  }

  lemma Scaled(base: real, part: real, bps: real, unit: real)
    requires part * 10_000.0 == bps
    ensures (base + base * part * unit) * 10_000.0 == base * (10_000.0 + bps * unit)
  {
    assert base * part * unit * 10_000.0 == base * (part * 10_000.0) * unit;
    assert base * (10_000.0 + bps * unit) == base * 10_000.0 + base * (bps * unit);
    assert base * (bps * unit) == base * bps * unit;
  }

  /** More jitter never shortens the wait. */
  lemma JitterMonotone(policy: RetryPolicy, attempt: U32, lower: JitterUnit, higher: JitterUnit)
    requires UnitOf(lower) <= UnitOf(higher)
    ensures BackoffForAttempt(policy, attempt, lower) <= BackoffForAttempt(policy, attempt, higher)
  {
    hide UnitOf, WithJitter, Unrounded, CappedBackoff, ClampReal;
    if attempt > 0 {
      var capped, cap, bps := CappedBackoff(policy, attempt), policy.maxBackoffNs, policy.jitterBps;
      JitteredIs(capped, cap, bps, lower);
      JitteredIs(capped, cap, bps, higher);
      UnroundedMonotone(capped, bps, UnitOf(lower), UnitOf(higher));
      WaitMonotone(Unrounded(capped, bps, UnitOf(lower)), Unrounded(capped, bps, UnitOf(higher)), cap as real);
    }
  }

  lemma UnroundedMonotone(capped: U64, bps: U32, lower: real, higher: real)
    requires lower <= higher
    ensures Unrounded(capped, bps, lower) <= Unrounded(capped, bps, higher)
  {
    var base, part := capped as real, bps as real / 10_000.0;
    ShareNonNegative(base, part);
    ScaleMonotone(base * part, lower, higher);
  }

  lemma ShareNonNegative(a: real, b: real)
    requires a >= 0.0 && b >= 0.0
    ensures a * b >= 0.0
  {
  }

  lemma WaitMonotone(x: real, y: real, cap: real)
    requires x <= y && cap >= 0.0
    ensures ClampReal(x, 0.0, cap).Floor <= ClampReal(y, 0.0, cap).Floor
  {
    FloorMonotone(ClampReal(x, 0.0, cap), ClampReal(y, 0.0, cap));
  }

  lemma ScaleMonotone(k: real, a: real, b: real)
    requires k >= 0.0 && a <= b
    ensures k * a <= k * b
  {
    assert k * (b - a) >= 0.0;
  }

  lemma FloorMonotone(x: real, y: real)
    requires x <= y
    ensures x.Floor <= y.Floor
  {
  }

  /* ----- The loop ----- */

  function Budget(policy: RetryPolicy): U32 {
    Max(policy.maxAttempts, 1)
  }

  /** The attempts whose failure lets the loop go on: all but those that
      succeed or fail for good. */
  predicate Retries(outcome: Result<SubmitAck, ExecError>) {
    outcome.Err? && outcome.error.IsRetryable()
  }

  /** How many times the operation runs: up to and including the first attempt
      from `attempt` on that ends the loop, within the budget. */
  function Calls(policy: RetryPolicy, op: nat -> Result<SubmitAck, ExecError>, attempt: nat): nat
    requires 1 <= attempt <= Budget(policy)
    decreases Budget(policy) - attempt
  {
    if attempt == Budget(policy) || !Retries(op(attempt)) then attempt
    else Calls(policy, op, attempt + 1)
  }

  function Outcome(policy: RetryPolicy, op: nat -> Result<SubmitAck, ExecError>): Result<SubmitAck, ExecError> {
    var last := op(Calls(policy, op, 1));
    if Retries(last) then Err(RetryExhausted(Budget(policy))) else last
  }

  /** The loop stops at the first attempt that succeeds or fails for good, and
      otherwise uses the whole budget. */
  lemma {:induction false} CallsStopFirst(
      policy: RetryPolicy, op: nat -> Result<SubmitAck, ExecError>, attempt: nat)
    requires 1 <= attempt <= Budget(policy)
    ensures var n := Calls(policy, op, attempt);
            && attempt <= n <= Budget(policy)
            && (forall k :: attempt <= k < n ==> Retries(op(k)))
            && (Retries(op(n)) ==> n == Budget(policy))
    decreases Budget(policy) - attempt
  {
    if attempt < Budget(policy) && Retries(op(attempt)) {
      CallsStopFirst(policy, op, attempt + 1);
    }
  }

  function Sum(xs: seq<nat>): nat {
    if xs == [] then 0 else Sum(xs[..|xs| - 1]) + xs[|xs| - 1]
  }

  /** Run `op` with the 1-based attempt number until it succeeds, fails for
      good or the budget is spent; `jitter(k)` answers after the k-th failure.
      Also returns the number of runs and the waits asked of the sleeper. */
  method RetryWithBackoff(
      policy: RetryPolicy, jitter: nat -> JitterUnit, op: nat -> Result<SubmitAck, ExecError>)
    returns (result: Result<SubmitAck, ExecError>, calls: nat, sleeps: seq<nat>)
    ensures result == Outcome(policy, op)
    ensures calls == Calls(policy, op, 1)
    ensures |sleeps| + 1 == calls <= Budget(policy)
    ensures forall k :: 0 <= k < |sleeps| ==> sleeps[k] == BackoffForAttempt(policy, k + 1, jitter(k + 1))
    ensures Sum(sleeps) <= (calls - 1) * policy.maxBackoffNs
  {
    hide BackoffForAttempt;
    var max := Budget(policy);
    calls, sleeps := 0, [];
    while calls < max
      invariant 0 <= calls <= max
      invariant calls < max ==> Calls(policy, op, calls + 1) == Calls(policy, op, 1)
      invariant calls == max ==> calls == Calls(policy, op, 1) && Retries(op(calls))
      invariant |sleeps| == if calls == max then max - 1 else calls
      invariant forall k :: 0 <= k < |sleeps| ==> sleeps[k] == BackoffForAttempt(policy, k + 1, jitter(k + 1))
      invariant Sum(sleeps) <= |sleeps| * policy.maxBackoffNs
    {
      calls := calls + 1;
      var outcome := op(calls);
      if outcome.Ok? {
        return outcome, calls, sleeps;
      }
      if !outcome.error.IsRetryable() {
        return outcome, calls, sleeps;
      }
      if calls < max {
        var wait := BackoffForAttempt(policy, calls, jitter(calls));
        BackoffCapped(policy, calls, jitter(calls));
        assert (sleeps + [wait])[..|sleeps|] == sleeps;
        Distribute(policy.maxBackoffNs, |sleeps|, 1);
        sleeps := sleeps + [wait];
      }
    }
    result := Err(RetryExhausted(max));
  }
}
