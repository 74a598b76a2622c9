/** The retry loop around a provider call: exponential backoff with a wait budget.
    Delays are exact reals; the outcome of each call, the jitter and the Retry-After value
    of each failure are parameters, and may be anything. */
module Retry {

  datatype Outcome = Success | Transient | Permanent

  datatype Config = Config(baseDelay: real, maxDelay: real, budget: real, maxAttempts: nat)

  datatype World = World(outcome: nat -> Outcome, jitter: nat -> real, retryAfter: nat -> real)

  const MIN_SLEEP := 0.05

  function MinR(a: real, b: real): real {
    if a < b then a else b
  }

  function MaxR(a: real, b: real): real {
    if a < b then b else a
  }

  function Pow2(n: nat): real {
    if n == 0 then 1.0 else 2.0 * Pow2(n - 1)
  }

  /** `base * 2 ** n`, doubled step by step. */
  function Doubled(base: real, n: nat): real {
    if n == 0 then base else 2.0 * Doubled(base, n - 1)
  }

  lemma {:induction false} DoubledIsProduct(base: real, n: nat)
    ensures Doubled(base, n) == base * Pow2(n)
  {
    if n > 0 {
      DoubledIsProduct(base, n - 1);
      assert base * Pow2(n) == 2.0 * (base * Pow2(n - 1));
    }
  }

  /** The sleep before retry `n + 1`, when `elapsed` has been slept so far. */
  function Delay(cfg: Config, w: World, n: nat, elapsed: real): real {
    var backoff := MinR(cfg.maxDelay, Doubled(cfg.baseDelay, n)) + w.jitter(n);
    var wanted := MaxR(backoff, w.retryAfter(n));
    MaxR(MIN_SLEEP, MinR(wanted, MaxR(0.0, cfg.budget - elapsed)))
  }

  /** Time slept before call `n`. */
  function Slept(cfg: Config, w: World, n: nat): real {
    if n == 0 then 0.0 else Slept(cfg, w, n - 1) + Delay(cfg, w, n - 1, Slept(cfg, w, n - 1))
  }

  /** The sleep between call `n` and call `n + 1`. */
  function SleepAt(cfg: Config, w: World, n: nat): real {
    Delay(cfg, w, n, Slept(cfg, w, n))
  }

  lemma {:induction false} SleptNext(cfg: Config, w: World, n: nat)
    ensures Slept(cfg, w, n + 1) == Slept(cfg, w, n) + SleepAt(cfg, w, n)
  {
  }

  /** Call `n` is the last one: it did not fail transiently, or nothing is left. */
  predicate Stops(cfg: Config, w: World, n: nat) {
    !w.outcome(n).Transient? || Slept(cfg, w, n) >= cfg.budget || n >= cfg.maxAttempts
  }

  /** It goes on exactly after a transient failure, with budget and attempts left. */
  lemma {:induction false} GoesOnIff(cfg: Config, w: World, n: nat)
    ensures !Stops(cfg, w, n) <==> w.outcome(n) == Transient && Slept(cfg, w, n) < cfg.budget && n < cfg.maxAttempts
  {
  }

  /** The loop stops at the first call that stops it, and reports that call's outcome. */
  method GenerateWithRetry(cfg: Config, w: World) returns (result: Outcome, sleeps: seq<real>)
    ensures Stops(cfg, w, |sleeps|) && forall i | 0 <= i < |sleeps| :: !Stops(cfg, w, i)
    ensures result == w.outcome(|sleeps|)
    ensures |sleeps| <= cfg.maxAttempts
    ensures forall i | 0 <= i < |sleeps| :: sleeps[i] == SleepAt(cfg, w, i)
  {
    var attempt, elapsed := 0, 0.0;
    sleeps := [];
    while true
      invariant attempt == |sleeps| <= cfg.maxAttempts && elapsed == Slept(cfg, w, attempt)
      invariant forall i | 0 <= i < attempt :: !Stops(cfg, w, i)
      invariant forall i | 0 <= i < attempt :: sleeps[i] == SleepAt(cfg, w, i)
      decreases cfg.maxAttempts - attempt
    {
      result := w.outcome(attempt);
      if !result.Transient? {
        return;
      }
      if elapsed >= cfg.budget || attempt >= cfg.maxAttempts {
        return;
      }
      attempt := attempt + 1;
      var delay := MinR(cfg.maxDelay, Doubled(cfg.baseDelay, attempt - 1));
      delay := delay + w.jitter(attempt - 1);
      delay := MaxR(delay, w.retryAfter(attempt - 1));
      var remaining := MaxR(0.0, cfg.budget - elapsed);
      delay := MaxR(MIN_SLEEP, MinR(delay, remaining));
      assert delay == SleepAt(cfg, w, attempt - 1);
      SleptNext(cfg, w, attempt - 1);
      sleeps := sleeps + [delay];
      elapsed := elapsed + delay;
    }
  }

  /** `base * 2^n`, at most the largest delay, plus the jitter of this retry. */
  function Backoff(cfg: Config, w: World, n: nat): real {
    var doubled := cfg.baseDelay * Pow2(n);
    w.jitter(n) + if doubled <= cfg.maxDelay then doubled else cfg.maxDelay
  }

  /** What a sleep `d` must be with `left` of the budget: at least the floor, never past what
      is left, no less than the backoff and than Retry-After unless the budget ends first,
      and no more than the larger of the two. */
  ghost predicate IsSleep(backoff: real, retryAfter: real, left: real, d: real) {
    && d >= 0.05
    && (d == 0.05 || d <= left)
    && (d >= backoff || d >= left)
    && (d >= retryAfter || d >= left)
    && (d == 0.05 || d <= backoff || d <= retryAfter)
  }

  lemma {:induction false} OnlyOneSleep(backoff: real, retryAfter: real, left: real, d: real)
    requires left > 0.0
    ensures IsSleep(backoff, retryAfter, left, d)
            <==> d == MaxR(MIN_SLEEP, MinR(MaxR(backoff, retryAfter), MaxR(0.0, left)))
  {
  }

  lemma {:induction false} DelayOf(cfg: Config, w: World, n: nat, elapsed: real)
    ensures Delay(cfg, w, n, elapsed)
            == MaxR(MIN_SLEEP, MinR(MaxR(Backoff(cfg, w, n), w.retryAfter(n)), MaxR(0.0, cfg.budget - elapsed)))
  {
    DoubledIsProduct(cfg.baseDelay, n);
  }

  /** Whenever the loop goes on, its sleep is the only one that meets these demands. */
  lemma {:induction false} SleepIsIff(cfg: Config, w: World, n: nat, d: real)
    requires !Stops(cfg, w, n)
    ensures IsSleep(Backoff(cfg, w, n), w.retryAfter(n), cfg.budget - Slept(cfg, w, n), d) <==> d == SleepAt(cfg, w, n)
  {
    DelayOf(cfg, w, n, Slept(cfg, w, n));
    OnlyOneSleep(Backoff(cfg, w, n), w.retryAfter(n), cfg.budget - Slept(cfg, w, n), d);
  }

  function Sum(xs: seq<real>): real {
    if xs == [] then 0.0 else Sum(xs[..|xs| - 1]) + xs[|xs| - 1]
  }

  /** Whatever the jitter and the Retry-After values: each sleep is at least 0.05, their
      sum exceeds the budget by at most 0.05, and there is one call more than sleeps. */
  lemma {:induction false} BudgetHolds(cfg: Config, w: World, sleeps: seq<real>)
    requires forall i | 0 <= i < |sleeps| :: !Stops(cfg, w, i)
    requires forall i | 0 <= i < |sleeps| :: sleeps[i] == SleepAt(cfg, w, i)
    ensures Sum(sleeps) == Slept(cfg, w, |sleeps|)
    ensures sleeps != [] ==> Sum(sleeps) <= cfg.budget + MIN_SLEEP
    ensures forall i | 0 <= i < |sleeps| :: sleeps[i] >= MIN_SLEEP
    ensures |sleeps| as real * MIN_SLEEP <= Sum(sleeps)
  {
    if sleeps != [] {
      var n := |sleeps| - 1;
      BudgetHolds(cfg, w, sleeps[..n]);
      assert !Stops(cfg, w, n);
      SleptNext(cfg, w, n);
    }
  }

  /** So a positive budget alone bounds the calls, however many attempts are allowed. */
  lemma {:induction false} BudgetBoundsCalls(cfg: Config, w: World, sleeps: seq<real>)
    requires forall i | 0 <= i < |sleeps| :: !Stops(cfg, w, i)
    requires forall i | 0 <= i < |sleeps| :: sleeps[i] == SleepAt(cfg, w, i)
    ensures sleeps != [] ==> |sleeps| as real <= 20.0 * cfg.budget + 1.0
  {
    BudgetHolds(cfg, w, sleeps);
  }

  /** Nothing adds to or caps the first `n` delays. */
  ghost predicate Uncapped(cfg: Config, w: World, n: nat) {
    && cfg.baseDelay >= MIN_SLEEP
    && (forall i: nat | i < n :: w.jitter(i) == 0.0 && w.retryAfter(i) <= 0.0)
    && (n > 0 ==> Doubled(cfg.baseDelay, n - 1) <= cfg.maxDelay)
    && Doubled(cfg.baseDelay, n) - cfg.baseDelay <= cfg.budget
  }

  lemma {:induction false} DoublingGrows(base: real, n: nat)
    requires base >= 0.0
    ensures base <= Doubled(base, n) <= Doubled(base, n + 1)
  {
    if n > 0 {
      DoublingGrows(base, n - 1);
    }
  }

  lemma {:induction false} BackoffSum(cfg: Config, w: World, n: nat)
    requires Uncapped(cfg, w, n)
    ensures Slept(cfg, w, n) == Doubled(cfg.baseDelay, n) - cfg.baseDelay
  {
    if n > 0 {
      DoublingGrows(cfg.baseDelay, n - 1);
      if n > 1 {
        DoublingGrows(cfg.baseDelay, n - 2);
      }
      BackoffSum(cfg, w, n - 1);
    }
  }

  /** Then the backoff is exponential: base * (2^n - 1) slept after n retries. */
  lemma {:induction false} ExponentialBackoff(cfg: Config, w: World, n: nat)
    requires Uncapped(cfg, w, n)
    ensures Slept(cfg, w, n) == cfg.baseDelay * (Pow2(n) - 1.0)
  {
    BackoffSum(cfg, w, n);
    DoubledIsProduct(cfg.baseDelay, n);
  }
}
