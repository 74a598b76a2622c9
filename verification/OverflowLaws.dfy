/** The overflow ladder over whole runs: how often it calls and climbs, in which order,
    and how much the request shrinks. */
module OverflowLaws {
  import opened Overflow

  function Calls<Q>(trace: seq<Event<Q>>): nat {
    if trace == [] then 0
    else Calls(trace[..|trace| - 1]) + if trace[|trace| - 1].Call? then 1 else 0
  }

  function Rungs<Q>(trace: seq<Event<Q>>): nat {
    if trace == [] then 0
    else Rungs(trace[..|trace| - 1]) + if trace[|trace| - 1].Rung? then 1 else 0
  }

  /** Retries made because a rung shrank the request enough. */
  function Measured<Q>(trace: seq<Event<Q>>): nat {
    if trace == [] then 0
    else
      var last := trace[|trace| - 1];
      Measured(trace[..|trace| - 1]) + if last.Rung? && last.verdict.Shrunk? then 1 else 0
  }

  lemma {:induction false} CountSnoc<Q>(trace: seq<Event<Q>>, ev: Event<Q>)
    ensures Calls(trace + [ev]) == Calls(trace) + if ev.Call? then 1 else 0
    ensures Rungs(trace + [ev]) == Rungs(trace) + if ev.Rung? then 1 else 0
    ensures Measured(trace + [ev]) == Measured(trace) + if ev.Rung? && ev.verdict.Shrunk? then 1 else 0
  {
    assert (trace + [ev])[..|trace|] == trace;
  }

  // ------------------------------------------------------------------- bounds

  function Max(a: int, b: int): int {
    if a < b then b else a
  }

  lemma {:induction false} ClimbBounds<Q, R>(env: Env<Q, R>, cap: nat, st: State<Q>)
    ensures var n := Climb(env, cap, st).1;
            && n.recoveries - st.recoveries == Rungs(n.trace) - Rungs(st.trace)
            && n.recoveries <= Max(cap, st.recoveries)
            && Calls(n.trace) == Calls(st.trace)
            && (!Climb(env, cap, st).0 ==> n.recoveries >= cap)
    decreases cap - st.recoveries
  {
    if st.recoveries < cap {
      var next := ApplyRung(env, st);
      CountSnoc(st.trace, next.trace[|next.trace| - 1]);
      if next.trace[|next.trace| - 1].verdict.TooLittle? {
        ClimbBounds(env, cap, next);
      }
    }
  }

  /** The ladder ends: at most one provider call more than rungs, and at most as many rungs
      as the turn still allows; the circuit breaker trips only when none is left. */
  lemma {:induction false} GenerateBounds<Q, R>(env: Env<Q, R>, top: nat, st: State<Q>)
    requires Capped(env, top)
    ensures var (result, n) := Generate(env, top, st);
            && n.recoveries - st.recoveries == Rungs(n.trace) - Rungs(st.trace)
            && st.recoveries <= n.recoveries <= Max(top, st.recoveries)
            && Calls(n.trace) - Calls(st.trace) <= 1 + (n.recoveries - st.recoveries)
            && Calls(n.trace) - Calls(st.trace) <= 1 + Max(0, top - st.recoveries)
            && (result.CircuitBroken? ==> exists k: nat :: n.recoveries >= Cap(env.configured(k)))
    decreases top - st.recoveries
  {
    var cap := Cap(env.configured(|st.trace|));
    var ev := Call(st.request, st.strip);
    var called := st.(trace := st.trace + [ev]);
    CountSnoc(st.trace, ev);
    if env.provider(st.request, st.strip, |st.trace|).TooLong? {
      ClimbBounds(env, cap, called);
      if Climb(env, cap, called).0 {
        GenerateBounds(env, top, Climb(env, cap, called).1);
      }
    }
  }

  // -------------------------------------------------------------------- order

  /** The k-th rung is rung k of the ladder, the last one repeating; a call strips replay
      data exactly when two rungs or more came before it. */
  ghost predicate InOrder<Q>(trace: seq<Event<Q>>) {
    trace == [] ||
    var before, last := trace[..|trace| - 1], trace[|trace| - 1];
    && InOrder(before)
    && (last.Rung? ==> last.name == RungName(Rungs(before)))
    && (last.Call? ==> last.stripReplay == (Rungs(before) >= 2))
  }

  ghost predicate OnLadder<Q>(st: State<Q>) {
    InOrder(st.trace) && st.rung == Rungs(st.trace) && st.strip == (st.rung >= 2)
  }

  lemma {:induction false} InOrderSnoc<Q>(trace: seq<Event<Q>>, ev: Event<Q>)
    requires InOrder(trace)
    requires ev.Rung? ==> ev.name == RungName(Rungs(trace))
    requires ev.Call? ==> ev.stripReplay == (Rungs(trace) >= 2)
    ensures InOrder(trace + [ev])
  {
    assert (trace + [ev])[..|trace|] == trace;
  }

  lemma {:induction false} ClimbOnLadder<Q, R>(env: Env<Q, R>, cap: nat, st: State<Q>)
    requires OnLadder(st)
    ensures OnLadder(Climb(env, cap, st).1)
    decreases cap - st.recoveries
  {
    if st.recoveries < cap {
      var next := ApplyRung(env, st);
      var ev := next.trace[|next.trace| - 1];
      CountSnoc(st.trace, ev);
      InOrderSnoc(st.trace, ev);
      assert OnLadder(next);
      if ev.verdict.TooLittle? {
        ClimbOnLadder(env, cap, next);
      }
    }
  }

  /** Rungs are applied in their fixed order, and stripping never reverts. */
  lemma {:induction false} GenerateInOrder<Q, R>(env: Env<Q, R>, top: nat, st: State<Q>)
    requires Capped(env, top) && OnLadder(st)
    ensures OnLadder(Generate(env, top, st).1)
    decreases top - st.recoveries
  {
    var cap := Cap(env.configured(|st.trace|));
    var ev := Call(st.request, st.strip);
    var called := st.(trace := st.trace + [ev]);
    CountSnoc(st.trace, ev);
    InOrderSnoc(st.trace, ev);
    assert OnLadder(called);
    if env.provider(st.request, st.strip, |st.trace|).TooLong? {
      ClimbOnLadder(env, cap, called);
      if Climb(env, cap, called).0 {
        GenerateInOrder(env, top, Climb(env, cap, called).1);
      }
    }
  }

  // ---------------------------------------------------------------- shrinking

  function Pow(b: nat, n: nat): nat {
    if n == 0 then 1 else b * Pow(b, n - 1)
  }

  /** `e` is at most 0.9^k of `e0`. */
  ghost predicate WithinTenths(e: nat, k: nat, e0: nat) {
    e * Pow(10, k) <= Pow(9, k) * e0
  }

  ghost predicate NeverGrows<Q(!new), R(!new)>(env: Env<Q, R>) {
    forall name: nat, q: Q, n: nat :: env.estimate(env.rung(name, q, n)) <= env.estimate(q)
  }

  /** Every call after k measured retries sends at most 0.9^k of the original estimate. */
  ghost predicate CallsShrink<Q, R>(env: Env<Q, R>, e0: nat, trace: seq<Event<Q>>) {
    trace == [] ||
    var before, last := trace[..|trace| - 1], trace[|trace| - 1];
    && CallsShrink(env, e0, before)
    && (last.Call? ==> WithinTenths(env.estimate(last.request), Measured(before), e0))
  }

  lemma {:induction false} TenthLess(a: nat, b: nat, k: nat, e0: nat)
    requires WithinTenths(b, k, e0) && ShrunkEnough(b, a)
    ensures WithinTenths(a, k + 1, e0)
  {
    var t, n := Pow(10, k), Pow(9, k);
    assert 10 * a <= 9 * b;
    MulMono(10 * a, 9 * b, t);
    assert a * (10 * t) == (10 * a) * t;
    assert (9 * b) * t == 9 * (b * t);
    assert (9 * n) * e0 == 9 * (n * e0);
  }

  lemma {:induction false} MulMono(x: nat, y: nat, m: nat)
    requires x <= y
    ensures x * m <= y * m
  {
  }

  ghost predicate Shrinking<Q, R>(env: Env<Q, R>, e0: nat, st: State<Q>) {
    && CallsShrink(env, e0, st.trace)
    && WithinTenths(env.estimate(st.request), Measured(st.trace), e0)
    && Measured(st.trace) <= st.rung && Measured(st.trace) < RUNGS
  }

  lemma {:induction false} ShrinkSnoc<Q, R>(env: Env<Q, R>, e0: nat, trace: seq<Event<Q>>, ev: Event<Q>)
    requires CallsShrink(env, e0, trace)
    requires ev.Call? ==> WithinTenths(env.estimate(ev.request), Measured(trace), e0)
    ensures CallsShrink(env, e0, trace + [ev])
  {
    assert (trace + [ev])[..|trace|] == trace;
  }

  lemma {:induction false} RungShrinks<Q(!new), R(!new)>(env: Env<Q, R>, e0: nat, st: State<Q>)
    requires Shrinking(env, e0, st) && NeverGrows(env)
    ensures Shrinking(env, e0, ApplyRung(env, st))
  {
    var next := ApplyRung(env, st);
    var ev := next.trace[|next.trace| - 1];
    var k := Measured(st.trace);
    CountSnoc(st.trace, ev);
    ShrinkSnoc(env, e0, st.trace, ev);
    if ev.verdict.Shrunk? {
      TenthLess(env.estimate(next.request), env.estimate(st.request), k, e0);
    } else {
      MulMono(env.estimate(next.request), env.estimate(st.request), Pow(10, k));
    }
  }

  lemma {:induction false} ClimbShrinks<Q(!new), R(!new)>(env: Env<Q, R>, cap: nat, e0: nat, st: State<Q>)
    requires Shrinking(env, e0, st) && NeverGrows(env)
    ensures Shrinking(env, e0, Climb(env, cap, st).1)
    decreases cap - st.recoveries
  {
    if st.recoveries < cap {
      var next := ApplyRung(env, st);
      RungShrinks(env, e0, st);
      if next.trace[|next.trace| - 1].verdict.TooLittle? {
        ClimbShrinks(env, cap, e0, next);
      }
    }
  }

  lemma {:induction false} GenerateShrinks<Q(!new), R(!new)>(env: Env<Q, R>, top: nat, e0: nat, st: State<Q>)
    requires Capped(env, top) && Shrinking(env, e0, st) && NeverGrows(env)
    ensures Shrinking(env, e0, Generate(env, top, st).1)
    decreases top - st.recoveries
  {
    var cap := Cap(env.configured(|st.trace|));
    var ev := Call(st.request, st.strip);
    var called := st.(trace := st.trace + [ev]);
    CountSnoc(st.trace, ev);
    ShrinkSnoc(env, e0, st.trace, ev);
    if env.provider(st.request, st.strip, |st.trace|).TooLong? {
      ClimbShrinks(env, cap, e0, called);
      if Climb(env, cap, called).0 {
        GenerateShrinks(env, top, e0, Climb(env, cap, called).1);
      }
    }
  }

  function Start<Q>(request: Q, recoveries: nat): State<Q> {
    State(request, 0, false, recoveries, [])
  }

  /** One invocation, in one statement. */
  lemma {:induction false} LadderRun<Q(!new), R(!new)>(env: Env<Q, R>, top: nat, request: Q, recoveries: nat)
    requires Capped(env, top)
    ensures var trace := Generate(env, top, Start(request, recoveries)).1.trace;
            && Calls(trace) <= 1 + Max(0, top - recoveries)
            && Rungs(trace) <= Max(0, top - recoveries)
            && InOrder(trace)
            && (NeverGrows(env) ==> CallsShrink(env, env.estimate(request), trace) && Measured(trace) < RUNGS)
  {
    GenerateBounds(env, top, Start(request, recoveries));
    GenerateInOrder(env, top, Start(request, recoveries));
    if NeverGrows(env) {
      GenerateShrinks(env, top, env.estimate(request), Start(request, recoveries));
    }
  }

  // ------------------------------------------------------------- a whole turn

  ghost predicate AllCapped<Q, R>(envs: seq<Env<Q, R>>, top: nat) {
    forall i | 0 <= i < |envs| :: Capped(envs[i], top)
  }

  /** Recoveries, rungs and calls after the invocations of one turn, each in its own
      environment. */
  function Turn<Q, R>(envs: seq<Env<Q, R>>, requests: seq<Q>, ghost top: nat, recoveries: nat): (nat, nat, nat)
    requires |envs| == |requests| && AllCapped(envs, top)
  {
    if envs == [] then (recoveries, 0, 0)
    else
      var n := Generate(envs[0], top, Start(requests[0], recoveries)).1;
      var (rec, rungs, calls) := Turn(envs[1..], requests[1..], top, n.recoveries);
      (rec, rungs + Rungs(n.trace), calls + Calls(n.trace))
  }

  /** However many invocations overflow in a turn and however the setting changes on the
      way: at most as many rungs as it ever allowed. */
  lemma {:induction false} TurnBounds<Q, R>(envs: seq<Env<Q, R>>, requests: seq<Q>, top: nat, recoveries: nat)
    requires |envs| == |requests| && AllCapped(envs, top)
    ensures var (rec, rungs, calls) := Turn(envs, requests, top, recoveries);
            && rungs == rec - recoveries && rungs <= Max(0, top - recoveries)
            && calls <= |requests| + rungs
  {
    if envs != [] {
      var n := Generate(envs[0], top, Start(requests[0], recoveries)).1;
      GenerateBounds(envs[0], top, Start(requests[0], recoveries));
      TurnBounds(envs[1..], requests[1..], top, n.recoveries);
    }
  }
}
