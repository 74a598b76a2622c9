/** The context-overflow recovery ladder. The provider, the effect of a rung on the
    request and the size estimate are parameters; a rung may do anything to the request. */
module Overflow {

  datatype Outcome<R> = Ok(value: R) | TooLong | OtherError

  /** Why a rung was followed by a retry, or by the next rung. */
  datatype Verdict = Shrunk | Unmeasured | LastRung | TooLittle

  /** A provider call with what it sent, or a rung with the request it left. */
  datatype Event<Q> = Call(request: Q, stripReplay: bool) | Rung(name: nat, request: Q, verdict: Verdict)

  datatype Result<R> = Returned(value: R) | Raised | CircuitBroken

  /** The outside world. Provider and rungs may answer differently every time: they are
      told how much has happened. `configured` is the setting for the number of rungs, which
      is read again at every overflow. */
  datatype Env<!Q, !R> = Env(provider: (Q, bool, nat) -> Outcome<R>, rung: (nat, Q, nat) -> Q,
                             estimate: Q -> nat, hasMessages: Q -> bool, configured: nat -> int)

  /** compact, strip_degrade, full_compact, truncate */
  const RUNGS := 4

  datatype State<Q> = State(request: Q, rung: nat, strip: bool, recoveries: nat, trace: seq<Event<Q>>)

  /** `_max_overflow_rungs` */
  function Cap(configured: int): (c: nat)
    ensures c > 0
  {
    if configured > 0 then configured else RUNGS
  }

  /** The setting never allows more than `top` rungs. */
  ghost predicate Capped<Q, R>(env: Env<Q, R>, top: nat) {
    forall n: nat :: Cap(env.configured(n)) <= top
  }

  function RungName(rung: nat): nat {
    if rung < RUNGS then rung else RUNGS - 1
  }

  function Before<Q, R>(env: Env<Q, R>, request: Q): nat {
    if env.hasMessages(request) then env.estimate(request) else 0
  }

  /** At least a tenth smaller. */
  predicate ShrunkEnough(before: nat, after: nat) {
    10 * (before - after) >= before
  }

  function Judge<Q, R>(env: Env<Q, R>, before: nat, rungNow: nat, request: Q): Verdict {
    if before == 0 then Unmeasured
    else if rungNow >= RUNGS then LastRung
    else if ShrunkEnough(before, env.estimate(request)) then Shrunk
    else TooLittle
  }

  function ApplyRung<Q, R>(env: Env<Q, R>, st: State<Q>): State<Q> {
    var name := RungName(st.rung);
    var request := env.rung(name, st.request, st.recoveries);
    var verdict := Judge(env, Before(env, st.request), st.rung + 1, request);
    State(request, st.rung + 1, st.strip || name > 0, st.recoveries + 1, st.trace + [Rung(name, request, verdict)])
  }

  /** Climbs until a rung is worth a retry; false when the circuit breaker trips. */
  function Climb<Q, R>(env: Env<Q, R>, cap: nat, st: State<Q>): (r: (bool, State<Q>))
    ensures st.recoveries <= r.1.recoveries
    ensures r.0 ==> st.recoveries < r.1.recoveries <= cap
    decreases cap - st.recoveries
  {
    if st.recoveries >= cap then (false, st)
    else
      var next := ApplyRung(env, st);
      if next.trace[|next.trace| - 1].verdict.TooLittle? then Climb(env, cap, next) else (true, next)
  }

  function Generate<Q, R>(env: Env<Q, R>, ghost top: nat, st: State<Q>): (Result<R>, State<Q>)
    requires Capped(env, top)
    decreases top - st.recoveries
  {
    var called := st.(trace := st.trace + [Call(st.request, st.strip)]);
    match env.provider(st.request, st.strip, |st.trace|)
    case Ok(value) => (Returned(value), called)
    case OtherError => (Raised, called)
    case TooLong =>
      var (again, next) := Climb(env, Cap(env.configured(|st.trace|)), called);
      if again then Generate(env, top, next) else (CircuitBroken, next)
  }

  // ------------------------------------------------------- the loop as it runs

  class Session {
    var recoveries: nat

    constructor ()
      ensures recoveries == 0
    {
      recoveries := 0;
    }

    /** The inner loop: rungs until one is worth a retry, or the circuit breaker trips. */
    method ClimbLadder<Q, R>(env: Env<Q, R>, cap: nat, st: State<Q>) returns (retry: bool, next: State<Q>)
      requires recoveries == st.recoveries
      modifies this
      ensures (retry, next) == Climb(env, cap, st) && recoveries == next.recoveries
    {
      retry, next := false, st;
      while !retry && recoveries < cap
        invariant recoveries == next.recoveries && (retry ==> recoveries <= cap)
        invariant Climb(env, cap, st) == if retry then (true, next) else Climb(env, cap, next)
        decreases cap - recoveries, !retry
      {
        var rung, request := next.rung, next.request;
        var name := RungName(rung);
        var before := if env.hasMessages(request) then env.estimate(request) else 0;
        request := env.rung(name, request, recoveries);
        recoveries, rung := recoveries + 1, rung + 1;
        var verdict;
        if before == 0 {
          verdict, retry := Unmeasured, true;
        } else if rung >= RUNGS {
          verdict, retry := LastRung, true;
        } else {
          var after := env.estimate(request);
          retry := 10 * (before - after) >= before;
          verdict := if retry then Shrunk else TooLittle;
        }
        ghost var applied := ApplyRung(env, next);
        next := State(request, rung, next.strip || name > 0, recoveries, next.trace + [Rung(name, request, verdict)]);
        assert next == applied && next.trace[|next.trace| - 1].verdict == verdict;
      }
    }

    method GenerateWithOverflowRecovery<Q, R>(env: Env<Q, R>, ghost top: nat, messages: Q)
      returns (result: Result<R>, trace: seq<Event<Q>>)
      requires Capped(env, top)
      modifies this
      ensures var r := Generate(env, top, State(messages, 0, false, old(recoveries), []));
              result == r.0 && trace == r.1.trace && recoveries == r.1.recoveries
    {
      var st := State(messages, 0, false, recoveries, []);
      ghost var goal := Generate(env, top, st);
      while true
        invariant recoveries == st.recoveries && Generate(env, top, st) == goal
        decreases top - recoveries
      {
        var outcome := env.provider(st.request, st.strip, |st.trace|);
        var cap := Cap(env.configured(|st.trace|));
        st := st.(trace := st.trace + [Call(st.request, st.strip)]);
        match outcome {
          case Ok(value) => return Returned(value), st.trace;
          case OtherError => return Raised, st.trace;
          case TooLong =>
            var retry, next := ClimbLadder(env, cap, st);
            st := next;
            if !retry {
              return CircuitBroken, st.trace;
            }
        }
      }
    }
  }
}
