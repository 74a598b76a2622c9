/** What the overflow recovery does, read off its trace: which event follows which, when a
    rung is retried, and how the trace ends. */
module OverflowTrace {
  import opened Overflow
  import opened OverflowLaws

  /** The request in force behind a trace that began with `q0`. */
  function Current<Q>(q0: Q, trace: seq<Event<Q>>): Q {
    if trace == [] then q0 else trace[|trace| - 1].request
  }

  /** When the last call of a trace was made. */
  function LastCall<Q>(trace: seq<Event<Q>>): nat {
    if trace == [] then 0
    else if trace[|trace| - 1].Call? then |trace| - 1
    else LastCall(trace[..|trace| - 1])
  }

  /** How many rungs the turn has had. */
  function Climbed<Q>(recoveries: nat, trace: seq<Event<Q>>): nat {
    recoveries + Rungs(trace)
  }

  /** No rung is left, under the setting read at the last call. */
  predicate AtCap<Q, R>(env: Env<Q, R>, recoveries: nat, trace: seq<Event<Q>>) {
    var configured := env.configured(LastCall(trace));
    Climbed(recoveries, trace) >= if configured > 0 then configured else 4
  }

  function Answer<Q, R>(env: Env<Q, R>, trace: seq<Event<Q>>): Outcome<R>
    requires trace != [] && trace[|trace| - 1].Call?
  {
    var last := trace[|trace| - 1];
    env.provider(last.request, last.stripReplay, |trace| - 1)
  }

  /** The size of a request is known and not zero. */
  predicate Measurable<Q, R>(env: Env<Q, R>, request: Q) {
    env.hasMessages(request) && env.estimate(request) > 0
  }

  /** At least a tenth went away. */
  predicate TenthLessThan<Q, R>(env: Env<Q, R>, after: Q, before: Q) {
    10 * env.estimate(after) <= 9 * env.estimate(before)
  }

  /** The last rung is worth a retry: it could not be measured, it was the fourth or a later
      one, or it took away at least a tenth. */
  predicate Worth<Q, R>(env: Env<Q, R>, q0: Q, trace: seq<Event<Q>>)
    requires trace != [] && trace[|trace| - 1].Rung?
  {
    var before, after := Current(q0, trace[..|trace| - 1]), trace[|trace| - 1].request;
    !Measurable(env, before) || Rungs(trace) >= 4 || TenthLessThan(env, after, before)
  }

  /** The provider is called next. */
  predicate CallIsDue<Q, R>(env: Env<Q, R>, q0: Q, trace: seq<Event<Q>>) {
    trace == [] || (trace[|trace| - 1].Rung? && Worth(env, q0, trace))
  }

  /** A rung comes next, if the cap allows one. */
  predicate RungIsDue<Q, R>(env: Env<Q, R>, q0: Q, trace: seq<Event<Q>>) {
    trace != [] && if trace[|trace| - 1].Call? then Answer(env, trace).TooLong? else !Worth(env, q0, trace)
  }

  /** The verdict on the n-th rung, which made `after` of `before`. */
  ghost predicate Says<Q, R>(env: Env<Q, R>, verdict: Verdict, before: Q, after: Q, n: nat) {
    && (verdict.Unmeasured? <==> !Measurable(env, before))
    && (verdict.LastRung? <==> Measurable(env, before) && n >= 4)
    && (verdict.Shrunk? <==> Measurable(env, before) && n < 4 && TenthLessThan(env, after, before))
  }

  /** The event is the one that must follow the trace. */
  ghost predicate Follows<Q, R>(env: Env<Q, R>, q0: Q, recoveries: nat, trace: seq<Event<Q>>, ev: Event<Q>) {
    match ev
    case Call(request, strip) =>
      CallIsDue(env, q0, trace) && request == Current(q0, trace) && strip == (Rungs(trace) >= 2)
    case Rung(name, request, verdict) =>
      && RungIsDue(env, q0, trace) && !AtCap(env, recoveries, trace)
      && name == (if Rungs(trace) < 4 then Rungs(trace) else 3)
      && request == env.rung(name, Current(q0, trace), Climbed(recoveries, trace))
      && Says(env, verdict, Current(q0, trace), request, Rungs(trace) + 1)
  }

  /** Every event follows the ones before it. */
  ghost predicate Proper<Q, R>(env: Env<Q, R>, q0: Q, recoveries: nat, trace: seq<Event<Q>>) {
    forall i | 0 <= i < |trace| :: Follows(env, q0, recoveries, trace[..i], trace[i])
  }

  /** The trace ends where it must, with the result that belongs to its end. */
  ghost predicate Ends<Q, R>(env: Env<Q, R>, q0: Q, recoveries: nat, trace: seq<Event<Q>>, result: Result<R>) {
    && trace != []
    && match result
       case Returned(value) => trace[|trace| - 1].Call? && Answer(env, trace) == Ok(value)
       case Raised => trace[|trace| - 1].Call? && Answer(env, trace).OtherError?
       case CircuitBroken => RungIsDue(env, q0, trace) && AtCap(env, recoveries, trace)
  }

  // ------------------------------------------------------- the recursion keeps it

  /** The state is what its trace says. */
  ghost predicate Matches<Q, R>(env: Env<Q, R>, q0: Q, recoveries: nat, st: State<Q>) {
    && Proper(env, q0, recoveries, st.trace)
    && st.request == Current(q0, st.trace) && st.recoveries == Climbed(recoveries, st.trace)
    && st.rung == Rungs(st.trace) && st.strip == (Rungs(st.trace) >= 2)
  }

  lemma {:induction false} ProperSnoc<Q, R>(env: Env<Q, R>, q0: Q, recoveries: nat, trace: seq<Event<Q>>,
                                            ev: Event<Q>)
    requires Proper(env, q0, recoveries, trace) && Follows(env, q0, recoveries, trace, ev)
    ensures Proper(env, q0, recoveries, trace + [ev])
  {
    var more := trace + [ev];
    forall i | 0 <= i < |more|
      ensures Follows(env, q0, recoveries, more[..i], more[i])
    {
      assert more[..i] == trace[..i];
      if i == |trace| {
        assert more[..i] == trace;
      }
    }
  }

  lemma {:induction false} LastCallSnoc<Q>(trace: seq<Event<Q>>, ev: Event<Q>)
    ensures LastCall(trace + [ev]) == if ev.Call? then |trace| else LastCall(trace)
  {
    assert (trace + [ev])[..|trace|] == trace;
  }

  lemma {:induction false} RungMatches<Q, R>(env: Env<Q, R>, q0: Q, recoveries: nat, st: State<Q>)
    requires Matches(env, q0, recoveries, st)
    requires RungIsDue(env, q0, st.trace) && !AtCap(env, recoveries, st.trace)
    ensures var next := ApplyRung(env, st);
            && Matches(env, q0, recoveries, next) && LastCall(next.trace) == LastCall(st.trace)
            && next.trace[|next.trace| - 1].Rung?
            && (next.trace[|next.trace| - 1].verdict.TooLittle? <==> !Worth(env, q0, next.trace))
  {
    var next := ApplyRung(env, st);
    var ev := next.trace[|st.trace|];
    assert next.trace == st.trace + [ev] && next.trace[..|st.trace|] == st.trace;
    CountSnoc(st.trace, ev);
    LastCallSnoc(st.trace, ev);
    ProperSnoc(env, q0, recoveries, st.trace, ev);
  }

  lemma {:induction false} ClimbMatches<Q, R>(env: Env<Q, R>, cap: nat, q0: Q, recoveries: nat, st: State<Q>)
    requires Matches(env, q0, recoveries, st) && RungIsDue(env, q0, st.trace)
    requires cap == Cap(env.configured(LastCall(st.trace)))
    ensures var (again, n) := Climb(env, cap, st);
            && Matches(env, q0, recoveries, n)
            && if again then CallIsDue(env, q0, n.trace) else RungIsDue(env, q0, n.trace)
                                                              && AtCap(env, recoveries, n.trace)
    decreases cap - st.recoveries
  {
    if st.recoveries < cap {
      RungMatches(env, q0, recoveries, st);
      var next := ApplyRung(env, st);
      if next.trace[|next.trace| - 1].verdict.TooLittle? {
        ClimbMatches(env, cap, q0, recoveries, next);
      }
    }
  }

  lemma {:induction false} CallMatches<Q, R>(env: Env<Q, R>, q0: Q, recoveries: nat, st: State<Q>)
    requires Matches(env, q0, recoveries, st) && CallIsDue(env, q0, st.trace)
    ensures var called := st.(trace := st.trace + [Call(st.request, st.strip)]);
            && Matches(env, q0, recoveries, called) && LastCall(called.trace) == |st.trace|
            && Answer(env, called.trace) == env.provider(st.request, st.strip, |st.trace|)
  {
    var ev := Call(st.request, st.strip);
    CountSnoc(st.trace, ev);
    LastCallSnoc(st.trace, ev);
    ProperSnoc(env, q0, recoveries, st.trace, ev);
  }

  lemma {:induction false} GenerateMatches<Q, R>(env: Env<Q, R>, top: nat, q0: Q, recoveries: nat, st: State<Q>)
    requires Capped(env, top) && Matches(env, q0, recoveries, st) && CallIsDue(env, q0, st.trace)
    ensures var (result, n) := Generate(env, top, st);
            Matches(env, q0, recoveries, n) && Ends(env, q0, recoveries, n.trace, result)
    decreases top - st.recoveries
  {
    CallMatches(env, q0, recoveries, st);
    var called := st.(trace := st.trace + [Call(st.request, st.strip)]);
    if Answer(env, called.trace).TooLong? {
      var cap := Cap(env.configured(|st.trace|));
      ClimbMatches(env, cap, q0, recoveries, called);
      var (again, next) := Climb(env, cap, called);
      if again {
        GenerateMatches(env, top, q0, recoveries, next);
      }
    }
  }

  // ---------------------------------------------------------------- the theorems

  /** Every event of a run is the one that must follow those before it, and the run ends
      where it must with the result that belongs there. */
  lemma {:induction false} RunIsProper<Q, R>(env: Env<Q, R>, top: nat, q0: Q, recoveries: nat)
    requires Capped(env, top)
    ensures var (result, n) := Generate(env, top, Start(q0, recoveries));
            && Proper(env, q0, recoveries, n.trace) && Ends(env, q0, recoveries, n.trace, result)
            && n.recoveries == Climbed(recoveries, n.trace)
  {
    GenerateMatches(env, top, q0, recoveries, Start(q0, recoveries));
  }

  /** What stands behind position `i`. */
  ghost predicate NextIs<Q>(trace: seq<Event<Q>>, i: nat, call: bool) {
    i + 1 < |trace| && trace[i + 1].Call? == call
  }

  /** A rung is retried if and only if it could not be measured, was the fourth or a later
      one, or took away at least a tenth; otherwise another rung follows, if and only if the
      cap allows it, and at the cap the run breaks off. */
  lemma {:induction false} RungIsRetriedIff<Q, R>(env: Env<Q, R>, top: nat, q0: Q, recoveries: nat, i: nat)
    requires Capped(env, top)
    requires var trace := Generate(env, top, Start(q0, recoveries)).1.trace; i < |trace| && trace[i].Rung?
    ensures var (result, n) := Generate(env, top, Start(q0, recoveries));
            var sofar := n.trace[..i + 1];
            && (NextIs(n.trace, i, true) <==> Worth(env, q0, sofar))
            && (NextIs(n.trace, i, false) <==> !Worth(env, q0, sofar) && !AtCap(env, recoveries, sofar))
            && (i + 1 == |n.trace| <==> !Worth(env, q0, sofar) && AtCap(env, recoveries, sofar))
            && (i + 1 == |n.trace| ==> result.CircuitBroken?)
  {
    RunIsProper(env, top, q0, recoveries);
    var (result, n) := Generate(env, top, Start(q0, recoveries));
    if i + 1 < |n.trace| {
      assert Follows(env, q0, recoveries, n.trace[..i + 1], n.trace[i + 1]);
    } else {
      assert n.trace[..i + 1] == n.trace;
    }
  }

  lemma {:induction false} LastCallIsCall<Q>(trace: seq<Event<Q>>)
    requires trace != [] && trace[0].Call?
    ensures LastCall(trace) < |trace| && trace[LastCall(trace)].Call?
    ensures forall j | LastCall(trace) < j < |trace| :: trace[j].Rung?
  {
    if trace[|trace| - 1].Rung? {
      LastCallIsCall(trace[..|trace| - 1]);
    }
  }

  lemma {:induction false} BeginsWithCall<Q, R>(env: Env<Q, R>, q0: Q, recoveries: nat, trace: seq<Event<Q>>)
    requires trace != [] && Proper(env, q0, recoveries, trace)
    ensures trace[0].Call?
  {
    assert Follows(env, q0, recoveries, trace[..0], trace[0]);
  }

  /** The result is the answer of the last call: its value, its error, or the circuit
      breaker if it was too long, which the cap in force then explains. */
  lemma {:induction false} ResultIsLastAnswer<Q, R>(env: Env<Q, R>, top: nat, q0: Q, recoveries: nat)
    requires Capped(env, top)
    ensures var (result, n) := Generate(env, top, Start(q0, recoveries));
            var k := LastCall(n.trace);
            && k < |n.trace| && n.trace[k].Call?
            && (result == match Answer(env, n.trace[..k + 1])
                          case Ok(value) => Returned(value)
                          case OtherError => Raised
                          case TooLong => CircuitBroken)
            && (result.CircuitBroken? ==> AtCap(env, recoveries, n.trace))
  {
    RunIsProper(env, top, q0, recoveries);
    var (result, n) := Generate(env, top, Start(q0, recoveries));
    var k := LastCall(n.trace);
    BeginsWithCall(env, q0, recoveries, n.trace);
    LastCallIsCall(n.trace);
    if k + 1 < |n.trace| {
      assert Follows(env, q0, recoveries, n.trace[..k + 1], n.trace[k + 1]);
    } else {
      assert n.trace[..k + 1] == n.trace;
    }
  }
}
