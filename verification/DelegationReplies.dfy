/** What a published record says is what the child replied: the record of a task against
    the one return of its call in the run, and the cancel flag and kill reason against the
    writes and resets before it. */
module DelegationReplies {
  import opened Text
  import opened Delegation
  import opened DelegationRuns

  // ---------------------------------------------------- the reply and the record

  /** The call ended killed: the child says so, or its cancel flag was up. */
  predicate SaidKilled(outcome: Outcome, flagged: bool) {
    outcome.Replied? && (outcome.status == "killed" || flagged)
  }

  /** The call ended in an error: it raised, or the child says so and was not killed. */
  predicate SaidError(outcome: Outcome, flagged: bool) {
    outcome.Raised? || (outcome.status == "error" && !SaidKilled(outcome, flagged))
  }

  /** The text that came with the outcome, if any. */
  function TextOf(outcome: Outcome): string {
    match outcome
    case Raised(_, partial) => partial
    case Replied(_, text, _, _) => text
  }

  ghost predicate StatusReports(status: TaskStatus, outcome: Outcome, flagged: bool) {
    && (status == Killed <==> SaidKilled(outcome, flagged))
    && (status == Error <==> SaidError(outcome, flagged))
    && (status == Done <==> !SaidKilled(outcome, flagged) && !SaidError(outcome, flagged))
  }

  ghost predicate SummaryReports(summary: string, outcome: Outcome) {
    && (TextOf(outcome) != "" ==> summary == TextOf(outcome))
    && (TextOf(outcome) == "" && outcome.Raised? ==>
          summary == "Sub-agent failed after starting: " + outcome.exc)
    && (TextOf(outcome) == "" && outcome.Replied? ==>
          summary == "(sub-agent finished without producing a final text response)")
  }

  ghost predicate CauseReports(status: TaskStatus, r: Result, outcome: Outcome, reason: Option<string>) {
    && (r.error.Some? <==> status == Error)
    && (outcome.Raised? ==> r.error == Some(outcome.exc))
    && (outcome.Replied? && status == Error ==>
          r.error == Some(if outcome.error == "" then r.summary else outcome.error))
    && (r.killReason.Some? <==> status == Killed)
    && (status == Killed ==> r.killReason == if Truthy(reason) then reason else Some("killed"))
  }

  /** `status` and `r` report this outcome at this time, of a child whose cancel flag was
      `flagged` and whose kill reason was `reason`. */
  ghost predicate Reports(status: TaskStatus, r: Result, outcome: Outcome, at: real, flagged: bool,
                          reason: Option<string>) {
    && StatusReports(status, outcome, flagged)
    && SummaryReports(r.summary, outcome)
    && CauseReports(status, r, outcome, reason)
    && r.tokens == (if outcome.Replied? then outcome.tokens else map[])
    && r.finishedAt == Some(at)
  }

  function ReasonAt(s: System, w: WorkerId): Option<string> {
    if w in s.reasons then Some(s.reasons[w]) else None
  }

  /** Past its call, the task is on its way to publish `status` and `r`. */
  predicate Carries(s: System, t: TaskId, status: TaskStatus, r: Result) {
    && t in s.phases
    && (s.phases[t].Returned? || s.phases[t].Stored? || s.phases[t].Released? || s.phases[t].Finished?)
    && s.phases[t].status == status && s.phases[t].result == r
  }

  lemma {:induction false} ConcludedStatus(s: System, t: TaskId, outcome: Outcome, at: real)
    requires t in s.shared.records
    ensures var p, w := Conclude(s, t, outcome, at), s.shared.records[t].worker;
            && p.Returned? && StatusReports(p.status, outcome, w in s.flags)
            && p.result.tokens == (if outcome.Replied? then outcome.tokens else map[])
            && p.result.finishedAt == Some(at)
  {
  }

  lemma {:induction false} ConcludedSummary(s: System, t: TaskId, outcome: Outcome, at: real)
    requires t in s.shared.records
    ensures SummaryReports(Conclude(s, t, outcome, at).result.summary, outcome)
  {
  }

  lemma {:induction false} ConcludedCause(s: System, t: TaskId, outcome: Outcome, at: real)
    requires t in s.shared.records
    ensures var p := Conclude(s, t, outcome, at);
            CauseReports(p.status, p.result, outcome, ReasonAt(s, s.shared.records[t].worker))
  {
  }

  lemma {:induction false} LeaveReports(s: System, t: TaskId, outcome: Outcome, at: real)
    returns (status: TaskStatus, r: Result)
    requires Enabled(s, Leave(t, outcome, at))
    ensures var w := s.shared.records[t].worker;
            && Carries(Next(s, Leave(t, outcome, at)), t, status, r)
            && Reports(status, r, outcome, at, w in s.flags, ReasonAt(s, w))
  {
    ConcludedStatus(s, t, outcome, at);
    ConcludedSummary(s, t, outcome, at);
    ConcludedCause(s, t, outcome, at);
    var p := Conclude(s, t, outcome, at);
    status, r := p.status, p.result;
  }

  lemma {:induction false} StepCarries(s: System, a: Action, t: TaskId, status: TaskStatus, r: Result)
    requires Enabled(s, a) && Carries(s, t, status, r)
    ensures Carries(Next(s, a), t, status, r) && !(a.Leave? && a.t == t)
  {
  }

  lemma {:induction false} RunCarries(a: System, acts: seq<Action>, b: System, t: TaskId, status: TaskStatus, r: Result)
    requires Runs(a, acts, b) && Carries(a, t, status, r)
    ensures Carries(b, t, status, r)
    ensures forall i | 0 <= i < |acts| :: !(acts[i].Leave? && acts[i].t == t)
    decreases |acts|
  {
    if acts != [] {
      StepCarries(a, acts[0], t, status, r);
      RunCarries(Next(a, acts[0]), acts[1..], b, t, status, r);
      assert forall i | 0 < i < |acts| :: acts[i] == acts[1..][i - 1];
    }
  }

  /** Not past its call, if it has begun at all. */
  predicate Before(s: System, t: TaskId) {
    t in s.phases ==> s.phases[t].Registered? || s.phases[t].Launched? || s.phases[t].InCall?
  }

  lemma {:induction false} StepBefore(s: System, a: Action, t: TaskId)
    requires Enabled(s, a) && Before(s, t) && !(a.Leave? && a.t == t)
    ensures Before(Next(s, a), t)
  {
  }

  /** A task past its call has returned from it in the run. */
  lemma {:induction false} CarriedWasLeft(a: System, acts: seq<Action>, b: System, t: TaskId,
                                          status: TaskStatus, r: Result) returns (k: nat)
    requires Runs(a, acts, b) && Before(a, t) && Carries(b, t, status, r)
    ensures k < |acts| && acts[k].Leave? && acts[k].t == t
    decreases |acts|
  {
    if acts[0].Leave? && acts[0].t == t {
      k := 0;
    } else {
      StepBefore(a, acts[0], t);
      k := CarriedWasLeft(Next(a, acts[0]), acts[1..], b, t, status, r);
      k := k + 1;
    }
  }

  /** A run cut before one of its actions. */
  lemma {:induction false} RunCut(a: System, acts: seq<Action>, b: System, k: nat) returns (mid: System)
    requires Runs(a, acts, b) && k < |acts|
    ensures Runs(a, acts[..k], mid) && Enabled(mid, acts[k]) && Runs(Next(mid, acts[k]), acts[k + 1..], b)
    decreases k
  {
    if k == 0 {
      mid := a;
    } else {
      mid := RunCut(Next(a, acts[0]), acts[1..], b, k - 1);
      assert acts[1..][..k - 1] == acts[..k][1..] && acts[1..][k..] == acts[k + 1..];
    }
  }

  // ------------------------------------- the flag and the reason, from the actions

  /** Task `t` was registered on worker `w`. */
  ghost predicate On(acts: seq<Action>, t: TaskId, w: WorkerId) {
    Register(t, w) in acts
  }

  /** Somebody wrote the cancel flag of `w` and it was not reset since. */
  ghost predicate FlagIsUp(acts: seq<Action>, w: WorkerId) {
    exists i, t :: 0 <= i < |acts| && acts[i] == WriteFlag(t) && On(acts[..i], t, w) && ResetFlag(w) !in acts[i..]
  }

  /** The action writes the kill reason of `w`. */
  ghost predicate Blames(acts: seq<Action>, i: nat, w: WorkerId)
    requires i < |acts|
  {
    acts[i].WriteReason? && On(acts[..i], acts[i].t, w)
  }

  /** The last reason written on `w` since it was last reset. */
  ghost predicate ReasonIs(acts: seq<Action>, w: WorkerId, reason: Option<string>) {
    match reason
    case Some(text) =>
      exists i :: && 0 <= i < |acts| && Blames(acts, i, w) && acts[i].reason == text
                  && ResetReason(w) !in acts[i..] && forall j | i < j < |acts| :: !Blames(acts, j, w)
    case None =>
      forall i | 0 <= i < |acts| && Blames(acts, i, w) :: ResetReason(w) in acts[i..]
  }

  ghost predicate Traced(acts: seq<Action>, s: System) {
    && (forall t, w :: On(acts, t, w) <==> t in s.shared.records && s.shared.records[t].worker == w)
    && (forall w :: FlagIsUp(acts, w) <==> w in s.flags)
    && (forall w :: ReasonIs(acts, w, ReasonAt(s, w)))
  }

  lemma {:induction false} OnSnoc(acts: seq<Action>, a: Action, t: TaskId, w: WorkerId)
    ensures On(acts + [a], t, w) <==> On(acts, t, w) || a == Register(t, w)
  {
  }

  lemma {:induction false} FlagSnoc(acts: seq<Action>, a: Action, w: WorkerId)
    ensures FlagIsUp(acts + [a], w) <==>
            (FlagIsUp(acts, w) && a != ResetFlag(w)) || (a.WriteFlag? && On(acts, a.t, w))
  {
    var more := acts + [a];
    assert more[..|acts|] == acts && more[|acts|..] == [a];
    assert forall i | 0 <= i < |acts| :: more[..i] == acts[..i] && more[i..] == acts[i..] + [a];
    if FlagIsUp(acts, w) && a != ResetFlag(w) {
      var i, t :| 0 <= i < |acts| && acts[i] == WriteFlag(t) && On(acts[..i], t, w) && ResetFlag(w) !in acts[i..];
      assert more[i] == WriteFlag(t) && On(more[..i], t, w) && ResetFlag(w) !in more[i..];
    }
    if a.WriteFlag? && On(acts, a.t, w) {
      assert more[|acts|] == WriteFlag(a.t) && On(more[..|acts|], a.t, w) && ResetFlag(w) !in more[|acts|..];
    }
  }

  lemma {:induction false} BlamesSnoc(acts: seq<Action>, a: Action, w: WorkerId)
    ensures forall i | 0 <= i < |acts| :: Blames(acts + [a], i, w) <==> Blames(acts, i, w)
    ensures Blames(acts + [a], |acts|, w) <==> a.WriteReason? && On(acts, a.t, w)
  {
    var more := acts + [a];
    assert more[..|acts|] == acts;
    assert forall i | 0 <= i < |acts| :: more[..i] == acts[..i];
  }

  lemma {:induction false} ReasonSnoc(acts: seq<Action>, a: Action, w: WorkerId, reason: Option<string>)
    requires ReasonIs(acts, w, reason)
    ensures ReasonIs(acts + [a], w,
                     if a.WriteReason? && On(acts, a.t, w) then Some(a.reason)
                     else if a == ResetReason(w) then None else reason)
  {
    var more := acts + [a];
    BlamesSnoc(acts, a, w);
    assert more[|acts|..] == [a];
    assert forall i | 0 <= i < |acts| :: more[i..] == acts[i..] + [a];
    if a.WriteReason? && On(acts, a.t, w) {
      assert Blames(more, |acts|, w) && ResetReason(w) !in more[|acts|..];
    } else if a != ResetReason(w) && reason.Some? {
      var i :| && 0 <= i < |acts| && Blames(acts, i, w) && acts[i].reason == reason.value
               && ResetReason(w) !in acts[i..] && forall j | i < j < |acts| :: !Blames(acts, j, w);
      assert Blames(more, i, w) && ResetReason(w) !in more[i..];
    }
  }

  lemma {:induction false} StepTraced(acts: seq<Action>, s: System, a: Action)
    requires Traced(acts, s) && Enabled(s, a)
    ensures Traced(acts + [a], Next(s, a))
  {
    var n := Next(s, a);
    forall t, w
      ensures On(acts + [a], t, w) <==> t in n.shared.records && n.shared.records[t].worker == w
    {
      OnSnoc(acts, a, t, w);
      StepWorker(acts, s, a, t, w);
    }
    forall w
      ensures FlagIsUp(acts + [a], w) <==> w in n.flags
      ensures ReasonIs(acts + [a], w, ReasonAt(n, w))
    {
      FlagSnoc(acts, a, w);
      StepFlag(acts, s, a, w);
      ReasonSnoc(acts, a, w, ReasonAt(s, w));
      StepReason(acts, s, a, w);
    }
  }

  lemma {:induction false} StepWorker(acts: seq<Action>, s: System, a: Action, t: TaskId, w: WorkerId)
    requires Traced(acts, s) && Enabled(s, a)
    ensures var n := Next(s, a);
            t in n.shared.records && n.shared.records[t].worker == w <==>
            (t in s.shared.records && s.shared.records[t].worker == w) || a == Register(t, w)
  {
  }

  lemma {:induction false} StepFlag(acts: seq<Action>, s: System, a: Action, w: WorkerId)
    requires Traced(acts, s) && Enabled(s, a)
    ensures w in Next(s, a).flags <==> (w in s.flags && a != ResetFlag(w)) || (a.WriteFlag? && On(acts, a.t, w))
  {
    if a.WriteFlag? {
      assert On(acts, a.t, s.shared.records[a.t].worker);
    }
  }

  lemma {:induction false} StepReason(acts: seq<Action>, s: System, a: Action, w: WorkerId)
    requires Traced(acts, s) && Enabled(s, a)
    ensures ReasonAt(Next(s, a), w)
            == if a.WriteReason? && On(acts, a.t, w) then Some(a.reason)
               else if a == ResetReason(w) then None else ReasonAt(s, w)
  {
    if a.WriteReason? {
      assert On(acts, a.t, s.shared.records[a.t].worker);
    }
  }

  lemma {:induction false} RunTraced(before: seq<Action>, a: System, acts: seq<Action>, b: System)
    requires Traced(before, a) && Runs(a, acts, b)
    ensures Traced(before + acts, b)
    decreases |acts|
  {
    if acts == [] {
      assert before + acts == before;
    } else {
      StepTraced(before, a, acts[0]);
      RunTraced(before + [acts[0]], Next(a, acts[0]), acts[1..], b);
      assert before + [acts[0]] + acts[1..] == before + acts;
    }
  }

  /** Which tasks are on which worker, which flags are up and which reasons are set is what
      the writes and resets of the run say. */
  lemma {:induction false} FlagsAreWritten(acts: seq<Action>, s: System)
    requires Runs(INITIAL, acts, s)
    ensures Traced(acts, s)
  {
    assert Traced([], INITIAL);
    RunTraced([], INITIAL, acts, s);
    assert [] + acts == acts;
  }

  // ------------------------------------------------------------------ the theorem

  /** The record of `t` reports the outcome of action `k`, with the flag and the reason as
      the run before had left them on the worker of `t`. */
  ghost predicate ReportsAction(acts: seq<Action>, k: nat, t: TaskId, rec: Record)
    requires k < |acts| && acts[k].Leave?
  {
    && On(acts[..k], t, rec.worker)
    && exists reason ::
         && ReasonIs(acts[..k], rec.worker, reason)
         && Reports(rec.status, rec.result, acts[k].outcome, acts[k].at, FlagIsUp(acts[..k], rec.worker), reason)
  }

  /** In every run, the record of a task that is no longer running reports the one return
      of its call. */
  lemma {:induction false} RecordIsReply(acts: seq<Action>, s: System, t: TaskId) returns (k: nat)
    requires Runs(INITIAL, acts, s) && t in s.shared.records && s.shared.records[t].status != Running
    ensures k < |acts| && acts[k].Leave? && acts[k].t == t
    ensures forall i | 0 <= i < |acts| && acts[i].Leave? && acts[i].t == t :: i == k
    ensures ReportsAction(acts, k, t, s.shared.records[t])
  {
    var rec := s.shared.records[t];
    PublishedIsComplete(acts, s, t);
    k := CarriedWasLeft(INITIAL, acts, s, t, rec.status, rec.result);
    ActionIsReported(acts, s, t, k);
    forall i | 0 <= i < |acts| && acts[i].Leave? && acts[i].t == t
      ensures i == k
    {
      LeftOnce(acts, s, t, i, k);
    }
  }

  lemma {:induction false} LeftOnce(acts: seq<Action>, s: System, t: TaskId, i: nat, k: nat)
    requires Runs(INITIAL, acts, s) && i < |acts| && k < |acts|
    requires acts[i].Leave? && acts[i].t == t && acts[k].Leave? && acts[k].t == t
    ensures i == k
  {
    var lo, hi := if i < k then i else k, if i < k then k else i;
    if lo < hi {
      var mid := RunCut(INITIAL, acts, s, lo);
      var status, r := LeaveReports(mid, t, acts[lo].outcome, acts[lo].at);
      var rest := acts[lo + 1..];
      assert rest[hi - lo - 1] == acts[hi];
      RunCarries(Next(mid, acts[lo]), rest, s, t, status, r);
    }
  }

  lemma {:induction false} ActionIsReported(acts: seq<Action>, s: System, t: TaskId, k: nat)
    requires Runs(INITIAL, acts, s) && t in s.shared.records && s.shared.records[t].status != Running
    requires k < |acts| && acts[k].Leave? && acts[k].t == t
    ensures ReportsAction(acts, k, t, s.shared.records[t])
  {
    var rec := s.shared.records[t];
    PublishedIsComplete(acts, s, t);
    var mid := RunCut(INITIAL, acts, s, k);
    FlagsAreWritten(acts[..k], mid);
    FlagsAreWritten(acts, s);
    var w := mid.shared.records[t].worker;
    var status, r := LeaveReports(mid, t, acts[k].outcome, acts[k].at);
    RunCarries(Next(mid, acts[k]), acts[k + 1..], s, t, status, r);
    assert On(acts[..k], t, w);
    assert On(acts, t, w) by { assert acts[..k] <= acts; }
    assert ReasonIs(acts[..k], w, ReasonAt(mid, w));
  }
}
