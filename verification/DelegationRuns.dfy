/** Delegation as a state machine: every locked section of the registry, every entry into
    and return from a child's `send_message`, and each unlocked write of a cancel flag or a
    kill reason are single steps of any number of parent, child and watchdog threads. */
module DelegationRuns {
  import opened Text
  import opened Delegation

  /** Where the thread of a task is in `_run_child`. */
  datatype Phase =
    | Registered
    | Launched
    | InCall
    | Returned(status: TaskStatus, result: Result)
    | Stored(status: TaskStatus, result: Result)
    | Released(status: TaskStatus, result: Result)
    | Finished(status: TaskStatus, result: Result)
  {
    /** The task has its worker to itself. */
    predicate Holds() {
      !Released? && !Finished?
    }
  }

  /** How `send_message` ended. */
  datatype Outcome =
    | Raised(exc: string, partial: string)
    | Replied(status: string, text: string, tokens: map<string, int>, error: string)

  /** How far a parent is with a worker it has taken: the cancel flag and then the kill
      reason of the child session are reset, without the lock, before a task is registered. */
  datatype Wiring = Taken | FlagReset | Ready

  /** `held`: workers a parent has acquired or registered but not yet given to a task;
      `flags` and `reasons`: the cancel flag and the kill reason on each worker's child
      session; `killers` and `blamers`: the task of every kill that is decided but whose
      flag, or then whose reason, is not yet written. */
  datatype System = System(shared: Shared, phases: map<TaskId, Phase>, held: map<WorkerId, Wiring>,
                           flags: set<WorkerId>, reasons: map<WorkerId, string>,
                           killers: multiset<TaskId>, blamers: multiset<TaskId>)

  datatype Action =
    | Acquire(profile: Profile)
    | NewWorker(w: WorkerId, profile: Profile)
    | ResetFlag(w: WorkerId)
    | ResetReason(w: WorkerId)
    | Register(t: TaskId, w: WorkerId)
    | Launch(t: TaskId)
    | Enter(t: TaskId)
    | Leave(t: TaskId, outcome: Outcome, at: real)
    | Store(t: TaskId)
    | Release(t: TaskId)
    | Publish(t: TaskId)
    | DecideKill(t: TaskId)
    | WriteFlag(t: TaskId)
    | WriteReason(t: TaskId, reason: string)
    | StopWorkers

  const INITIAL := System(Shared(map[], map[], []), map[], map[], {}, map[], multiset{}, multiset{})

  predicate Has(s: System, t: TaskId) {
    t in s.phases && t in s.shared.records
  }

  predicate Enabled(s: System, a: Action) {
    match a
    case Acquire(_) => true
    case NewWorker(w, _) => w !in s.shared.workers
    case ResetFlag(w) => w in s.held && s.held[w].Taken?
    case ResetReason(w) => w in s.held && s.held[w].FlagReset?
    case Register(t, w) => w in s.held && s.held[w].Ready? && t !in s.phases && t !in s.shared.records
    case Launch(t) => Has(s, t) && s.phases[t].Registered?
    case Enter(t) => Has(s, t) && s.phases[t].Launched?
    case Leave(t, _, _) => Has(s, t) && s.phases[t].InCall?
    case Store(t) => Has(s, t) && s.phases[t].Returned?
    case Release(t) => Has(s, t) && s.phases[t].Stored?
    case Publish(t) => Has(s, t) && s.phases[t].Released?
    case DecideKill(t) => t in s.shared.records && s.shared.records[t].status == Running
    case WriteFlag(t) => t in s.killers && t in s.shared.records
    case WriteReason(t, _) => t in s.blamers && t in s.shared.records
    case StopWorkers => true
  }

  /** The status and the fields the thread computes when its call is over. */
  function Conclude(s: System, t: TaskId, outcome: Outcome, at: real): Phase
    requires t in s.shared.records
  {
    var w := s.shared.records[t].worker;
    match outcome
    case Raised(exc, partial) =>
      var summary := if partial != "" then partial else "Sub-agent failed after starting: " + exc;
      Returned(Error, Result(summary, map[], Some(exc), None, Some(at)))
    case Replied(status, text, tokens, error) =>
      var final := if text != "" then text else "(sub-agent finished without producing a final text response)";
      if status == "killed" || w in s.flags then
        var reason := if w in s.reasons && s.reasons[w] != "" then s.reasons[w] else "killed";
        Returned(Killed, Result(final, tokens, None, Some(reason), Some(at)))
      else if status == "error" then
        Returned(Error, Result(final, tokens, Some(if error != "" then error else final), None, Some(at)))
      else
        Returned(Done, Result(final, tokens, None, None, Some(at)))
  }

  function Next(s: System, a: Action): System
    requires Enabled(s, a)
  {
    match a
    case Acquire(profile) =>
      var r := LastAvailable(s.shared.workers, s.shared.order, profile);
      if r.None? then s else s.(shared := Lease(s.shared, r.value), held := s.held[r.value := Taken])
    case NewWorker(w, profile) =>
      s.(shared := AddWorker(s.shared, w, profile), held := s.held[w := Taken])
    case ResetFlag(w) => s.(flags := s.flags - {w}, held := s.held[w := FlagReset])
    case ResetReason(w) => s.(reasons := s.reasons - {w}, held := s.held[w := Ready])
    case Register(t, w) =>
      s.(shared := AddRecord(s.shared, t, w), held := s.held - {w}, phases := s.phases[t := Registered])
    case Launch(t) => s.(phases := s.phases[t := Launched])
    case Enter(t) => s.(phases := s.phases[t := InCall])
    case Leave(t, outcome, at) => s.(phases := s.phases[t := Conclude(s, t, outcome, at)])
    case Store(t) =>
      var p := s.phases[t];
      s.(shared := StoreResult(s.shared, t, p.result), phases := s.phases[t := Stored(p.status, p.result)])
    case Release(t) =>
      var p := s.phases[t];
      s.(shared := SetWorker(s.shared, s.shared.records[t].worker, p.status == Error),
         phases := s.phases[t := Released(p.status, p.result)])
    case Publish(t) =>
      var p := s.phases[t];
      s.(shared := SetStatus(s.shared, t, p.status), phases := s.phases[t := Finished(p.status, p.result)])
    case DecideKill(t) => s.(killers := s.killers + multiset{t})
    case WriteFlag(t) =>
      s.(flags := s.flags + {s.shared.records[t].worker}, killers := s.killers - multiset{t},
         blamers := s.blamers + multiset{t})
    case WriteReason(t, reason) =>
      s.(reasons := s.reasons[s.shared.records[t].worker := reason], blamers := s.blamers - multiset{t})
    case StopWorkers => s.(shared := StopAll(s.shared))
  }

  /** `b` is reached from `a` by the actions, each enabled when it happens. */
  ghost predicate Runs(a: System, acts: seq<Action>, b: System)
    decreases |acts|
  {
    if acts == [] then a == b
    else Enabled(a, acts[0]) && Runs(Next(a, acts[0]), acts[1..], b)
  }

  lemma {:induction false} RunsConcat(a: System, xs: seq<Action>, b: System, ys: seq<Action>, c: System)
    requires Runs(a, xs, b) && Runs(b, ys, c)
    ensures Runs(a, xs + ys, c)
    decreases |xs|
  {
    if xs == [] {
      assert xs + ys == ys;
    } else {
      TailOfConcat(xs, ys);
      RunsConcat(Next(a, xs[0]), xs[1..], b, ys, c);
    }
  }

  lemma {:induction false} RunsOne(a: System, x: Action)
    requires Enabled(a, x)
    ensures Runs(a, [x], Next(a, x))
  {
    assert [x][1..] == [];
    assert Runs(Next(a, x), [], Next(a, x));
  }

  lemma {:induction false} RunsSnoc(a: System, xs: seq<Action>, b: System, x: Action)
    requires Runs(a, xs, b) && Enabled(b, x)
    ensures Runs(a, xs + [x], Next(b, x))
  {
    RunsOne(b, x);
    RunsConcat(a, xs, b, [x], Next(b, x));
  }

  // ---------------------------------------------------------------- invariant

  ghost predicate Holder(s: System, t: TaskId, w: WorkerId) {
    Has(s, t) && s.phases[t].Holds() && s.shared.records[t].worker == w
  }

  ghost predicate RecordOk(r: Record, p: Phase) {
    match p
    case Stored(status, result) => r.status == Running && r.result == result && status != Running
    case Released(status, result) => r.status == Running && r.result == result && status != Running
    case Finished(status, result) => r.status == status && r.result == result && status != Running
    case Returned(status, result) => r.status == Running && status != Running
    case _ => r.status == Running
  }

  ghost predicate Consistent(s: System) {
    && s.phases.Keys == s.shared.records.Keys
    && (forall t | t in s.phases :: RecordOk(s.shared.records[t], s.phases[t]))
    && (forall t | t in s.phases :: s.shared.records[t].worker in s.shared.workers)
    && (forall w | w in s.held :: w in s.shared.workers)
  }

  /** A worker has one user at a time, a parent or one task; an idle one has none. */
  ghost predicate Exclusive(s: System) {
    && (forall t, u, w | Holder(s, t, w) && Holder(s, u, w) :: t == u)
    && (forall t, w | Holder(s, t, w) :: w !in s.held)
    && (forall t, w | Holder(s, t, w) && w in s.shared.workers :: s.shared.workers[w].status != Idle)
    && (forall w | w in s.held && w in s.shared.workers :: s.shared.workers[w].status != Idle)
  }

  ghost predicate Inv(s: System) {
    Consistent(s) && Exclusive(s)
  }

  lemma {:induction false} StepKeepsConsistent(s: System, a: Action)
    requires Inv(s) && Enabled(s, a)
    ensures Consistent(Next(s, a))
  {
    var n := Next(s, a);
    forall t | t in n.phases
      ensures t in n.shared.records && RecordOk(n.shared.records[t], n.phases[t])
      ensures n.shared.records[t].worker in n.shared.workers
    {
      StepKeepsRecord(s, a, t);
    }
  }

  lemma {:induction false} StepKeepsRecord(s: System, a: Action, t: TaskId)
    requires Inv(s) && Enabled(s, a) && t in Next(s, a).phases
    ensures t in Next(s, a).shared.records && RecordOk(Next(s, a).shared.records[t], Next(s, a).phases[t])
    ensures Next(s, a).shared.records[t].worker in Next(s, a).shared.workers
  {
    if a.Leave? {
      LeaveKeepsRecord(s, a, t);
    } else {
      OtherKeepsRecord(s, a, t);
    }
  }

  lemma {:induction false} LeaveKeepsRecord(s: System, a: Action, t: TaskId)
    requires Inv(s) && Enabled(s, a) && t in Next(s, a).phases && a.Leave?
    ensures t in Next(s, a).shared.records && RecordOk(Next(s, a).shared.records[t], Next(s, a).phases[t])
    ensures Next(s, a).shared.records[t].worker in Next(s, a).shared.workers
  {
  }

  lemma {:induction false} OtherKeepsRecord(s: System, a: Action, t: TaskId)
    requires Inv(s) && Enabled(s, a) && t in Next(s, a).phases && !a.Leave?
    ensures t in Next(s, a).shared.records && RecordOk(Next(s, a).shared.records[t], Next(s, a).phases[t])
    ensures Next(s, a).shared.records[t].worker in Next(s, a).shared.workers
  {
  }

  /** Every holder but the one just registered was one before; a release ends one. */
  lemma {:induction false} HoldersOnlyMove(s: System, a: Action, t: TaskId, w: WorkerId)
    requires Inv(s) && Enabled(s, a) && Holder(Next(s, a), t, w)
    ensures (a.Register? && a.t == t && a.w == w) || Holder(s, t, w)
    ensures a.Release? ==> a.t != t
  {
  }

  lemma {:induction false} StepKeepsExclusive(s: System, a: Action)
    requires Inv(s) && Enabled(s, a)
    ensures Exclusive(Next(s, a))
  {
    var n := Next(s, a);
    forall t, w | Holder(n, t, w)
      ensures forall u | Holder(n, u, w) :: t == u
      ensures w !in n.held
      ensures w in n.shared.workers ==> n.shared.workers[w].status != Idle
    {
      HoldersOnlyMove(s, a, t, w);
      forall u | Holder(n, u, w)
        ensures t == u
      {
        HoldersOnlyMove(s, a, u, w);
      }
      HolderStaysAlone(s, a, t, w);
    }
    forall w | w in n.held && w in n.shared.workers
      ensures n.shared.workers[w].status != Idle
    {
      HeldStaysBusy(s, a, w);
    }
  }

  lemma {:induction false} HolderStaysAlone(s: System, a: Action, t: TaskId, w: WorkerId)
    requires Inv(s) && Enabled(s, a) && Holder(Next(s, a), t, w)
    requires (a.Register? && a.t == t && a.w == w) || Holder(s, t, w)
    ensures w !in Next(s, a).held
    ensures w in Next(s, a).shared.workers ==> Next(s, a).shared.workers[w].status != Idle
  {
    if a.Release? {
      assert Holder(s, a.t, s.shared.records[a.t].worker);
    }
  }

  lemma {:induction false} HeldStaysBusy(s: System, a: Action, w: WorkerId)
    requires Inv(s) && Enabled(s, a) && w in Next(s, a).held && w in Next(s, a).shared.workers
    ensures Next(s, a).shared.workers[w].status != Idle
  {
    if a.Release? {
      assert Holder(s, a.t, s.shared.records[a.t].worker);
    }
  }

  lemma {:induction false} StepKeepsInv(s: System, a: Action)
    requires Inv(s) && Enabled(s, a)
    ensures Inv(Next(s, a))
  {
    StepKeepsConsistent(s, a);
    StepKeepsExclusive(s, a);
  }

  lemma {:induction false} RunKeepsInv(a: System, acts: seq<Action>, b: System)
    requires Inv(a) && Runs(a, acts, b)
    ensures Inv(b)
    decreases |acts|
  {
    if acts != [] {
      StepKeepsInv(a, acts[0]);
      RunKeepsInv(Next(a, acts[0]), acts[1..], b);
    }
  }

  // ---------------------------------------------------------------- the theorems

  /** Task `t` is inside `send_message` of worker `w`. */
  predicate Inside(s: System, t: TaskId, w: WorkerId) {
    Has(s, t) && s.phases[t].InCall? && s.shared.records[t].worker == w
  }

  /** In every interleaving no two threads are inside `send_message` of one worker, and
      no parent is about to hand that worker out. */
  lemma {:induction false} ExclusiveLease(acts: seq<Action>, s: System, w: WorkerId)
    requires Runs(INITIAL, acts, s)
    ensures forall t, u | Inside(s, t, w) && Inside(s, u, w) :: t == u
    ensures forall t | Inside(s, t, w) :: w !in s.held && w in s.shared.workers && s.shared.workers[w].status != Idle
  {
    RunKeepsInv(INITIAL, acts, s);
    assert forall t | Inside(s, t, w) :: Holder(s, t, w);
  }

  /** What a reader of the record sees: a terminal status comes with the final fields. */
  lemma {:induction false} PublishedIsComplete(acts: seq<Action>, s: System, t: TaskId)
    requires Runs(INITIAL, acts, s) && t in s.shared.records && s.shared.records[t].status != Running
    ensures t in s.phases && s.phases[t] == Finished(s.shared.records[t].status, s.shared.records[t].result)
    ensures s.shared.records[t].result.finishedAt.Some?
    ensures s.shared.records[t].status == Error <==> s.shared.records[t].result.error.Some?
    ensures s.shared.records[t].status == Killed <==> s.shared.records[t].result.killReason.Some?
    ensures s.shared.records[t].result.summary != ""
  {
    RunKeepsInv(INITIAL, acts, s);
    RunKeepsComplete(INITIAL, acts, s);
  }

  /** A concluded result says why the task ended. */
  ghost predicate Complete(p: Phase) {
    p.Returned? || p.Stored? || p.Released? || p.Finished? ==>
      && p.result.finishedAt.Some? && p.result.summary != ""
      && (p.status == Error <==> p.result.error.Some?)
      && (p.status == Killed <==> p.result.killReason.Some?)
  }

  lemma {:induction false} StepKeepsComplete(s: System, a: Action, t: TaskId)
    requires Enabled(s, a) && t in Next(s, a).phases && (t in s.phases ==> Complete(s.phases[t]))
    ensures Complete(Next(s, a).phases[t])
  {
    if a.Leave? {
      LeaveIsComplete(s, a, t);
    } else {
      OtherKeepsComplete(s, a, t);
    }
  }

  lemma {:induction false} LeaveIsComplete(s: System, a: Action, t: TaskId)
    requires a.Leave? && Enabled(s, a) && t in Next(s, a).phases && (t in s.phases ==> Complete(s.phases[t]))
    ensures Complete(Next(s, a).phases[t])
  {
  }

  lemma {:induction false} OtherKeepsComplete(s: System, a: Action, t: TaskId)
    requires !a.Leave? && Enabled(s, a) && t in Next(s, a).phases && (t in s.phases ==> Complete(s.phases[t]))
    ensures Complete(Next(s, a).phases[t])
  {
  }

  lemma {:induction false} RunKeepsComplete(a: System, acts: seq<Action>, b: System)
    requires (forall t | t in a.phases :: Complete(a.phases[t])) && Runs(a, acts, b)
    ensures forall t | t in b.phases :: Complete(b.phases[t])
    decreases |acts|
  {
    if acts != [] {
      var next := Next(a, acts[0]);
      forall t | t in next.phases
        ensures Complete(next.phases[t])
      {
        StepKeepsComplete(a, acts[0], t);
      }
      RunKeepsComplete(next, acts[1..], b);
    }
  }

  /** Once a status is terminal the record never changes again: `running` is left once,
      and every later reader sees the same fields. */
  lemma {:induction false} TerminalIsFinal(a: System, acts: seq<Action>, b: System, t: TaskId)
    requires Inv(a) && Runs(a, acts, b) && t in a.shared.records && a.shared.records[t].status != Running
    ensures t in b.shared.records && b.shared.records[t] == a.shared.records[t]
    decreases |acts|
  {
    if acts != [] {
      StepKeepsInv(a, acts[0]);
      TerminalStep(a, acts[0], t);
      TerminalIsFinal(Next(a, acts[0]), acts[1..], b, t);
    }
  }

  lemma {:induction false} TerminalStep(s: System, a: Action, t: TaskId)
    requires Inv(s) && Enabled(s, a) && t in s.shared.records && s.shared.records[t].status != Running
    ensures t in Next(s, a).shared.records && Next(s, a).shared.records[t] == s.shared.records[t]
  {
    assert t in s.phases && s.phases[t].Finished?;
  }
}
