/** The workers over a run: their profile never changes, and a worker whose task ended in an
    error is never handed out again. */
module DelegationWorkers {
  import opened Text
  import opened Delegation
  import opened DelegationRuns
  import opened DelegationLimits

  lemma {:induction false} StepProfile(s: System, a: Action, w: WorkerId)
    requires Enabled(s, a)
    ensures w in s.shared.workers ==> w in Next(s, a).shared.workers
                                      && Next(s, a).shared.workers[w].profile == s.shared.workers[w].profile
    ensures w !in s.shared.workers && w in Next(s, a).shared.workers ==>
              a == NewWorker(w, Next(s, a).shared.workers[w].profile)
  {
  }

  lemma {:induction false} RunProfile(a: System, acts: seq<Action>, b: System, w: WorkerId)
    requires Runs(a, acts, b)
    ensures w in a.shared.workers ==>
              w in b.shared.workers && b.shared.workers[w].profile == a.shared.workers[w].profile
    ensures w !in a.shared.workers && w in b.shared.workers ==> NewWorker(w, b.shared.workers[w].profile) in acts
    decreases |acts|
  {
    if acts != [] {
      StepProfile(a, acts[0], w);
      RunProfile(Next(a, acts[0]), acts[1..], b, w);
      assert acts == [acts[0]] + acts[1..];
    }
  }

  /** A worker has for good the profile it was registered with. */
  lemma {:induction false} ProfileIsFixed(acts: seq<Action>, s: System, w: WorkerId)
    requires Runs(INITIAL, acts, s) && w in s.shared.workers
    ensures NewWorker(w, s.shared.workers[w].profile) in acts
  {
    RunProfile(INITIAL, acts, s, w);
  }

  /** Nobody uses the worker, and nobody will be given it. */
  ghost predicate Retired(s: System, w: WorkerId) {
    && w in s.shared.workers && (s.shared.workers[w].status == Failed || s.shared.workers[w].status == Stopped)
    && Unused(s, w)
  }

  lemma {:induction false} StaysUnused(s: System, a: Action, w: WorkerId)
    requires Inv(s) && Enabled(s, a) && Retired(s, w)
    ensures forall t :: !Holder(Next(s, a), t, w)
  {
    forall t | Holder(Next(s, a), t, w)
      ensures false
    {
      HoldersOnlyMove(s, a, t, w);
    }
  }

  lemma {:induction false} RetiredStep(s: System, a: Action, w: WorkerId)
    requires Inv(s) && Enabled(s, a) && Retired(s, w)
    ensures Retired(Next(s, a), w)
  {
    StaysUnused(s, a, w);
    if a.Release? {
      assert Holder(s, a.t, s.shared.records[a.t].worker);
    }
  }

  lemma {:induction false} RetiredRun(s: System, acts: seq<Action>, b: System, w: WorkerId)
    requires Inv(s) && Retired(s, w) && Runs(s, acts, b)
    ensures Retired(b, w)
    decreases |acts|
  {
    if acts != [] {
      RetiredStep(s, acts[0], w);
      StepKeepsInv(s, acts[0]);
      RetiredRun(Next(s, acts[0]), acts[1..], b, w);
    }
  }

  /** In every run that follows, the worker is out of use. */
  ghost predicate RetiredForGood(s: System, w: WorkerId) {
    forall acts, b | Runs(s, acts, b) :: Retired(b, w)
  }

  lemma {:induction false} ReleaseFrees(s: System, t: TaskId)
    requires Inv(s) && Enabled(s, Release(t))
    ensures var n, w := Next(s, Release(t)), s.shared.records[t].worker;
            && Inv(n) && Unused(n, w) && w in n.shared.workers
            && n.shared.workers[w].status == if s.phases[t].status == Error then Failed else Idle
  {
    var w := s.shared.records[t].worker;
    assert Holder(s, t, w);
    StepKeepsInv(s, Release(t));
    forall u | Holder(Next(s, Release(t)), u, w)
      ensures false
    {
      HoldersOnlyMove(s, Release(t), u, w);
    }
  }

  /** The end of a task takes its worker out of use for good if and only if the task ended in
      an error; after any other end the worker can be had at once. */
  lemma {:induction false} ErrorRetiresIff(s: System, t: TaskId)
    requires Inv(s) && Enabled(s, Release(t))
    ensures var n, w := Next(s, Release(t)), s.shared.records[t].worker;
            && (RetiredForGood(n, w) <==> s.phases[t].status == Error)
            && (s.phases[t].status != Error ==>
                  Available(n.shared.workers, w, n.shared.workers[w].profile))
  {
    var n, w := Next(s, Release(t)), s.shared.records[t].worker;
    ReleaseFrees(s, t);
    if s.phases[t].status == Error {
      forall acts, b | Runs(n, acts, b)
        ensures Retired(b, w)
      {
        RetiredRun(n, acts, b, w);
      }
    } else {
      assert Runs(n, [], n);
    }
  }
}
