/** The registry object. Each method is one section that runs under the registry lock, and
    one step of the machine in DelegationRuns: the object keeps the run that led to its
    state, so what is proved about runs is true of the object. */
module SubagentRegistry {
  import opened Text
  import opened Delegation
  import opened DelegationRuns

  class Registry {
    var records: map<TaskId, Record>
    var specialists: map<WorkerId, Worker>
    var specialistOrder: seq<WorkerId>
    /** The state of all threads, and the steps taken so far. */
    ghost var system: System
    ghost var run: seq<Action>

    ghost predicate Valid()
      reads this
    {
      && system.shared == Shared(records, specialists, specialistOrder)
      && Runs(INITIAL, run, system) && Inv(system)
    }

    /** The next step of the machine has been taken. */
    twostate predicate Took(a: Action)
      reads this
    {
      && Enabled(old(system), a) && system == Next(old(system), a)
      && run == old(run) + [a]
    }

    constructor ()
      ensures Valid() && run == [] && system == INITIAL
    {
      records, specialists, specialistOrder := map[], map[], [];
      system, run := INITIAL, [];
    }

    /** A step of some thread outside the lock: it leaves the registry's own state alone. */
    ghost method ThreadStep(a: Action)
      requires Valid() && Enabled(system, a)
      requires a.ResetFlag? || a.ResetReason? || a.Launch? || a.Enter? || a.Leave?
               || a.DecideKill? || a.WriteFlag? || a.WriteReason?
      modifies this`system, this`run
      ensures Valid() && Took(a)
    {
      RunsSnoc(INITIAL, run, system, a);
      StepKeepsInv(system, a);
      system, run := Next(system, a), run + [a];
    }

    /** The newest idle specialist that matches becomes the caller's alone. */
    method AcquireSpecialist(profile: Profile) returns (found: Option<WorkerId>)
      requires Valid()
      modifies this
      ensures Valid() && Took(Acquire(profile))
      ensures found == LastAvailable(old(specialists), old(specialistOrder), profile)
      ensures found.None? ==> forall w | w in specialistOrder && w in specialists ::
                specialists[w].status != Idle || specialists[w].profile != profile
      ensures found.Some? ==>
                && found.value in old(specialists)
                && old(specialists)[found.value].status == Idle
                && specialists == old(specialists)[found.value :=
                                    Worker(profile, Busy, old(specialists)[found.value].delegations + 1)]
                && found.value in system.held && specialists[found.value].status == Busy
                && forall t :: !Holder(system, t, found.value)
    {
      RunsSnoc(INITIAL, run, system, Acquire(profile));
      StepKeepsInv(system, Acquire(profile));
      system, run := Next(system, Acquire(profile)), run + [Acquire(profile)];
      found := LeaseNewest(profile);
    }

    /** The search for it, from the newest specialist to the oldest. */
    method LeaseNewest(profile: Profile) returns (found: Option<WorkerId>)
      modifies this`specialists
      ensures found == LastAvailable(old(specialists), specialistOrder, profile)
      ensures var before := Shared(records, old(specialists), specialistOrder);
              Shared(records, specialists, specialistOrder)
              == if found.None? then before else Lease(before, found.value)
    {
      var i := |specialistOrder|;
      assert specialistOrder[..i] == specialistOrder;
      while i > 0
        invariant 0 <= i <= |specialistOrder|
        invariant specialists == old(specialists)
        invariant LastAvailable(specialists, specialistOrder[..i], profile)
                  == LastAvailable(specialists, specialistOrder, profile)
      {
        i := i - 1;
        var wid := specialistOrder[i];
        assert specialistOrder[..i + 1][..i] == specialistOrder[..i];
        if wid in specialists && specialists[wid].status == Idle && specialists[wid].profile == profile {
          var worker := specialists[wid];
          specialists := specialists[wid := worker.(status := Busy, delegations := worker.delegations + 1)];
          return Some(wid);
        }
      }
      found := None;
    }

    /** A new worker, which is the caller's alone. */
    method RegisterSpecialist(wid: WorkerId, profile: Profile)
      requires Valid() && wid !in specialists
      modifies this
      ensures Valid() && Took(NewWorker(wid, profile))
      ensures wid in system.held && forall t :: !Holder(system, t, wid)
      ensures specialists == old(specialists)[wid := Worker(profile, Busy, 1)]
      ensures specialistOrder == old(specialistOrder) + [wid]
    {
      RunsSnoc(INITIAL, run, system, NewWorker(wid, profile));
      StepKeepsInv(system, NewWorker(wid, profile));
      specialists := specialists[wid := Worker(profile, Busy, 1)];
      specialistOrder := specialistOrder + [wid];
      system, run := Next(system, NewWorker(wid, profile)), run + [NewWorker(wid, profile)];
    }

    /** The end of a task's use of its worker: nobody uses it now, and another parent can
        have it, unless the call failed. */
    method ReleaseSpecialist(t: TaskId, failed: bool)
      requires Valid() && Enabled(system, Release(t)) && failed == (system.phases[t].status == Error)
      modifies this
      ensures Valid() && Took(Release(t))
      ensures var w := records[t].worker;
              && w in specialists && specialists[w].status == (if failed then Failed else Idle)
              && w !in system.held && forall u :: !Holder(system, u, w)
    {
      var wid := records[t].worker;
      WorkerIsFree(system, t);
      RunsSnoc(INITIAL, run, system, Release(t));
      StepKeepsInv(system, Release(t));
      if wid in specialists {
        specialists := specialists[wid := specialists[wid].(status := if failed then Failed else Idle)];
      }
      system, run := Next(system, Release(t)), run + [Release(t)];
    }

    /** The record of a task on a worker of the caller's, which is now the task's alone. The
        caller has reset the cancel flag and the reason before, without the lock; a flag
        written since then stays. */
    method AddTask(t: TaskId, wid: WorkerId)
      requires Valid() && wid in system.held && system.held[wid].Ready? && t !in records
      modifies this
      ensures Valid() && Took(Register(t, wid))
      ensures Holder(system, t, wid) && wid !in system.held && system.flags == old(system.flags)
      ensures forall u | Holder(system, u, wid) :: u == t
    {
      RunsSnoc(INITIAL, run, system, Register(t, wid));
      StepKeepsInv(system, Register(t, wid));
      records := records[t := Record(wid, Running, NO_RESULT)];
      system, run := Next(system, Register(t, wid)), run + [Register(t, wid)];
      assert Holder(system, t, wid);
    }

    /** The thread that concluded stores its result; readers still see a running task. */
    method WriteResult(t: TaskId, result: Result)
      requires Valid() && Enabled(system, Store(t)) && result == system.phases[t].result
      modifies this
      ensures Valid() && Took(Store(t))
      ensures records[t].status == Running
    {
      RunsSnoc(INITIAL, run, system, Store(t));
      StepKeepsInv(system, Store(t));
      records := records[t := records[t].(result := result)];
      system, run := Next(system, Store(t)), run + [Store(t)];
    }

    /** The last section of a task: what becomes visible is complete. */
    method WriteStatus(t: TaskId, status: TaskStatus)
      requires Valid() && Enabled(system, Publish(t)) && status == system.phases[t].status
      modifies this
      ensures Valid() && Took(Publish(t))
      ensures status != Running && CompleteRecord(records[t])
    {
      RunsSnoc(INITIAL, run, system, Publish(t));
      StepKeepsInv(system, Publish(t));
      records := records[t := records[t].(status := status)];
      system, run := Next(system, Publish(t)), run + [Publish(t)];
      PublishedIsComplete(run, system, t);
    }

    /** Every reader sees a running task or a complete one. */
    method Snapshot(t: TaskId) returns (view: Option<Record>)
      requires Valid()
      ensures view.Some? <==> t in system.phases
      ensures view.Some? && view.value.status != Running ==>
                && CompleteRecord(view.value)
                && system.phases[t] == Finished(view.value.status, view.value.result)
    {
      view := if t in records then Some(records[t]) else None;
      if t in records && records[t].status != Running {
        PublishedIsComplete(run, system, t);
      }
    }

    /** The last section of `shutdown`: no worker can be handed out, and those nobody uses
        stay stopped. */
    method StopWorkers()
      requires Valid()
      modifies this
      ensures Valid() && Took(DelegationRuns.StopWorkers)
      ensures forall profile :: LastAvailable(specialists, specialistOrder, profile).None?
    {
      RunsSnoc(INITIAL, run, system, DelegationRuns.StopWorkers);
      StepKeepsInv(system, DelegationRuns.StopWorkers);
      StopEach();
      system, run := Next(system, DelegationRuns.StopWorkers), run + [DelegationRuns.StopWorkers];
    }

    method StopEach()
      modifies this`specialists
      ensures specialists == map w | w in old(specialists) :: old(specialists)[w].(status := Stopped)
    {
      var todo := specialists.Keys;
      while todo != {}
        invariant todo <= specialists.Keys == old(specialists).Keys
        invariant forall w | w in specialists ::
                    specialists[w] == if w in todo then old(specialists)[w] else old(specialists)[w].(status := Stopped)
        decreases todo
      {
        var w :| w in todo;
        specialists := specialists[w := specialists[w].(status := Stopped)];
        todo := todo - {w};
      }
    }
  }

  /** A record a reader can rely on. */
  ghost predicate CompleteRecord(r: Record) {
    && r.result.finishedAt.Some? && r.result.summary != ""
    && (r.status == Error <==> r.result.error.Some?)
    && (r.status == Killed <==> r.result.killReason.Some?)
  }

  lemma {:induction false} WorkerIsFree(s: System, t: TaskId)
    requires Inv(s) && Enabled(s, Release(t))
    ensures var n, w := Next(s, Release(t)), s.shared.records[t].worker;
            w in n.shared.workers && w !in n.held && forall u :: !Holder(n, u, w)
  {
    var w := s.shared.records[t].worker;
    assert Holder(s, t, w);
    forall u | Holder(Next(s, Release(t)), u, w)
      ensures false
    {
      HoldersOnlyMove(s, Release(t), u, w);
    }
  }
}
