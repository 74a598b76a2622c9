/** The sub-agent registry: the state guarded by its lock, and each locked section as a
    function of that state. The class in SubagentRegistry.dfy computes them. */
module Delegation {
  import opened Text

  type TaskId = nat
  type WorkerId = nat

  /** What a specialist must match to be reused. */
  datatype Profile = Profile(key: string, depth: int, model: string, provider: string, disabled: seq<string>)

  datatype WorkerStatus = Busy | Idle | Failed | Stopped

  datatype Worker = Worker(profile: Profile, status: WorkerStatus, delegations: nat)

  datatype TaskStatus = Running | Done | Error | Killed

  /** The result fields of a record. */
  datatype Result = Result(summary: string, tokens: map<string, int>, error: Option<string>,
                           killReason: Option<string>, finishedAt: Option<real>)

  const NO_RESULT := Result("", map[], None, None, None)

  datatype Record = Record(worker: WorkerId, status: TaskStatus, result: Result)

  datatype Shared = Shared(records: map<TaskId, Record>, workers: map<WorkerId, Worker>, order: seq<WorkerId>)

  predicate Available(workers: map<WorkerId, Worker>, w: WorkerId, profile: Profile) {
    w in workers && workers[w].status == Idle && workers[w].profile == profile
  }

  /** The most recently registered idle worker with the profile. */
  function LastAvailable(workers: map<WorkerId, Worker>, order: seq<WorkerId>, profile: Profile): (r: Option<WorkerId>)
    ensures r.Some? ==> Available(workers, r.value, profile) && r.value in order
    ensures r.None? ==> forall w | w in order :: !Available(workers, w, profile)
  {
    if order == [] then None
    else if Available(workers, order[|order| - 1], profile) then Some(order[|order| - 1])
    else LastAvailable(workers, order[..|order| - 1], profile)
  }

  lemma {:induction false} NewestIsTaken(workers: map<WorkerId, Worker>, order: seq<WorkerId>, profile: Profile, k: nat)
    requires k < |order| && Available(workers, order[k], profile)
    ensures LastAvailable(workers, order, profile).Some?
    ensures LastAvailable(workers, order, profile).value in order[k..]
  {
    if !Available(workers, order[|order| - 1], profile) {
      NewestIsTaken(workers, order[..|order| - 1], profile, k);
    }
  }

  function Lease(s: Shared, w: WorkerId): Shared
    requires w in s.workers
  {
    s.(workers := s.workers[w := s.workers[w].(status := Busy, delegations := s.workers[w].delegations + 1)])
  }

  function AddWorker(s: Shared, w: WorkerId, profile: Profile): Shared {
    s.(workers := s.workers[w := Worker(profile, Busy, 1)], order := s.order + [w])
  }

  function SetWorker(s: Shared, w: WorkerId, failed: bool): Shared {
    if w !in s.workers then s
    else s.(workers := s.workers[w := s.workers[w].(status := if failed then Failed else Idle)])
  }

  function AddRecord(s: Shared, t: TaskId, w: WorkerId): Shared {
    s.(records := s.records[t := Record(w, Running, NO_RESULT)])
  }

  function StoreResult(s: Shared, t: TaskId, r: Result): Shared
    requires t in s.records
  {
    s.(records := s.records[t := s.records[t].(result := r)])
  }

  function SetStatus(s: Shared, t: TaskId, status: TaskStatus): Shared
    requires t in s.records
  {
    s.(records := s.records[t := s.records[t].(status := status)])
  }

  function StopAll(s: Shared): Shared {
    s.(workers := map w | w in s.workers :: s.workers[w].(status := Stopped))
  }
}
