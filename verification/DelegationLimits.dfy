/** Two things the registry does not guarantee, with the exact condition under which it
    does: that a kill hits only its target, and that shutdown is final. */
module DelegationLimits {
  import opened Text
  import opened Delegation
  import opened DelegationRuns

  // ------------------------------------------------------- kills and their targets

  function TargetOf(a: Action): set<TaskId> {
    if a.DecideKill? then {a.t} else {}
  }

  function Targets(acts: seq<Action>): set<TaskId> {
    if acts == [] then {} else TargetOf(acts[0]) + Targets(acts[1..])
  }

  /** The task's thread has yet to look at the cancel flag of its worker's session. */
  ghost predicate Exposed(s: System, t: TaskId, w: WorkerId) {
    && Has(s, t) && s.shared.records[t].worker == w
    && (s.phases[t].Registered? || s.phases[t].Launched? || s.phases[t].InCall?)
  }

  /** No task that is still to look at a flag finds one that was not meant for it. */
  ghost predicate NoBystander(s: System, targets: set<TaskId>) {
    forall t, w | Exposed(s, t, w) && w in s.flags :: t in targets
  }

  /** That holds before and after every step of the run. */
  ghost predicate NeverHitsBystander(a: System, acts: seq<Action>, targets: set<TaskId>)
    decreases |acts|
  {
    && NoBystander(a, targets)
    && (acts != [] && Enabled(a, acts[0]) ==>
          NeverHitsBystander(Next(a, acts[0]), acts[1..], targets + TargetOf(acts[0])))
  }

  /** A flag may be written: whoever would find it has itself been targeted. */
  ghost predicate MayWrite(s: System, t: TaskId, targets: set<TaskId>)
    requires t in s.shared.records
  {
    forall u | Exposed(s, u, s.shared.records[t].worker) :: u in targets
  }

  /** A step is safe: a flag is written only when it may be, and a worker with a flag on
      its session is not given to a task. */
  ghost predicate SafeStep(s: System, a: Action, targets: set<TaskId>)
    requires Enabled(s, a)
  {
    && (a.WriteFlag? ==> MayWrite(s, a.t, targets))
    && (a.Register? ==> a.w !in s.flags)
  }

  /** Every step of the run is. */
  ghost predicate Guarded(a: System, acts: seq<Action>, targets: set<TaskId>)
    decreases |acts|
  {
    acts == [] ||
    (Enabled(a, acts[0]) ==>
       && SafeStep(a, acts[0], targets)
       && Guarded(Next(a, acts[0]), acts[1..], targets + TargetOf(acts[0])))
  }

  /** Only a write can flag a worker, and only a registration can expose a task. */
  lemma {:induction false} ExposureMoves(s: System, a: Action, t: TaskId, w: WorkerId)
    requires Enabled(s, a) && Exposed(Next(s, a), t, w) && w in Next(s, a).flags
    ensures Exposed(s, t, w) || (a.Register? && t == a.t && w == a.w)
    ensures w in s.flags || (a.WriteFlag? && w == s.shared.records[a.t].worker)
  {
  }

  lemma {:induction false} WriteExposes(s: System, a: Action, targets: set<TaskId>)
    requires Enabled(s, a) && NoBystander(s, targets) && a.WriteFlag?
    ensures NoBystander(Next(s, a), targets) ==> MayWrite(s, a.t, targets)
  {
    var n, w := Next(s, a), s.shared.records[a.t].worker;
    forall u | Exposed(s, u, w)
      ensures Exposed(n, u, w) && w in n.flags
    {
    }
  }

  lemma {:induction false} RegisterExposes(s: System, a: Action, targets: set<TaskId>)
    requires Enabled(s, a) && targets <= s.shared.records.Keys && a.Register?
    ensures NoBystander(Next(s, a), targets) ==> a.w !in s.flags
  {
    assert Exposed(Next(s, a), a.t, a.w) && a.t !in targets;
  }

  lemma {:induction false} TargetsAreKnown(s: System, a: Action, targets: set<TaskId>)
    requires Enabled(s, a) && targets <= s.shared.records.Keys
    ensures targets + TargetOf(a) <= Next(s, a).shared.records.Keys
  {
  }

  /** A step leads to a flagged bystander exactly when it is not safe. */
  lemma {:induction false} StepIsGuardedIff(s: System, a: Action, targets: set<TaskId>)
    requires Enabled(s, a) && NoBystander(s, targets) && targets <= s.shared.records.Keys
    ensures NoBystander(Next(s, a), targets + TargetOf(a)) <==> SafeStep(s, a, targets)
    ensures targets + TargetOf(a) <= Next(s, a).shared.records.Keys
  {
    TargetsAreKnown(s, a, targets);
    if SafeStep(s, a, targets) {
      forall t, w | Exposed(Next(s, a), t, w) && w in Next(s, a).flags
        ensures t in targets + TargetOf(a)
      {
        ExposureMoves(s, a, t, w);
      }
    } else if a.WriteFlag? {
      WriteExposes(s, a, targets);
      assert targets + TargetOf(a) == targets;
    } else {
      RegisterExposes(s, a, targets);
      assert targets + TargetOf(a) == targets;
    }
  }

  lemma {:induction false} GuardedRunIff(a: System, acts: seq<Action>, b: System, targets: set<TaskId>)
    requires Runs(a, acts, b) && NoBystander(a, targets) && targets <= a.shared.records.Keys
    ensures NeverHitsBystander(a, acts, targets) <==> Guarded(a, acts, targets)
    decreases |acts|
  {
    if acts != [] {
      var n, more := Next(a, acts[0]), targets + TargetOf(acts[0]);
      StepIsGuardedIff(a, acts[0], targets);
      if NoBystander(n, more) {
        GuardedRunIff(n, acts[1..], b, more);
      }
    }
  }

  /** In every run: no task finds a cancel flag that was not meant for it if and only if
      each flag is written at a moment when every task that could find it is a target, and
      no task is registered on a worker that has a flag written after its reset. */
  lemma {:induction false} KillsHitTargetsIff(acts: seq<Action>, s: System)
    requires Runs(INITIAL, acts, s)
    ensures NeverHitsBystander(INITIAL, acts, {}) <==> Guarded(INITIAL, acts, {})
  {
    GuardedRunIff(INITIAL, acts, s, {});
  }

  // -------------------------------------------- the same in terms of writes alone

  /** A parent has reset the flag of a worker and not yet registered its task. */
  predicate InWindow(s: System, w: WorkerId) {
    w in s.held && !s.held[w].Taken?
  }

  /** No flag is where a task finds it or the next one will. */
  ghost predicate NoStray(s: System, targets: set<TaskId>) {
    NoBystander(s, targets) && forall w | InWindow(s, w) :: w !in s.flags
  }

  ghost predicate NeverStrays(a: System, acts: seq<Action>, targets: set<TaskId>)
    decreases |acts|
  {
    && NoStray(a, targets)
    && (acts != [] && Enabled(a, acts[0]) ==>
          NeverStrays(Next(a, acts[0]), acts[1..], targets + TargetOf(acts[0])))
  }

  /** Flags are written only outside the window, and when all who could find them are targets. */
  ghost predicate WritesGuarded(a: System, acts: seq<Action>, targets: set<TaskId>)
    decreases |acts|
  {
    acts == [] ||
    (Enabled(a, acts[0]) ==>
       && (acts[0].WriteFlag? ==>
             MayWrite(a, acts[0].t, targets) && !InWindow(a, a.shared.records[acts[0].t].worker))
       && WritesGuarded(Next(a, acts[0]), acts[1..], targets + TargetOf(acts[0])))
  }

  lemma {:induction false} StepStraysIff(s: System, a: Action, targets: set<TaskId>)
    requires Inv(s) && Enabled(s, a) && NoStray(s, targets) && targets <= s.shared.records.Keys
    ensures NoStray(Next(s, a), targets + TargetOf(a))
            <==> (a.WriteFlag? ==> MayWrite(s, a.t, targets) && !InWindow(s, s.shared.records[a.t].worker))
    ensures targets + TargetOf(a) <= Next(s, a).shared.records.Keys
  {
    StepIsGuardedIff(s, a, targets);
    if a.WriteFlag? {
      assert forall w :: InWindow(Next(s, a), w) <==> InWindow(s, w);
    }
    if a.Register? {
      assert InWindow(s, a.w);
    }
  }

  lemma {:induction false} StrayRunIff(a: System, acts: seq<Action>, b: System, targets: set<TaskId>)
    requires Inv(a) && Runs(a, acts, b) && NoStray(a, targets) && targets <= a.shared.records.Keys
    ensures NeverStrays(a, acts, targets) <==> WritesGuarded(a, acts, targets)
    ensures WritesGuarded(a, acts, targets) ==> Guarded(a, acts, targets)
    decreases |acts|
  {
    if acts != [] {
      var n, more := Next(a, acts[0]), targets + TargetOf(acts[0]);
      StepKeepsInv(a, acts[0]);
      StepStraysIff(a, acts[0], targets);
      if acts[0].Register? {
        assert InWindow(a, acts[0].w);
      }
      if NoStray(n, more) {
        StrayRunIff(n, acts[1..], b, more);
      }
    }
  }

  /** In every run: no flag ever stands where a task finds it or the next one will if and
      only if no flag is written between a reset and the registration, or where a task that
      is no target could find it. That is enough for kills to hit their targets only. */
  lemma {:induction false} WritesHitTargetsIff(acts: seq<Action>, s: System)
    requires Runs(INITIAL, acts, s)
    ensures NeverStrays(INITIAL, acts, {}) <==> WritesGuarded(INITIAL, acts, {})
    ensures WritesGuarded(INITIAL, acts, {}) ==> Guarded(INITIAL, acts, {})
  {
    StrayRunIff(INITIAL, acts, s, {});
  }

  // ------------------------------------------------------------ targets and their kills

  lemma {:induction false} LastStateIsSafe(a: System, acts: seq<Action>, b: System, targets: set<TaskId>)
    requires Runs(a, acts, b) && NeverHitsBystander(a, acts, targets)
    ensures NoBystander(b, targets + Targets(acts))
    decreases |acts|
  {
    if acts == [] {
      assert targets + {} == targets;
    } else {
      LastStateIsSafe(Next(a, acts[0]), acts[1..], b, targets + TargetOf(acts[0]));
      assert targets + TargetOf(acts[0]) + Targets(acts[1..]) == targets + Targets(acts);
    }
  }

  /** So then a child that finds itself cancelled was the target. */
  lemma {:induction false} KillHitsItsTarget(acts: seq<Action>, s: System, t: TaskId, w: WorkerId)
    requires Runs(INITIAL, acts, s) && Guarded(INITIAL, acts, {}) && Inside(s, t, w) && w in s.flags
    ensures t in Targets(acts)
  {
    KillsHitTargetsIff(acts, s);
    LastStateIsSafe(INITIAL, acts, s, {});
    assert Exposed(s, t, w) && {} + Targets(acts) == Targets(acts);
  }

  /** It is enough that every flag is written while its task still has the worker. */
  ghost predicate Timely(a: System, acts: seq<Action>)
    decreases |acts|
  {
    acts == [] ||
    (&& Enabled(a, acts[0])
     && (acts[0].WriteFlag? ==> Holder(a, acts[0].t, a.shared.records[acts[0].t].worker))
     && Timely(Next(a, acts[0]), acts[1..]))
  }

  lemma {:induction false} TimelyIsGuarded(a: System, acts: seq<Action>, targets: set<TaskId>)
    requires Inv(a) && Timely(a, acts) && forall t | t in a.killers :: t in targets
    requires NoStray(a, targets) && targets <= a.shared.records.Keys
    ensures WritesGuarded(a, acts, targets)
    decreases |acts|
  {
    if acts != [] {
      var x := acts[0];
      StepKeepsInv(a, x);
      if x.WriteFlag? {
        HolderMayBeFlagged(a, x.t, targets);
      }
      StepStraysIff(a, x, targets);
      TimelyIsGuarded(Next(a, x), acts[1..], targets + TargetOf(x));
    }
  }

  lemma {:induction false} HolderMayBeFlagged(s: System, t: TaskId, targets: set<TaskId>)
    requires Inv(s) && t in s.shared.records && t in targets && Holder(s, t, s.shared.records[t].worker)
    ensures MayWrite(s, t, targets) && !InWindow(s, s.shared.records[t].worker)
  {
    var w := s.shared.records[t].worker;
    forall u | Exposed(s, u, w)
      ensures u in targets
    {
      assert Holder(s, u, w);
    }
  }

  /** Then kills hit their targets only, in every run. */
  lemma {:induction false} TimelyKillsHitTargets(acts: seq<Action>, s: System)
    requires Runs(INITIAL, acts, s) && Timely(INITIAL, acts)
    ensures Guarded(INITIAL, acts, {})
  {
    TimelyIsGuarded(INITIAL, acts, {});
    WritesHitTargetsIff(acts, s);
  }

  /** A flag that is found does its harm: whoever is exposed to it can end as killed
      without a further kill and although its call ends well. */
  lemma {:induction false} ExposedEndsKilled(s: System, t: TaskId, w: WorkerId) returns (acts: seq<Action>, b: System)
    requires Exposed(s, t, w) && w in s.flags
    ensures Runs(s, acts, b) && Targets(acts) == {}
    ensures forall i | 0 <= i < |acts| && acts[i].Leave? :: acts[i].outcome == REPLY
    ensures t in b.phases && b.phases[t].Returned? && b.phases[t].status == Killed
    decreases if s.phases[t].Registered? then 2 else if s.phases[t].Launched? then 1 else 0
  {
    var a := if s.phases[t].Registered? then Launch(t)
             else if s.phases[t].Launched? then Enter(t)
             else Leave(t, REPLY, 0.0);
    RunsOne(s, a);
    assert [a][1..] == [] && Targets([a]) == {};
    if a.Leave? {
      acts, b := [a], Next(s, a);
    } else {
      var rest;
      rest, b := ExposedEndsKilled(Next(s, a), t, w);
      RunsConcat(s, [a], Next(s, a), rest, b);
      TargetsConcat([a], rest);
      acts := [a] + rest;
    }
  }

  /** So does a flag in the window: the next task on the worker can end as killed without
      ever being targeted. */
  lemma {:induction false} WindowEndsKilled(s: System, t: TaskId, w: WorkerId) returns (acts: seq<Action>, b: System)
    requires InWindow(s, w) && w in s.flags && t !in s.phases && t !in s.shared.records
    ensures Runs(s, acts, b) && Targets(acts) == {}
    ensures forall i | 0 <= i < |acts| && acts[i].Leave? :: acts[i].outcome == REPLY
    ensures t in b.phases && b.phases[t].Returned? && b.phases[t].status == Killed
    decreases if s.held[w].Ready? then 0 else 1
  {
    var a := if s.held[w].Ready? then Register(t, w) else ResetReason(w);
    RunsOne(s, a);
    assert [a][1..] == [] && Targets([a]) == {};
    var rest;
    if a.Register? {
      rest, b := ExposedEndsKilled(Next(s, a), t, w);
    } else {
      rest, b := WindowEndsKilled(Next(s, a), t, w);
    }
    RunsConcat(s, [a], Next(s, a), rest, b);
    TargetsConcat([a], rest);
    acts := [a] + rest;
  }

  const REPLY := Replied("ok", "text", map[], "")

  // ---------------------------------------------------------- two late kills, as runs

  function FirstTask(profile: Profile): seq<Action> {
    [NewWorker(7, profile), ResetFlag(7), ResetReason(7), Register(1, 7), Launch(1), Enter(1), DecideKill(1),
     Leave(1, REPLY, 0.0), Store(1), Release(1), Acquire(profile), ResetFlag(7)]
  }

  /** A task 2 that no kill was ever meant for ends as killed. */
  ghost predicate HitsBystander(acts: seq<Action>, s: System) {
    && Runs(INITIAL, acts, s) && 2 !in Targets(acts)
    && 2 in s.phases && s.phases[2].Returned? && s.phases[2].status == Killed
  }

  /** Task 1 is over, its kill is decided and not written, and a parent has reset the flag of
      its worker. */
  ghost predicate BetweenTasks(s: System) {
    && 7 in s.held && s.held[7].FlagReset? && 1 in s.killers
    && s.shared.records.Keys == s.phases.Keys == {1} && s.shared.records[1].worker == 7 && s.phases[1].Released?
  }

  lemma {:induction false} FirstTaskRuns(profile: Profile) returns (s: System)
    ensures Runs(INITIAL, FirstTask(profile), s) && BetweenTasks(s) && 2 !in Targets(FirstTask(profile))
  {
    var first := FirstTask(profile);
    s := RunFirst(profile, first, 12);
    assert first[..12] == first;
    NoTarget2(first);
  }

  lemma {:induction false} LateWrite(s: System) returns (acts: seq<Action>, b: System)
    requires BetweenTasks(s)
    ensures Runs(s, acts, b) && 2 !in Targets(acts) && Exposed(b, 2, 7) && 7 in b.flags
  {
    acts := [ResetReason(7), Register(2, 7), WriteFlag(1)];
    RunsThree(s, ResetReason(7), Register(2, 7), WriteFlag(1));
    b := Next(Next(Next(s, ResetReason(7)), Register(2, 7)), WriteFlag(1));
    NoTarget2(acts);
  }

  /** Without the guard it is false: a kill decided for task 1 is written after task 1
      has finished and its worker serves task 2. */
  lemma {:induction false} LateKillHitsNextTask(profile: Profile)
    ensures exists acts, s :: HitsBystander(acts, s)
  {
    var s1 := FirstTaskRuns(profile);
    var second, s2 := LateWrite(s1);
    var rest, s3 := ExposedEndsKilled(s2, 2, 7);
    ThreeRuns(FirstTask(profile), s1, second, s2, rest, s3);
  }

  lemma {:induction false} WindowWrite(s: System)
    requires BetweenTasks(s)
    ensures Enabled(s, WriteFlag(1)) && MayWrite(s, 1, {1})
    ensures var n := Next(s, WriteFlag(1));
            InWindow(n, 7) && 7 in n.flags && 2 !in n.phases && 2 !in n.shared.records
    ensures 2 !in Targets([WriteFlag(1)])
  {
    NoTarget2([WriteFlag(1)]);
  }

  /** And at the worst moment nobody is there to be hit: the flag is written between the
      reset and the registration, when no task is exposed on the worker. */
  lemma {:induction false} WindowKillHitsNextTask(profile: Profile)
    ensures exists s1, rest, s3 ::
              && Runs(INITIAL, FirstTask(profile), s1) && Enabled(s1, WriteFlag(1)) && MayWrite(s1, 1, {1})
              && HitsBystander(FirstTask(profile) + [WriteFlag(1)] + rest, s3)
  {
    var s1 := FirstTaskRuns(profile);
    WindowWrite(s1);
    var s2 := Next(s1, WriteFlag(1));
    RunsOne(s1, WriteFlag(1));
    var rest, s3 := WindowEndsKilled(s2, 2, 7);
    ThreeRuns(FirstTask(profile), s1, [WriteFlag(1)], s2, rest, s3);
  }

  lemma {:induction false} RunsThree(s: System, x: Action, y: Action, z: Action)
    requires Enabled(s, x) && Enabled(Next(s, x), y) && Enabled(Next(Next(s, x), y), z)
    ensures Runs(s, [x, y, z], Next(Next(Next(s, x), y), z))
  {
    RunsOne(s, x);
    RunsSnoc(s, [x], Next(s, x), y);
    RunsSnoc(s, [x] + [y], Next(Next(s, x), y), z);
    assert [x] + [y] + [z] == [x, y, z];
  }

  lemma {:induction false} ThreeRuns(first: seq<Action>, s1: System, second: seq<Action>, s2: System,
                                     third: seq<Action>, s3: System)
    requires Runs(INITIAL, first, s1) && Runs(s1, second, s2) && Runs(s2, third, s3)
    requires 2 !in Targets(first) && 2 !in Targets(second) && 2 !in Targets(third)
    requires 2 in s3.phases && s3.phases[2].Returned? && s3.phases[2].status == Killed
    ensures HitsBystander(first + second + third, s3)
  {
    RunsConcat(INITIAL, first, s1, second, s2);
    RunsConcat(INITIAL, first + second, s2, third, s3);
    TargetsConcat(first, second);
    TargetsConcat(first + second, third);
  }

  lemma {:induction false} TargetsConcat(a: seq<Action>, b: seq<Action>)
    ensures Targets(a + b) == Targets(a) + Targets(b)
  {
    if a == [] {
      assert a + b == b;
    } else {
      TailOfConcat(a, b);
      TargetsConcat(a[1..], b);
    }
  }

  lemma {:induction false} NoTarget2(acts: seq<Action>)
    requires forall i | 0 <= i < |acts| :: acts[i].DecideKill? ==> acts[i].t != 2
    ensures 2 !in Targets(acts)
  {
    if acts != [] {
      assert forall i | 0 <= i < |acts| - 1 :: acts[1..][i] == acts[i + 1];
      NoTarget2(acts[1..]);
    }
  }

  /** Before step `i` of the first task and the next acquisition. */
  ghost predicate FirstAt(s: System, profile: Profile, i: nat) {
    && s.killers == (if i >= 7 then multiset{1} else multiset{})
    && (if i == 0 then s == INITIAL else
        && s.shared.order == [7] && s.flags == {} && 7 in s.shared.workers
        && s.shared.workers[7].profile == profile && (i == 10 ==> s.shared.workers[7].status == Idle)
        && (i == 1 || i == 11 ==> s.held == map[7 := Taken])
        && (i == 2 || i == 12 ==> s.held == map[7 := FlagReset])
        && (i == 3 ==> s.held == map[7 := Ready])
        && (if i <= 3 then s.phases == map[] && s.shared.records == map[] else
            && s.shared.records.Keys == s.phases.Keys == {1}
            && s.shared.records[1].worker == 7 && s.shared.records[1].status == Running
            && (4 <= i <= 10 ==> s.held == map[])
            && (i == 4 ==> s.phases[1] == Registered) && (i == 5 ==> s.phases[1] == Launched)
            && (6 <= i <= 7 ==> s.phases[1] == InCall)
            && (i == 8 ==> s.phases[1].Returned? && s.phases[1].status == Done)
            && (i == 9 ==> s.phases[1].Stored? && s.phases[1].status == Done)
            && (i >= 10 ==> s.phases[1].Released?)))
  }

  lemma {:induction false} FirstStep(s: System, profile: Profile, i: nat, a: Action)
    requires i < 12 && FirstAt(s, profile, i) && a == FirstTask(profile)[i]
    ensures Enabled(s, a) && FirstAt(Next(s, a), profile, i + 1)
  {
    if i < 4 {
      FirstBegins(s, profile, i, a);
    } else if i < 7 {
      FirstEnters(s, profile, i, a);
    } else if i < 10 {
      FirstEnds(s, profile, i, a);
    } else {
      FirstAgain(s, profile, i, a);
    }
  }

  lemma {:induction false} FirstBegins(s: System, profile: Profile, i: nat, a: Action)
    requires i < 4 && FirstAt(s, profile, i) && a == FirstTask(profile)[i]
    ensures Enabled(s, a) && FirstAt(Next(s, a), profile, i + 1)
  {
  }

  lemma {:induction false} FirstEnters(s: System, profile: Profile, i: nat, a: Action)
    requires 4 <= i < 7 && FirstAt(s, profile, i) && a == FirstTask(profile)[i]
    ensures Enabled(s, a) && FirstAt(Next(s, a), profile, i + 1)
  {
  }

  lemma {:induction false} FirstEnds(s: System, profile: Profile, i: nat, a: Action)
    requires 7 <= i < 10 && FirstAt(s, profile, i) && a == FirstTask(profile)[i]
    ensures Enabled(s, a) && FirstAt(Next(s, a), profile, i + 1)
  {
  }

  lemma {:induction false} FirstAgain(s: System, profile: Profile, i: nat, a: Action)
    requires 10 <= i < 12 && FirstAt(s, profile, i) && a == FirstTask(profile)[i]
    ensures Enabled(s, a) && FirstAt(Next(s, a), profile, i + 1)
  {
    if i == 10 {
      assert Available(s.shared.workers, s.shared.order[0], profile);
      assert LastAvailable(s.shared.workers, s.shared.order, profile) == Some(7);
    }
  }

  lemma {:induction false} RunFirst(profile: Profile, acts: seq<Action>, i: nat) returns (s: System)
    requires acts == FirstTask(profile) && i <= |acts|
    ensures Runs(INITIAL, acts[..i], s) && FirstAt(s, profile, i)
  {
    s := INITIAL;
    if i > 0 {
      s := RunFirst(profile, acts, i - 1);
      FirstStep(s, profile, i - 1, acts[i - 1]);
      RunsNext(INITIAL, acts, i - 1, s);
      s := Next(s, acts[i - 1]);
    }
  }

  lemma {:induction false} RunsNext(a: System, acts: seq<Action>, i: nat, s: System)
    requires i < |acts| && Runs(a, acts[..i], s) && Enabled(s, acts[i])
    ensures Runs(a, acts[..i + 1], Next(s, acts[i]))
  {
    RunsSnoc(a, acts[..i], s, acts[i]);
    assert acts[..i + 1] == acts[..i] + [acts[i]];
  }

  // ------------------------------------------------------------------- shutdown

  /** Nobody can still hand back or hand out the worker. */
  ghost predicate Unused(s: System, w: WorkerId) {
    w !in s.held && forall t :: !Holder(s, t, w)
  }

  ghost predicate StoppedForGood(s: System, w: WorkerId) {
    w in s.shared.workers && s.shared.workers[w].status == Stopped && Unused(s, w)
  }

  lemma {:induction false} StoppedStep(s: System, a: Action, w: WorkerId)
    requires Inv(s) && Enabled(s, a) && StoppedForGood(s, w)
    ensures StoppedForGood(Next(s, a), w)
  {
    var n := Next(s, a);
    forall t | Holder(n, t, w)
      ensures false
    {
      HoldersOnlyMove(s, a, t, w);
    }
    if a.Release? {
      assert Holder(s, a.t, s.shared.records[a.t].worker);
    }
  }

  lemma {:induction false} StoppedRun(s: System, acts: seq<Action>, b: System, w: WorkerId)
    requires Inv(s) && StoppedForGood(s, w) && Runs(s, acts, b)
    ensures StoppedForGood(b, w)
    decreases |acts|
  {
    if acts != [] {
      StoppedStep(s, acts[0], w);
      StepKeepsInv(s, acts[0]);
      StoppedRun(Next(s, acts[0]), acts[1..], b, w);
    }
  }

  /** A task that still holds a worker sets it free when it ends, whatever shutdown did. */
  lemma {:induction false} HolderFrees(s: System, t: TaskId, w: WorkerId) returns (acts: seq<Action>, b: System)
    requires Inv(s) && Holder(s, t, w)
    ensures Runs(s, acts, b) && w in b.shared.workers && b.shared.workers[w].status != Stopped
    decreases match s.phases[t]
              case Registered => 5
              case Launched => 4
              case InCall => 3
              case Returned(_, _) => 2
              case _ => 1
  {
    var a := match s.phases[t]
      case Registered => Launch(t)
      case Launched => Enter(t)
      case InCall => Leave(t, Replied("ok", "text", map[], ""), 0.0)
      case Returned(_, _) => Store(t)
      case _ => Release(t);
    StepKeepsInv(s, a);
    RunsOne(s, a);
    if a.Release? {
      acts, b := [a], Next(s, a);
    } else {
      assert Holder(Next(s, a), t, w);
      acts, b := HolderFrees(Next(s, a), t, w);
      RunsConcat(s, [a], Next(s, a), acts, b);
      acts := [a] + acts;
    }
  }

  lemma {:induction false} FreshId(used: set<TaskId>) returns (t: TaskId)
    ensures forall u | u in used :: u < t
    decreases used
  {
    if used == {} {
      t := 0;
    } else {
      var x :| x in used;
      var y := FreshId(used - {x});
      t := if y <= x then x + 1 else y;
      assert forall u | u in used :: u == x || u in used - {x};
    }
  }

  lemma {:induction false} HeldFrees(s: System, w: WorkerId) returns (acts: seq<Action>, b: System)
    requires Inv(s) && w in s.held
    ensures Runs(s, acts, b) && w in b.shared.workers && b.shared.workers[w].status != Stopped
    decreases match s.held[w]
              case Taken => 2
              case FlagReset => 1
              case Ready => 0
  {
    var t := FreshId(s.phases.Keys);
    assert t !in s.phases.Keys;
    var a := match s.held[w]
      case Taken => ResetFlag(w)
      case FlagReset => ResetReason(w)
      case Ready => Register(t, w);
    RunsOne(s, a);
    StepKeepsInv(s, a);
    var rest;
    if a.Register? {
      assert Holder(Next(s, a), t, w);
      rest, b := HolderFrees(Next(s, a), t, w);
    } else {
      rest, b := HeldFrees(Next(s, a), w);
    }
    RunsConcat(s, [a], Next(s, a), rest, b);
    acts := [a] + rest;
  }

  /** No continuation of any kind brings the worker back. */
  ghost predicate StaysStopped(s: System, w: WorkerId) {
    forall acts, b | Runs(s, acts, b) :: w in b.shared.workers && b.shared.workers[w].status == Stopped
  }

  lemma {:induction false} RevivedBy(s: System, w: WorkerId, acts: seq<Action>, b: System)
    requires Runs(s, acts, b) && w in b.shared.workers && b.shared.workers[w].status != Stopped
    ensures !StaysStopped(s, w)
  {
  }

  /** Shutdown leaves a worker stopped for good if and only if nobody uses it then. */
  lemma {:induction false} ShutdownIsFinalIff(s: System, w: WorkerId)
    requires Inv(s) && w in s.shared.workers
    ensures StaysStopped(Next(s, StopWorkers), w) <==> Unused(s, w)
  {
    var n := Next(s, StopWorkers);
    StepKeepsInv(s, StopWorkers);
    assert forall t :: Holder(n, t, w) <==> Holder(s, t, w);
    if Unused(s, w) {
      forall acts, b | Runs(n, acts, b)
        ensures w in b.shared.workers && b.shared.workers[w].status == Stopped
      {
        StoppedRun(n, acts, b, w);
      }
    } else if t :| Holder(n, t, w) {
      var acts, b := HolderFrees(n, t, w);
      RevivedBy(n, w, acts, b);
    } else {
      var acts, b := HeldFrees(n, w);
      RevivedBy(n, w, acts, b);
    }
  }
}
