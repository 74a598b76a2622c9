/** The context-pressure nudge: an episode machine that escalates while the assembled
    request stays over the threshold. */
module Pressure {
  import opened Text

  /** One call: the configured threshold and escalation step, the summary anchor, the
      manifest total and limit (0 when there is none) and the projected fill. */
  datatype Observation = Observation(threshold: real, escalateAfter: int, anchor: int,
                                     total: int, limit: int, fill: real)

  datatype Nudge = Nudge(level: nat, forced: bool)

  datatype Episode = Episode(armedAt: int, fired: bool, itersOver: nat, level: nat, forced: bool)

  const START := Episode(0, false, 0, 0, false)

  function Reset(e: Episode): Episode {
    Episode(e.armedAt, false, 0, 0, false)
  }

  predicate Measurable(o: Observation) {
    o.total != 0 && o.limit > 0
  }

  /** The episode after the anchor has been looked at. */
  function Rearm(e: Episode, o: Observation): Episode {
    if o.anchor > e.armedAt then Reset(e).(armedAt := o.anchor) else e
  }

  function Escalate(e: Episode, step: int): (Episode, Option<Nudge>) {
    var over := e.(itersOver := e.itersOver + 1);
    if !e.fired then (over.(fired := true, level := 1), Some(Nudge(1, false)))
    else if step > 0 && over.itersOver - 1 >= step * e.level && e.level < 3 then
      var force := e.level + 1 == 3 && !e.forced;
      (over.(level := e.level + 1, forced := e.forced || force), Some(Nudge(e.level + 1, force)))
    else (over, None)
  }

  function Observe(e: Episode, o: Observation): (Episode, Option<Nudge>) {
    if o.threshold <= 0.0 then (e, None) else
    var r := Rearm(e, o);
    if !Measurable(o) then (r, None)
    else if o.fill < o.threshold then (Reset(r), None)
    else Escalate(r, o.escalateAfter)
  }

  class Session {
    var armedAt: int
    var fired: bool
    var itersOver: nat
    var level: nat
    var forcedThisEpisode: bool

    function Value(): Episode
      reads this
    {
      Episode(armedAt, fired, itersOver, level, forcedThisEpisode)
    }

    constructor ()
      ensures Value() == START
    {
      armedAt, fired, itersOver, level, forcedThisEpisode := 0, false, 0, 0, false;
    }

    method MaybeNudge(o: Observation) returns (nudge: Option<Nudge>)
      modifies this
      ensures (Value(), nudge) == Observe(old(Value()), o)
    {
      nudge := None;
      if o.threshold <= 0.0 {
        return;
      }
      if o.anchor > armedAt {
        armedAt := o.anchor;
        fired, itersOver, level, forcedThisEpisode := false, 0, 0, false;
      }
      if o.total == 0 || o.limit <= 0 {
        return;
      }
      if o.fill < o.threshold {
        if fired {
          fired := false;
        }
        itersOver, level, forcedThisEpisode := 0, 0, false;
        return;
      }
      itersOver := itersOver + 1;
      var newLevel;
      if !fired {
        fired := true;
        newLevel := 1;
      } else if o.escalateAfter > 0 && itersOver - 1 >= o.escalateAfter * level && level < 3 {
        newLevel := level + 1;
      } else {
        return;
      }
      level := newLevel;
      var force := newLevel == 3 && !forcedThisEpisode;
      if force {
        forcedThisEpisode := true;
      }
      nudge := Some(Nudge(newLevel, force));
    }
  }

  // ---------------------------------------------------------------- whole runs

  function Run(e: Episode, obs: seq<Observation>): Episode {
    if obs == [] then e else Observe(Run(e, obs[..|obs| - 1]), obs[|obs| - 1]).0
  }

  /** The answer to the last observation of a run. */
  function LastNudge(e: Episode, obs: seq<Observation>): Option<Nudge>
    requires obs != []
  {
    Observe(Run(e, obs[..|obs| - 1]), obs[|obs| - 1]).1
  }

  /** The level is 0 to 3, an episode is open exactly when it is not 0, and the forced
      compaction has been spent exactly when it is 3. */
  ghost predicate Sound(e: Episode) {
    && e.level <= 3
    && (e.fired <==> e.level >= 1)
    && (e.forced <==> e.level == 3)
    && (e.level >= 1 <==> e.itersOver >= 1)
  }

  lemma {:induction false} RunIsSound(obs: seq<Observation>)
    ensures Sound(Run(START, obs))
  {
    if obs != [] {
      RunIsSound(obs[..|obs| - 1]);
    }
  }

  /** A compaction is forced exactly with the third level, so the text of the first level
      is never sent for it. */
  lemma {:induction false} ThirdLevelForces(obs: seq<Observation>)
    requires obs != [] && LastNudge(START, obs).Some?
    ensures var n := LastNudge(START, obs).value; 1 <= n.level <= 3 && (n.forced <==> n.level == 3)
  {
    RunIsSound(obs[..|obs| - 1]);
  }

  // ------------------------------------------------- independent reference: a count

  /** The highest anchor seen while the nudge was enabled. */
  function Seen(obs: seq<Observation>): int {
    if obs == [] then 0
    else
      var before, o := Seen(obs[..|obs| - 1]), obs[|obs| - 1];
      if o.threshold > 0.0 && o.anchor > before then o.anchor else before
  }

  predicate Over(o: Observation) {
    o.threshold > 0.0 && o.total != 0 && o.limit > 0 && o.fill >= o.threshold
  }

  /** The observation ends the episode: the anchor advanced, or the fill dropped. */
  predicate Resets(before: seq<Observation>, o: Observation) {
    o.threshold > 0.0 && (o.anchor > Seen(before) || (o.total != 0 && o.limit > 0 && o.fill < o.threshold))
  }

  /** Over-threshold observations since the last reset. */
  function OverCount(obs: seq<Observation>): nat {
    if obs == [] then 0
    else
      var before, o := obs[..|obs| - 1], obs[|obs| - 1];
      (if Resets(before, o) then 0 else OverCount(before)) + if Over(o) then 1 else 0
  }

  function LevelAt(count: nat, step: int): nat {
    if count == 0 then 0
    else if step <= 0 || count <= step then 1
    else if count <= 2 * step then 2
    else 3
  }

  ghost predicate Constant(obs: seq<Observation>, step: int) {
    forall i | 0 <= i < |obs| :: obs[i].escalateAfter == step
  }

  /** After any run with one escalation step, the whole state is a function of the count. */
  lemma {:induction false} StateIsCount(obs: seq<Observation>, step: int)
    requires Constant(obs, step)
    ensures var e, c := Run(START, obs), OverCount(obs);
            && e.armedAt == Seen(obs) && e.itersOver == c && e.level == LevelAt(c, step)
            && (e.fired <==> c > 0) && (e.forced <==> LevelAt(c, step) == 3)
  {
    if obs != [] {
      var before := obs[..|obs| - 1];
      StateIsCount(before, step);
      assert obs[|obs| - 1].escalateAfter == step;
      if step > 0 && OverCount(before) > 0 {
        LevelSteps(OverCount(before), step);
      }
    }
  }

  /** The escalation guard, on the count. */
  lemma {:induction false} LevelSteps(c: nat, step: int)
    requires step > 0 && c > 0
    ensures var level := LevelAt(c, step);
            (c >= step * level && level < 3) <==> LevelAt(c + 1, step) == level + 1
    ensures LevelAt(c, step) <= LevelAt(c + 1, step) <= LevelAt(c, step) + 1
  {
  }

  /** With a step s > 0 the nudges of an episode come exactly at the counts 1, s + 1 and
      2s + 1, the last one with the forced compaction; without a step only at 1. */
  lemma {:induction false} NudgesAtCounts(obs: seq<Observation>, step: int)
    requires obs != [] && Constant(obs, step)
    ensures var n, o, c := LastNudge(START, obs), obs[|obs| - 1], OverCount(obs);
            && (n.Some? <==> Over(o) && (c == 1 || (step > 0 && (c == step + 1 || c == 2 * step + 1))))
            && (n.Some? ==> n.value.level == LevelAt(c, step) && (n.value.forced <==> c == 2 * step + 1 && step > 0))
  {
    var before := obs[..|obs| - 1];
    StateIsCount(before, step);
    assert obs[|obs| - 1].escalateAfter == step;
    if step > 0 && OverCount(before) > 0 {
      LevelSteps(OverCount(before), step);
    }
  }

  // -------------------------------------------------- when a nudge is due, in any run

  /** The nudges of the open episode before its last observation. */
  function NudgesBefore(obs: seq<Observation>): nat
    requires obs != []
    decreases |obs|, 0
  {
    var before := obs[..|obs| - 1];
    if Resets(before, obs[|obs| - 1]) then 0 else Nudges(before)
  }

  /** The last observation is the first of its episode over the threshold, or as many calls
      have been over it since as the step, as now configured, asks for the next level. */
  predicate IsDue(obs: seq<Observation>)
    requires obs != []
    decreases |obs|, 1
  {
    var o, n, c := obs[|obs| - 1], NudgesBefore(obs), OverCount(obs);
    Over(o) && (c == 1 || (o.escalateAfter > 0 && n < 3 && c >= o.escalateAfter * n + 1))
  }

  /** The nudges of the open episode. */
  function Nudges(obs: seq<Observation>): nat
    decreases |obs|, 2
  {
    if obs == [] then 0 else NudgesBefore(obs) + if IsDue(obs) then 1 else 0
  }

  /** In any run, whatever the step is configured to on the way: the level is the number of
      nudges in the open episode, and a nudge comes exactly when it is due. */
  lemma {:induction false} NudgesIff(obs: seq<Observation>)
    ensures var e := Run(START, obs);
            && e.level == Nudges(obs) && e.itersOver == OverCount(obs) && (e.fired <==> OverCount(obs) > 0)
    ensures obs != [] ==> (LastNudge(START, obs).Some? <==> IsDue(obs))
    ensures obs != [] && IsDue(obs) ==>
              var n := LastNudge(START, obs).value; n.level == Nudges(obs) && (n.forced <==> Nudges(obs) == 3)
    decreases |obs|
  {
    if obs != [] {
      var before := obs[..|obs| - 1];
      NudgesIff(before);
      ArmedIsSeen(before);
      RunIsSound(before);
    }
  }

  /** No observation of `more` resets the episode. */
  predicate ResetFree(before: seq<Observation>, more: seq<Observation>) {
    more == [] ||
    var init := more[..|more| - 1];
    ResetFree(before, init) && !Resets(before + init, more[|more| - 1])
  }

  /** Between two resets a compaction is forced at most once, even if the step changes. */
  lemma {:induction false} ForcedOnce(before: seq<Observation>, more: seq<Observation>)
    requires before != [] && LastNudge(START, before).Some? && LastNudge(START, before).value.forced
    requires more != [] && ResetFree(before, more)
    ensures !(LastNudge(START, before + more).Some? && LastNudge(START, before + more).value.forced)
  {
    StaysForced(before, more[..|more| - 1]);
    assert (before + more)[..|before + more| - 1] == before + more[..|more| - 1];
    ArmedIsSeen(before + more[..|more| - 1]);
  }

  lemma {:induction false} ArmedIsSeen(obs: seq<Observation>)
    ensures Run(START, obs).armedAt == Seen(obs)
  {
    if obs != [] {
      ArmedIsSeen(obs[..|obs| - 1]);
    }
  }

  lemma {:induction false} StaysForced(before: seq<Observation>, more: seq<Observation>)
    requires before != [] && LastNudge(START, before).Some? && LastNudge(START, before).value.forced
    requires ResetFree(before, more)
    ensures Run(START, before + more).forced
  {
    if more == [] {
      assert before + more == before;
    } else {
      var init := more[..|more| - 1];
      StaysForced(before, init);
      assert (before + more)[..|before + more| - 1] == before + init;
      ArmedIsSeen(before + init);
    }
  }
}
