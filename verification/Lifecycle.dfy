/** The progress signals of a sub-agent: counters kept per call, against suffixes of the
    whole call history. The two fingerprints are computed by the caller's hash. */
module Lifecycle {
  import opened Text

  /** One recorded call: its tool, the fingerprint of tool and arguments, the result text
      and its fingerprint, and whether the result came from the cache. */
  datatype Call = Call(tool: string, args: string, result: string, mark: string, cacheHit: bool)

  const SEEN_LIMIT := 4096

  /** The result could be new at all. */
  predicate Substantial(c: Call) {
    c.result != "" && !("Error" <= c.result) && c.mark != ""
  }

  predicate IsNovel(seen: set<string>, c: Call) {
    !c.cacheHit && Substantial(c) && c.mark !in seen
  }

  // ----------------------------------------------------------- the reference

  /** Length of the last run of calls with one fingerprint. */
  function RepeatRun(h: seq<Call>): nat {
    if h == [] then 0
    else if |h| > 1 && h[|h| - 1].args == h[|h| - 2].args then RepeatRun(h[..|h| - 1]) + 1
    else 1
  }

  /** The remembered result fingerprints: the first 4096 distinct novel ones. */
  function SeenAfter(h: seq<Call>): set<string> {
    if h == [] then {}
    else
      var seen, c := SeenAfter(h[..|h| - 1]), h[|h| - 1];
      if IsNovel(seen, c) && |seen| < SEEN_LIMIT then seen + {c.mark} else seen
  }

  predicate NovelAt(h: seq<Call>, i: nat)
    requires i < |h|
  {
    IsNovel(SeenAfter(h[..i]), h[i])
  }

  /** Length of the last run of calls without a novel result. */
  function StallRun(h: seq<Call>): nat {
    if h == [] then 0
    else if NovelAt(h, |h| - 1) then 0
    else StallRun(h[..|h| - 1]) + 1
  }

  datatype Limits = Limits(stuck: nat, stall: nat)

  function Flags(l: Limits, h: seq<Call>): (bool, bool) {
    (RepeatRun(h) >= l.stuck, StallRun(h) >= l.stall)
  }

  function Tools(h: seq<Call>): set<string> {
    if h == [] then {} else Tools(h[..|h| - 1]) + {h[|h| - 1].tool}
  }

  // ------------------------------------------------------- the state, call by call

  datatype Track = Track(toolCount: nat, tools: set<string>, lastTool: Option<string>, lastArgs: Option<string>,
                         repeats: nat, stalls: nat, seen: set<string>, stuck: bool, stall: bool)

  const FRESH := Track(0, {}, None, None, 0, 0, {}, false, false)

  function Record(l: Limits, t: Track, c: Call): Track {
    var repeats := if t.lastArgs == Some(c.args) then t.repeats + 1 else 1;
    var novel := IsNovel(t.seen, c);
    var stalls := if novel then 0 else t.stalls + 1;
    Track(t.toolCount + 1, t.tools + {c.tool}, Some(c.tool), Some(c.args), repeats, stalls,
          if novel && |t.seen| < SEEN_LIMIT then t.seen + {c.mark} else t.seen,
          repeats >= l.stuck, stalls >= l.stall)
  }

  function TrackOf(l: Limits, h: seq<Call>): Track {
    if h == [] then FRESH else Record(l, TrackOf(l, h[..|h| - 1]), h[|h| - 1])
  }

  /** After any history the counters are the suffix lengths and the flags compare them. */
  lemma {:induction false} CountersAreSuffixes(l: Limits, h: seq<Call>)
    requires l.stuck >= 1 && l.stall >= 1
    ensures var t := TrackOf(l, h);
            && t.toolCount == |h| && t.tools == Tools(h)
            && t.lastArgs == (if h == [] then None else Some(h[|h| - 1].args))
            && t.lastTool == (if h == [] then None else Some(h[|h| - 1].tool))
            && t.repeats == RepeatRun(h) && t.stalls == StallRun(h) && t.seen == SeenAfter(h)
            && (t.stuck, t.stall) == Flags(l, h)
  {
    if h != [] {
      CountersAreSuffixes(l, h[..|h| - 1]);
    }
  }

  /** The distinct tools are those of the calls. */
  lemma {:induction false} ToolsAreUsed(h: seq<Call>, tool: string)
    ensures tool in Tools(h) <==> exists i :: 0 <= i < |h| && h[i].tool == tool
  {
    if h != [] {
      var init := h[..|h| - 1];
      ToolsAreUsed(init, tool);
      if i :| 0 <= i < |init| && init[i].tool == tool {
        assert h[i].tool == tool;
      }
      if i :| 0 <= i < |h| && h[i].tool == tool {
        assert i < |init| ==> init[i].tool == tool;
      }
    }
  }

  lemma {:induction false} OneMore(l: Limits, h: seq<Call>, c: Call)
    ensures TrackOf(l, h + [c]) == Record(l, TrackOf(l, h), c)
  {
    assert (h + [c])[..|h|] == h;
  }

  class Manager {
    const limits: Limits
    const enabled: bool
    var toolCount: nat
    var distinctTools: set<string>
    var lastTool: Option<string>
    var lastArgs: Option<string>
    var consecutiveRepeats: nat
    var consecutiveStalls: nat
    var seenResults: set<string>
    var stuck: bool
    var stall: bool
    var killReason: Option<string>
    var finished: bool
    var done: bool
    ghost var history: seq<Call>

    function Value(): Track
      reads this
    {
      Track(toolCount, distinctTools, lastTool, lastArgs, consecutiveRepeats, consecutiveStalls, seenResults,
            stuck, stall)
    }

    ghost predicate Valid()
      reads this
    {
      && limits.stuck >= 1 && limits.stall >= 1
      && Value() == TrackOf(limits, history)
      && (killReason.Some? || finished ==> done)
    }

    constructor (stuckThreshold: int, stallThreshold: int, enabled: bool)
      ensures Valid() && history == [] && !done && killReason == None
      ensures limits == Limits(if stuckThreshold < 1 then 1 else stuckThreshold,
                               if stallThreshold < 1 then 1 else stallThreshold)
    {
      limits := Limits(if stuckThreshold < 1 then 1 else stuckThreshold,
                       if stallThreshold < 1 then 1 else stallThreshold);
      this.enabled := enabled;
      toolCount, distinctTools, lastTool, lastArgs := 0, {}, None, None;
      consecutiveRepeats, consecutiveStalls, seenResults := 0, 0, {};
      stuck, stall, killReason, finished, done := false, false, None, false, false;
      history := [];
    }

    /** `_is_novel`, which remembers a new fingerprint while there is room. */
    method CheckNovel(c: Call) returns (novel: bool)
      requires !c.cacheHit
      modifies this`seenResults
      ensures novel == IsNovel(old(seenResults), c)
      ensures seenResults == if novel && |old(seenResults)| < SEEN_LIMIT then old(seenResults) + {c.mark}
                             else old(seenResults)
    {
      if c.result == "" || "Error" <= c.result {
        return false;
      }
      if c.mark == "" {
        return false;
      }
      if c.mark in seenResults {
        return false;
      }
      if |seenResults| < SEEN_LIMIT {
        seenResults := seenResults + {c.mark};
      }
      novel := true;
    }

    method CountRepeat(c: Call)
      modifies this`lastArgs, this`consecutiveRepeats
      ensures lastArgs == Some(c.args)
      ensures consecutiveRepeats == if old(lastArgs) == Some(c.args) then old(consecutiveRepeats) + 1 else 1
    {
      if lastArgs == Some(c.args) {
        consecutiveRepeats := consecutiveRepeats + 1;
      } else {
        consecutiveRepeats := 1;
        lastArgs := Some(c.args);
      }
    }

    method CountStall(c: Call)
      modifies this`seenResults, this`consecutiveStalls
      ensures consecutiveStalls == if IsNovel(old(seenResults), c) then 0 else old(consecutiveStalls) + 1
      ensures seenResults == if IsNovel(old(seenResults), c) && |old(seenResults)| < SEEN_LIMIT
                             then old(seenResults) + {c.mark} else old(seenResults)
    {
      var novel := false;
      if !c.cacheHit {
        novel := CheckNovel(c);
      }
      if novel {
        consecutiveStalls := 0;
      } else {
        consecutiveStalls := consecutiveStalls + 1;
      }
    }

    /** The locked section of `record_tool_call`; true when a flag changed. */
    method Count(c: Call) returns (changed: bool)
      modifies this`toolCount, this`distinctTools, this`lastTool, this`lastArgs, this`consecutiveRepeats,
               this`consecutiveStalls, this`seenResults, this`stuck, this`stall
      ensures Value() == Record(limits, old(Value()), c)
      ensures changed == ((stuck, stall) != (old(stuck), old(stall)))
    {
      toolCount := toolCount + 1;
      distinctTools := distinctTools + {c.tool};
      lastTool := Some(c.tool);
      CountRepeat(c);
      CountStall(c);
      var prevStuck, prevStall := stuck, stall;
      stuck := consecutiveRepeats >= limits.stuck;
      stall := consecutiveStalls >= limits.stall;
      changed := stuck != prevStuck || stall != prevStall;
    }

    /** True when the signal callback fires. After `Cancel` or `Close` nothing changes. */
    method RecordToolCall(c: Call) returns (fired: bool)
      requires Valid()
      modifies this
      ensures Valid()
      ensures history == if enabled && !old(done) then old(history) + [c] else old(history)
      ensures fired == (Flags(limits, history) != Flags(limits, old(history)))
      ensures !enabled || old(done) ==> unchanged(this)
      ensures killReason == old(killReason) && done == old(done) && finished == old(finished)
    {
      fired := false;
      if enabled && !done {
        CountersAreSuffixes(limits, history);
        fired := RecordOpen(c);
        CountersAreSuffixes(limits, history);
      }
    }

    /** The same while the manager is open. */
    method RecordOpen(c: Call) returns (fired: bool)
      requires Valid()
      modifies this`toolCount, this`distinctTools, this`lastTool, this`lastArgs, this`consecutiveRepeats,
               this`consecutiveStalls, this`seenResults, this`stuck, this`stall, this`history
      ensures Valid() && history == old(history) + [c]
      ensures fired == ((stuck, stall) != (old(stuck), old(stall)))
    {
      OneMore(limits, history, c);
      fired := Count(c);
      history := history + [c];
    }

    method Cancel(reason: string)
      requires Valid()
      modifies this`killReason, this`done
      ensures Valid() && done
      ensures killReason == if old(killReason).Some? then old(killReason) else Some(reason)
    {
      if killReason == None {
        killReason := Some(reason);
      }
      done := true;
    }

    method Close()
      requires Valid()
      modifies this`finished, this`done
      ensures Valid() && done && finished
    {
      finished := true;
      done := true;
    }
  }

  // ------------------------------------------------- the runs are the longest ones

  /** The last `k` calls have one fingerprint. */
  predicate EqualSuffix(h: seq<Call>, k: nat) {
    k <= |h| && forall i | |h| - k <= i < |h| :: h[i].args == h[|h| - 1].args
  }

  lemma {:induction false} RepeatRunIsLongest(h: seq<Call>)
    ensures EqualSuffix(h, RepeatRun(h))
    ensures forall k: nat | EqualSuffix(h, k) :: k <= RepeatRun(h)
  {
    if |h| > 1 && h[|h| - 1].args == h[|h| - 2].args {
      var init := h[..|h| - 1];
      RepeatRunIsLongest(init);
      forall k: nat | EqualSuffix(h, k)
        ensures k <= RepeatRun(h)
      {
        if k > 0 {
          assert EqualSuffix(init, k - 1);
        }
      }
      assert forall i | |init| - RepeatRun(init) <= i < |init| :: h[i] == init[i];
    } else if h != [] {
      forall k: nat | EqualSuffix(h, k)
        ensures k <= 1
      {
        assert k > 1 ==> |h| - k <= |h| - 2;
      }
    }
  }

  /** The last `k` calls brought nothing novel. */
  predicate StalledSuffix(h: seq<Call>, k: nat) {
    k <= |h| && forall i | |h| - k <= i < |h| :: !NovelAt(h, i)
  }

  lemma {:induction false} StallRunIsLongest(h: seq<Call>)
    ensures StalledSuffix(h, StallRun(h))
    ensures forall k: nat | StalledSuffix(h, k) :: k <= StallRun(h)
  {
    if h != [] {
      var init := h[..|h| - 1];
      StallRunIsLongest(init);
      assert forall i | 0 <= i < |init| :: init[..i] == h[..i] && init[i] == h[i];
      assert forall i | 0 <= i < |init| :: NovelAt(init, i) == NovelAt(h, i);
      forall k: nat | StalledSuffix(h, k)
        ensures k <= StallRun(h)
      {
        if k > 0 {
          assert !NovelAt(h, |h| - 1);
          assert StalledSuffix(init, k - 1);
        }
      }
    }
  }

  /** A sub-agent is stuck exactly while its last calls, as many as the threshold, have one
      fingerprint, and stalls exactly while that many brought nothing novel. */
  lemma {:induction false} FlagsIff(l: Limits, h: seq<Call>)
    requires l.stuck >= 1 && l.stall >= 1
    ensures TrackOf(l, h).stuck <==> EqualSuffix(h, l.stuck)
    ensures TrackOf(l, h).stall <==> StalledSuffix(h, l.stall)
  {
    CountersAreSuffixes(l, h);
    RepeatRunIsLongest(h);
    StallRunIsLongest(h);
    if l.stuck <= RepeatRun(h) {
      ShorterEqual(h, RepeatRun(h), l.stuck);
    }
  }

  lemma {:induction false} ShorterEqual(h: seq<Call>, n: nat, k: nat)
    requires EqualSuffix(h, n) && k <= n
    ensures EqualSuffix(h, k)
  {
  }

  // ------------------------------------------------------------- what novel means

  /** A result that is empty, or an error text, or has no fingerprint. */
  predicate NoProgress(c: Call) {
    c.result == "" || (|c.result| >= 5 && c.result[..5] == "Error") || c.mark == ""
  }

  /** A call ends the stall run exactly if its result was fetched, is no error and has a
      fingerprint that is not remembered; any other call makes the run one longer. */
  lemma {:induction false} StallEndsIff(h: seq<Call>, c: Call)
    ensures StallRun(h + [c]) == 0 <==> !c.cacheHit && !NoProgress(c) && c.mark !in SeenAfter(h)
    ensures StallRun(h + [c]) == 0 || StallRun(h + [c]) == StallRun(h) + 1
  {
    assert (h + [c])[..|h|] == h;
    assert "Error" <= c.result <==> |c.result| >= 5 && c.result[..5] == "Error";
  }

  /** Results without progress are never remembered. */
  lemma {:induction false} RememberedMeansProgress(h: seq<Call>, mark: string)
    requires mark in SeenAfter(h)
    ensures exists i :: 0 <= i < |h| && h[i].mark == mark && !h[i].cacheHit && !NoProgress(h[i])
  {
    var init, c := h[..|h| - 1], h[|h| - 1];
    if mark in SeenAfter(init) {
      RememberedMeansProgress(init, mark);
      var i :| 0 <= i < |init| && init[i].mark == mark && !init[i].cacheHit && !NoProgress(init[i]);
      assert h[i] == init[i];
    } else {
      assert h[|h| - 1] == c && !NoProgress(c);
    }
  }

  /** All fingerprints of substantial results that were not served from the cache. */
  function Prints(h: seq<Call>): set<string> {
    set i | 0 <= i < |h| && !h[i].cacheHit && Substantial(h[i]) :: h[i].mark
  }

  lemma {:induction false} PrintsSnoc(h: seq<Call>)
    requires h != []
    ensures var c := h[|h| - 1];
            Prints(h) == Prints(h[..|h| - 1]) + if !c.cacheHit && Substantial(c) then {c.mark} else {}
  {
    var init, c := h[..|h| - 1], h[|h| - 1];
    forall p | p in Prints(h)
      ensures p in Prints(init) || (!c.cacheHit && Substantial(c) && p == c.mark)
    {
      var i :| 0 <= i < |h| && !h[i].cacheHit && Substantial(h[i]) && h[i].mark == p;
      if i < |init| {
        assert init[i] == h[i];
      }
    }
    forall p | p in Prints(init)
      ensures p in Prints(h)
    {
      var i :| 0 <= i < |init| && !init[i].cacheHit && Substantial(init[i]) && init[i].mark == p;
      assert h[i] == init[i];
    }
  }

  lemma {:induction false} SetSize(a: set<string>, b: set<string>)
    requires a <= b
    ensures |a| <= |b|
    ensures |a| == |b| ==> a == b
  {
    if a != {} {
      var x :| x in a;
      SetSize(a - {x}, b - {x});
      assert a == (a - {x}) + {x} && b == (b - {x}) + {x};
    }
  }

  /** The seen set is bounded, and while it has not overflowed it is everything seen. */
  lemma {:induction false} SeenIsBounded(h: seq<Call>)
    ensures |SeenAfter(h)| <= SEEN_LIMIT && SeenAfter(h) <= Prints(h)
    ensures |Prints(h)| <= SEEN_LIMIT ==> SeenAfter(h) == Prints(h)
  {
    if h != [] {
      var init, c := h[..|h| - 1], h[|h| - 1];
      SeenIsBounded(init);
      PrintsSnoc(h);
      if |Prints(h)| <= SEEN_LIMIT {
        SetSize(Prints(init), Prints(h));
        if IsNovel(SeenAfter(init), c) {
          SetSize(Prints(init) + {c.mark}, Prints(h));
        }
      }
    }
  }

  /** With room left, a result is novel exactly when it is substantial and first. */
  lemma {:induction false} NovelIsFirst(h: seq<Call>, i: nat)
    requires i < |h| && |Prints(h[..i])| <= SEEN_LIMIT
    ensures NovelAt(h, i) <==>
            && !h[i].cacheHit && Substantial(h[i])
            && forall j | 0 <= j < i && !h[j].cacheHit && Substantial(h[j]) :: h[j].mark != h[i].mark
  {
    SeenIsBounded(h[..i]);
    assert forall j | 0 <= j < i :: h[..i][j] == h[j];
  }
}
