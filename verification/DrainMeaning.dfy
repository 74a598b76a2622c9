/** What a drained response says, read off its events: which call an event belongs to, what
    the events of one call amount to, and what the usage events do. */
module DrainMeaning {
  import opened Text
  import opened Drain
  import opened DrainLaws

  // -------------------------------------------------------- which call is meant

  /** The call an event belongs to when the calls `seen` appeared before: without an id, a
      start or a completion gets a counted one, and a delta the one that appeared last. */
  function IdOf(seen: seq<string>, ev: Event): Option<string>
    requires IsCallEvent(ev)
  {
    if ev.ArgsDelta? then
      (if ev.id.Some? then ev.id else if seen != [] then Some(seen[|seen| - 1]) else None)
    else if Truthy(ev.id) then ev.id
    else Some("call_" + Decimal(|seen|))
  }

  /** Every call event with the id of its call; a delta that has none is dropped. */
  function Resolved(seen: seq<string>, events: seq<Event>): seq<Event>
    decreases |events|
  {
    if events == [] then []
    else if !IsCallEvent(events[0]) then [events[0]] + Resolved(seen, events[1..])
    else
      var id := IdOf(seen, events[0]);
      if id.None? then Resolved(seen, events[1..])
      else [events[0].(id := id)] + Resolved(if id.value in seen then seen else seen + [id.value], events[1..])
  }

  lemma {:induction false} ResolvedIsExplicit(seen: seq<string>, events: seq<Event>)
    ensures AllExplicit(Resolved(seen, events))
    decreases |events|
  {
    if events != [] {
      var ev, rest := events[0], events[1..];
      ResolvedIsExplicit(seen, rest);
      if IsCallEvent(ev) && IdOf(seen, ev).Some? {
        var id := IdOf(seen, ev);
        ResolvedIsExplicit(if id.value in seen then seen else seen + [id.value], rest);
        assert Explicit(ev.(id := id));
      }
    }
  }

  /** Naming the call of an event changes nothing. */
  lemma {:induction false} NamedStep(st: State, ev: Event)
    requires IsCallEvent(ev)
    ensures var id := IdOf(st.order, ev);
            Step(st, ev) == if id.None? then st else Update(st, id.value, ev)
    ensures var id := IdOf(st.order, ev); id.Some? ==> Step(st, ev.(id := id)) == Update(st, id.value, ev)
  {
  }

  lemma {:induction false} ResolvedFolds(st: State, events: seq<Event>)
    requires Listed(st)
    ensures Fold(st, Resolved(st.order, events)) == Fold(st, events)
    ensures AllText(Resolved(st.order, events)) == AllText(events)
    decreases |events|
  {
    if events != [] {
      var ev, rest := events[0], events[1..];
      StepKeepsListed(st, ev);
      ResolvedFolds(Step(st, ev), rest);
      if IsCallEvent(ev) {
        NamedStep(st, ev);
        var id := IdOf(st.order, ev);
        if id.Some? {
          FoldFirst(st, ev.(id := id), Resolved(Step(st, ev).order, rest));
        }
      } else {
        FoldFirst(st, ev, Resolved(st.order, rest));
      }
    }
  }

  lemma {:induction false} FoldFirst(st: State, ev: Event, rest: seq<Event>)
    ensures Fold(st, [ev] + rest) == Fold(Step(st, ev), rest)
    ensures AllText([ev] + rest) == (if ev.TextDelta? then ev.text else "") + AllText(rest)
  {
    assert ([ev] + rest)[1..] == rest;
  }

  // ------------------------------------------------------------ first and last events

  /** The last event that passes the test. */
  function LastWith(events: seq<Event>, test: Event -> bool): (r: Option<Event>) {
    if events == [] then None
    else if test(events[|events| - 1]) then Some(events[|events| - 1])
    else LastWith(events[..|events| - 1], test)
  }

  /** The first event that passes the test. */
  function FirstWith(events: seq<Event>, test: Event -> bool): (r: Option<Event>) {
    if events == [] then None
    else if test(events[0]) then Some(events[0])
    else FirstWith(events[1..], test)
  }

  lemma {:induction false} LastIsLast(events: seq<Event>, test: Event -> bool)
    ensures LastWith(events, test).None? ==> forall i | 0 <= i < |events| :: !test(events[i])
    ensures LastWith(events, test).Some? ==>
              exists i :: 0 <= i < |events| && events[i] == LastWith(events, test).value && test(events[i])
                          && forall j | i < j < |events| :: !test(events[j])
  {
    if events != [] && !test(events[|events| - 1]) {
      LastIsLast(events[..|events| - 1], test);
    }
  }

  lemma {:induction false} LastSnoc(events: seq<Event>, ev: Event, test: Event -> bool)
    ensures LastWith(events + [ev], test) == if test(ev) then Some(ev) else LastWith(events, test)
  {
    assert (events + [ev])[..|events|] == events;
  }

  lemma {:induction false} FirstSnoc(events: seq<Event>, ev: Event, test: Event -> bool)
    ensures FirstWith(events + [ev], test)
            == if FirstWith(events, test).Some? then FirstWith(events, test) else if test(ev) then Some(ev) else None
    ensures FirstWith(events, test).Some? ==> test(FirstWith(events, test).value)
    decreases |events|
  {
    if events != [] {
      TailOfConcat(events, [ev]);
      FirstSnoc(events[1..], ev, test);
    } else {
      assert (events + [ev])[1..] == [];
    }
  }

  // ------------------------------------------------- what the events of a call mean

  predicate BringsArgs(ev: Event) {
    ev.Complete? && ev.args.Some?
  }

  predicate BringsName(ev: Event) {
    ev.Complete? && Truthy(ev.name)
  }

  predicate HasName(ev: Event) {
    IsCallEvent(ev) && Truthy(ev.name)
  }

  predicate BringsSignature(ev: Event) {
    ev.Complete? && Truthy(ev.signature)
  }

  /** Events of one call. */
  ghost predicate OfCall(own: seq<Event>) {
    own != [] && forall i | 0 <= i < |own| :: IsCallEvent(own[i])
  }

  /** What the argument deltas join to. */
  function Joined(own: seq<Event>): string {
    if own == [] then ""
    else
      var ev := own[|own| - 1];
      Joined(own[..|own| - 1]) + if ev.ArgsDelta? then ev.text else ""
  }

  /** Arguments that came as text only: decoded, if they can be. */
  function Decoded(parse: string -> Option<Value>, text: string): Args {
    if Blank(text) then map[]
    else match parse(Strip(text))
         case None => map["_raw" := Scalar(Strip(text))]
         case Some(v) => if v.Obj? then v.fields else map["_value" := v]
  }

  /** The arguments of the last completion with some; none at all for a call that began
      with a completion; or else what the deltas say. */
  function ArgsMeant(parse: string -> Option<Value>, own: seq<Event>): Args
    requires own != []
  {
    var last := LastWith(own, BringsArgs);
    if last.Some? && last.value.Complete? && last.value.args.Some? then last.value.args.value
    else if own[0].Complete? then map[]
    else Decoded(parse, Joined(own))
  }

  /** The name of the last completion with one, or else the first non-empty one. */
  function NameMeant(own: seq<Event>): Option<string>
    requires own != [] && IsCallEvent(own[0])
  {
    var last, first := LastWith(own, BringsName), FirstWith(own, HasName);
    if last.Some? && IsCallEvent(last.value) then last.value.name
    else if first.Some? && IsCallEvent(first.value) then first.value.name
    else own[0].name
  }

  /** The signature of the last completion with one, or else that of the first event. */
  function SignatureMeant(own: seq<Event>): Option<string>
    requires own != [] && IsCallEvent(own[0])
  {
    var last := LastWith(own, BringsSignature);
    if last.Some? && IsCallEvent(last.value) then last.value.signature else own[0].signature
  }

  ghost predicate Means(parse: string -> Option<Value>, own: seq<Event>, cid: string, p: Part) {
    && OfCall(own)
    && p == CallPart(Some(cid), NameMeant(own), Some(ArgsMeant(parse, own)), SignatureMeant(own))
  }

  // ------------------------------------------------------ the call under assembly

  lemma {:induction false} TouchAllSnoc(p: Option<Partial>, own: seq<Event>, ev: Event)
    requires IsCallEvent(ev) && forall i | 0 <= i < |own| :: IsCallEvent(own[i])
    ensures TouchAll(p, own + [ev]) == Some(Touch(TouchAll(p, own), ev))
    decreases |own|
  {
    if own == [] {
      assert (own + [ev])[1..] == [];
    } else {
      TailOfConcat(own, [ev]);
      TouchAllSnoc(Some(Touch(p, own[0])), own[1..], ev);
    }
  }

  /** The arguments before decoding. */
  function SettledArgs(own: seq<Event>): Option<Args>
    requires own != []
  {
    var last := LastWith(own, BringsArgs);
    if last.Some? && last.value.Complete? then last.value.args
    else if own[0].Complete? then Some(map[]) else None
  }

  ghost predicate Assembled(own: seq<Event>, p: Partial)
    requires OfCall(own)
  {
    && p.text == Joined(own) && p.args == SettledArgs(own)
    && p.name == NameMeant(own) && p.signature == SignatureMeant(own)
  }

  lemma {:induction false} LastPasses(events: seq<Event>, test: Event -> bool)
    ensures LastWith(events, test).Some? ==> test(LastWith(events, test).value)
  {
    LastIsLast(events, test);
  }

  lemma {:induction false} SettledSnoc(own: seq<Event>, ev: Event)
    requires OfCall(own) && IsCallEvent(ev)
    ensures SettledArgs(own + [ev]) == if BringsArgs(ev) then ev.args else SettledArgs(own)
  {
    LastSnoc(own, ev, BringsArgs);
  }

  /** A call without a named event has the empty name of its first one. */
  lemma {:induction false} NamedIsTruthy(own: seq<Event>)
    requires OfCall(own)
    ensures FirstWith(own, HasName).Some? ==> Truthy(NameMeant(own))
    ensures FirstWith(own, HasName).None? && LastWith(own, BringsName).None? ==> !Truthy(NameMeant(own))
  {
    LastPasses(own, BringsName);
    FirstSnoc(own, own[0], HasName);
  }

  lemma {:induction false} NameSnoc(own: seq<Event>, ev: Event)
    requires OfCall(own) && IsCallEvent(ev)
    ensures OfCall(own + [ev])
    ensures NameMeant(own + [ev])
            == if Truthy(ev.name) && (ev.Complete? || !Truthy(NameMeant(own))) then ev.name else NameMeant(own)
  {
    NamedIsTruthy(own);
    LastPasses(own, BringsName);
    LastSnoc(own, ev, BringsName);
    FirstSnoc(own, ev, HasName);
  }

  lemma {:induction false} SignatureSnoc(own: seq<Event>, ev: Event)
    requires OfCall(own) && IsCallEvent(ev)
    ensures SignatureMeant(own + [ev]) == if BringsSignature(ev) then ev.signature else SignatureMeant(own)
  {
    LastSnoc(own, ev, BringsSignature);
  }

  lemma {:induction false} AssembledSnoc(own: seq<Event>, ev: Event, p: Partial)
    requires OfCall(own) && IsCallEvent(ev) && Assembled(own, p)
    ensures OfCall(own + [ev]) && Assembled(own + [ev], Touch(Some(p), ev))
  {
    assert (own + [ev])[..|own|] == own;
    assert p.text + "" == p.text;
    SettledSnoc(own, ev);
    NameSnoc(own, ev);
    SignatureSnoc(own, ev);
  }

  lemma {:induction false} FirstAssembled(ev: Event)
    requires IsCallEvent(ev)
    ensures OfCall([ev]) && Assembled([ev], Touch(None, ev))
  {
    assert [ev][..0] == [] && [] + [ev] == [ev] && [ev][0] == ev;
    LastSnoc([], ev, BringsArgs);
    LastSnoc([], ev, BringsName);
    LastSnoc([], ev, BringsSignature);
    FirstSnoc([], ev, HasName);
  }

  lemma {:induction false} TouchedIsAssembled(own: seq<Event>)
    requires OfCall(own)
    ensures var p := TouchAll(None, own); p.Some? && Assembled(own, p.value)
  {
    var init, ev := own[..|own| - 1], own[|own| - 1];
    assert own == init + [ev];
    TouchAllSnoc(None, init, ev);
    if init == [] {
      FirstAssembled(ev);
    } else {
      TouchedIsAssembled(init);
      AssembledSnoc(init, ev, TouchAll(None, init).value);
    }
  }

  lemma {:induction false} FinalArgsMean(parse: string -> Option<Value>, own: seq<Event>, p: Partial)
    requires OfCall(own) && Assembled(own, p)
    ensures FinalArgs(parse, p) == ArgsMeant(parse, own)
  {
    LastPasses(own, BringsArgs);
  }

  lemma {:induction false} TouchedMeans(parse: string -> Option<Value>, own: seq<Event>, cid: string)
    requires forall i | 0 <= i < |own| :: IsCallEvent(own[i]) && own[i].id == Some(cid)
    ensures var p := TouchAll(None, own);
            p.Some? ==> Means(parse, own, cid, CallPart(Some(cid), p.value.name, Some(FinalArgs(parse, p.value)),
                                                        p.value.signature))
  {
    if own != [] {
      TouchedIsAssembled(own);
      FinalArgsMean(parse, own, TouchAll(None, own).value);
    }
  }

  // ----------------------------------------------------------------- the theorem

  /** The parts are the text, if there is any, and the calls `ids`, each as its own events
      mean it. */
  ghost predicate PartsMean(parse: string -> Option<Value>, named: seq<Event>, ids: seq<string>, text: string,
                            parts: seq<Part>) {
    var k := if text == "" then 0 else 1;
    && |parts| == k + |ids| && (text != "" ==> parts[0] == TextPart(text))
    && (forall i, j | 0 <= i < j < |ids| :: ids[i] != ids[j])
    && forall i | 0 <= i < |ids| :: Means(parse, Own(named, ids[i]), ids[i], parts[k + i])
  }

  lemma {:induction false} NamedCallsMean(parse: string -> Option<Value>, named: seq<Event>)
    requires AllExplicit(named)
    ensures PartsMean(parse, named, FirstSeen([], named), AllText(named), Drained(parse, named).parts)
  {
    var ids, k := FirstSeen([], named), if AllText(named) == "" then 0 else 1;
    CallsComeOutOnce(parse, named);
    var parts := Drained(parse, named).parts;
    assert AllText(named) != "" ==> parts[..k] == [parts[0]];
    forall i | 0 <= i < |ids|
      ensures Means(parse, Own(named, ids[i]), ids[i], parts[k + i])
    {
      TouchedMeans(parse, Own(named, ids[i]), ids[i]);
    }
  }

  /** For any events: the text first, then each call once in order of first appearance, and
      each call is what its own events mean. */
  lemma {:induction false} CallsMeanTheirEvents(parse: string -> Option<Value>, events: seq<Event>)
    ensures var named := Resolved([], events);
            PartsMean(parse, named, FirstSeen([], named), AllText(events), Drained(parse, events).parts)
  {
    ResolvedIsExplicit([], events);
    ResolvedFolds(EMPTY, events);
    NamedCallsMean(parse, Resolved([], events));
  }

  // ----------------------------------------------------------------------- usage

  function Counters(u: Usage): (r: seq<int>)
    ensures |r| == 7
  {
    [u.input, u.output, u.total, u.cached, u.reasoning, u.cacheRead, u.cacheCreation]
  }

  /** Tests for a usage event that reports counter `c`. */
  function Reports(c: nat): Event -> bool
    requires c < 7
  {
    (ev: Event) => ev.UsageEvent? && Counters(ev.usage)[c] != 0
  }

  predicate HasTimings(ev: Event) {
    ev.UsageEvent? && ev.usage.timings != map[]
  }

  /** The last report of counter `c` that is not zero. */
  function Reported(events: seq<Event>, c: nat): int
    requires c < 7
  {
    var last := LastWith(events, Reports(c));
    if last.Some? && last.value.UsageEvent? then Counters(last.value.usage)[c] else 0
  }

  function ReportedTimings(events: seq<Event>): map<string, real> {
    var last := LastWith(events, HasTimings);
    if last.Some? && last.value.UsageEvent? then last.value.usage.timings else map[]
  }

  ghost predicate LastUsage(events: seq<Event>, u: Usage) {
    (forall c: nat | c < 7 :: Counters(u)[c] == Reported(events, c)) && u.timings == ReportedTimings(events)
  }

  lemma {:induction false} AllUsageSnoc(u: Usage, events: seq<Event>, ev: Event)
    ensures AllUsage(u, events + [ev])
            == if ev.UsageEvent? then AddUsage(AllUsage(u, events), ev.usage) else AllUsage(u, events)
    decreases |events|
  {
    if events == [] {
      assert (events + [ev])[1..] == [];
    } else {
      TailOfConcat(events, [ev]);
      AllUsageSnoc(if events[0].UsageEvent? then AddUsage(u, events[0].usage) else u, events[1..], ev);
    }
  }

  lemma {:induction false} ReportedSnoc(events: seq<Event>, ev: Event, c: nat)
    requires c < 7
    ensures Reported(events + [ev], c)
            == if ev.UsageEvent? && Counters(ev.usage)[c] != 0 then Counters(ev.usage)[c] else Reported(events, c)
  {
    LastSnoc(events, ev, Reports(c));
  }

  lemma {:induction false} TimingsSnoc(events: seq<Event>, ev: Event)
    ensures ReportedTimings(events + [ev])
            == if ev.UsageEvent? && ev.usage.timings != map[] then ev.usage.timings else ReportedTimings(events)
  {
    LastSnoc(events, ev, HasTimings);
  }

  lemma {:induction false} CountersAdd(u: Usage, v: Usage, c: nat)
    requires c < 7
    ensures Counters(AddUsage(u, v))[c] == if Counters(v)[c] != 0 then Counters(v)[c] else Counters(u)[c]
  {
  }

  lemma {:induction false} LastUsageSnoc(events: seq<Event>, ev: Event, u: Usage)
    requires LastUsage(events, u)
    ensures LastUsage(events + [ev], if ev.UsageEvent? then AddUsage(u, ev.usage) else u)
  {
    var after := if ev.UsageEvent? then AddUsage(u, ev.usage) else u;
    TimingsSnoc(events, ev);
    forall c: nat | c < 7
      ensures Counters(after)[c] == Reported(events + [ev], c)
    {
      ReportedSnoc(events, ev, c);
      if ev.UsageEvent? {
        CountersAdd(u, ev.usage, c);
      }
    }
  }

  lemma {:induction false} NoUsageIsLast()
    ensures LastUsage([], NO_USAGE)
  {
    assert forall c: nat | c < 7 :: Counters(NO_USAGE)[c] == 0 == Reported([], c);
  }

  lemma {:induction false} AllUsageIsLast(events: seq<Event>)
    ensures LastUsage(events, AllUsage(NO_USAGE, events))
  {
    if events == [] {
      NoUsageIsLast();
    } else {
      var init, ev := events[..|events| - 1], events[|events| - 1];
      assert events == init + [ev];
      AllUsageIsLast(init);
      AllUsageSnoc(NO_USAGE, init, ev);
      LastUsageSnoc(init, ev, AllUsage(NO_USAGE, init));
    }
  }

  /** Text in order, and each counter as last reported; an unreported total is the sum. */
  lemma {:induction false} TextAndUsageMean(parse: string -> Option<Value>, events: seq<Event>)
    ensures var r := Drained(parse, events);
            && r.text == AllText(events)
            && exists total :: && LastUsage(events, r.usage.(total := total))
                               && r.usage.total == if total != 0 then total else r.usage.input + r.usage.output
  {
    TextAndUsage(EMPTY, events);
    AllUsageIsLast(events);
    assert "" + AllText(events) == AllText(events);
    var r, u := Drained(parse, events), AllUsage(NO_USAGE, events);
    assert r.usage.(total := u.total) == u;
  }
}
