/** Laws of the drain: interleaving and cutting do not matter, and draining the default
    stream of a response gives that response back exactly when it is normalised. */
module DrainLaws {
  import opened Text
  import opened Drain

  predicate IsCallEvent(ev: Event) {
    ev.Start? || ev.ArgsDelta? || ev.Complete?
  }

  /** The event names its call: a delta by any id, the others by a non-empty one. */
  predicate Explicit(ev: Event) {
    && (ev.ArgsDelta? ==> ev.id.Some?)
    && (ev.Start? || ev.Complete? ==> Truthy(ev.id))
  }

  ghost predicate AllExplicit(events: seq<Event>) {
    forall i | 0 <= i < |events| :: Explicit(events[i])
  }

  predicate BelongsTo(ev: Event, cid: string) {
    IsCallEvent(ev) && ev.id == Some(cid)
  }

  /** The events of one call. */
  function Own(events: seq<Event>, cid: string): (r: seq<Event>)
    ensures forall i | 0 <= i < |r| :: BelongsTo(r[i], cid)
  {
    if events == [] then []
    else (if BelongsTo(events[0], cid) then [events[0]] else []) + Own(events[1..], cid)
  }

  /** The call assembled from its own events alone. */
  function TouchAll(p: Option<Partial>, events: seq<Event>): Option<Partial>
    requires forall i | 0 <= i < |events| :: IsCallEvent(events[i])
    decreases |events|
  {
    if events == [] then p else
    assert IsCallEvent(events[0]);
    TouchAll(Some(Touch(p, events[0])), events[1..])
  }

  /** Call ids in order of first appearance, after those already seen. */
  function FirstSeen(seen: seq<string>, events: seq<Event>): seq<string>
    decreases |events|
  {
    if events == [] then seen
    else if IsCallEvent(events[0]) && events[0].id.Some? && events[0].id.value !in seen then
      FirstSeen(seen + [events[0].id.value], events[1..])
    else FirstSeen(seen, events[1..])
  }

  function AllText(events: seq<Event>): string {
    if events == [] then ""
    else (if events[0].TextDelta? then events[0].text else "") + AllText(events[1..])
  }

  function AllUsage(u: Usage, events: seq<Event>): Usage
    decreases |events|
  {
    if events == [] then u
    else AllUsage(if events[0].UsageEvent? then AddUsage(u, events[0].usage) else u, events[1..])
  }

  lemma {:induction false} CallsAreOwn(st: State, events: seq<Event>, cid: string)
    requires AllExplicit(events)
    ensures Lookup(Fold(st, events).calls, cid) == TouchAll(Lookup(st.calls, cid), Own(events, cid))
    decreases |events|
  {
    if events != [] {
      var ev := events[0];
      assert Explicit(ev);
      assert AllExplicit(events[1..]);
      CallsAreOwn(Step(st, ev), events[1..], cid);
      if BelongsTo(ev, cid) {
        assert Own(events, cid) == [ev] + Own(events[1..], cid);
        assert Own(events, cid)[1..] == Own(events[1..], cid);
        assert Lookup(Step(st, ev).calls, cid) == Some(Touch(Lookup(st.calls, cid), ev));
      } else {
        assert Own(events, cid) == Own(events[1..], cid);
        assert Lookup(Step(st, ev).calls, cid) == Lookup(st.calls, cid);
      }
    }
  }

  lemma {:induction false} OrderIsFirstSeen(st: State, events: seq<Event>)
    requires AllExplicit(events) && Listed(st)
    ensures Fold(st, events).order == FirstSeen(st.order, events)
    decreases |events|
  {
    if events != [] {
      assert Explicit(events[0]);
      assert AllExplicit(events[1..]);
      StepKeepsListed(st, events[0]);
      OrderIsFirstSeen(Step(st, events[0]), events[1..]);
    }
  }

  lemma {:induction false} TextAndUsage(st: State, events: seq<Event>)
    ensures Fold(st, events).text == st.text + AllText(events)
    ensures Fold(st, events).usage == AllUsage(st.usage, events)
    decreases |events|
  {
    if events == [] {
      assert st.text + "" == st.text;
    } else {
      var next := Step(st, events[0]);
      TextAndUsage(next, events[1..]);
      JoinText(st.text, events[0], next.text, AllText(events[1..]));
    }
  }

  lemma {:induction false} JoinText(before: string, ev: Event, after: string, rest: string)
    requires after == if ev.TextDelta? then before + ev.text else before
    ensures after + rest == before + ((if ev.TextDelta? then ev.text else "") + rest)
  {
  }

  /** With explicit ids the response depends only on each call's own events, the order in
      which calls first appear, the text and the usage: not on how they interleave. */
  lemma {:induction false} InterleavingDoesNotMatter(parse: string -> Option<Value>, a: seq<Event>, b: seq<Event>)
    requires AllExplicit(a) && AllExplicit(b)
    requires forall cid :: Own(a, cid) == Own(b, cid)
    requires FirstSeen([], a) == FirstSeen([], b) && AllText(a) == AllText(b)
    requires AllUsage(NO_USAGE, a) == AllUsage(NO_USAGE, b)
    ensures Drained(parse, a) == Drained(parse, b)
  {
    var s, t := Fold(EMPTY, a), Fold(EMPTY, b);
    TextAndUsage(EMPTY, a);
    TextAndUsage(EMPTY, b);
    OrderIsFirstSeen(EMPTY, a);
    OrderIsFirstSeen(EMPTY, b);
    FoldKeepsListed(EMPTY, a);
    FoldKeepsListed(EMPTY, b);
    forall cid
      ensures Lookup(s.calls, cid) == Lookup(t.calls, cid)
    {
      CallsAreOwn(EMPTY, a, cid);
      CallsAreOwn(EMPTY, b, cid);
    }
    assert forall cid | cid in s.order :: Lookup(s.calls, cid) == Some(s.calls[cid]) == Lookup(t.calls, cid);
    assert CallParts(parse, s.calls, s.order) == CallParts(parse, t.calls, t.order);
  }

  /** Every call comes out once, in first-appearance order, assembled from its own events. */
  lemma {:induction false} CallsComeOutOnce(parse: string -> Option<Value>, events: seq<Event>)
    requires AllExplicit(events)
    ensures var ids, text := FirstSeen([], events), TextParts(AllText(events));
            var parts := Drained(parse, events).parts;
            && |parts| == |text| + |ids| && parts[..|text|] == text
            && (forall i, j | 0 <= i < j < |ids| :: ids[i] != ids[j])
            && forall i | 0 <= i < |ids| ::
                 var p := TouchAll(None, Own(events, ids[i]));
                 p.Some? && parts[|text| + i]
                            == CallPart(Some(ids[i]), p.value.name, Some(FinalArgs(parse, p.value)), p.value.signature)
  {
    var st, ids := Fold(EMPTY, events), FirstSeen([], events);
    TextAndUsage(EMPTY, events);
    OrderIsFirstSeen(EMPTY, events);
    FoldKeepsListed(EMPTY, events);
    assert "" + AllText(events) == AllText(events);
    forall i | 0 <= i < |ids|
      ensures TouchAll(None, Own(events, ids[i])) == Some(st.calls[ids[i]])
    {
      CallsAreOwn(EMPTY, events, ids[i]);
      assert ids[i] in st.order;
    }
  }

  // ------------------------------------------------------------------- cutting

  lemma {:induction false} FoldConcat(st: State, a: seq<Event>, b: seq<Event>)
    ensures Fold(st, a + b) == Fold(Fold(st, a), b)
    decreases |a|
  {
    if a == [] {
      assert a + b == b;
    } else {
      TailOfConcat(a, b);
      FoldConcat(Step(st, a[0]), a[1..], b);
    }
  }

  lemma {:induction false} CutStep(st: State, cid: string, name: Option<string>, again: Option<string>,
                                   sig: Option<string>, x: string, y: string)
    requires again == name || !Truthy(again)
    ensures Step(Step(st, ArgsDelta(Some(cid), name, sig, x)), ArgsDelta(Some(cid), again, sig, y))
            == Step(st, ArgsDelta(Some(cid), name, sig, x + y))
  {
    var p := if cid in st.calls then st.calls[cid] else Partial(name, "", None, sig);
    assert p.text + x + y == p.text + (x + y);
  }

  /** An argument delta may be cut anywhere, with anything before and after it. */
  lemma {:induction false} CutDoesNotMatter(parse: string -> Option<Value>, before: seq<Event>, after: seq<Event>,
                                            cid: string, name: Option<string>, again: Option<string>,
                                            sig: Option<string>, x: string, y: string)
    requires again == name || !Truthy(again)
    ensures Drained(parse, before + [ArgsDelta(Some(cid), name, sig, x), ArgsDelta(Some(cid), again, sig, y)] + after)
            == Drained(parse, before + [ArgsDelta(Some(cid), name, sig, x + y)] + after)
  {
    var st := Fold(EMPTY, before);
    var one, two := ArgsDelta(Some(cid), name, sig, x), ArgsDelta(Some(cid), again, sig, y);
    var both := ArgsDelta(Some(cid), name, sig, x + y);
    CutStep(st, cid, name, again, sig, x, y);
    assert [one, two][1..] == [two] && [two][1..] == [] && [both][1..] == [];
    assert Fold(st, [one, two]) == Fold(Step(st, one), [two]) == Step(Step(st, one), two);
    assert Fold(st, [both]) == Step(st, both);
    FoldConcat(EMPTY, before, [one, two]);
    FoldConcat(EMPTY, before, [both]);
    FoldConcat(EMPTY, before + [one, two], after);
    FoldConcat(EMPTY, before + [both], after);
  }

  // ---------------------------------------------------------------- round trip

  predicate GoodCall(p: Part) {
    p.CallPart? && Truthy(p.id) && p.args.Some?
  }

  ghost predicate GoodCalls(parts: seq<Part>) {
    && (forall i | 0 <= i < |parts| :: GoodCall(parts[i]))
    && forall i, j | 0 <= i < j < |parts| :: parts[i].id != parts[j].id
  }

  /** The text part first, then calls with distinct ids and a dictionary of arguments; no
      timings, and a total unless there is nothing to total. */
  ghost predicate Normalised(r: Response) {
    var k := |TextParts(r.text)|;
    && k <= |r.parts| && r.parts[..k] == TextParts(r.text) && GoodCalls(r.parts[k..])
    && r.usage.timings == map[]
    && (r.usage.total == 0 ==> r.usage.input + r.usage.output == 0)
  }

  function AsPartial(p: Part): Partial
    requires p.CallPart?
  {
    Partial(p.name, "", p.args, p.signature)
  }

  /** `n` lists the calls of `parts` behind those of `st`, and holds them as they are. */
  ghost predicate Replayed(st: State, n: State, parts: seq<Part>)
    requires GoodCalls(parts)
  {
    && n.text == st.text && n.usage == st.usage
    && |n.order| == |st.order| + |parts| && st.order <= n.order
    && (forall cid | cid in st.calls :: cid in n.calls && n.calls[cid] == st.calls[cid])
    && forall i | 0 <= i < |parts| :: IsReplayed(n, |st.order| + i, parts[i])
  }

  ghost predicate IsReplayed(n: State, k: nat, p: Part)
    requires GoodCall(p)
  {
    k < |n.order| && n.order[k] == p.id.value && p.id.value in n.calls && n.calls[p.id.value] == AsPartial(p)
  }

  lemma {:induction false} GoodTail(parts: seq<Part>)
    requires GoodCalls(parts) && parts != []
    ensures GoodCall(parts[0]) && GoodCalls(parts[1..])
    ensures forall i | 0 <= i < |parts| - 1 :: parts[1..][i].id.value != parts[0].id.value
  {
    assert forall i | 0 <= i < |parts| - 1 :: parts[1..][i] == parts[i + 1];
  }

  /** The calls of a response, replayed into a state that knows none of them. */
  lemma {:induction false} ReplayCalls(st: State, parts: seq<Part>)
    requires Listed(st) && GoodCalls(parts)
    requires forall i | 0 <= i < |parts| :: parts[i].id.value !in st.calls
    ensures Replayed(st, Fold(st, CallEvents(parts)), parts)
    decreases |parts|
  {
    if parts != [] {
      var p, rest := parts[0], parts[1..];
      GoodTail(parts);
      var ev := Complete(p.id, p.name, p.signature, p.args);
      var next := Step(st, ev);
      StepKeepsListed(st, ev);
      FoldCall(st, p, rest, ev);
      OneReplayed(st, p, ev);
      ReplayCalls(next, rest);
      ReplayedMore(st, next, Fold(next, CallEvents(rest)), parts);
    }
  }

  lemma {:induction false} FoldCall(st: State, p: Part, rest: seq<Part>, ev: Event)
    requires GoodCall(p) && ev == Complete(p.id, p.name, p.signature, p.args)
    ensures forall parts | parts != [] && parts[0] == p && parts[1..] == rest ::
              Fold(st, CallEvents(parts)) == Fold(Step(st, ev), CallEvents(rest))
  {
    forall parts: seq<Part> | parts != [] && parts[0] == p && parts[1..] == rest
      ensures Fold(st, CallEvents(parts)) == Fold(Step(st, ev), CallEvents(rest))
    {
      var all := CallEvents(parts);
      assert all == [ev] + CallEvents(rest);
      assert all[0] == ev && all[1..] == CallEvents(rest);
    }
  }

  lemma {:induction false} OneReplayed(st: State, p: Part, ev: Event)
    requires GoodCall(p) && p.id.value !in st.calls && ev == Complete(p.id, p.name, p.signature, p.args)
    ensures Step(st, ev) == st.(order := st.order + [p.id.value], calls := st.calls[p.id.value := AsPartial(p)])
  {
  }

  lemma {:induction false} ReplayedMore(st: State, next: State, n: State, parts: seq<Part>)
    requires GoodCalls(parts) && parts != [] && GoodCall(parts[0]) && GoodCalls(parts[1..])
    requires parts[0].id.value !in st.calls
    requires var id := parts[0].id.value;
             next == st.(order := st.order + [id], calls := st.calls[id := AsPartial(parts[0])])
    requires Replayed(next, n, parts[1..])
    ensures Replayed(st, n, parts)
  {
    var rest := parts[1..];
    forall i | 0 <= i < |parts|
      ensures IsReplayed(n, |st.order| + i, parts[i])
    {
      if i > 0 {
        assert rest[i - 1] == parts[i];
        assert IsReplayed(n, |next.order| + (i - 1), rest[i - 1]);
      } else {
        assert next.order[|st.order|] == n.order[|st.order|];
      }
    }
  }

  lemma {:induction false} CallEventsSkipText(text: string, calls: seq<Part>)
    ensures CallEvents(TextParts(text) + calls) == CallEvents(calls)
  {
    var all := TextParts(text) + calls;
    if text != "" {
      assert all[1..] == calls;
    } else {
      assert all == calls;
    }
  }

  lemma {:induction false} DefaultFold(r: Response)
    ensures var s := State(r.text, [], map[], NO_USAGE);
            Fold(EMPTY, DefaultStream(r)) ==
            var c := Fold(s, CallEvents(r.parts)); c.(usage := AddUsage(c.usage, r.usage.(timings := map[])))
  {
    var head := if r.text != "" then [TextDelta(r.text)] else [];
    var u := UsageEvent(r.usage.(timings := map[]));
    FoldConcat(EMPTY, head + CallEvents(r.parts), [u, Signal]);
    FoldConcat(EMPTY, head, CallEvents(r.parts));
    assert [u, Signal][1..] == [Signal] && [Signal][1..] == [];
    if r.text != "" {
      assert head[1..] == [];
      assert "" + r.text == r.text;
    }
    assert Fold(EMPTY, head) == State(r.text, [], map[], NO_USAGE);
    var c := Fold(Fold(EMPTY, head), CallEvents(r.parts));
    assert Fold(c, [u, Signal]) == Fold(Step(c, u), [Signal]) == Step(c, u);
  }

  lemma {:induction false} CallsCameBack(parse: string -> Option<Value>, s: State, n: State, calls: seq<Part>)
    requires GoodCalls(calls) && Replayed(s, n, calls) && s.order == []
    requires forall cid | cid in n.order :: cid in n.calls
    ensures CallParts(parse, n.calls, n.order) == calls
  {
    forall i | 0 <= i < |calls|
      ensures CallParts(parse, n.calls, n.order)[i] == calls[i]
    {
      assert GoodCall(calls[i]) && IsReplayed(n, i, calls[i]);
    }
  }

  lemma {:induction false} NormalisedRoundTrips(parse: string -> Option<Value>, r: Response)
    requires Normalised(r)
    ensures Drained(parse, DefaultStream(r)) == r
  {
    var k := |TextParts(r.text)|;
    var calls := r.parts[k..];
    var s := State(r.text, [], map[], NO_USAGE);
    assert r.parts == TextParts(r.text) + calls;
    CallEventsSkipText(r.text, calls);
    DefaultFold(r);
    ReplayCalls(s, calls);
    FoldKeepsListed(EMPTY, DefaultStream(r));
    CallsCameBack(parse, s, Fold(s, CallEvents(calls)), calls);
  }

  /** Ids that come from completed calls are never empty. */
  lemma {:induction false} IdsAreTruthy(st: State, parts: seq<Part>)
    requires forall cid | cid in st.order :: cid != ""
    ensures forall cid | cid in Fold(st, CallEvents(parts)).order :: cid != ""
    ensures Fold(st, CallEvents(parts)).usage == st.usage
    decreases |parts|
  {
    if parts != [] {
      var p := parts[0];
      if p.CallPart? {
        var ev := Complete(p.id, p.name, p.signature, Some(if p.args.Some? then p.args.value else map[]));
        assert CallEvents(parts) == [ev] + CallEvents(parts[1..]);
        assert CallEvents(parts)[1..] == CallEvents(parts[1..]);
        IdsAreTruthy(Step(st, ev), parts[1..]);
      } else {
        assert CallEvents(parts) == CallEvents(parts[1..]);
        IdsAreTruthy(st, parts[1..]);
      }
    }
  }

  lemma {:induction false} DrainedIsNormalised(parse: string -> Option<Value>, r: Response)
    ensures Normalised(Drained(parse, DefaultStream(r)))
  {
    var d := Drained(parse, DefaultStream(r));
    var n := Fold(EMPTY, DefaultStream(r));
    FoldKeepsListed(EMPTY, DefaultStream(r));
    DefaultFold(r);
    IdsAreTruthy(State(r.text, [], map[], NO_USAGE), r.parts);
    var k := |TextParts(d.text)|;
    assert d.parts[k..] == CallParts(parse, n.calls, n.order);
    forall i | 0 <= i < |n.order|
      ensures GoodCall(d.parts[k..][i])
    {
      assert n.order[i] in n.order;
    }
  }

  /** Draining the default stream of a response returns it if and only if it is normalised. */
  lemma {:induction false} RoundTripIff(parse: string -> Option<Value>, r: Response)
    ensures Drained(parse, DefaultStream(r)) == r <==> Normalised(r)
  {
    DrainedIsNormalised(parse, r);
    if Normalised(r) {
      NormalisedRoundTrips(parse, r);
    }
  }
}
