/** `drain_stream`: a provider response assembled from stream events, and the default
    `stream` that turns a response into events. JSON decoding is the parameter `parse`. */
module Drain {
  import opened Text

  datatype Value = Obj(fields: map<string, Value>) | Scalar(text: string)

  type Args = map<string, Value>

  datatype Usage = Usage(input: int, output: int, total: int, cached: int, reasoning: int,
                         cacheRead: int, cacheCreation: int, timings: map<string, real>)

  const NO_USAGE := Usage(0, 0, 0, 0, 0, 0, 0, map[])

  /** An absent text is the empty text; the other kinds only signal. */
  datatype Event =
    | TextDelta(text: string)
    | Start(id: Option<string>, name: Option<string>, signature: Option<string>)
    | ArgsDelta(id: Option<string>, name: Option<string>, signature: Option<string>, text: string)
    | Complete(id: Option<string>, name: Option<string>, signature: Option<string>, args: Option<Args>)
    | UsageEvent(usage: Usage)
    | Signal

  datatype Part =
    | TextPart(text: string)
    | CallPart(id: Option<string>, name: Option<string>, args: Option<Args>, signature: Option<string>)
    | OtherPart

  datatype Response = Response(text: string, parts: seq<Part>, usage: Usage)

  /** A call under assembly; `text` is what its argument deltas join to. */
  datatype Partial = Partial(name: Option<string>, text: string, args: Option<Args>, signature: Option<string>)

  datatype State = State(text: string, order: seq<string>, calls: map<string, Partial>, usage: Usage)

  const EMPTY := State("", [], map[], NO_USAGE)

  function FreshId(st: State, id: Option<string>): string {
    if Truthy(id) then id.value else "call_" + Decimal(|st.order|)
  }

  // --------------------------------------------------------- one event, one call

  /** What an event does to the call it belongs to. */
  function Touch(p: Option<Partial>, ev: Event): Partial
    requires ev.Start? || ev.ArgsDelta? || ev.Complete?
  {
    match ev
    case Start(_, name, sig) =>
      if p.None? then Partial(name, "", None, sig)
      else if Truthy(name) && !Truthy(p.value.name) then p.value.(name := name)
      else p.value
    case ArgsDelta(_, name, sig, text) =>
      var q := if p.None? then Partial(name, "", None, sig) else p.value;
      var q' := q.(text := q.text + text);
      if Truthy(name) && !Truthy(q'.name) then q'.(name := name) else q'
    case Complete(_, name, sig, args) =>
      if p.None? then Partial(name, "", Some(if args.Some? then args.value else map[]), sig)
      else
        var q := p.value;
        Partial(if Truthy(name) then name else q.name, q.text,
                if args.Some? then args else q.args, if Truthy(sig) then sig else q.signature)
  }

  function Lookup(calls: map<string, Partial>, cid: string): Option<Partial> {
    if cid in calls then Some(calls[cid]) else None
  }

  function Update(st: State, cid: string, ev: Event): State
    requires ev.Start? || ev.ArgsDelta? || ev.Complete?
  {
    st.(calls := st.calls[cid := Touch(Lookup(st.calls, cid), ev)],
        order := if cid in st.calls then st.order else st.order + [cid])
  }

  function Or(a: int, b: int): int {
    if a != 0 then a else b
  }

  function AddUsage(u: Usage, v: Usage): Usage {
    Usage(Or(v.input, u.input), Or(v.output, u.output), Or(v.total, u.total), Or(v.cached, u.cached),
          Or(v.reasoning, u.reasoning), Or(v.cacheRead, u.cacheRead), Or(v.cacheCreation, u.cacheCreation),
          if v.timings != map[] then v.timings else u.timings)
  }

  function Step(st: State, ev: Event): State {
    match ev
    case TextDelta(text) => st.(text := st.text + text)
    case Start(id, _, _) => Update(st, FreshId(st, id), ev)
    case ArgsDelta(id, _, _, _) =>
      if id.Some? then Update(st, id.value, ev)
      else if st.order != [] then Update(st, st.order[|st.order| - 1], ev)
      else st
    case Complete(id, _, _, _) => Update(st, FreshId(st, id), ev)
    case UsageEvent(u) => st.(usage := AddUsage(st.usage, u))
    case Signal => st
  }

  function Fold(st: State, events: seq<Event>): State
    decreases |events|
  {
    if events == [] then st else Fold(Step(st, events[0]), events[1..])
  }

  // ------------------------------------------------------------------ assembly

  function FinalArgs(parse: string -> Option<Value>, p: Partial): Args {
    if p.args.Some? then p.args.value else
    var joined := Strip(p.text);
    if joined == "" then map[] else
    match parse(joined)
    case None => map["_raw" := Scalar(joined)]
    case Some(Obj(fields)) => fields
    case Some(v) => map["_value" := v]
  }

  function CallParts(parse: string -> Option<Value>, calls: map<string, Partial>, order: seq<string>): (r: seq<Part>)
    requires forall cid | cid in order :: cid in calls
    ensures |r| == |order|
  {
    seq(|order|, i requires 0 <= i < |order| =>
      var p := calls[order[i]];
      CallPart(Some(order[i]), p.name, Some(FinalArgs(parse, p)), p.signature))
  }

  /** Calls are listed once each, and only calls under assembly are listed. */
  ghost predicate Listed(st: State) {
    && (forall cid | cid in st.order :: cid in st.calls)
    && (forall cid | cid in st.calls :: cid in st.order)
    && forall i, j | 0 <= i < j < |st.order| :: st.order[i] != st.order[j]
  }

  lemma {:induction false} StepKeepsListed(st: State, ev: Event)
    requires Listed(st)
    ensures Listed(Step(st, ev))
  {
  }

  lemma {:induction false} FoldKeepsListed(st: State, events: seq<Event>)
    requires Listed(st)
    ensures Listed(Fold(st, events))
    decreases |events|
  {
    if events != [] {
      StepKeepsListed(st, events[0]);
      FoldKeepsListed(Step(st, events[0]), events[1..]);
    }
  }

  function TextParts(text: string): seq<Part> {
    if text == "" then [] else [TextPart(text)]
  }

  function Finish(parse: string -> Option<Value>, st: State): Response
    requires forall cid | cid in st.order :: cid in st.calls
  {
    Response(st.text, TextParts(st.text) + CallParts(parse, st.calls, st.order),
             st.usage.(total := Or(st.usage.total, st.usage.input + st.usage.output)))
  }

  function Drained(parse: string -> Option<Value>, events: seq<Event>): Response {
    FoldKeepsListed(EMPTY, events);
    Finish(parse, Fold(EMPTY, events))
  }

  // -------------------------------------------------------------- drain_stream

  /** The part of the loop body that handles the tool-call events. */
  method TakeCallEvent(ordered: seq<string>, calls: map<string, Partial>, cid: string, ev: Event)
    returns (ordered': seq<string>, calls': map<string, Partial>)
    requires ev.Start? || ev.ArgsDelta? || ev.Complete?
    ensures ordered' == if cid in calls then ordered else ordered + [cid]
    ensures calls' == calls[cid := Touch(Lookup(calls, cid), ev)]
  {
    ordered', calls' := ordered, calls;
    var known := cid in calls;
    if !known {
      ordered' := ordered + [cid];
    }
    match ev {
      case Start(_, name, sig) =>
        if !known {
          calls' := calls[cid := Partial(name, "", None, sig)];
        } else if Truthy(name) && !Truthy(calls[cid].name) {
          calls' := calls[cid := calls[cid].(name := name)];
        } else {
          assert calls[cid := calls[cid]] == calls;
        }
      case ArgsDelta(_, name, sig, text) =>
        var p := if known then calls[cid] else Partial(name, "", None, sig);
        p := p.(text := p.text + text);
        if Truthy(name) && !Truthy(p.name) {
          p := p.(name := name);
        }
        calls' := calls[cid := p];
      case Complete(_, name, sig, args) =>
        if !known {
          calls' := calls[cid := Partial(name, "", Some(if args.Some? then args.value else map[]), sig)];
        } else {
          var p := calls[cid];
          if args.Some? {
            p := p.(args := args);
          }
          if Truthy(name) {
            p := p.(name := name);
          }
          if Truthy(sig) {
            p := p.(signature := sig);
          }
          calls' := calls[cid := p];
        }
    }
  }

  method AssembleCalls(parse: string -> Option<Value>, ordered: seq<string>, calls: map<string, Partial>)
    returns (parts: seq<Part>)
    requires forall cid | cid in ordered :: cid in calls
    ensures parts == CallParts(parse, calls, ordered)
  {
    parts := [];
    for i := 0 to |ordered|
      invariant parts == CallParts(parse, calls, ordered)[..i]
    {
      var p := calls[ordered[i]];
      parts := parts + [CallPart(Some(ordered[i]), p.name, Some(FinalArgs(parse, p)), p.signature)];
    }
  }

  method DrainStream(parse: string -> Option<Value>, events: seq<Event>) returns (r: Response)
    ensures r == Drained(parse, events)
  {
    var textBuf: seq<string>, ordered: seq<string>, calls: map<string, Partial> := [], [], map[];
    var usage := NO_USAGE;
    for i := 0 to |events|
      invariant Fold(State(Concat(textBuf), ordered, calls, usage), events[i..]) == Fold(EMPTY, events)
    {
      var ev := events[i];
      FoldNext(State(Concat(textBuf), ordered, calls, usage), events, i);
      match ev {
        case TextDelta(text) =>
          ConcatSnoc(textBuf, text);
          assert Concat(textBuf) + "" == Concat(textBuf);
          if text != "" {
            textBuf := textBuf + [text];
          }
        case ArgsDelta(id, _, _, _) =>
          if id.Some? {
            ordered, calls := TakeCallEvent(ordered, calls, id.value, ev);
          } else if ordered != [] {
            ordered, calls := TakeCallEvent(ordered, calls, ordered[|ordered| - 1], ev);
          }
        case UsageEvent(u) => usage := AddUsage(usage, u);
        case Signal =>
        case _ =>
          var cid := if Truthy(ev.id) then ev.id.value else "call_" + Decimal(|ordered|);
          ordered, calls := TakeCallEvent(ordered, calls, cid, ev);
      }
    }
    FoldKeepsListed(EMPTY, events);
    var text := Concat(textBuf);
    var parts := AssembleCalls(parse, ordered, calls);
    r := Response(text, (if text != "" then [TextPart(text)] else []) + parts,
                  usage.(total := Or(usage.total, usage.input + usage.output)));
  }

  lemma {:induction false} FoldNext(st: State, events: seq<Event>, i: nat)
    requires i < |events|
    ensures Fold(st, events[i..]) == Fold(Step(st, events[i]), events[i + 1..])
  {
    assert events[i..][0] == events[i] && events[i..][1..] == events[i + 1..];
  }

  // ------------------------------------------------------- the default stream

  function CallEvents(parts: seq<Part>): seq<Event> {
    if parts == [] then []
    else
      var p := parts[0];
      (if p.CallPart?
       then [Complete(p.id, p.name, p.signature, Some(if p.args.Some? then p.args.value else map[]))]
       else []) + CallEvents(parts[1..])
  }

  function DefaultStream(r: Response): seq<Event> {
    (if r.text != "" then [TextDelta(r.text)] else [])
    + CallEvents(r.parts)
    + [UsageEvent(r.usage.(timings := map[])), Signal]
  }
}
