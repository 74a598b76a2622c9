/** Tool-call ids in the Chat Completions transcript: missing call ids are generated and
    results without an id are paired, when that is unambiguous. Text and media are not
    part of this model. */
module OpenAI {
  import opened Text

  datatype Role = User | Assistant | System | Tool

  datatype Part =
    | CallPart(id: Option<string>, name: string)
    | ResultPart(id: Option<string>, toolName: Option<string>, payload: string)
    | Content(text: string)

  datatype Message = Message(role: Role, parts: seq<Part>)

  /** What reaches the transcript, in order. `batch` counts the messages that closed the
      previous call batch; `generated` and `repaired` say where the id came from. */
  datatype Entry =
    | Issued(id: string, name: string, generated: bool, batch: nat)
    | Answered(id: string, toolName: Option<string>, payload: string, repaired: bool, batch: nat)

  datatype State = State(out: seq<Entry>, used: set<string>, pending: map<string, string>, batch: nat)

  /** The history as the converter walks it: a message that is not a tool message, a tool
      call of an assistant message with its place, a tool result. */
  datatype Action =
    | Close
    | MakeCall(message: nat, index: nat, id: Option<string>, name: string)
    | TakeResult(id: Option<string>, toolName: Option<string>, payload: string)

  datatype Outcome = Good(state: State) | Unpaired(matches: nat)

  // ------------------------------------------------------------ freshening an id

  function LongIds(used: set<string>, n: nat): set<string> {
    set u | u in used && |u| >= n
  }

  lemma {:induction false} FewerLongIds(used: set<string>, id: string)
    requires id in used
    ensures |LongIds(used, |id| + 1)| < |LongIds(used, |id|)|
  {
    assert id in LongIds(used, |id|) && id !in LongIds(used, |id| + 1);
    SmallerSet(LongIds(used, |id| + 1), LongIds(used, |id|));
  }

  lemma {:induction false} SmallerSet(a: set<string>, b: set<string>)
    requires a < b
    ensures |a| < |b|
  {
    var x :| x in b && x !in a;
    SubsetSize(a, b - {x});
  }

  lemma {:induction false} SubsetSize(a: set<string>, b: set<string>)
    requires a <= b
    ensures |a| <= |b|
  {
    if a != {} {
      var x :| x in a;
      SubsetSize(a - {x}, b - {x});
    }
  }

  /** `while call_id in used_ids: call_id += "_"` ends: fewer used ids are as long. */
  function Freshen(used: set<string>, id: string): (r: string)
    ensures r !in used
    ensures id <= r
    decreases |LongIds(used, |id|)|
  {
    if id in used then
      FewerLongIds(used, id);
      Freshen(used, id + "_")
    else id
  }

  function BaseId(message: nat, index: nat): string {
    "call_mucli_" + Decimal(message) + "_" + Decimal(index)
  }

  // --------------------------------------------------------------- pairing

  /** The unanswered calls of the current batch with this name. */
  function Matches(pending: map<string, string>, name: Option<string>): set<string> {
    set c | c in pending && Some(pending[c]) == name
  }

  lemma {:induction false} Singleton(s: set<string>, x: string)
    requires |s| == 1 && x in s
    ensures s == {x}
  {
    assert |s - {x}| == |s| - 1;
    assert s == {x} + (s - {x});
  }

  ghost function The(s: set<string>): (x: string)
    requires |s| == 1
    ensures s == {x}
  {
    var x :| x in s;
    Singleton(s, x);
    x
  }

  ghost function Step(st: State, a: Action): Outcome {
    match a
    case Close => Good(st.(pending := map[], batch := st.batch + 1))
    case MakeCall(mi, k, id, name) =>
      var cid := if Truthy(id) then id.value else Freshen(st.used, BaseId(mi, k));
      Good(State(st.out + [Issued(cid, name, !Truthy(id), st.batch)], st.used + {cid},
                 st.pending[cid := name], st.batch))
    case TakeResult(id, name, payload) =>
      if Truthy(id) then
        Good(st.(out := st.out + [Answered(id.value, name, payload, false, st.batch)],
                 pending := st.pending - {id.value}))
      else
        var m := Matches(st.pending, name);
        if |m| != 1 then Unpaired(|m|)
        else Good(st.(out := st.out + [Answered(The(m), name, payload, true, st.batch)],
                      pending := st.pending - {The(m)}))
  }

  ghost function Fold(st: State, acts: seq<Action>): Outcome
    decreases |acts|
  {
    if acts == [] then Good(st)
    else
      var r := Step(st, acts[0]);
      if r.Good? then Fold(r.state, acts[1..]) else r
  }

  lemma {:induction false} FoldConcat(st: State, a: seq<Action>, b: seq<Action>)
    ensures Fold(st, a + b) == if Fold(st, a).Good? then Fold(Fold(st, a).state, b) else Fold(st, a)
    decreases |a|
  {
    if a == [] {
      assert a + b == b;
    } else {
      TailOfConcat(a, b);
      var r := Step(st, a[0]);
      if r.Good? {
        FoldConcat(r.state, a[1..], b);
      }
    }
  }

  // ------------------------------------------------------- the history as actions

  function PartActions(role: Role, mi: nat, k: nat, parts: seq<Part>): seq<Action>
    decreases |parts|
  {
    if parts == [] then []
    else
      match parts[0]
      case CallPart(id, name) =>
        if role == Assistant then [MakeCall(mi, k, id, name)] + PartActions(role, mi, k + 1, parts[1..])
        else PartActions(role, mi, k, parts[1..])
      case ResultPart(id, name, payload) =>
        if role == Tool then [TakeResult(id, name, payload)] + PartActions(role, mi, k, parts[1..])
        else PartActions(role, mi, k, parts[1..])
      case _ => PartActions(role, mi, k, parts[1..])
  }

  function MessageActions(mi: nat, m: Message): seq<Action> {
    (if m.role == Tool then [] else [Close]) + PartActions(m.role, mi, 0, m.parts)
  }

  function Actions(mi: nat, messages: seq<Message>): seq<Action>
    decreases |messages|
  {
    if messages == [] then [] else MessageActions(mi, messages[0]) + Actions(mi + 1, messages[1..])
  }

  function PartIds(parts: seq<Part>): set<string> {
    set p | p in parts && !p.Content? && Truthy(p.id) :: p.id.value
  }

  /** Every id that appears anywhere in the history. */
  function ExplicitIds(messages: seq<Message>): set<string> {
    if messages == [] then {} else PartIds(messages[0].parts) + ExplicitIds(messages[1..])
  }

  function Initial(messages: seq<Message>): State {
    State([], ExplicitIds(messages), map[], 0)
  }

  ghost function Convert(messages: seq<Message>): Outcome {
    Fold(Initial(messages), Actions(0, messages))
  }

  // -------------------------------------------------------- _convert_messages

  class Converter {
    var out: seq<Entry>
    var usedIds: set<string>
    var pendingCalls: map<string, string>
    var batch: nat

    function Value(): State
      reads this
    {
      State(out, usedIds, pendingCalls, batch)
    }

    constructor (messages: seq<Message>)
      ensures Value() == Initial(messages)
    {
      out, usedIds, pendingCalls, batch := [], ExplicitIds(messages), map[], 0;
    }

    method AssistantCall(mi: nat, index: nat, id: Option<string>, name: string)
      modifies this
      ensures Good(Value()) == Step(old(Value()), MakeCall(mi, index, id, name))
    {
      var callId;
      if Truthy(id) {
        callId := id.value;
      } else {
        callId := BaseId(mi, index);
        while callId in usedIds
          invariant unchanged(this)
          invariant Freshen(usedIds, callId) == Freshen(usedIds, BaseId(mi, index))
          decreases |LongIds(usedIds, |callId|)|
        {
          FewerLongIds(usedIds, callId);
          callId := callId + "_";
        }
      }
      assert callId == if Truthy(id) then id.value else Freshen(usedIds, BaseId(mi, index));
      usedIds := usedIds + {callId};
      pendingCalls := pendingCalls[callId := name];
      out := out + [Issued(callId, name, !Truthy(id), batch)];
    }

    /** None when the result could be paired, else the number of candidates. */
    method ToolResult(id: Option<string>, name: Option<string>, payload: string) returns (error: Option<nat>)
      modifies this
      ensures Step(old(Value()), TakeResult(id, name, payload))
              == if error.None? then Good(Value()) else Unpaired(error.value)
      ensures error.Some? ==> Value() == old(Value())
    {
      var callId;
      if Truthy(id) {
        callId := id.value;
      } else {
        var matches := set c | c in pendingCalls && Some(pendingCalls[c]) == name;
        assert matches == Matches(pendingCalls, name);
        if |matches| != 1 {
          return Some(|matches|);
        }
        callId :| callId in matches;
        Singleton(matches, callId);
      }
      pendingCalls := pendingCalls - {callId};
      out := out + [Answered(callId, name, payload, !Truthy(id), batch)];
      error := None;
    }

    method ConvertMessage(mi: nat, m: Message) returns (error: Option<nat>)
      modifies this
      ensures Fold(old(Value()), MessageActions(mi, m))
              == if error.None? then Good(Value()) else Unpaired(error.value)
    {
      ghost var start := Value();
      ghost var acts := MessageActions(mi, m);
      if m.role != Tool {
        pendingCalls, batch := map[], batch + 1;
        assert acts[1..] == PartActions(m.role, mi, 0, m.parts);
      } else {
        assert acts == PartActions(m.role, mi, 0, m.parts);
      }
      var calls := 0;
      for i := 0 to |m.parts|
        invariant Fold(Value(), PartActions(m.role, mi, calls, m.parts[i..])) == Fold(start, acts)
      {
        ghost var rest := PartActions(m.role, mi, calls, m.parts[i..]);
        assert m.parts[i..][0] == m.parts[i] && m.parts[i..][1..] == m.parts[i + 1..];
        match m.parts[i] {
          case CallPart(id, name) =>
            if m.role == Assistant {
              assert rest[1..] == PartActions(m.role, mi, calls + 1, m.parts[i + 1..]);
              AssistantCall(mi, calls, id, name);
              calls := calls + 1;
            }
          case ResultPart(id, name, payload) =>
            if m.role == Tool {
              assert rest[1..] == PartActions(m.role, mi, calls, m.parts[i + 1..]);
              error := ToolResult(id, name, payload);
              if error.Some? {
                return;
              }
            }
          case _ =>
        }
      }
      error := None;
    }
  }

  method ConvertMessages(messages: seq<Message>) returns (out: seq<Entry>, error: Option<nat>)
    ensures error.None? <==> Convert(messages).Good?
    ensures error.None? ==> out == Convert(messages).state.out
    ensures error.Some? ==> Convert(messages) == Unpaired(error.value)
  {
    var conv := new Converter(messages);
    for i := 0 to |messages|
      invariant Fold(conv.Value(), Actions(i, messages[i..])) == Convert(messages)
      invariant fresh(conv)
    {
      assert messages[i..][0] == messages[i] && messages[i..][1..] == messages[i + 1..];
      FoldConcat(conv.Value(), MessageActions(i, messages[i]), Actions(i + 1, messages[i + 1..]));
      error := conv.ConvertMessage(i, messages[i]);
      if error.Some? {
        return [], error;
      }
    }
    out, error := conv.out, None;
  }
}
