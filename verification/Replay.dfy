/** Which opaque replay data (thinking blocks, reasoning items, thought signatures) a
    request still carries. */
module Replay {
  import opened Text

  datatype Role = User | Assistant | Tool | System

  datatype PartType = Content | ToolCall | ToolResult

  /** `body` is everything of the part but its type and its replay data. */
  datatype Part = Part(kind: PartType, body: string, signature: Option<string>)

  datatype Message = Message(role: Role, parts: seq<Part>)

  datatype Scope = Nothing | LastToolTurn | CurrentTurn

  predicate AssistantAt(messages: seq<Message>, i: int) {
    0 <= i < |messages| && messages[i].role == Assistant
  }

  predicate HasCall(parts: seq<Part>) {
    exists k | 0 <= k < |parts| :: parts[k].kind == ToolCall
  }

  /** A user message with something other than tool results in it. */
  predicate OpensTurn(messages: seq<Message>, i: int) {
    && 0 <= i < |messages| && messages[i].role == User
    && exists k | 0 <= k < |messages[i].parts| :: messages[i].parts[k].kind != ToolResult
  }

  /** Message `i` keeps its replay data: under `CurrentTurn` no turn that was answered was
      opened after it, under `LastToolTurn` it is the last assistant message and made calls. */
  ghost predicate Kept(messages: seq<Message>, scope: Scope, i: int) {
    && AssistantAt(messages, i)
    && match scope
       case Nothing => false
       case LastToolTurn => HasCall(messages[i].parts) && forall k | AssistantAt(messages, k) :: k <= i
       case CurrentTurn => forall j, k | OpensTurn(messages, j) && AssistantAt(messages, k) && j < k :: j < i
  }

  method ReplayKeepIndices(messages: seq<Message>, scope: Scope) returns (keep: set<int>)
    ensures forall i :: i in keep <==> Kept(messages, scope, i)
  {
    var assistants := set i | 0 <= i < |messages| && AssistantAt(messages, i);
    if scope == Nothing || assistants == {} {
      assert forall i :: AssistantAt(messages, i) ==> i in assistants;
      return {};
    }
    var last := LastAssistant(messages);
    if scope == LastToolTurn {
      return if HasCall(messages[last].parts) then {last} else {};
    }
    var start := -1;
    for index := 0 to last
      invariant -1 <= start < index
      invariant start >= 0 ==> OpensTurn(messages, start)
      invariant forall j | OpensTurn(messages, j) && j < index :: j <= start
    {
      if OpensTurn(messages, index) {
        start := index;
      }
    }
    keep := set i | i in assistants && i > start;
  }

  method LastAssistant(messages: seq<Message>) returns (last: nat)
    requires exists i :: AssistantAt(messages, i)
    ensures AssistantAt(messages, last) && forall k | AssistantAt(messages, k) :: k <= last
  {
    last := |messages| - 1;
    while !AssistantAt(messages, last)
      invariant last < |messages| && forall k | AssistantAt(messages, k) :: k <= last
      decreases last
    {
      assert last > 0;
      last := last - 1;
    }
  }

  function Strip(p: Part, kept: bool): Part {
    if p.signature == Some("") || (kept && p.kind != ToolResult) then p else p.(signature := None)
  }

  ghost function Project(messages: seq<Message>, scope: Scope): seq<Message> {
    seq(|messages|, i requires 0 <= i < |messages| =>
      messages[i].(parts := StripAll(messages[i].parts, Kept(messages, scope, i))))
  }

  function StripAll(parts: seq<Part>, kept: bool): (r: seq<Part>)
    ensures |r| == |parts|
  {
    seq(|parts|, k requires 0 <= k < |parts| => Strip(parts[k], kept))
  }

  method ProjectReplay(messages: seq<Message>, scope: Scope) returns (out: seq<Message>)
    ensures out == Project(messages, scope)
  {
    var keep := ReplayKeepIndices(messages, scope);
    out := [];
    for index := 0 to |messages|
      invariant |out| == index && out == Project(messages, scope)[..index]
    {
      var parts, changed := [], false;
      for k := 0 to |messages[index].parts|
        invariant |parts| == k && parts == StripAll(messages[index].parts, index in keep)[..k]
        invariant !changed ==> parts == messages[index].parts[..k]
      {
        var part := messages[index].parts[k];
        if Truthy(part.signature) && (index !in keep || part.kind == ToolResult) {
          part := part.(signature := None);
          changed := true;
        }
        parts := parts + [part];
      }
      assert parts == StripAll(messages[index].parts, Kept(messages, scope, index));
      assert !changed ==> parts == messages[index].parts;
      out := out + [if changed then messages[index].(parts := parts) else messages[index]];
      assert out[index] == Project(messages, scope)[index];
    }
  }

  // ------------------------------------------------------------------ the laws

  /** Exactly the kept messages keep their replay data, tool results never do, and nothing
      else of any part changes. */
  lemma {:induction false} ProjectionStripsExactly(messages: seq<Message>, scope: Scope)
    ensures var after := Project(messages, scope);
            && |after| == |messages|
            && forall i | 0 <= i < |messages| ::
                 && after[i].role == messages[i].role && |after[i].parts| == |messages[i].parts|
                 && forall k | 0 <= k < |messages[i].parts| ::
                      IsProjected(messages[i].parts[k], after[i].parts[k], Kept(messages, scope, i))
  {
  }

  /** `q` is part `p` of a message that does, or does not, keep its replay data. */
  ghost predicate IsProjected(p: Part, q: Part, kept: bool) {
    && q.kind == p.kind && q.body == p.body
    && (Truthy(q.signature) <==> Truthy(p.signature) && kept && p.kind != ToolResult)
    && q.signature == if Truthy(p.signature) && !Truthy(q.signature) then None else p.signature
  }

  /** Of two scopes the one that keeps less. */
  function Narrower(a: Scope, b: Scope): Scope {
    if a == Nothing || b == Nothing then Nothing
    else if a == LastToolTurn || b == LastToolTurn then LastToolTurn
    else CurrentTurn
  }

  lemma {:induction false} KeptByBoth(messages: seq<Message>, a: Scope, b: Scope, i: int)
    ensures Kept(messages, a, i) && Kept(messages, b, i) <==> Kept(messages, Narrower(a, b), i)
  {}

  /** What decides whether a message is kept survives the projection. */
  lemma {:induction false} ProjectedKept(messages: seq<Message>, a: Scope, b: Scope, i: int)
    ensures Kept(Project(messages, a), b, i) <==> Kept(messages, b, i)
  {
    var after := Project(messages, a);
    forall j
      ensures OpensTurn(after, j) <==> OpensTurn(messages, j)
      ensures AssistantAt(after, j) <==> AssistantAt(messages, j)
      ensures AssistantAt(messages, j) ==> (HasCall(after[j].parts) <==> HasCall(messages[j].parts))
    {
      if 0 <= j < |messages| {
        SameKinds(messages[j].parts, Kept(messages, a, j));
      }
    }
  }

  lemma {:induction false} SameKinds(parts: seq<Part>, kept: bool)
    ensures HasCall(StripAll(parts, kept)) <==> HasCall(parts)
    ensures (exists k | 0 <= k < |parts| :: StripAll(parts, kept)[k].kind != ToolResult)
            <==> (exists k | 0 <= k < |parts| :: parts[k].kind != ToolResult)
  {
    assert forall k | 0 <= k < |parts| :: StripAll(parts, kept)[k].kind == parts[k].kind;
  }

  /** Projecting twice, in either order, is projecting once to the narrower scope; so the
      history itself is never needed again to narrow a request. */
  lemma {:induction false} ProjectionsCompose(messages: seq<Message>, a: Scope, b: Scope)
    ensures Project(Project(messages, a), b) == Project(messages, Narrower(a, b))
  {
    var once := Project(messages, a);
    forall i | 0 <= i < |messages|
      ensures Project(once, b)[i] == Project(messages, Narrower(a, b))[i]
    {
      ProjectedKept(messages, a, b, i);
      KeptByBoth(messages, a, b, i);
      StripTwice(messages[i].parts, Kept(messages, a, i), Kept(messages, b, i));
    }
  }

  lemma {:induction false} StripTwice(parts: seq<Part>, a: bool, b: bool)
    ensures StripAll(StripAll(parts, a), b) == StripAll(parts, a && b)
  {}

  /** A message that was dropped from a request is dropped from every later one. */
  lemma {:induction false} DroppedStaysDropped(a: seq<Message>, b: seq<Message>, scope: Scope, i: int)
    requires i < |a| && Kept(a + b, scope, i)
    ensures Kept(a, scope, i)
  {
    forall j
      ensures AssistantAt(a, j) ==> AssistantAt(a + b, j)
      ensures OpensTurn(a, j) ==> OpensTurn(a + b, j)
    {}
  }

  /** An answered user message ends what came before it, unless it carries tool results
      only: those continue the turn. */
  lemma {:induction false} TurnEndsIff(a: seq<Message>, m: Message, n: Message, i: int)
    requires m.role == User && n.role == Assistant && 0 <= i < |a|
    ensures Kept(a + [m, n], CurrentTurn, i)
            <==> Kept(a + [n], CurrentTurn, i) && forall k | 0 <= k < |m.parts| :: m.parts[k].kind == ToolResult
  {
    var with, without := a + [m, n], a + [n];
    forall j | 0 <= j < |a|
      ensures AssistantAt(with, j) <==> AssistantAt(without, j)
      ensures OpensTurn(with, j) <==> OpensTurn(without, j)
    {
      assert with[j] == without[j];
    }
    assert with[|a|] == m && with[|a| + 1] == n && without[|a|] == n;
    if Kept(with, CurrentTurn, i) {
      if k :| 0 <= k < |m.parts| && m.parts[k].kind != ToolResult {
        assert OpensTurn(with, |a|) && AssistantAt(with, |a| + 1);
      }
      LaterKept(a, m, n, i);
    } else if Kept(without, CurrentTurn, i) {
      if forall k | 0 <= k < |m.parts| :: m.parts[k].kind == ToolResult {
        EarlierKept(a, m, n, i);
      }
    }
  }

  lemma {:induction false} LaterKept(a: seq<Message>, m: Message, n: Message, i: int)
    requires m.role == User && n.role == Assistant && 0 <= i < |a| && Kept(a + [m, n], CurrentTurn, i)
    ensures Kept(a + [n], CurrentTurn, i)
  {
    var with, without := a + [m, n], a + [n];
    forall j, k | OpensTurn(without, j) && AssistantAt(without, k) && j < k
      ensures j < i
    {
      assert without[j] == a[j] == with[j];
      assert OpensTurn(with, j) && AssistantAt(with, |a| + 1);
    }
  }

  lemma {:induction false} EarlierKept(a: seq<Message>, m: Message, n: Message, i: int)
    requires m.role == User && n.role == Assistant && 0 <= i < |a| && Kept(a + [n], CurrentTurn, i)
    requires forall k | 0 <= k < |m.parts| :: m.parts[k].kind == ToolResult
    ensures Kept(a + [m, n], CurrentTurn, i)
  {
    var with, without := a + [m, n], a + [n];
    forall j, k | OpensTurn(with, j) && AssistantAt(with, k) && j < k
      ensures j < i
    {
      assert with[|a|] == m && with[|a| + 1] == n && !OpensTurn(with, |a|);
      if j < |a| {
        assert without[j] == with[j] && OpensTurn(without, j) && AssistantAt(without, |a|);
      }
    }
  }

  /** A kept message stays kept exactly as long as no turn opened after it is answered. */
  lemma {:induction false} KeptUntilNextTurn(a: seq<Message>, b: seq<Message>, i: int)
    requires Kept(a, CurrentTurn, i)
    ensures Kept(a + b, CurrentTurn, i) <==>
            forall j, k | OpensTurn(a + b, j) && AssistantAt(a + b, k) && |a| <= k && j < k :: j < i
  {
    forall j | 0 <= j < |a|
      ensures AssistantAt(a, j) <==> AssistantAt(a + b, j)
      ensures OpensTurn(a, j) <==> OpensTurn(a + b, j)
    {}
  }
}
