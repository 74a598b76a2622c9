/** Conversion of a harness history into a Messages API transcript: the data, and the
    conversion as functions on values. The class in AnthropicConverter.dfy computes them. */
module Anthropic {
  import opened Text

  // ------------------------------------------------------------------ history

  datatype Role = User | Assistant | System | Tool | Other

  /** A tool call carries the thinking blocks decoded from its signature; a native part
      (image, media, file) carries the block it converts to, if there is one; a tool
      result carries its text and the blocks of its media. */
  datatype Part =
    | TextPart(text: string)
    | CallPart(name: string, input: string, thinking: seq<string>)
    | ResultPart(name: string, payload: string, media: seq<string>)
    | NativePart(block: Option<string>)

  datatype Message = Message(role: Role, parts: seq<Part>)

  // --------------------------------------------------------------- transcript

  /** The id `mucli_toolu_N` is represented by N. */
  datatype Block =
    | TextBlock(text: string)
    | MediaBlock(data: string)
    | ThinkingBlock(data: string)
    | ToolUse(id: nat, name: string, input: string)
    | ToolResult(id: nat, isError: bool, text: string, media: seq<string>)

  datatype Side = UserSide | AssistantSide

  datatype Turn = Turn(side: Side, content: seq<Block>)

  datatype Call = Call(id: nat, name: string)

  datatype State = State(out: seq<Turn>, counter: nat, pending: seq<Call>)

  const EMPTY := State([], 0, [])

  // ------------------------------------------------------------------ _append

  /** One past the last tool result. */
  function InsertAt(existing: seq<Block>): (n: nat)
    ensures n <= |existing|
  {
    if existing == [] then 0
    else if existing[|existing| - 1].ToolResult? then |existing|
    else InsertAt(existing[..|existing| - 1])
  }

  function Merge(existing: seq<Block>, side: Side, blocks: seq<Block>): seq<Block>
    requires blocks != []
  {
    if side == UserSide && blocks[0].ToolResult? then
      var at := InsertAt(existing);
      existing[..at] + blocks + existing[at..]
    else existing + blocks
  }

  function AppendBlocks(out: seq<Turn>, side: Side, blocks: seq<Block>): seq<Turn> {
    if blocks == [] then out
    else if out != [] && out[|out| - 1].side == side then
      out[..|out| - 1] + [Turn(side, Merge(out[|out| - 1].content, side, blocks))]
    else out + [Turn(side, blocks)]
  }

  // ------------------------------------------------------------ flush_pending

  function Interrupted(c: Call): Block {
    ToolResult(c.id, true, "No result was returned for tool call '" + c.name
                           + "' (the call was interrupted before it completed).", [])
  }

  function InterruptedAll(pending: seq<Call>): (r: seq<Block>)
    ensures |r| == |pending| && forall i | 0 <= i < |r| :: r[i] == Interrupted(pending[i])
  {
    seq(|pending|, i requires 0 <= i < |pending| => Interrupted(pending[i]))
  }

  function Flush(st: State): State {
    State(AppendBlocks(st.out, UserSide, InterruptedAll(st.pending)), st.counter, [])
  }

  // ------------------------------------------------------------ tool messages

  datatype Answer = Answer(pending: seq<Call>, results: seq<Block>, orphans: seq<Block>)

  function MediaBlocks(media: seq<string>): (r: seq<Block>)
    ensures |r| == |media| && forall i | 0 <= i < |r| :: r[i] == MediaBlock(media[i])
  {
    seq(|media|, i requires 0 <= i < |media| => MediaBlock(media[i]))
  }

  /** A result answers the oldest open call; with none open it becomes plain user text. */
  function AnswerPart(a: Answer, p: Part): Answer {
    if !p.ResultPart? then a
    else if a.pending != [] then
      var text := if p.media != [] && p.payload == "" then "(no text output)" else p.payload;
      Answer(a.pending[1..], a.results + [ToolResult(a.pending[0].id, false, text, p.media)], a.orphans)
    else
      var name := if p.name == "" then "tool" else p.name;
      a.(orphans := a.orphans + [TextBlock("[Result of tool '" + name + "']\n" + p.payload)]
                    + MediaBlocks(p.media))
  }

  function AnswerParts(a: Answer, parts: seq<Part>): Answer
    decreases |parts|
  {
    if parts == [] then a else AnswerParts(AnswerPart(a, parts[0]), parts[1..])
  }

  // ------------------------------------------------------- assistant messages

  datatype Calls = Calls(counter: nat, pending: seq<Call>, texts: seq<Block>,
                         leading: seq<Block>, tools: seq<Block>)

  function ThinkingBlocks(thinking: seq<string>): (r: seq<Block>)
    ensures |r| == |thinking| && forall i | 0 <= i < |r| :: r[i] == ThinkingBlock(thinking[i])
  {
    seq(|thinking|, i requires 0 <= i < |thinking| => ThinkingBlock(thinking[i]))
  }

  /** Thinking before the first call leads the turn; later thinking stays next to its call. */
  function CallPartStep(c: Calls, p: Part): Calls {
    match p
    case TextPart(text) =>
      if Blank(text) then c else c.(texts := c.texts + [TextBlock(text)])
    case CallPart(name, input, thinking) =>
      var id := c.counter + 1;
      var blocks := ThinkingBlocks(thinking);
      var leading := if c.tools == [] then c.leading + blocks else c.leading;
      var tools := if c.tools == [] then c.tools else c.tools + blocks;
      Calls(id, c.pending + [Call(id, name)], c.texts, leading, tools + [ToolUse(id, name, input)])
    case _ => c
  }

  function CallParts(c: Calls, parts: seq<Part>): Calls
    decreases |parts|
  {
    if parts == [] then c else CallParts(CallPartStep(c, parts[0]), parts[1..])
  }

  // ------------------------------------------------------------ user messages

  function UserBlock(p: Part): seq<Block> {
    match p
    case TextPart(text) => if Blank(text) then [] else [TextBlock(text)]
    case NativePart(Some(data)) => [MediaBlock(data)]
    case _ => []
  }

  function UserBlocks(parts: seq<Part>): seq<Block> {
    if parts == [] then [] else UserBlocks(parts[..|parts| - 1]) + UserBlock(parts[|parts| - 1])
  }

  // --------------------------------------------------------- _convert_messages

  function Step(st: State, m: Message): State {
    match m.role
    case Tool =>
      var a := AnswerParts(Answer(st.pending, [], []), m.parts);
      State(AppendBlocks(AppendBlocks(st.out, UserSide, a.results), UserSide, a.orphans), st.counter, a.pending)
    case Assistant =>
      var f := Flush(st);
      var c := CallParts(Calls(f.counter, [], [], [], []), m.parts);
      State(AppendBlocks(f.out, AssistantSide, c.leading + c.texts + c.tools), c.counter, c.pending)
    case _ =>
      var f := Flush(st);
      f.(out := AppendBlocks(f.out, UserSide, UserBlocks(m.parts)))
  }

  function Fold(st: State, history: seq<Message>): State
    decreases |history|
  {
    if history == [] then st else Fold(Step(st, history[0]), history[1..])
  }

  /** Flushes the open round and opens with a user turn. */
  function Finish(st: State): seq<Turn> {
    var out := Flush(st).out;
    if out != [] && out[0].side == AssistantSide then
      [Turn(UserSide, [TextBlock("[Earlier conversation context was omitted.]")])] + out
    else out
  }

  /** The latest assistant message keeps its thinking, if it called tools. */
  function LastAssistant(history: seq<Message>): (k: int)
    ensures -1 <= k < |history|
    ensures k >= 0 ==> history[k].role == Assistant
    ensures forall i | k < i < |history| :: history[i].role != Assistant
  {
    if history == [] then -1
    else if history[|history| - 1].role == Assistant then |history| - 1
    else LastAssistant(history[..|history| - 1])
  }

  predicate CallsTools(m: Message) {
    exists p | p in m.parts :: p.CallPart?
  }

  function KeepIndex(history: seq<Message>, replayThinking: bool): (k: int)
    ensures -1 <= k < |history|
  {
    var k := LastAssistant(history);
    if replayThinking && k >= 0 && CallsTools(history[k]) then k else -1
  }

  function DropPartThinking(p: Part): Part {
    if p.CallPart? then p.(thinking := []) else p
  }

  function DropThinking(m: Message): (r: Message)
    ensures |r.parts| == |m.parts|
  {
    m.(parts := seq(|m.parts|, i requires 0 <= i < |m.parts| => DropPartThinking(m.parts[i])))
  }

  /** The history as the request sees it: thinking only at `keep`. */
  function Replayed(history: seq<Message>, keep: int): (r: seq<Message>)
    ensures |r| == |history|
  {
    seq(|history|, i requires 0 <= i < |history| => if i == keep then history[i] else DropThinking(history[i]))
  }

  function Convert(history: seq<Message>, replayThinking: bool): seq<Turn> {
    Finish(Fold(EMPTY, Replayed(history, KeepIndex(history, replayThinking))))
  }

  // --------------------------------------------- thinking is the assistant's only

  lemma {:induction false} DroppedAnswers(a: Answer, parts: seq<Part>, dropped: seq<Part>)
    requires |dropped| == |parts| && forall i | 0 <= i < |parts| :: dropped[i] == DropPartThinking(parts[i])
    ensures AnswerParts(a, dropped) == AnswerParts(a, parts)
    decreases |parts|
  {
    if parts != [] {
      DroppedAnswers(AnswerPart(a, parts[0]), parts[1..], dropped[1..]);
    }
  }

  lemma {:induction false} DroppedUserBlocks(parts: seq<Part>, dropped: seq<Part>)
    requires |dropped| == |parts| && forall i | 0 <= i < |parts| :: dropped[i] == DropPartThinking(parts[i])
    ensures UserBlocks(dropped) == UserBlocks(parts)
  {
    if parts != [] {
      DroppedUserBlocks(parts[..|parts| - 1], dropped[..|parts| - 1]);
    }
  }

  /** Only assistant messages carry thinking, so dropping it changes no other step. */
  lemma {:induction false} DropLeavesStep(st: State, m: Message)
    requires m.role != Assistant
    ensures Step(st, DropThinking(m)) == Step(st, m)
  {
    DroppedAnswers(Answer(st.pending, [], []), m.parts, DropThinking(m).parts);
    DroppedUserBlocks(m.parts, DropThinking(m).parts);
  }
}
