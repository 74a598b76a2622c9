/** The conversion as the provider runs it: one pass over the history that updates the
    transcript, the id counter and the open calls in place. */
module AnthropicConverter {
  import opened Text
  import opened Anthropic
  import opened AnthropicProtocol
  import opened AnthropicReading

  class Conversion {
    var out: seq<Turn>
    var counter: nat
    var pending: seq<Call>

    function Value(): State
      reads this
    {
      State(out, counter, pending)
    }

    constructor ()
      ensures Value() == EMPTY
    {
      out, counter, pending := [], 0, [];
    }

    method Append(side: Side, blocks: seq<Block>)
      modifies this`out
      ensures out == AppendBlocks(old(out), side, blocks)
    {
      if blocks == [] {
        return;
      }
      if out != [] && out[|out| - 1].side == side {
        var existing := out[|out| - 1].content;
        if side == UserSide && blocks[0].ToolResult? {
          var insertAt := 0;
          for pos := 0 to |existing|
            invariant insertAt == InsertAt(existing[..pos])
          {
            assert existing[..pos + 1][..pos] == existing[..pos];
            if existing[pos].ToolResult? {
              insertAt := pos + 1;
            }
          }
          assert existing[..|existing|] == existing;
          existing := existing[..insertAt] + blocks + existing[insertAt..];
        } else {
          existing := existing + blocks;
        }
        out := out[..|out| - 1] + [Turn(side, existing)];
      } else {
        out := out + [Turn(side, blocks)];
      }
    }

    method FlushPending()
      modifies this
      ensures Value() == Flush(old(Value()))
    {
      if pending == [] {
        return;
      }
      var blocks: seq<Block> := [];
      for i := 0 to |pending|
        invariant |blocks| == i && forall k | 0 <= k < i :: blocks[k] == Interrupted(pending[k])
        invariant unchanged(this)
      {
        blocks := blocks + [Interrupted(pending[i])];
      }
      assert blocks == InterruptedAll(pending);
      pending := [];
      Append(UserSide, blocks);
    }

    method ToolMessage(parts: seq<Part>)
      modifies this
      ensures Value() == Step(old(Value()), Message(Tool, parts))
      ensures Inv(old(Value())) ==>
                Items(out) == Items(old(out)) + Adds(old(pending), old(counter), Message(Tool, parts), false)
    {
      var results: seq<Block>, orphans: seq<Block> := [], [];
      ghost var goal := AnswerParts(Answer(pending, [], []), parts);
      for i := 0 to |parts|
        invariant AnswerParts(Answer(pending, results, orphans), parts[i..]) == goal
        invariant out == old(out) && counter == old(counter)
      {
        var part := parts[i];
        assert parts[i..][0] == part && parts[i..][1..] == parts[i + 1..];
        if part.ResultPart? {
          if pending != [] {
            var text := if part.media != [] && part.payload == "" then "(no text output)" else part.payload;
            results := results + [ToolResult(pending[0].id, false, text, part.media)];
            pending := pending[1..];
          } else {
            var name := if part.name == "" then "tool" else part.name;
            orphans := orphans + [TextBlock("[Result of tool '" + name + "']\n" + part.payload)]
                       + MediaBlocks(part.media);
          }
        }
      }
      Append(UserSide, results);
      Append(UserSide, orphans);
      if Inv(old(Value())) {
        ToolIsRead(old(Value()), Message(Tool, parts));
      }
    }

    /** The loop over the parts of an assistant message. */
    method CollectParts(parts: seq<Part>, keepThinking: bool)
      returns (texts: seq<Block>, leading: seq<Block>, tools: seq<Block>)
      modifies this`counter, this`pending
      ensures var seen := if keepThinking then parts else DropThinking(Message(Assistant, parts)).parts;
              Calls(counter, pending, texts, leading, tools)
              == CallParts(Calls(old(counter), old(pending), [], [], []), seen)
    {
      texts, leading, tools := [], [], [];
      ghost var seen := if keepThinking then parts else DropThinking(Message(Assistant, parts)).parts;
      ghost var start := Calls(counter, pending, [], [], []);
      for i := 0 to |parts|
        invariant CallParts(Calls(counter, pending, texts, leading, tools), seen[i..]) == CallParts(start, seen)
      {
        assert seen[i..][0] == seen[i] && seen[i..][1..] == seen[i + 1..];
        match parts[i] {
          case TextPart(text) =>
            if !Blank(text) {
              texts := texts + [TextBlock(text)];
            }
          case CallPart(name, input, thinking) =>
            counter := counter + 1;
            var blocks := ThinkingBlocks(if keepThinking then thinking else []);
            assert leading + [] == leading && tools + [] == tools;
            if blocks != [] {
              if tools != [] {
                tools := tools + blocks;
              } else {
                leading := leading + blocks;
              }
            }
            tools := tools + [ToolUse(counter, name, input)];
            pending := pending + [Call(counter, name)];
          case _ =>
        }
      }
    }

    method AssistantMessage(parts: seq<Part>, keepThinking: bool)
      modifies this
      ensures Value() == var m := Message(Assistant, parts);
                         Step(old(Value()), if keepThinking then m else DropThinking(m))
      ensures Inv(old(Value())) ==>
                var m := Message(Assistant, parts);
                Items(out) == Items(old(out)) + Adds(old(pending), old(counter), m, keepThinking)
    {
      FlushPending();
      var texts, leading, tools := CollectParts(parts, keepThinking);
      Append(AssistantSide, leading + texts + tools);
      if Inv(old(Value())) {
        AssistantIsRead(old(Value()), Message(Assistant, parts), keepThinking);
      }
    }

    method UserMessage(m: Message)
      requires m.role != Tool && m.role != Assistant
      modifies this
      ensures Value() == Step(old(Value()), m)
      ensures Inv(old(Value())) ==> Items(out) == Items(old(out)) + Adds(old(pending), old(counter), m, false)
    {
      FlushPending();
      var blocks: seq<Block> := [];
      for i := 0 to |m.parts|
        invariant blocks == UserBlocks(m.parts[..i])
        invariant Value() == Flush(old(Value()))
      {
        assert m.parts[..i + 1][..i] == m.parts[..i];
        blocks := blocks + UserBlock(m.parts[i]);
      }
      assert m.parts[..|m.parts|] == m.parts;
      Append(UserSide, blocks);
      if Inv(old(Value())) {
        UserIsRead(old(Value()), m);
      }
    }
  }

  method ConvertMessages(history: seq<Message>, replayThinking: bool) returns (result: seq<Turn>)
    ensures result == Convert(history, replayThinking)
    ensures result == Grouped(Reading(history, replayThinking))
  {
    ConversionIsReading(history, replayThinking);
    var keep := KeepIndex(history, replayThinking);
    var conv := new Conversion();
    ghost var seen := Replayed(history, keep);
    for i := 0 to |history|
      invariant Fold(conv.Value(), seen[i..]) == Fold(EMPTY, seen)
      invariant fresh(conv)
    {
      assert seen[i..][0] == seen[i] && seen[i..][1..] == seen[i + 1..];
      var m := history[i];
      match m.role {
        case Tool =>
          DropLeavesStep(conv.Value(), m);
          conv.ToolMessage(m.parts);
        case Assistant =>
          conv.AssistantMessage(m.parts, i == keep);
        case _ =>
          DropLeavesStep(conv.Value(), m);
          conv.UserMessage(m);
      }
    }
    conv.FlushPending();
    result := conv.out;
    if result != [] && result[0].side != UserSide {
      result := [Turn(UserSide, [TextBlock("[Earlier conversation context was omitted.]")])] + result;
    }
  }
}
