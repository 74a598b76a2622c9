/** Replaying thinking changes nothing else of a transcript. */
module AnthropicReplay {
  import opened Text
  import opened Anthropic
  import opened AnthropicProtocol
  import opened AnthropicPrefix

  /** The blocks without thinking. */
  function Bare(bs: seq<Block>): seq<Block> {
    if bs == [] then [] else (if bs[0].ThinkingBlock? then [] else [bs[0]]) + Bare(bs[1..])
  }

  function BareTurns(out: seq<Turn>): (r: seq<Turn>)
    ensures |r| == |out|
  {
    seq(|out|, i requires 0 <= i < |out| => Turn(out[i].side, Bare(out[i].content)))
  }

  lemma {:induction false} BareConcat(a: seq<Block>, b: seq<Block>)
    ensures Bare(a + b) == Bare(a) + Bare(b)
  {
    if a == [] {
      assert a + b == b;
    } else {
      TailOfConcat(a, b);
      BareConcat(a[1..], b);
    }
  }

  lemma {:induction false} BareOfPlain(bs: seq<Block>)
    requires NoThinking(bs)
    ensures Bare(bs) == bs
  {
    if bs != [] {
      assert forall i | 0 <= i < |bs| - 1 :: bs[1..][i] == bs[i + 1];
      BareOfPlain(bs[1..]);
    }
  }

  lemma {:induction false} BareOfThinking(thinking: seq<string>)
    ensures Bare(ThinkingBlocks(thinking)) == []
  {
    if thinking != [] {
      assert ThinkingBlocks(thinking)[1..] == ThinkingBlocks(thinking[1..]);
      BareOfThinking(thinking[1..]);
    }
  }

  lemma {:induction false} BareSnoc(out: seq<Turn>, t: Turn)
    ensures BareTurns(out + [t]) == BareTurns(out) + [Turn(t.side, Bare(t.content))]
  {
  }

  lemma {:induction false} BarePush(out: seq<Turn>, side: Side, blocks: seq<Block>)
    requires Bare(blocks) == [] ==> blocks == []
    ensures BareTurns(Push(out, side, blocks)) == Push(BareTurns(out), side, Bare(blocks))
  {
    if blocks == [] {
    } else if out != [] && out[|out| - 1].side == side {
      var front, t := out[..|out| - 1], out[|out| - 1];
      BareConcat(t.content, blocks);
      assert out == front + [t];
      BareSnoc(front, t);
      BareSnoc(front, Turn(side, t.content + blocks));
    } else {
      BareSnoc(out, Turn(side, blocks));
    }
  }

  // ---------------------------------------------------------- assistant messages

  ghost predicate BareCalls(c: Calls, d: Calls) {
    && c.counter == d.counter && c.pending == d.pending && c.texts == d.texts
    && NoThinking(c.texts)
    && Bare(c.leading) == d.leading == [] && Bare(c.tools) == d.tools
    && (c.tools == [] <==> d.tools == []) && (c.leading != [] ==> c.tools != [])
  }

  lemma {:induction false} BareCallStep(c: Calls, d: Calls, p: Part)
    requires BareCalls(c, d)
    ensures BareCalls(CallPartStep(c, p), CallPartStep(d, DropPartThinking(p)))
  {
    if p.CallPart? {
      var use := ToolUse(c.counter + 1, p.name, p.input);
      BareOfThinking(p.thinking);
      BareOneCall(c.leading, c.tools, ThinkingBlocks(p.thinking), use);
      assert ThinkingBlocks([]) == [] && d.tools + [] == d.tools && d.leading + [] == d.leading;
    }
  }

  lemma {:induction false} BareOneCall(leading: seq<Block>, tools: seq<Block>, t: seq<Block>, use: Block)
    requires Bare(t) == [] && !use.ThinkingBlock?
    ensures Bare(leading + t) == Bare(leading)
    ensures Bare(tools + [use]) == Bare(tools) + [use] && Bare(tools + t + [use]) == Bare(tools) + [use]
  {
    BareConcat(leading, t);
    BareConcat(tools, t);
    BareConcat(tools + t, [use]);
    BareConcat(tools, [use]);
    assert Bare([use]) == [use] by { assert [use][1..] == []; }
    assert Bare(leading) + [] == Bare(leading) && Bare(tools) + [] == Bare(tools);
  }

  lemma {:induction false} BareCallParts(c: Calls, d: Calls, parts: seq<Part>, dropped: seq<Part>)
    requires BareCalls(c, d)
    requires |dropped| == |parts| && forall i | 0 <= i < |parts| :: dropped[i] == DropPartThinking(parts[i])
    ensures BareCalls(CallParts(c, parts), CallParts(d, dropped))
    decreases |parts|
  {
    if parts != [] {
      BareCallStep(c, d, parts[0]);
      BareCallParts(CallPartStep(c, parts[0]), CallPartStep(d, dropped[0]), parts[1..], dropped[1..]);
    }
  }

  lemma {:induction false} BareBlocks(c: Calls, d: Calls)
    requires BareCalls(c, d)
    ensures var blocks := c.leading + c.texts + c.tools;
            && Bare(blocks) == d.leading + d.texts + d.tools
            && (Bare(blocks) == [] ==> blocks == [])
  {
    BareOfPlain(c.texts);
    BareConcat(c.leading, c.texts);
    BareConcat(c.leading + c.texts, c.tools);
  }

  // ------------------------------------------------------------------ every step

  ghost predicate BareState(s: State, t: State) {
    BareTurns(s.out) == t.out && s.counter == t.counter && s.pending == t.pending
  }

  lemma {:induction false} BareResults(bs: seq<Block>)
    requires AllResults(bs)
    ensures Bare(bs) == bs
  {
    BareOfPlain(bs);
  }

  lemma {:induction false} BareFlush(out: seq<Turn>, pending: seq<Call>)
    ensures BareTurns(Push(out, UserSide, InterruptedAll(pending)))
            == Push(BareTurns(out), UserSide, InterruptedAll(pending))
  {
    InterruptedIds(pending);
    BareResults(InterruptedAll(pending));
    BarePush(out, UserSide, InterruptedAll(pending));
  }

  lemma {:induction false} BareAssistant(out: seq<Turn>, counter: nat, m: Message)
    ensures var start := Calls(counter, [], [], [], []);
            var c, d := CallParts(start, m.parts), CallParts(start, DropThinking(m).parts);
            && c.counter == d.counter && c.pending == d.pending
            && BareTurns(Push(out, AssistantSide, c.leading + c.texts + c.tools))
               == Push(BareTurns(out), AssistantSide, d.leading + d.texts + d.tools)
  {
    var start := Calls(counter, [], [], [], []);
    var c, d := CallParts(start, m.parts), CallParts(start, DropThinking(m).parts);
    BareCallParts(start, start, m.parts, DropThinking(m).parts);
    BareBlocks(c, d);
    BarePush(out, AssistantSide, c.leading + c.texts + c.tools);
  }

  lemma {:induction false} BareUser(out: seq<Turn>, parts: seq<Part>)
    ensures BareTurns(Push(out, UserSide, UserBlocks(parts))) == Push(BareTurns(out), UserSide, UserBlocks(parts))
  {
    UserBlocksArePlain(parts);
    BareOfPlain(UserBlocks(parts));
    BarePush(out, UserSide, UserBlocks(parts));
  }

  lemma {:induction false} BareStep(s: State, t: State, m: Message)
    requires Inv(s) && Inv(t) && BareState(s, t)
    ensures BareState(Step(s, m), Step(t, DropThinking(m)))
  {
    StepKeepsInv(s, m);
    StepKeepsInv(t, DropThinking(m));
    BareFlush(s.out, s.pending);
    var flushed := Push(s.out, UserSide, InterruptedAll(s.pending));
    if m.role == Assistant {
      BareAssistant(flushed, s.counter, m);
    } else {
      DropLeavesStep(t, m);
      StepKeepsInv(t, m);
      if m.role == Tool {
        BareTool(s, m.parts);
      } else {
        BareUser(flushed, m.parts);
      }
    }
  }

  lemma {:induction false} BareTool(s: State, parts: seq<Part>)
    requires Inv(s)
    ensures var a := AnswerParts(Answer(s.pending, [], []), parts);
            BareTurns(Push(Push(s.out, UserSide, a.results), UserSide, a.orphans))
            == Push(Push(BareTurns(s.out), UserSide, a.results), UserSide, a.orphans)
  {
    var a := AnswerParts(Answer(s.pending, [], []), parts);
    assert ResultIds([]) + CallIds(s.pending) == CallIds(s.pending);
    AnswersOk(Answer(s.pending, [], []), parts, CallIds(s.pending));
    BareResults(a.results);
    BareOfPlain(a.orphans);
    BarePush(s.out, UserSide, a.results);
    BarePush(Push(s.out, UserSide, a.results), UserSide, a.orphans);
  }

  lemma {:induction false} BareFold(s: State, t: State, h: seq<Message>, dropped: seq<Message>)
    requires Inv(s) && Inv(t) && BareState(s, t)
    requires |dropped| == |h| && forall i | 0 <= i < |h| :: dropped[i] == DropThinking(h[i])
    ensures BareState(Fold(s, h), Fold(t, dropped))
    ensures Inv(Fold(s, h)) && Inv(Fold(t, dropped))
    decreases |h|
  {
    if h != [] {
      BareStep(s, t, h[0]);
      StepKeepsInv(s, h[0]);
      StepKeepsInv(t, dropped[0]);
      BareFold(Step(s, h[0]), Step(t, dropped[0]), h[1..], dropped[1..]);
    }
  }

  lemma {:induction false} BareFinish(s: State, t: State)
    requires Inv(s) && Inv(t) && BareState(s, t)
    ensures BareTurns(Finish(s)) == Finish(t)
  {
    FinishIsOpened(s);
    FinishIsOpened(t);
    InterruptedIds(s.pending);
    BareResults(InterruptedAll(s.pending));
    var blocks := InterruptedAll(s.pending);
    BarePush(s.out, UserSide, blocks);
    BareOfPlain(OPENING.content);
    BareOpened(Push(s.out, UserSide, blocks));
  }

  lemma {:induction false} BareOpened(out: seq<Turn>)
    requires Bare(OPENING.content) == OPENING.content
    ensures BareTurns(Opened(out)) == Opened(BareTurns(out))
  {
  }

  lemma {:induction false} DropTwice(m: Message)
    ensures DropThinking(DropThinking(m)) == DropThinking(m)
  {
  }

  /** With replay the transcript is the one without replay plus thinking blocks: ids,
      turns, text, calls and results are the same. */
  lemma {:induction false} ReplayOnlyAddsThinking(h: seq<Message>)
    ensures BareTurns(Convert(h, true)) == Convert(h, false)
  {
    var kept, none := Replayed(h, KeepIndex(h, true)), Replayed(h, -1);
    forall i | 0 <= i < |h|
      ensures none[i] == DropThinking(kept[i])
    {
      DropTwice(h[i]);
    }
    assert Inv(EMPTY) && BareState(EMPTY, EMPTY);
    BareFold(EMPTY, EMPTY, kept, none);
    BareFinish(Fold(EMPTY, kept), Fold(EMPTY, none));
  }
}
