/** What a transcript says, read off the history: every block with its side, its value and
    its place, message by message. The conversion is exactly that reading. */
module AnthropicReading {
  import opened Text
  import opened Anthropic
  import opened AnthropicProtocol
  import opened AnthropicPrefix

  datatype Item = Item(side: Side, block: Block)

  function Marked(side: Side, blocks: seq<Block>): (r: seq<Item>)
    ensures |r| == |blocks|
  {
    seq(|blocks|, i requires 0 <= i < |blocks| => Item(side, blocks[i]))
  }

  /** The blocks of a transcript, each with the side of its turn. */
  function Items(out: seq<Turn>): seq<Item> {
    if out == [] then []
    else
      var t := out[|out| - 1];
      Items(out[..|out| - 1]) + Marked(t.side, t.content)
  }

  // --------------------------------------------------------- reading a message

  predicate IsText(p: Part) {
    p.TextPart? && !Blank(p.text)
  }

  predicate IsCall(p: Part) {
    p.CallPart?
  }

  predicate IsResult(p: Part) {
    p.ResultPart?
  }

  predicate IsShown(p: Part) {
    IsText(p) || (p.NativePart? && p.block.Some?)
  }

  /** The parts that pass a test, in order. */
  function Those(parts: seq<Part>, test: Part -> bool): (r: seq<Part>)
    ensures forall i | 0 <= i < |r| :: test(r[i])
  {
    if parts == [] then []
    else
      var p := parts[|parts| - 1];
      Those(parts[..|parts| - 1], test) + if test(p) then [p] else []
  }

  function TextsOf(parts: seq<Part>): (r: seq<Block>)
    ensures var texts := Those(parts, IsText);
            |r| == |texts| && forall i | 0 <= i < |r| :: r[i] == TextBlock(texts[i].text)
  {
    var texts := Those(parts, IsText);
    seq(|texts|, i requires 0 <= i < |texts| => TextBlock(texts[i].text))
  }

  /** A user or system message: its texts and its native blocks. */
  function Shown(parts: seq<Part>): (r: seq<Block>)
    ensures |r| == |Those(parts, IsShown)|
  {
    var shown := Those(parts, IsShown);
    seq(|shown|, i requires 0 <= i < |shown| =>
      if shown[i].TextPart? then TextBlock(shown[i].text) else MediaBlock(shown[i].block.value))
  }

  /** Thinking, if the message keeps it. */
  function Thoughts(p: Part, kept: bool): seq<Block>
    requires p.CallPart?
  {
    if kept then seq(|p.thinking|, i requires 0 <= i < |p.thinking| => ThinkingBlock(p.thinking[i])) else []
  }

  /** Calls are numbered on from `base`; thinking stands before its call. */
  function Used(calls: seq<Part>, base: nat, kept: bool): seq<Block>
    requires forall i | 0 <= i < |calls| :: calls[i].CallPart?
  {
    if calls == [] then []
    else
      var n := |calls| - 1;
      Used(calls[..n], base, kept) + (if n == 0 then [] else Thoughts(calls[n], kept))
      + [ToolUse(base + n + 1, calls[n].name, calls[n].input)]
  }

  /** An assistant message: the thinking of its first call, its texts, its calls. */
  function Spoken(parts: seq<Part>, base: nat, kept: bool): seq<Block> {
    var calls := Those(parts, IsCall);
    (if calls == [] then [] else Thoughts(calls[0], kept)) + TextsOf(parts) + Used(calls, base, kept)
  }

  function Awaited(calls: seq<Part>, base: nat): (r: seq<Call>)
    requires forall i | 0 <= i < |calls| :: calls[i].CallPart?
    ensures |r| == |calls| && forall i | 0 <= i < |r| :: r[i] == Call(base + i + 1, calls[i].name)
  {
    seq(|calls|, i requires 0 <= i < |calls| => Call(base + i + 1, calls[i].name))
  }

  function Fewer(a: nat, b: nat): nat {
    if a < b then a else b
  }

  /** The k-th result answers the k-th open call. */
  function Answered(open: seq<Call>, given: seq<Part>): (r: seq<Block>)
    requires forall i | 0 <= i < |given| :: given[i].ResultPart?
    ensures |r| == Fewer(|open|, |given|)
  {
    seq(Fewer(|open|, |given|), i requires 0 <= i < Fewer(|open|, |given|) =>
      var p := given[i];
      var text := if p.payload == "" && p.media != [] then "(no text output)" else p.payload;
      ToolResult(open[i].id, false, text, p.media))
  }

  /** A result that finds no open call is told as text, with its media behind it. */
  function Told(given: seq<Part>): seq<Block>
    requires forall i | 0 <= i < |given| :: given[i].ResultPart?
  {
    if given == [] then []
    else
      var p := given[|given| - 1];
      Told(given[..|given| - 1])
      + [TextBlock("[Result of tool '" + (if p.name != "" then p.name else "tool") + "']\n" + p.payload)]
      + seq(|p.media|, i requires 0 <= i < |p.media| => MediaBlock(p.media[i]))
  }

  /** An error result for every call that nobody answered. */
  function Missing(open: seq<Call>): (r: seq<Block>)
    ensures |r| == |open|
  {
    seq(|open|, i requires 0 <= i < |open| =>
      ToolResult(open[i].id, true,
                 "No result was returned for tool call '" + open[i].name
                 + "' (the call was interrupted before it completed).", []))
  }

  // --------------------------------------------------------- reading a history

  function CallCount(h: seq<Message>): nat {
    if h == [] then 0
    else
      var m := h[|h| - 1];
      CallCount(h[..|h| - 1]) + if m.role == Assistant then |Those(m.parts, IsCall)| else 0
  }

  /** The calls of the last message that is no tool message, less those answered since. */
  function Open(h: seq<Message>): seq<Call> {
    if h == [] then []
    else
      var init, m := h[..|h| - 1], h[|h| - 1];
      match m.role
      case Assistant => Awaited(Those(m.parts, IsCall), CallCount(init))
      case Tool => Open(init)[Fewer(|Open(init)|, |Those(m.parts, IsResult)|)..]
      case _ => []
  }

  /** Message `i` keeps its thinking: replay is on, it called a tool, and no assistant
      message follows. */
  ghost predicate Keeps(h: seq<Message>, replayThinking: bool, i: int) {
    && replayThinking && 0 <= i < |h| && h[i].role == Assistant
    && (exists k | 0 <= k < |h[i].parts| :: h[i].parts[k].CallPart?)
    && forall j | i < j < |h| :: h[j].role != Assistant
  }

  /** What a message adds while the calls `open` are unanswered and `counter` were made. */
  function Adds(open: seq<Call>, counter: nat, m: Message, kept: bool): seq<Item> {
    match m.role
    case Assistant => Marked(UserSide, Missing(open)) + Marked(AssistantSide, Spoken(m.parts, counter, kept))
    case Tool =>
      var given := Those(m.parts, IsResult);
      Marked(UserSide, Answered(open, given) + Told(given[Fewer(|open|, |given|)..]))
    case _ => Marked(UserSide, Missing(open) + Shown(m.parts))
  }

  /** The first `n` messages, read in order. */
  ghost function Said(h: seq<Message>, replayThinking: bool, n: nat): seq<Item>
    requires n <= |h|
  {
    if n == 0 then []
    else var before := h[..n - 1];
      Said(h, replayThinking, n - 1)
      + Adds(Open(before), CallCount(before), h[n - 1], Keeps(h, replayThinking, n - 1))
  }

  /** The whole history, with placeholders for the calls still open, behind an opening text
      if the assistant would speak first. */
  ghost function Reading(h: seq<Message>, replayThinking: bool): seq<Item> {
    var all := Said(h, replayThinking, |h|) + Marked(UserSide, Missing(Open(h)));
    if all != [] && all[0].side == AssistantSide then
      [Item(UserSide, TextBlock("[Earlier conversation context was omitted.]"))] + all
    else all
  }

  // ------------------------------------------------------------------- turns

  /** Neighbours on one side share a turn. */
  function Grouped(items: seq<Item>): seq<Turn> {
    if items == [] then []
    else
      var front, it := Grouped(items[..|items| - 1]), items[|items| - 1];
      if front != [] && front[|front| - 1].side == it.side then
        front[..|front| - 1] + [Turn(it.side, front[|front| - 1].content + [it.block])]
      else front + [Turn(it.side, [it.block])]
  }

  lemma {:induction false} MarkedConcat(side: Side, a: seq<Block>, b: seq<Block>)
    ensures Marked(side, a + b) == Marked(side, a) + Marked(side, b)
  {
  }

  lemma {:induction false} ItemsSnoc(out: seq<Turn>, t: Turn)
    ensures Items(out + [t]) == Items(out) + Marked(t.side, t.content)
  {
    assert (out + [t])[..|out|] == out;
  }

  lemma {:induction false} ItemsPush(out: seq<Turn>, side: Side, blocks: seq<Block>)
    ensures Items(Push(out, side, blocks)) == Items(out) + Marked(side, blocks)
  {
    if blocks == [] {
      assert Items(out) + [] == Items(out);
    } else if out != [] && out[|out| - 1].side == side {
      var front, t := out[..|out| - 1], out[|out| - 1];
      ItemsSnoc(front, t);
      ItemsSnoc(front, Turn(side, t.content + blocks));
      assert out == front + [t];
      MarkedConcat(side, t.content, blocks);
      AppendAssoc(Items(front), Marked(side, t.content), Marked(side, blocks));
    } else {
      ItemsSnoc(out, Turn(side, blocks));
    }
  }

  lemma {:induction false} GroupedSnoc(items: seq<Item>, it: Item)
    ensures Grouped(items + [it]) == Push(Grouped(items), it.side, [it.block])
  {
    assert (items + [it])[..|items|] == items;
  }

  lemma {:induction false} PushMore(out: seq<Turn>, side: Side, blocks: seq<Block>, b: Block)
    requires blocks != []
    ensures Push(Push(out, side, blocks), side, [b]) == Push(out, side, blocks + [b])
  {
    if out != [] && out[|out| - 1].side == side {
      AppendAssoc(out[|out| - 1].content, blocks, [b]);
    }
  }

  lemma {:induction false} GroupedMarked(items: seq<Item>, side: Side, blocks: seq<Block>)
    ensures Grouped(items + Marked(side, blocks)) == Push(Grouped(items), side, blocks)
    decreases |blocks|
  {
    if blocks == [] {
      assert items + [] == items;
    } else {
      var init, b := blocks[..|blocks| - 1], blocks[|blocks| - 1];
      GroupedMarked(items, side, init);
      MarkedSnoc(items, side, blocks);
      GroupedSnoc(items + Marked(side, init), Item(side, b));
      PushSnoc(Grouped(items), side, blocks);
    }
  }

  lemma {:induction false} MarkedSnoc(items: seq<Item>, side: Side, blocks: seq<Block>)
    requires blocks != []
    ensures var init, b := blocks[..|blocks| - 1], blocks[|blocks| - 1];
            items + Marked(side, blocks) == items + Marked(side, init) + [Item(side, b)]
  {
  }

  lemma {:induction false} PushSnoc(out: seq<Turn>, side: Side, blocks: seq<Block>)
    requires blocks != []
    ensures var init, b := blocks[..|blocks| - 1], blocks[|blocks| - 1];
            Push(Push(out, side, init), side, [b]) == Push(out, side, blocks)
  {
    var init, b := blocks[..|blocks| - 1], blocks[|blocks| - 1];
    assert blocks == init + [b];
    if init != [] {
      PushMore(out, side, init, b);
    }
  }

  /** A transcript whose turns alternate is determined by its items. */
  lemma {:induction false} ItemsDetermine(out: seq<Turn>)
    requires Alternates(out) && forall i | 0 <= i < |out| :: out[i].content != []
    ensures Grouped(Items(out)) == out
  {
    if out != [] {
      var front, t := out[..|out| - 1], out[|out| - 1];
      ItemsDetermine(front);
      GroupedMarked(Items(front), t.side, t.content);
      assert out == front + [t];
    }
  }

  // -------------------------------------------------- the folds, part by part

  lemma {:induction false} CallPartsSnoc(c: Calls, parts: seq<Part>, p: Part)
    ensures CallParts(c, parts + [p]) == CallPartStep(CallParts(c, parts), p)
    decreases |parts|
  {
    if parts == [] {
      assert (parts + [p])[1..] == [];
    } else {
      TailOfConcat(parts, [p]);
      CallPartsSnoc(CallPartStep(c, parts[0]), parts[1..], p);
    }
  }

  lemma {:induction false} AnswerPartsSnoc(a: Answer, parts: seq<Part>, p: Part)
    ensures AnswerParts(a, parts + [p]) == AnswerPart(AnswerParts(a, parts), p)
    decreases |parts|
  {
    if parts == [] {
      assert (parts + [p])[1..] == [];
    } else {
      TailOfConcat(parts, [p]);
      AnswerPartsSnoc(AnswerPart(a, parts[0]), parts[1..], p);
    }
  }

  lemma {:induction false} ThoseSnoc(parts: seq<Part>, test: Part -> bool)
    requires parts != []
    ensures var p := parts[|parts| - 1];
            Those(parts, test) == if test(p) then Those(parts[..|parts| - 1], test) + [p]
                                  else Those(parts[..|parts| - 1], test)
  {
  }

  lemma {:induction false} UserBlocksAreShown(parts: seq<Part>)
    ensures UserBlocks(parts) == Shown(parts)
  {
    if parts != [] {
      UserBlocksAreShown(parts[..|parts| - 1]);
      ShownSnoc(parts);
    }
  }

  lemma {:induction false} ShownSnoc(parts: seq<Part>)
    requires parts != []
    ensures Shown(parts) == Shown(parts[..|parts| - 1]) + UserBlock(parts[|parts| - 1])
  {
    var init, p := parts[..|parts| - 1], parts[|parts| - 1];
    ThoseSnoc(parts, IsShown);
    if IsShown(p) {
      assert Those(parts, IsShown) == Those(init, IsShown) + [p];
      assert UserBlock(p) == [if p.TextPart? then TextBlock(p.text) else MediaBlock(p.block.value)];
    } else {
      assert UserBlock(p) == [] && Shown(init) + [] == Shown(init);
    }
  }

  /** The state of the fold over the parts of an assistant message. */
  ghost predicate CallsRead(c: Calls, parts: seq<Part>, base: nat) {
    var calls := Those(parts, IsCall);
    && c.counter == base + |calls| && c.pending == Awaited(calls, base) && c.texts == TextsOf(parts)
    && c.leading == (if calls == [] then [] else Thoughts(calls[0], true))
    && c.tools == Used(calls, base, true)
  }

  lemma {:induction false} CallsAreRead(parts: seq<Part>, base: nat)
    ensures CallsRead(CallParts(Calls(base, [], [], [], []), parts), parts, base)
  {
    if parts != [] {
      var init, p := parts[..|parts| - 1], parts[|parts| - 1];
      assert parts == init + [p];
      CallsAreRead(init, base);
      CallPartsSnoc(Calls(base, [], [], [], []), init, p);
      ThoseSnoc(parts, IsCall);
      ThoseSnoc(parts, IsText);
      CallReadNext(CallParts(Calls(base, [], [], [], []), init), init, p, base);
    }
  }

  lemma {:induction false} CallReadNext(c: Calls, init: seq<Part>, p: Part, base: nat)
    requires CallsRead(c, init, base)
    ensures CallsRead(CallPartStep(c, p), init + [p], base)
  {
    var parts := init + [p];
    assert parts[..|parts| - 1] == init;
    TextsSnoc(parts);
    ThoseSnoc(parts, IsCall);
    if p.CallPart? {
      CallIsNext(c, Those(init, IsCall), p, base);
    }
  }

  lemma {:induction false} TextsSnoc(parts: seq<Part>)
    requires parts != []
    ensures var init, p := parts[..|parts| - 1], parts[|parts| - 1];
            TextsOf(parts) == if IsText(p) then TextsOf(init) + [TextBlock(p.text)] else TextsOf(init)
  {
    ThoseSnoc(parts, IsText);
  }

  lemma {:induction false} CallIsNext(c: Calls, calls: seq<Part>, p: Part, base: nat)
    requires p.CallPart? && forall i | 0 <= i < |calls| :: calls[i].CallPart?
    requires c.counter == base + |calls| && c.pending == Awaited(calls, base)
    requires c.leading == (if calls == [] then [] else Thoughts(calls[0], true))
    requires c.tools == Used(calls, base, true)
    ensures var d, more := CallPartStep(c, p), calls + [p];
            && d.counter == base + |more| && d.pending == Awaited(more, base) && d.texts == c.texts
            && d.leading == Thoughts(more[0], true) && d.tools == Used(more, base, true)
  {
    var more := calls + [p];
    assert more[..|more| - 1] == calls;
    assert ThinkingBlocks(p.thinking) == Thoughts(p, true);
  }

  /** Without its thinking a message reads as one that does not keep it. */
  lemma {:induction false} DroppedIsRead(m: Message, base: nat)
    ensures Spoken(DropThinking(m).parts, base, true) == Spoken(m.parts, base, false)
    ensures Awaited(Those(DropThinking(m).parts, IsCall), base) == Awaited(Those(m.parts, IsCall), base)
  {
    var parts, dropped := m.parts, DropThinking(m).parts;
    ThoseDropped(parts, dropped);
    UsedDropped(Those(parts, IsCall), Those(dropped, IsCall), base);
  }

  lemma {:induction false} ThoseDropped(parts: seq<Part>, dropped: seq<Part>)
    requires |dropped| == |parts| && forall i | 0 <= i < |parts| :: dropped[i] == DropPartThinking(parts[i])
    ensures Those(dropped, IsText) == Those(parts, IsText)
    ensures var c, d := Those(parts, IsCall), Those(dropped, IsCall);
            |d| == |c| && forall i | 0 <= i < |c| :: d[i] == DropPartThinking(c[i])
  {
    if parts != [] {
      ThoseDropped(parts[..|parts| - 1], dropped[..|parts| - 1]);
    }
  }

  lemma {:induction false} UsedDropped(c: seq<Part>, d: seq<Part>, base: nat)
    requires |d| == |c| && forall i | 0 <= i < |c| :: c[i].CallPart? && d[i] == DropPartThinking(c[i])
    ensures forall i | 0 <= i < |d| :: d[i].CallPart?
    ensures Used(d, base, true) == Used(c, base, false)
  {
    if c != [] {
      UsedDropped(c[..|c| - 1], d[..|c| - 1], base);
    }
  }

  /** The state of the fold over the parts of a tool message. */
  ghost predicate AnswerRead(a: Answer, parts: seq<Part>, open: seq<Call>) {
    var given := Those(parts, IsResult);
    var n := Fewer(|open|, |given|);
    a.pending == open[n..] && a.results == Answered(open, given) && a.orphans == Told(given[n..])
  }

  lemma {:induction false} AnswersAreRead(parts: seq<Part>, open: seq<Call>)
    ensures AnswerRead(AnswerParts(Answer(open, [], []), parts), parts, open)
  {
    if parts != [] {
      var init, p := parts[..|parts| - 1], parts[|parts| - 1];
      assert parts == init + [p];
      AnswersAreRead(init, open);
      AnswerPartsSnoc(Answer(open, [], []), init, p);
      AnswerReadNext(AnswerParts(Answer(open, [], []), init), init, p, open);
    }
  }

  lemma {:induction false} AnswerReadNext(a: Answer, init: seq<Part>, p: Part, open: seq<Call>)
    requires AnswerRead(a, init, open)
    ensures AnswerRead(AnswerPart(a, p), init + [p], open)
  {
    var parts, given := init + [p], Those(init, IsResult);
    assert parts[..|parts| - 1] == init;
    ThoseSnoc(parts, IsResult);
    if !p.ResultPart? {
      assert Those(parts, IsResult) == given;
    } else {
      assert Those(parts, IsResult) == given + [p];
      if |given| < |open| {
        AnswerIsNext(a, given, p, open);
      } else {
        OrphanIsNext(a, given, p, open);
      }
    }
  }

  lemma {:induction false} AnswerIsNext(a: Answer, given: seq<Part>, p: Part, open: seq<Call>)
    requires p.ResultPart? && (forall i | 0 <= i < |given| :: given[i].ResultPart?) && |given| < |open|
    requires a.pending == open[|given|..] && a.results == Answered(open, given) && a.orphans == Told([])
    ensures var b, more := AnswerPart(a, p), given + [p];
            && b.pending == open[|more|..] && b.results == Answered(open, more)
            && b.orphans == Told(more[|more|..])
  {
    assert (given + [p])[|given| + 1..] == [];
  }

  lemma {:induction false} OrphanIsNext(a: Answer, given: seq<Part>, p: Part, open: seq<Call>)
    requires p.ResultPart? && (forall i | 0 <= i < |given| :: given[i].ResultPart?) && |given| >= |open|
    requires a.pending == [] && a.results == Answered(open, given) && a.orphans == Told(given[|open|..])
    ensures var b, more := AnswerPart(a, p), given + [p];
            b.pending == [] && b.results == Answered(open, more) && b.orphans == Told(more[|open|..])
  {
    OrphanRead(given, p, |open|);
    assert Answered(open, given + [p]) == Answered(open, given);
    AppendAssoc(Told(given[|open|..]),
                [TextBlock("[Result of tool '" + (if p.name == "" then "tool" else p.name) + "']\n" + p.payload)],
                MediaBlocks(p.media));
  }

  lemma {:induction false} OrphanRead(given: seq<Part>, p: Part, n: nat)
    requires n <= |given| && p.ResultPart? && forall i | 0 <= i < |given| :: given[i].ResultPart?
    ensures var name := if p.name == "" then "tool" else p.name;
            Told((given + [p])[n..])
            == Told(given[n..]) + [TextBlock("[Result of tool '" + name + "']\n" + p.payload)] + MediaBlocks(p.media)
  {
    var rest := (given + [p])[n..];
    assert rest[..|rest| - 1] == given[n..];
    assert MediaBlocks(p.media) == seq(|p.media|, i requires 0 <= i < |p.media| => MediaBlock(p.media[i]));
  }

  // --------------------------------------------------------------- the theorems

  /** The state of the conversion after `n` messages. */
  ghost predicate IsRead(st: State, h: seq<Message>, replayThinking: bool, n: nat)
    requires n <= |h|
  {
    && Inv(st) && Items(st.out) == Said(h, replayThinking, n)
    && st.pending == Open(h[..n]) && st.counter == CallCount(h[..n])
  }

  lemma {:induction false} KeptIsRead(h: seq<Message>, replayThinking: bool, i: nat)
    requires i < |h|
    ensures Keeps(h, replayThinking, i) <==> i == KeepIndex(h, replayThinking)
  {
    var k := LastAssistant(h);
    if k >= 0 {
      assert h[k].role == Assistant;
      assert CallsTools(h[k]) <==> exists j | 0 <= j < |h[k].parts| :: h[k].parts[j].CallPart?;
    }
  }

  lemma {:induction false} PlaceholdersAreRead(open: seq<Call>)
    ensures InterruptedAll(open) == Missing(open)
  {
  }

  lemma {:induction false} TwoItemPushes(out: seq<Turn>, s1: Side, b1: seq<Block>, s2: Side, b2: seq<Block>)
    ensures Items(Push(Push(out, s1, b1), s2, b2)) == Items(out) + (Marked(s1, b1) + Marked(s2, b2))
  {
    ItemsPush(out, s1, b1);
    ItemsPush(Push(out, s1, b1), s2, b2);
    AppendAssoc(Items(out), Marked(s1, b1), Marked(s2, b2));
  }

  lemma {:induction false} ToolItems(st: State, m: Message)
    requires m.role == Tool
    ensures var a := AnswerParts(Answer(st.pending, [], []), m.parts);
            Items(Pushed(st, m)) == Items(st.out) + Marked(UserSide, a.results + a.orphans)
  {
    var a := AnswerParts(Answer(st.pending, [], []), m.parts);
    TwoItemPushes(st.out, UserSide, a.results, UserSide, a.orphans);
    MarkedConcat(UserSide, a.results, a.orphans);
  }

  lemma {:induction false} ToolIsRead(st: State, m: Message)
    requires Inv(st) && m.role == Tool
    ensures Items(Step(st, m).out) == Items(st.out) + Adds(st.pending, st.counter, m, false)
    ensures Step(st, m).pending == st.pending[Fewer(|st.pending|, |Those(m.parts, IsResult)|)..]
  {
    StepKeepsInv(st, m);
    AnswersAreRead(m.parts, st.pending);
    ToolItems(st, m);
  }

  lemma {:induction false} AssistantIsRead(st: State, m: Message, kept: bool)
    requires Inv(st) && m.role == Assistant
    ensures var n := Step(st, if kept then m else DropThinking(m));
            && Items(n.out) == Items(st.out) + Adds(st.pending, st.counter, m, kept)
            && n.pending == Awaited(Those(m.parts, IsCall), st.counter)
            && n.counter == st.counter + |Those(m.parts, IsCall)|
  {
    var seen := if kept then m else DropThinking(m);
    var c := CallParts(Calls(st.counter, [], [], [], []), seen.parts);
    StepKeepsInv(st, seen);
    CallsAreRead(seen.parts, st.counter);
    DroppedIsRead(m, st.counter);
    PlaceholdersAreRead(st.pending);
    TwoItemPushes(st.out, UserSide, InterruptedAll(st.pending), AssistantSide, c.leading + c.texts + c.tools);
    assert |Awaited(Those(seen.parts, IsCall), st.counter)| == |Those(seen.parts, IsCall)|;
  }

  lemma {:induction false} UserIsRead(st: State, m: Message)
    requires Inv(st) && m.role != Tool && m.role != Assistant
    ensures Items(Step(st, m).out) == Items(st.out) + Adds(st.pending, st.counter, m, false)
    ensures Step(st, m).pending == []
  {
    StepKeepsInv(st, m);
    UserBlocksAreShown(m.parts);
    PlaceholdersAreRead(st.pending);
    TwoItemPushes(st.out, UserSide, InterruptedAll(st.pending), UserSide, UserBlocks(m.parts));
    MarkedConcat(UserSide, InterruptedAll(st.pending), UserBlocks(m.parts));
  }

  /** The calls left open behind one more message. */
  function OpenNext(open: seq<Call>, counter: nat, m: Message): seq<Call> {
    match m.role
    case Assistant => Awaited(Those(m.parts, IsCall), counter)
    case Tool => open[Fewer(|open|, |Those(m.parts, IsResult)|)..]
    case _ => []
  }

  lemma {:induction false} HistoryNext(h: seq<Message>, n: nat)
    requires n < |h|
    ensures Open(h[..n + 1]) == OpenNext(Open(h[..n]), CallCount(h[..n]), h[n])
    ensures CallCount(h[..n + 1])
            == CallCount(h[..n]) + if h[n].role == Assistant then |Those(h[n].parts, IsCall)| else 0
  {
    assert h[..n + 1][..n] == h[..n] && h[..n + 1][n] == h[n];
  }

  /** A step adds what its message says, and leaves the calls open that it should. */
  lemma {:induction false} StepIsRead(st: State, m: Message, kept: bool)
    requires Inv(st) && (kept ==> m.role == Assistant)
    ensures var n := Step(st, if kept then m else DropThinking(m));
            && Items(n.out) == Items(st.out) + Adds(st.pending, st.counter, m, kept)
            && n.counter == st.counter + (if m.role == Assistant then |Those(m.parts, IsCall)| else 0)
            && n.pending == OpenNext(st.pending, st.counter, m)
  {
    match m.role
    case Assistant => AssistantIsRead(st, m, kept);
    case Tool =>
      DropLeavesStep(st, m);
      ToolIsRead(st, m);
    case _ =>
      DropLeavesStep(st, m);
      UserIsRead(st, m);
  }

  lemma {:induction false} MessageIsRead(st: State, h: seq<Message>, replayThinking: bool, n: nat)
    requires n < |h| && IsRead(st, h, replayThinking, n)
    ensures var keep := KeepIndex(h, replayThinking);
            IsRead(Step(st, if n == keep then h[n] else DropThinking(h[n])), h, replayThinking, n + 1)
  {
    var m, kept := h[n], n == KeepIndex(h, replayThinking);
    KeptIsRead(h, replayThinking, n);
    StepKeepsInv(st, if kept then m else DropThinking(m));
    StepIsRead(st, m, kept);
    HistoryNext(h, n);
    var next := Step(st, if kept then m else DropThinking(m));
    assert Items(next.out) == Said(h, replayThinking, n + 1);
  }

  lemma {:induction false} FoldIsRead(st: State, h: seq<Message>, replayThinking: bool, n: nat)
    requires n <= |h| && IsRead(st, h, replayThinking, n)
    ensures var seen := Replayed(h, KeepIndex(h, replayThinking));
            IsRead(Fold(st, seen[n..]), h, replayThinking, |h|)
    decreases |h| - n
  {
    var seen := Replayed(h, KeepIndex(h, replayThinking));
    if n < |h| {
      MessageIsRead(st, h, replayThinking, n);
      assert seen[n..][0] == seen[n] && seen[n..][1..] == seen[n + 1..];
      FoldIsRead(Step(st, seen[n]), h, replayThinking, n + 1);
    } else {
      assert seen[n..] == [] && h[..n] == h;
    }
  }

  lemma {:induction false} ItemsOpened(out: seq<Turn>)
    requires forall i | 0 <= i < |out| :: out[i].content != []
    ensures var all := Items(out);
            Items(Opened(out)) == if all != [] && all[0].side == AssistantSide
                                  then [Item(UserSide, OPENING.content[0])] + all else all
  {
    if out != [] {
      FirstItem(out);
      if out[0].side == AssistantSide {
        ItemsConcat([OPENING], out);
        assert [OPENING][..0] == [];
        assert Items([OPENING]) == [Item(UserSide, OPENING.content[0])];
      }
    }
  }

  lemma {:induction false} FirstItem(out: seq<Turn>)
    requires out != [] && forall i | 0 <= i < |out| :: out[i].content != []
    ensures Items(out) != [] && Items(out)[0].side == out[0].side
  {
    if |out| > 1 {
      FirstItem(out[..|out| - 1]);
    }
  }

  lemma {:induction false} ItemsConcat(a: seq<Turn>, b: seq<Turn>)
    ensures Items(a + b) == Items(a) + Items(b)
  {
    if b == [] {
      assert a + b == a;
    } else {
      var init, t := b[..|b| - 1], b[|b| - 1];
      ItemsConcat(a, init);
      assert b == init + [t] && a + b == (a + init) + [t];
      ItemsSnoc(a + init, t);
      ItemsSnoc(init, t);
      AppendAssoc(Items(a), Items(init), Marked(t.side, t.content));
    }
  }

  lemma {:induction false} FinishIsRead(st: State, h: seq<Message>, replayThinking: bool)
    requires IsRead(st, h, replayThinking, |h|)
    ensures Items(Finish(st)) == Reading(h, replayThinking)
  {
    assert h[..|h|] == h;
    FinishIsOpened(st);
    FlushKeepsInv(st);
    PlaceholdersAreRead(st.pending);
    ItemsPush(st.out, UserSide, InterruptedAll(st.pending));
    NoEmptyTurn(Flush(st));
    ItemsOpened(Flush(st).out);
  }

  lemma {:induction false} NoEmptyTurn(st: State)
    requires Inv(st)
    ensures forall i | 0 <= i < |st.out| :: st.out[i].content != []
  {
  }

  lemma {:induction false} EmptyIsRead(h: seq<Message>, replayThinking: bool)
    ensures IsRead(EMPTY, h, replayThinking, 0)
  {
    assert h[..0] == [];
  }

  /** The transcript of any history, with or without thinking replay, is its reading: each
      text, native block, call, result and placeholder once, with its own value, on its
      side and in its place, and nothing else. */
  lemma {:induction false} ConversionIsReading(h: seq<Message>, replayThinking: bool)
    ensures Items(Convert(h, replayThinking)) == Reading(h, replayThinking)
    ensures Convert(h, replayThinking) == Grouped(Reading(h, replayThinking))
  {
    var seen := Replayed(h, KeepIndex(h, replayThinking));
    assert seen[0..] == seen;
    EmptyIsRead(h, replayThinking);
    FoldIsRead(EMPTY, h, replayThinking, 0);
    FinishIsRead(Fold(EMPTY, seen), h, replayThinking);
    EveryHistoryConverts(h, replayThinking);
    ItemsDetermine(Convert(h, replayThinking));
  }
}
