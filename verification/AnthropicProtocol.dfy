/** Every history converts to a transcript that obeys the tool-use protocol. */
module AnthropicProtocol {
  import opened Text
  import opened Anthropic

  // --------------------------------------------------------------- vocabulary

  function UseIds(bs: seq<Block>): seq<nat> {
    if bs == [] then []
    else (if bs[0].ToolUse? then [bs[0].id] else []) + UseIds(bs[1..])
  }

  function ResultIds(bs: seq<Block>): seq<nat> {
    if bs == [] then []
    else (if bs[0].ToolResult? then [bs[0].id] else []) + ResultIds(bs[1..])
  }

  ghost predicate NoUse(bs: seq<Block>) {
    forall i | 0 <= i < |bs| :: !bs[i].ToolUse?
  }

  ghost predicate NoResult(bs: seq<Block>) {
    forall i | 0 <= i < |bs| :: !bs[i].ToolResult?
  }

  ghost predicate AllResults(bs: seq<Block>) {
    forall i | 0 <= i < |bs| :: bs[i].ToolResult?
  }

  /** The tool results form a prefix. */
  ghost predicate ResultsFirst(bs: seq<Block>) {
    exists n | 0 <= n <= |bs| :: AllResults(bs[..n]) && NoResult(bs[n..])
  }

  ghost predicate NoThinking(bs: seq<Block>) {
    forall i | 0 <= i < |bs| :: !bs[i].ThinkingBlock?
  }

  ghost predicate TurnOk(t: Turn) {
    && t.content != []
    && (t.side == AssistantSide ==> NoResult(t.content))
    && (t.side == UserSide ==> NoUse(t.content) && NoThinking(t.content) && ResultsFirst(t.content))
  }

  ghost predicate Alternates(out: seq<Turn>) {
    forall i | 0 < i < |out| :: out[i].side != out[i - 1].side
  }

  /** The results a turn owes: those of the calls made by the turn before it. */
  function Owed(out: seq<Turn>, i: nat): seq<nat>
    requires i < |out|
  {
    if i > 0 && out[i - 1].side == AssistantSide then UseIds(out[i - 1].content) else []
  }

  function AllUseIds(out: seq<Turn>): seq<nat> {
    if out == [] then [] else AllUseIds(out[..|out| - 1]) + UseIds(out[|out| - 1].content)
  }

  function UpTo(n: nat): (r: seq<nat>)
    ensures |r| == n && forall i | 0 <= i < n :: r[i] == i + 1
  {
    seq(n, i requires 0 <= i < n => i + 1)
  }

  /** The protocol, stated on the transcript alone. */
  ghost predicate ValidTranscript(out: seq<Turn>) {
    && (out != [] ==> out[0].side == UserSide)
    && Alternates(out)
    && (forall i | 0 <= i < |out| :: TurnOk(out[i]))
    && (forall i | 0 <= i < |out| && out[i].side == UserSide :: ResultIds(out[i].content) == Owed(out, i))
    && (out != [] && out[|out| - 1].side == AssistantSide ==> UseIds(out[|out| - 1].content) == [])
    && AllUseIds(out) == UpTo(|AllUseIds(out)|)
  }

  // ---------------------------------------------------------------- invariant

  function CallIds(pending: seq<Call>): seq<nat> {
    if pending == [] then [] else [pending[0].id] + CallIds(pending[1..])
  }

  /** The open calls are what the last round still owes. */
  ghost predicate OpenRound(out: seq<Turn>, pending: seq<Call>) {
    if out == [] then pending == []
    else
      var n := |out| - 1;
      if out[n].side == AssistantSide then CallIds(pending) == UseIds(out[n].content)
      else ResultIds(out[n].content) + CallIds(pending) == Owed(out, n)
           && (pending != [] ==> AllResults(out[n].content))
  }

  ghost predicate Inv(st: State) {
    && Alternates(st.out)
    && (forall i | 0 <= i < |st.out| :: TurnOk(st.out[i]))
    && (forall i | 0 <= i < |st.out| - 1 && st.out[i].side == UserSide ::
          ResultIds(st.out[i].content) == Owed(st.out, i))
    && OpenRound(st.out, st.pending)
    && AllUseIds(st.out) == UpTo(st.counter)
  }

  // ----------------------------------------------------------- id bookkeeping

  lemma {:induction false} UseIdsHead(a: seq<Block>)
    requires a != []
    ensures UseIds(a) == (if a[0].ToolUse? then [a[0].id] else []) + UseIds(a[1..])
  {
  }

  lemma {:induction false} ResultIdsHead(a: seq<Block>)
    requires a != []
    ensures ResultIds(a) == (if a[0].ToolResult? then [a[0].id] else []) + ResultIds(a[1..])
  {
  }

  lemma {:induction false} UseIdsConcat(a: seq<Block>, b: seq<Block>)
    ensures UseIds(a + b) == UseIds(a) + UseIds(b)
  {
    if a == [] {
      assert a + b == b;
    } else {
      var t := a[1..];
      TailOfConcat(a, b);
      UseIdsHead(a);
      UseIdsHead(a + b);
      UseIdsConcat(t, b);
    }
  }

  lemma {:induction false} ResultIdsConcat(a: seq<Block>, b: seq<Block>)
    ensures ResultIds(a + b) == ResultIds(a) + ResultIds(b)
  {
    if a == [] {
      assert a + b == b;
    } else {
      var t := a[1..];
      TailOfConcat(a, b);
      ResultIdsHead(a);
      ResultIdsHead(a + b);
      ResultIdsConcat(t, b);
    }
  }

  lemma {:induction false} NoUseIds(bs: seq<Block>)
    ensures NoUse(bs) <==> UseIds(bs) == []
  {
    if bs != [] {
      NoUseIds(bs[1..]);
      assert forall i | 0 < i < |bs| :: bs[i] == bs[1..][i - 1];
    }
  }

  lemma {:induction false} NoResultIds(bs: seq<Block>)
    ensures NoResult(bs) <==> ResultIds(bs) == []
  {
    if bs != [] {
      NoResultIds(bs[1..]);
      assert forall i | 0 < i < |bs| :: bs[i] == bs[1..][i - 1];
    }
  }

  lemma {:induction false} CallIdsConcat(a: seq<Call>, b: seq<Call>)
    ensures CallIds(a + b) == CallIds(a) + CallIds(b)
  {
    if a == [] {
      assert a + b == b;
    } else {
      TailOfConcat(a, b);
      CallIdsConcat(a[1..], b);
    }
  }

  lemma {:induction false} CallIdsLength(a: seq<Call>)
    ensures |CallIds(a)| == |a|
  {
    if a != [] {
      CallIdsLength(a[1..]);
    }
  }

  // ---------------------------------------------------------- what is appended

  /** Appending at the end, whatever the blocks are. */
  function Push(out: seq<Turn>, side: Side, blocks: seq<Block>): seq<Turn> {
    if blocks == [] then out
    else if out != [] && out[|out| - 1].side == side then
      out[..|out| - 1] + [Turn(side, out[|out| - 1].content + blocks)]
    else out + [Turn(side, blocks)]
  }

  lemma {:induction false} InsertAtEnd(existing: seq<Block>)
    requires AllResults(existing)
    ensures InsertAt(existing) == |existing|
  {
  }

  /** Tool results are put before other content, but in a reachable state there is
      none: every append lands at the end. */
  lemma {:induction false} AppendIsPush(out: seq<Turn>, side: Side, blocks: seq<Block>)
    requires (blocks != [] && side == UserSide && blocks[0].ToolResult?
              && out != [] && out[|out| - 1].side == UserSide) ==> AllResults(out[|out| - 1].content)
    ensures AppendBlocks(out, side, blocks) == Push(out, side, blocks)
  {
    if blocks != [] && out != [] && out[|out| - 1].side == side && side == UserSide && blocks[0].ToolResult? {
      var existing := out[|out| - 1].content;
      InsertAtEnd(existing);
      assert existing[..|existing|] + blocks + existing[|existing|..] == existing + blocks;
    }
  }

  /** Results answer the open calls in order; text appears only when none is open. */
  ghost predicate AnswerOk(a: Answer, owed: seq<nat>) {
    && AllResults(a.results)
    && NoResult(a.orphans) && NoUse(a.orphans) && NoThinking(a.orphans)
    && (a.orphans != [] ==> a.pending == [])
    && ResultIds(a.results) + CallIds(a.pending) == owed
  }

  lemma {:induction false} AnswerStepOk(a: Answer, p: Part, owed: seq<nat>)
    requires AnswerOk(a, owed)
    ensures AnswerOk(AnswerPart(a, p), owed)
  {
    if p.ResultPart? && a.pending != [] {
      var b := AnswerPart(a, p);
      var r := b.results[|a.results|];
      assert b.results == a.results + [r];
      ResultIdsConcat(a.results, [r]);
      assert ResultIds([r]) == [a.pending[0].id];
      assert CallIds(a.pending) == [a.pending[0].id] + CallIds(b.pending);
      AppendAssoc(ResultIds(a.results), [a.pending[0].id], CallIds(b.pending));
    }
  }

  lemma {:induction false} AnswersOk(a: Answer, parts: seq<Part>, owed: seq<nat>)
    requires AnswerOk(a, owed)
    ensures AnswerOk(AnswerParts(a, parts), owed)
    decreases |parts|
  {
    if parts != [] {
      AnswerStepOk(a, parts[0], owed);
      AnswersOk(AnswerPart(a, parts[0]), parts[1..], owed);
    }
  }

  function ResultsOf(parts: seq<Part>): (r: seq<Part>)
    ensures forall i | 0 <= i < |r| :: r[i].ResultPart?
  {
    if parts == [] then [] else (if parts[0].ResultPart? then [parts[0]] else []) + ResultsOf(parts[1..])
  }

  /** What the k-th result becomes when it answers the k-th open call. */
  ghost predicate Responds(b: Block, c: Call, p: Part) {
    && b.ToolResult? && b.id == c.id && !b.isError && p.ResultPart? && b.media == p.media
    && b.text == if p.media != [] && p.payload == "" then "(no text output)" else p.payload
  }

  ghost predicate AllRespond(bs: seq<Block>, open: seq<Call>, given: seq<Part>) {
    |bs| <= |open| && |bs| <= |given| && forall i | 0 <= i < |bs| :: Responds(bs[i], open[i], given[i])
  }

  /** Results answer the open calls position by position, each with its own payload and
      media; they stop only when calls or results run out. */
  lemma {:induction false} ResultsAnswerByPosition(open: seq<Call>, parts: seq<Part>)
    ensures var r := AnswerParts(Answer(open, [], []), parts);
            && AllRespond(r.results, open, ResultsOf(parts))
            && r.pending == open[|r.results|..]
            && (r.pending == [] || |r.results| == |ResultsOf(parts)|)
  {
    AnswersByPosition(Answer(open, [], []), parts, open, []);
    assert [] + ResultsOf(parts) == ResultsOf(parts);
  }

  lemma {:induction false} AnswersByPosition(a: Answer, parts: seq<Part>, open: seq<Call>, before: seq<Part>)
    requires AllRespond(a.results, open, before) && a.pending == open[|a.results|..]
    requires a.pending == [] || |a.results| == |before|
    ensures var r, given := AnswerParts(a, parts), before + ResultsOf(parts);
            && AllRespond(r.results, open, given) && r.pending == open[|r.results|..]
            && (r.pending == [] || |r.results| == |given|)
    decreases |parts|
  {
    if parts == [] {
      assert before + [] == before;
    } else if parts[0].ResultPart? {
      assert ResultsOf(parts) == [parts[0]] + ResultsOf(parts[1..]);
      assert before + ([parts[0]] + ResultsOf(parts[1..])) == (before + [parts[0]]) + ResultsOf(parts[1..]);
      AnswersByPosition(AnswerPart(a, parts[0]), parts[1..], open, before + [parts[0]]);
    } else {
      assert ResultsOf(parts) == ResultsOf(parts[1..]);
      AnswersByPosition(a, parts[1..], open, before);
    }
  }

  /** Every call gets the next number, and is open. */
  ghost predicate CallsOk(c: Calls, base: nat) {
    && NoResult(c.texts) && NoUse(c.texts)
    && NoResult(c.leading) && NoUse(c.leading)
    && NoResult(c.tools)
    && CallIds(c.pending) == UseIds(c.tools)
    && UpTo(base) + UseIds(c.tools) == UpTo(c.counter)
  }

  lemma {:induction false} CallStepOk(c: Calls, p: Part, base: nat)
    requires CallsOk(c, base)
    ensures CallsOk(CallPartStep(c, p), base)
  {
    if p.CallPart? {
      var d := CallPartStep(c, p);
      var added := d.tools[|c.tools|..];
      assert d.tools == c.tools + added;
      OneUse(added, d.counter);
      UseIdsConcat(c.tools, added);
      OneCallId(c.pending, Call(d.counter, p.name));
      NextId(base, UseIds(c.tools), c.counter);
      if c.tools == [] {
        NoUseOfThinking(p.thinking);
      }
    }
  }

  lemma {:induction false} OneCallId(pending: seq<Call>, call: Call)
    ensures CallIds(pending + [call]) == CallIds(pending) + [call.id]
  {
    CallIdsConcat(pending, [call]);
    assert CallIds([call]) == [call.id] by { assert [call][1..] == []; }
  }

  lemma {:induction false} NoUseOfThinking(thinking: seq<string>)
    ensures NoUse(ThinkingBlocks(thinking)) && NoResult(ThinkingBlocks(thinking))
  {
  }

  lemma {:induction false} NextId(base: nat, ids: seq<nat>, n: nat)
    requires UpTo(base) + ids == UpTo(n)
    ensures UpTo(base) + (ids + [n + 1]) == UpTo(n + 1)
  {
    AppendAssoc(UpTo(base), ids, [n + 1]);
  }

  lemma {:induction false} AllCallsOk(c: Calls, parts: seq<Part>, base: nat)
    requires CallsOk(c, base)
    ensures CallsOk(CallParts(c, parts), base)
    decreases |parts|
  {
    if parts != [] {
      CallStepOk(c, parts[0], base);
      AllCallsOk(CallPartStep(c, parts[0]), parts[1..], base);
    }
  }

  /** Thinking followed by one call. */
  lemma {:induction false} OneUse(added: seq<Block>, id: nat)
    requires added != [] && added[|added| - 1].ToolUse? && added[|added| - 1].id == id
    requires forall i | 0 <= i < |added| - 1 :: added[i].ThinkingBlock?
    ensures UseIds(added) == [id] && NoResult(added)
  {
    var lead, last := added[..|added| - 1], added[|added| - 1];
    assert added == lead + [last];
    NoUseIds(lead);
    UseIdsConcat(lead, [last]);
  }

  // --------------------------------------------------------- one append at a time

  lemma {:induction false} PushUseIds(out: seq<Turn>, side: Side, blocks: seq<Block>)
    ensures AllUseIds(Push(out, side, blocks)) == AllUseIds(out) + UseIds(blocks)
  {
    if blocks == [] {
      assert AllUseIds(out) + [] == AllUseIds(out);
    } else if out != [] && out[|out| - 1].side == side {
      var front, t := out[..|out| - 1], out[|out| - 1];
      UseIdsConcat(t.content, blocks);
      UseIdsSnoc(front, t);
      UseIdsSnoc(front, Turn(side, t.content + blocks));
      assert out == front + [t];
      AppendAssoc(AllUseIds(front), UseIds(t.content), UseIds(blocks));
    } else {
      UseIdsSnoc(out, Turn(side, blocks));
    }
  }

  lemma {:induction false} UseIdsSnoc(out: seq<Turn>, t: Turn)
    ensures AllUseIds(out + [t]) == AllUseIds(out) + UseIds(t.content)
  {
    assert (out + [t])[..|out|] == out;
  }

  /** The turns before the last one of a reachable transcript are final. */
  ghost predicate Settled(out: seq<Turn>) {
    && Alternates(out)
    && (forall i | 0 <= i < |out| :: TurnOk(out[i]))
    && (forall i | 0 <= i < |out| - 1 && out[i].side == UserSide :: ResultIds(out[i].content) == Owed(out, i))
  }

  /** A push keeps the settled part, if the turn it ends is settled when it is left. */
  lemma {:induction false} PushSettled(out: seq<Turn>, side: Side, blocks: seq<Block>)
    requires Settled(out) && blocks != []
    requires out != [] && out[|out| - 1].side == UserSide && side == AssistantSide ==>
               ResultIds(out[|out| - 1].content) == Owed(out, |out| - 1)
    requires var r := Push(out, side, blocks); TurnOk(r[|r| - 1])
    ensures Settled(Push(out, side, blocks))
  {
    var r := Push(out, side, blocks);
    forall i | 0 <= i < |r| - 1 && r[i].side == UserSide
      ensures ResultIds(r[i].content) == Owed(r, i)
    {
      assert r[i] == out[i] && Owed(r, i) == Owed(out, i);
    }
  }

  lemma {:induction false} ResultsFirstThenText(bs: seq<Block>, more: seq<Block>)
    requires ResultsFirst(bs) && NoResult(more)
    ensures ResultsFirst(bs + more)
  {
    var n :| 0 <= n <= |bs| && AllResults(bs[..n]) && NoResult(bs[n..]);
    assert (bs + more)[..n] == bs[..n] && (bs + more)[n..] == bs[n..] + more;
  }

  lemma {:induction false} AllResultsFirst(bs: seq<Block>)
    requires AllResults(bs)
    ensures ResultsFirst(bs) && NoUse(bs) && NoThinking(bs)
  {
    assert bs[..|bs|] == bs && bs[|bs|..] == [];
  }

  lemma {:induction false} AppendResults(st: State, results: seq<Block>, rest: seq<Call>)
    requires Inv(st) && AllResults(results)
    requires ResultIds(results) + CallIds(rest) == CallIds(st.pending)
    ensures AppendBlocks(st.out, UserSide, results) == Push(st.out, UserSide, results)
    ensures Inv(State(AppendBlocks(st.out, UserSide, results), st.counter, rest))
  {
    CallIdsLength(st.pending);
    CallIdsLength(rest);
    if results != [] {
      assert ResultIds(results)[0] == CallIds(st.pending)[0];
      AppendIsPush(st.out, UserSide, results);
      PushUseIds(st.out, UserSide, results);
      NoUseIds(results);
      AllResultsFirst(results);
      if st.out[|st.out| - 1].side == UserSide {
        MoreResults(st, results, rest);
      } else {
        PushSettled(st.out, UserSide, results);
      }
    } else {
      assert CallIds(rest) == CallIds(st.pending);
    }
  }

  lemma {:induction false} ResultsJoined(content: seq<Block>, results: seq<Block>)
    requires AllResults(content) && AllResults(results) && results != []
    ensures var all := content + results;
            AllResults(all) && TurnOk(Turn(UserSide, all)) && ResultIds(all) == ResultIds(content) + ResultIds(results)
  {
    AllResultsFirst(content + results);
    ResultIdsConcat(content, results);
  }

  /** Results that join a user turn which so far holds results only. */
  lemma {:induction false} MoreResults(st: State, results: seq<Block>, rest: seq<Call>)
    requires Inv(st) && AllResults(results) && results != [] && st.pending != []
    requires ResultIds(results) + CallIds(rest) == CallIds(st.pending)
    requires st.out[|st.out| - 1].side == UserSide
    ensures Settled(Push(st.out, UserSide, results)) && OpenRound(Push(st.out, UserSide, results), rest)
  {
    var out, n := st.out, |st.out| - 1;
    var r := Push(out, UserSide, results);
    ResultsJoined(out[n].content, results);
    PushSettled(out, UserSide, results);
    AppendAssoc(ResultIds(out[n].content), ResultIds(results), CallIds(rest));
    assert r[n].content == out[n].content + results && Owed(r, n) == Owed(out, n);
  }

  lemma {:induction false} AppendUser(st: State, blocks: seq<Block>)
    requires Inv(st) && st.pending == [] && NoResult(blocks) && NoUse(blocks) && NoThinking(blocks)
    ensures AppendBlocks(st.out, UserSide, blocks) == Push(st.out, UserSide, blocks)
    ensures Inv(State(AppendBlocks(st.out, UserSide, blocks), st.counter, []))
  {
    if blocks != [] {
      AppendIsPush(st.out, UserSide, blocks);
      PushUser(st.out, blocks);
      NoUseIds(blocks);
      PushUseIds(st.out, UserSide, blocks);
    }
  }

  lemma {:induction false} PushUser(out: seq<Turn>, blocks: seq<Block>)
    requires Settled(out) && OpenRound(out, []) && blocks != []
    requires NoResult(blocks) && NoUse(blocks) && NoThinking(blocks)
    ensures Settled(Push(out, UserSide, blocks)) && OpenRound(Push(out, UserSide, blocks), [])
  {
    if out != [] && out[|out| - 1].side == UserSide {
      PushUserJoins(out, blocks);
    } else {
      NoResultIds(blocks);
      ResultsFirstAlone(blocks);
      PushSettled(out, UserSide, blocks);
    }
  }

  lemma {:induction false} PushUserJoins(out: seq<Turn>, blocks: seq<Block>)
    requires Settled(out) && OpenRound(out, []) && blocks != []
    requires NoResult(blocks) && NoUse(blocks) && NoThinking(blocks)
    requires out != [] && out[|out| - 1].side == UserSide
    ensures Settled(Push(out, UserSide, blocks)) && OpenRound(Push(out, UserSide, blocks), [])
  {
    var r, n := Push(out, UserSide, blocks), |out| - 1;
    UserJoined(out[n].content, blocks);
    PushSettled(out, UserSide, blocks);
    assert r[n].content == out[n].content + blocks && Owed(r, n) == Owed(out, n);
  }

  lemma {:induction false} UserJoined(content: seq<Block>, blocks: seq<Block>)
    requires TurnOk(Turn(UserSide, content)) && NoResult(blocks) && NoUse(blocks) && NoThinking(blocks)
    ensures TurnOk(Turn(UserSide, content + blocks)) && ResultIds(content + blocks) == ResultIds(content)
  {
    ResultsFirstThenText(content, blocks);
    ResultIdsConcat(content, blocks);
    NoResultIds(blocks);
  }

  lemma {:induction false} ResultsFirstAlone(bs: seq<Block>)
    requires NoResult(bs)
    ensures ResultsFirst(bs)
  {
    assert bs[0..] == bs && AllResults(bs[..0]);
  }

  lemma {:induction false} AppendAssistant(st: State, blocks: seq<Block>, counter: nat, calls: seq<Call>)
    requires Inv(st) && st.pending == [] && NoResult(blocks)
    requires CallIds(calls) == UseIds(blocks) && UpTo(st.counter) + UseIds(blocks) == UpTo(counter)
    ensures AppendBlocks(st.out, AssistantSide, blocks) == Push(st.out, AssistantSide, blocks)
    ensures Inv(State(AppendBlocks(st.out, AssistantSide, blocks), counter, calls))
  {
    CallIdsLength(calls);
    if blocks == [] {
      assert |UpTo(counter)| == |UpTo(st.counter)|;
    } else {
      var out, n := st.out, |st.out| - 1;
      if out != [] && out[n].side == AssistantSide {
        UseIdsConcat(out[n].content, blocks);
      }
      PushSettled(out, AssistantSide, blocks);
      PushUseIds(out, AssistantSide, blocks);
    }
  }

  // ----------------------------------------------------------------- every step

  lemma {:induction false} InterruptedIds(pending: seq<Call>)
    ensures AllResults(InterruptedAll(pending)) && ResultIds(InterruptedAll(pending)) == CallIds(pending)
  {
    if pending != [] {
      assert InterruptedAll(pending)[1..] == InterruptedAll(pending[1..]);
      InterruptedIds(pending[1..]);
    }
  }

  lemma {:induction false} FlushKeepsInv(st: State)
    requires Inv(st)
    ensures Inv(Flush(st)) && Flush(st).out == Push(st.out, UserSide, InterruptedAll(st.pending))
  {
    InterruptedIds(st.pending);
    assert ResultIds(InterruptedAll(st.pending)) + CallIds([]) == CallIds(st.pending);
    AppendResults(st, InterruptedAll(st.pending), []);
  }

  lemma {:induction false} UserBlocksArePlain(parts: seq<Part>)
    ensures NoResult(UserBlocks(parts)) && NoUse(UserBlocks(parts)) && NoThinking(UserBlocks(parts))
  {
    if parts != [] {
      UserBlocksArePlain(parts[..|parts| - 1]);
    }
  }

  /** A step with every append at the end. */
  function Pushed(st: State, m: Message): seq<Turn> {
    var flushed := Push(st.out, UserSide, InterruptedAll(st.pending));
    match m.role
    case Tool =>
      var a := AnswerParts(Answer(st.pending, [], []), m.parts);
      Push(Push(st.out, UserSide, a.results), UserSide, a.orphans)
    case Assistant =>
      var c := CallParts(Calls(st.counter, [], [], [], []), m.parts);
      Push(flushed, AssistantSide, c.leading + c.texts + c.tools)
    case _ => Push(flushed, UserSide, UserBlocks(m.parts))
  }

  lemma {:induction false} StepKeepsInv(st: State, m: Message)
    requires Inv(st)
    ensures Inv(Step(st, m)) && Step(st, m).out == Pushed(st, m)
  {
    if m.role == Tool {
      StepTool(st, m);
    } else {
      FlushKeepsInv(st);
      if m.role == Assistant {
        AssistantBlocks(st.counter, m.parts);
        var c := CallParts(Calls(st.counter, [], [], [], []), m.parts);
        AppendAssistant(Flush(st), c.leading + c.texts + c.tools, c.counter, c.pending);
      } else {
        UserBlocksArePlain(m.parts);
        AppendUser(Flush(st), UserBlocks(m.parts));
      }
    }
  }

  lemma {:induction false} StepTool(st: State, m: Message)
    requires Inv(st) && m.role == Tool
    ensures Inv(Step(st, m)) && Step(st, m).out == Pushed(st, m)
  {
    var a0 := Answer(st.pending, [], []);
    assert ResultIds([]) + CallIds(st.pending) == CallIds(st.pending);
    AnswersOk(a0, m.parts, CallIds(st.pending));
    var a := AnswerParts(a0, m.parts);
    AppendResults(st, a.results, a.pending);
    if a.orphans != [] {
      AppendUser(State(AppendBlocks(st.out, UserSide, a.results), st.counter, []), a.orphans);
    }
  }

  lemma {:induction false} AssistantBlocks(counter: nat, parts: seq<Part>)
    ensures var c := CallParts(Calls(counter, [], [], [], []), parts);
            var blocks := c.leading + c.texts + c.tools;
            && NoResult(blocks) && CallIds(c.pending) == UseIds(blocks)
            && UpTo(counter) + UseIds(blocks) == UpTo(c.counter)
  {
    assert UpTo(counter) + UseIds([]) == UpTo(counter);
    AllCallsOk(Calls(counter, [], [], [], []), parts, counter);
    var c := CallParts(Calls(counter, [], [], [], []), parts);
    NoUseIds(c.leading);
    NoUseIds(c.texts);
    UseIdsConcat(c.leading, c.texts);
    UseIdsConcat(c.leading + c.texts, c.tools);
  }

  lemma {:induction false} FoldKeepsInv(st: State, history: seq<Message>)
    requires Inv(st)
    ensures Inv(Fold(st, history))
    decreases |history|
  {
    if history != [] {
      StepKeepsInv(st, history[0]);
      FoldKeepsInv(Step(st, history[0]), history[1..]);
    }
  }

  // ---------------------------------------------------------------- the theorem

  /** A closed transcript stays valid behind an opening user turn. */
  lemma {:induction false} OpeningUseIds(open: Turn, out: seq<Turn>)
    requires UseIds(open.content) == []
    ensures AllUseIds([open] + out) == AllUseIds(out)
  {
    var r := [open] + out;
    if out == [] {
      assert AllUseIds([]) + [] == [];
      assert r[..0] == [];
    } else {
      assert r[..|r| - 1] == [open] + out[..|out| - 1];
      OpeningUseIds(open, out[..|out| - 1]);
    }
  }

  /** Every turn has the results it owes, and no round is open. */
  ghost predicate Closed(out: seq<Turn>) {
    && Settled(out)
    && (forall i | 0 <= i < |out| && out[i].side == UserSide :: ResultIds(out[i].content) == Owed(out, i))
    && (out != [] && out[|out| - 1].side == AssistantSide ==> UseIds(out[|out| - 1].content) == [])
    && AllUseIds(out) == UpTo(|AllUseIds(out)|)
  }

  lemma {:induction false} NoOpenRoundIsClosed(st: State)
    requires Inv(st) && st.pending == []
    ensures Closed(st.out)
  {
    var out := st.out;
    if out != [] {
      var n := |out| - 1;
      assert CallIds([]) == [];
      if out[n].side == UserSide {
        assert ResultIds(out[n].content) + [] == ResultIds(out[n].content);
      }
    }
  }

  lemma {:induction false} OpenedIsValid(open: Turn, out: seq<Turn>)
    requires out != [] && out[0].side == AssistantSide && Closed(out)
    requires open.side == UserSide && TurnOk(open) && NoResult(open.content)
    ensures ValidTranscript([open] + out)
  {
    var r := [open] + out;
    NoUseIds(open.content);
    NoResultIds(open.content);
    OpeningUseIds(open, out);
    forall i | 0 <= i < |r|
      ensures TurnOk(r[i])
      ensures r[i].side == UserSide ==> ResultIds(r[i].content) == Owed(r, i)
      ensures i > 0 ==> r[i].side != r[i - 1].side
    {
      if i > 0 {
        assert r[i] == out[i - 1];
        if i > 1 {
          assert r[i - 1] == out[i - 2];
          assert Owed(r, i) == Owed(out, i - 1);
        }
      }
    }
    assert r[|r| - 1] == out[|out| - 1];
  }

  lemma {:induction false} FinishIsValid(st: State)
    requires Inv(st)
    ensures ValidTranscript(Finish(st))
  {
    FlushKeepsInv(st);
    NoOpenRoundIsClosed(Flush(st));
    var out := Flush(st).out;
    if out != [] && out[0].side == AssistantSide {
      var open := Turn(UserSide, [TextBlock("[Earlier conversation context was omitted.]")]);
      ResultsFirstAlone(open.content);
      OpenedIsValid(open, out);
    }
  }

  /** Any history, however broken, converts to a transcript that obeys the protocol. */
  lemma {:induction false} EveryHistoryConverts(history: seq<Message>, replayThinking: bool)
    ensures ValidTranscript(Convert(history, replayThinking))
  {
    var seen := Replayed(history, KeepIndex(history, replayThinking));
    assert Inv(EMPTY);
    FoldKeepsInv(EMPTY, seen);
    FinishIsValid(Fold(EMPTY, seen));
  }
}
