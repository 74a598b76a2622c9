/** The marks of consecutive requests: when the second mark of a request is the position
    that the request before it wrote. */
module AnthropicMarks {
  import opened Text
  import opened Anthropic
  import opened AnthropicProtocol
  import opened AnthropicPrefix
  import opened AnthropicReplay
  import opened AnthropicCache
  import opened AnthropicReplayPrefix

  // ------------------------------------------------------------ with or without replay

  /** The turns `c` are the turns `a` with thinking in some assistant turns. */
  ghost predicate AddsThinking(a: seq<Turn>, c: seq<Turn>) {
    && |c| == |a|
    && forall i | 0 <= i < |c| ::
         && c[i].side == a[i].side && Bare(c[i].content) == a[i].content != []
         && (c[i].side == UserSide ==> c[i] == a[i])
  }

  lemma {:induction false} WithoutReplay(h: seq<Message>)
    ensures BareTurns(Convert(h, false)) == Convert(h, false)
  {
    ConvertIsFinish(h);
    DroppedIsBare(h);
    BareFinish(After(h), After(h));
  }

  /** User turns hold no thinking, so replay leaves them as they are. */
  lemma {:induction false} ReplayAddsThinking(h: seq<Message>, replay: bool)
    ensures AddsThinking(Convert(h, false), Convert(h, replay))
  {
    if replay {
      ReplayOnlyAddsThinking(h);
    } else {
      WithoutReplay(h);
    }
    EveryHistoryConverts(h, replay);
    EveryHistoryConverts(h, false);
    PlainUserTurns(Convert(h, false), Convert(h, replay));
  }

  lemma {:induction false} PlainUserTurns(a: seq<Turn>, c: seq<Turn>)
    requires BareTurns(c) == a && ValidTranscript(a) && ValidTranscript(c)
    ensures AddsThinking(a, c)
  {
    forall i | 0 <= i < |c|
      ensures c[i].side == a[i].side && Bare(c[i].content) == a[i].content != []
      ensures c[i].side == UserSide ==> c[i] == a[i]
    {
      assert a[i] == Turn(c[i].side, Bare(c[i].content));
      assert TurnOk(a[i]) && TurnOk(c[i]);
      if c[i].side == UserSide {
        BareOfPlain(c[i].content);
      }
    }
  }

  /** Every turn has a block that can be marked. */
  lemma {:induction false} TurnIsMarkable(h: seq<Message>, replay: bool, i: nat) returns (b: nat)
    requires i < |Convert(h, replay)|
    ensures Cacheable(Convert(h, replay), (i, b))
  {
    ReplayAddsThinking(h, replay);
    b := MarkableBlock(Convert(h, false), Convert(h, replay), i);
  }

  lemma {:induction false} MarkableBlock(a: seq<Turn>, c: seq<Turn>, i: nat) returns (b: nat)
    requires AddsThinking(a, c) && i < |c|
    ensures Cacheable(c, (i, b))
  {
    b := NotAllThinking(c[i].content);
  }

  lemma {:induction false} NotAllThinking(bs: seq<Block>) returns (b: nat)
    requires Bare(bs) != []
    ensures b < |bs| && !bs[b].ThinkingBlock?
  {
    if bs[0].ThinkingBlock? {
      b := NotAllThinking(bs[1..]);
      b := b + 1;
    } else {
      b := 0;
    }
  }

  // ------------------------------------------------------------------- the first mark

  lemma {:induction false} PositionsInOrder(messages: seq<Turn>, i: nat, j: nat)
    requires i <= j < |Positions(messages)|
    ensures Positions(messages)[i].0 <= Positions(messages)[j].0 < |messages|
    ensures i < j && Positions(messages)[i].0 == Positions(messages)[j].0 ==>
              Positions(messages)[i].1 < Positions(messages)[j].1
  {
    var n := |messages| - 1;
    var before := Positions(messages[..n]);
    if j < |before| {
      PositionsInOrder(messages[..n], i, j);
    } else if i < |before| {
      PositionsInOrder(messages[..n], i, i);
    }
  }

  lemma {:induction false} PositionOf(messages: seq<Turn>, p: Position) returns (j: nat)
    requires InRange(messages, p)
    ensures j < |Positions(messages)| && Positions(messages)[j] == p
  {
    var n := |messages| - 1;
    var before := Positions(messages[..n]);
    if p.0 < n {
      j := PositionOf(messages[..n], p);
    } else {
      j := |before| + p.1;
    }
  }

  /** A request is a closed history with the runtime state behind it. */
  predicate IsRequest(h: seq<Message>, tail: Message, volatileBlocks: nat) {
    OpenCalls(h) == 0 && IsUserTail(tail) && |UserBlocks(tail.parts)| == volatileBlocks > 0
  }

  lemma {:induction false} RequestExtends(h: seq<Message>, tail: Message, replay: bool, volatileBlocks: nat)
    requires IsRequest(h, tail, volatileBlocks)
    ensures var c, r := Convert(h, replay), Convert(h + [tail], replay);
            && PrefixTurns(c, r) && r != [] && r[|r| - 1].side == UserSide
            && StableCount(r, volatileBlocks) == |Positions(c)| && Positions(c) <= Positions(r)
  {
    var c, r := Convert(h, replay), Convert(h + [tail], replay);
    if replay {
      TailFollows(h, tail);
      ClosedPrefixStable(h, [tail]);
    } else {
      TailAddsItsBlocks(h, tail);
      LastTurnIsUser(h, tail);
      PrefixStable(h, [tail]);
    }
    PositionsAreFlat(c);
    PositionsAreFlat(r);
    PositionsPrefix(c, r);
  }

  /** The last block of the last turn that can be marked. */
  ghost predicate LastMarkable(c: seq<Turn>, p: Position) {
    && c != [] && p.0 == |c| - 1 && p.1 < |c[p.0].content| && !c[p.0].content[p.1].ThinkingBlock?
    && forall b | p.1 < b < |c[p.0].content| :: c[p.0].content[b].ThinkingBlock?
  }

  /** The first mark is the last markable block of the history: it lies in its last turn. */
  lemma {:induction false} FirstMarkIsLast(h: seq<Message>, tail: Message, replay: bool, volatileBlocks: nat,
                                           p: Position)
    requires IsRequest(h, tail, volatileBlocks) && IsFirstMark(Convert(h + [tail], replay), volatileBlocks, p)
    ensures LastMarkable(Convert(h, replay), p)
  {
    var c, r := Convert(h, replay), Convert(h + [tail], replay);
    RequestExtends(h, tail, replay, volatileBlocks);
    PositionsAreFlat(c);
    var j :| 0 <= j < |Positions(c)| && p == Positions(r)[j] && Cacheable(r, p)
             && forall k | j < k < |Positions(c)| :: !Cacheable(r, Positions(r)[k]);
    assert Positions(r)[j] == Positions(c)[j];
    SameBlock(c, r, p);
    var b := TurnIsMarkable(h, replay, |c| - 1);
    IsLastMarkable(c, r, j, b);
  }

  lemma {:induction false} IsLastMarkable(c: seq<Turn>, r: seq<Turn>, j: nat, last: nat)
    requires PrefixTurns(c, r) && Positions(c) <= Positions(r) && j < |Positions(c)|
    requires c != [] && Cacheable(c, (|c| - 1, last)) && Cacheable(c, Positions(c)[j])
    requires forall k | j < k < |Positions(c)| :: !Cacheable(r, Positions(r)[k])
    ensures LastMarkable(c, Positions(c)[j])
  {
    var p := Positions(c)[j];
    MarkNotBefore(c, r, j, (|c| - 1, last));
    PositionsInOrder(c, j, j);
    forall b | p.1 < b < |c[p.0].content|
      ensures c[p.0].content[b].ThinkingBlock?
    {
      if !c[p.0].content[b].ThinkingBlock? {
        assert Cacheable(c, (p.0, b));
        MarkNotBefore(c, r, j, (p.0, b));
      }
    }
  }

  lemma {:induction false} SameBlock(c: seq<Turn>, r: seq<Turn>, p: Position)
    requires PrefixTurns(c, r) && InRange(c, p)
    ensures InRange(r, p) && At(r, p) == At(c, p)
  {
    InPrefix(c, r, p);
    assert c[p.0].content[..p.1 + 1][p.1] == r[p.0].content[..p.1 + 1][p.1];
  }

  /** No markable position lies behind the last one. */
  lemma {:induction false} MarkNotBefore(c: seq<Turn>, r: seq<Turn>, j: nat, q: Position)
    requires PrefixTurns(c, r) && Positions(c) <= Positions(r) && j < |Positions(c)| && Cacheable(c, q)
    requires forall k | j < k < |Positions(c)| :: !Cacheable(r, Positions(r)[k])
    ensures q.0 <= Positions(c)[j].0 && (q.0 == Positions(c)[j].0 ==> q.1 <= Positions(c)[j].1)
  {
    var k := PositionOf(c, q);
    SameBlock(c, r, q);
    assert Positions(r)[k] == q;
    if k < j {
      PositionsInOrder(c, k, j);
    }
  }

  // --------------------------------------------------------------------- one more round

  /** An assistant message with calls, and the tool message that answers all of them. */
  predicate IsRound(h: seq<Message>, asst: Message, tool: Message) {
    asst.role == Assistant && CallsTools(asst) && tool.role == Tool && OpenCalls(h + [asst, tool]) == 0
  }

  lemma {:induction false} CallsMakeBlocks(counter: nat, m: Message)
    requires CallsTools(m)
    ensures CallBlocks(counter, m.parts) != []
    ensures CallParts(Calls(counter, [], [], [], []), m.parts).pending != []
  {
    CallsThink(Calls(counter, [], [], [], []), m.parts);
    CallsCount(Calls(counter, [], [], [], []), m.parts);
    SomeCalls(m.parts);
  }

  lemma {:induction false} SomeCalls(parts: seq<Part>)
    requires exists p | p in parts :: p.CallPart?
    ensures CountCalls(parts) > 0
  {
    if !parts[0].CallPart? {
      var p :| p in parts && p.CallPart?;
      assert p in parts[1..];
      SomeCalls(parts[1..]);
    }
  }

  lemma {:induction false} DropKeepsCalls(m: Message)
    requires CallsTools(m)
    ensures CallsTools(DropThinking(m)) && DropThinking(m).role == m.role
  {
    var p :| p in m.parts && p.CallPart?;
    var i :| 0 <= i < |m.parts| && m.parts[i] == p;
    assert DropThinking(m).parts[i] in DropThinking(m).parts;
  }

  /** How many turns a push adds. */
  lemma {:induction false} PushCount(out: seq<Turn>, side: Side, blocks: seq<Block>)
    requires blocks != []
    ensures var r := Push(out, side, blocks);
            && r != [] && r[|r| - 1].side == side
            && |r| == |out| + (if out != [] && out[|out| - 1].side == side then 0 else 1)
            && (out != [] ==> r[0].side == out[0].side)
            && forall i | 0 <= i < |out| && (i < |out| - 1 || out[i].side != side) :: r[i] == out[i]
  {
  }

  /** A message with calls ends the transcript on the assistant side. */
  lemma {:induction false} AsstTurn(st: State, asst: Message)
    requires Inv(st) && st.pending == [] && st.out != [] && asst.role == Assistant && CallsTools(asst)
    ensures var a, s, n := st.out, Step(st, asst), |st.out|;
            && Inv(s) && s.pending != []
            && |s.out| == n + (if a[n - 1].side == UserSide then 1 else 0)
            && s.out[|s.out| - 1].side == AssistantSide && s.out[0].side == a[0].side
            && (a[n - 1].side == UserSide ==> s.out[n - 1] == a[n - 1])
  {
    StepKeepsInv(st, asst);
    CallsMakeBlocks(st.counter, asst);
    assert InterruptedAll([]) == [];
    PushCount(st.out, AssistantSide, CallBlocks(st.counter, asst.parts));
  }

  /** The answers to all of them end it on the user side. */
  lemma {:induction false} ToolTurn(st: State, tool: Message)
    requires Inv(st) && st.pending != [] && st.out != [] && st.out[|st.out| - 1].side == AssistantSide
    requires tool.role == Tool && Step(st, tool).pending == []
    ensures var a, s, n := st.out, Step(st, tool), |st.out|;
            && Inv(s) && |s.out| == n + 1 && s.out[n].side == UserSide
            && forall i | 0 <= i < n :: s.out[i] == a[i]
  {
    StepKeepsInv(st, tool);
    var ans := AnswerParts(Answer(st.pending, [], []), tool.parts);
    AnswersGiven(st.pending, tool.parts);
    TwoUserPushes(st.out, ans.results, ans.orphans);
  }

  lemma {:induction false} TwoUserPushes(out: seq<Turn>, x: seq<Block>, y: seq<Block>)
    requires out != [] && out[|out| - 1].side == AssistantSide && x != []
    ensures var r, n := Push(Push(out, UserSide, x), UserSide, y), |out|;
            && |r| == n + 1 && r[n].side == UserSide
            && forall i | 0 <= i < n :: r[i] == out[i]
  {
  }

  /** `b` is `a` one round later: an assistant turn, joined to the last one if that is one,
      and a user turn. */
  ghost predicate RoundLater(a: seq<Turn>, b: seq<Turn>) {
    && a != [] && |b| == |a| + (if a[|a| - 1].side == UserSide then 2 else 1)
    && b[|b| - 1].side == UserSide && b[|b| - 2].side == AssistantSide
    && (a[|a| - 1].side == UserSide ==> b[|a| - 1] == a[|a| - 1])
  }

  lemma {:induction false} RoundPushes(st: State, asst: Message, tool: Message)
    requires Inv(st) && st.pending == [] && st.out != []
    requires asst.role == Assistant && CallsTools(asst) && tool.role == Tool
    requires Step(Step(st, asst), tool).pending == []
    ensures var b := Step(Step(st, asst), tool);
            Inv(b) && RoundLater(st.out, b.out) && b.out[0].side == st.out[0].side
  {
    AsstTurn(st, asst);
    ToolTurn(Step(st, asst), tool);
  }

  lemma {:induction false} AnswersGiven(open: seq<Call>, parts: seq<Part>)
    requires open != [] && AnswerParts(Answer(open, [], []), parts).pending == []
    ensures AnswerParts(Answer(open, [], []), parts).results != []
  {
    ResultsAnswerByPosition(open, parts);
  }

  /** The turns of the transcript, one round later. */
  lemma {:induction false} RoundTurns(h: seq<Message>, asst: Message, tool: Message)
    requires OpenCalls(h) == 0 && IsRound(h, asst, tool) && Convert(h, false) != []
    ensures RoundLater(Convert(h, false), Convert(h + [asst, tool], false))
  {
    var st := After(h);
    var next := AfterRound(h, asst, tool);
    ConvertIsFinish(h);
    ConvertIsFinish(h + [asst, tool]);
    OpenCallsIsPending(h);
    ClosedFinish(st);
    RoundPushes(st, DropThinking(asst), DropThinking(tool));
    ClosedFinish(next);
    OpenedLater(st.out, next.out);
  }

  lemma {:induction false} AfterRound(h: seq<Message>, asst: Message, tool: Message) returns (next: State)
    requires IsRound(h, asst, tool)
    ensures next == After(h + [asst, tool]) == Step(Step(After(h), DropThinking(asst)), DropThinking(tool))
    ensures next.pending == [] && Inv(After(h)) && CallsTools(DropThinking(asst))
  {
    var a, t := DropThinking(asst), DropThinking(tool);
    next := Step(Step(After(h), a), t);
    AfterConcat(h, [asst, tool]);
    assert Replayed([asst, tool], -1) == [a, t];
    FoldTwo(After(h), a, t);
    OpenCallsIsPending(h + [asst, tool]);
    DropKeepsCalls(asst);
  }

  lemma {:induction false} FoldTwo(st: State, a: Message, b: Message)
    ensures Fold(st, [a, b]) == Step(Step(st, a), b)
  {
    assert [a, b][1..] == [b] && [b][1..] == [];
    assert Fold(Step(st, a), [b]) == Step(Step(st, a), b);
  }

  lemma {:induction false} ClosedFinish(st: State)
    requires Inv(st) && st.pending == []
    ensures Finish(st) == Opened(st.out)
  {
    FinishIsOpened(st);
    assert InterruptedAll([]) == [];
  }

  lemma {:induction false} OpenedAt(out: seq<Turn>, i: nat, k: nat)
    requires i < |out| && k == if out[0].side == AssistantSide then 1 else 0
    ensures |Opened(out)| == |out| + k && Opened(out)[i + k] == out[i]
  {
  }

  lemma {:induction false} OpenedLater(a: seq<Turn>, b: seq<Turn>)
    requires RoundLater(a, b) && a[0].side == b[0].side
    ensures RoundLater(Opened(a), Opened(b))
  {
    var k := if a[0].side == AssistantSide then 1 else 0;
    OpenedAt(a, |a| - 1, k);
    OpenedAt(b, |a| - 1, k);
    OpenedAt(b, |b| - 1, k);
    OpenedAt(b, |b| - 2, k);
  }

  /** `d` is the transcript one round after `c`, and `r` the request made of it. */
  ghost predicate Grown(c: seq<Turn>, d: seq<Turn>, r: seq<Turn>) {
    && c != [] && |d| == |c| + (if c[|c| - 1].side == UserSide then 2 else 1) && |r| >= |d|
    && d[|d| - 2].side == AssistantSide && r[|d| - 2].side == AssistantSide
    && (c[|c| - 1].side == UserSide ==> r[|c| - 1] == c[|c| - 1])
  }

  lemma {:induction false} RoundTurnsAgain(h: seq<Message>, asst: Message, tool: Message, replay: bool)
    requires OpenCalls(h) == 0 && IsRound(h, asst, tool) && Convert(h, replay) != []
    ensures RoundLater(Convert(h, replay), Convert(h + [asst, tool], replay))
  {
    var h2 := h + [asst, tool];
    ReplayAddsThinking(h, replay);
    ReplayAddsThinking(h2, replay);
    RoundTurns(h, asst, tool);
    SameLater(Convert(h, false), Convert(h2, false), Convert(h, replay), Convert(h2, replay));
  }

  lemma {:induction false} SameLater(a: seq<Turn>, b: seq<Turn>, c: seq<Turn>, d: seq<Turn>)
    requires RoundLater(a, b) && AddsThinking(a, c) && AddsThinking(b, d)
    ensures RoundLater(c, d)
  {
  }

  lemma {:induction false} GrownPrefix(c: seq<Turn>, d: seq<Turn>, r: seq<Turn>)
    requires RoundLater(c, d) && PrefixTurns(d, r)
    ensures Grown(c, d, r)
  {
  }

  lemma {:induction false} MarkMoves(c: seq<Turn>, d: seq<Turn>, r: seq<Turn>, p: Position, q: Position)
    requires LastMarkable(c, p) && LastMarkable(d, q) && Grown(c, d, r)
    ensures IsSecondMark(r, q, p) <==> c[|c| - 1].side == UserSide
  {
    if c[|c| - 1].side == UserSide {
      forall b | p.1 < b < |r[p.0].content|
        ensures !Cacheable(r, (p.0, b))
      {
        assert c[p.0].content[b].ThinkingBlock?;
      }
    }
  }

  // ------------------------------------------------------------------------ the theorem

  /** One round after a request, the second mark of the next request is where the first mark
      of the previous one was if and only if that one's history ended on the user side. */
  lemma {:induction false} SecondMarkIsPreviousFirstIff(h: seq<Message>, tail: Message, v: nat, p: Position,
                                                        asst: Message, tool: Message, next: Message, w: nat,
                                                        q: Position, replay: bool)
    requires IsRequest(h, tail, v) && IsFirstMark(Convert(h + [tail], replay), v, p)
    requires IsRound(h, asst, tool) && IsRequest(h + [asst, tool], next, w)
    requires IsFirstMark(Convert(h + [asst, tool] + [next], replay), w, q)
    ensures var c := Convert(h, replay);
            && c != []
            && (IsSecondMark(Convert(h + [asst, tool] + [next], replay), q, p) <==> c[|c| - 1].side == UserSide)
  {
    var h2 := h + [asst, tool];
    FirstMarkIsLast(h, tail, replay, v, p);
    FirstMarkIsLast(h2, next, replay, w, q);
    RoundGrows(h, asst, tool, next, w, replay);
    MarkMoves(Convert(h, replay), Convert(h2, replay), Convert(h2 + [next], replay), p, q);
  }

  lemma {:induction false} RoundGrows(h: seq<Message>, asst: Message, tool: Message, next: Message, w: nat,
                                      replay: bool)
    requires OpenCalls(h) == 0 && IsRound(h, asst, tool) && Convert(h, replay) != []
    requires IsRequest(h + [asst, tool], next, w)
    ensures var h2 := h + [asst, tool];
            Grown(Convert(h, replay), Convert(h2, replay), Convert(h2 + [next], replay))
  {
    var h2 := h + [asst, tool];
    RoundTurnsAgain(h, asst, tool, replay);
    RequestExtends(h2, next, replay, w);
    GrownPrefix(Convert(h, replay), Convert(h2, replay), Convert(h2 + [next], replay));
  }
}
