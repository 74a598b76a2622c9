/** Prefix stability: what a request has sent stays the prefix of later requests, which
    is what prompt caching relies on; and when exactly it does. */
module AnthropicPrefix {
  import opened Text
  import opened Anthropic
  import opened AnthropicProtocol

  /** All blocks in order. */
  function Flat(out: seq<Turn>): seq<Block> {
    if out == [] then [] else Flat(out[..|out| - 1]) + out[|out| - 1].content
  }

  /** Turn by turn: all but the last turn equal, the last one extended. */
  ghost predicate PrefixTurns(a: seq<Turn>, b: seq<Turn>) {
    && |a| <= |b|
    && (forall i | 0 <= i < |a| :: a[i].side == b[i].side && a[i].content <= b[i].content)
    && (forall i | 0 <= i < |a| - 1 :: a[i] == b[i])
  }

  lemma {:induction false} PrefixTransitive(a: seq<Turn>, b: seq<Turn>, c: seq<Turn>)
    requires PrefixTurns(a, b) && PrefixTurns(b, c)
    ensures PrefixTurns(a, c)
  {
    forall i | 0 <= i < |a|
      ensures a[i].content <= c[i].content
    {
      assert a[i].content <= b[i].content && b[i].content <= c[i].content;
    }
  }

  lemma {:induction false} FlatConcat(a: seq<Turn>, b: seq<Turn>)
    ensures Flat(a + b) == Flat(a) + Flat(b)
  {
    if b == [] {
      assert a + b == a;
    } else {
      assert (a + b)[..|a + b| - 1] == a + b[..|b| - 1];
      FlatConcat(a, b[..|b| - 1]);
    }
  }

  lemma {:induction false} PrefixFlat(a: seq<Turn>, b: seq<Turn>)
    requires PrefixTurns(a, b)
    ensures Flat(a) <= Flat(b)
  {
    if a != [] {
      var n := |a| - 1;
      assert a[..n] == b[..n];
      assert b == b[..n] + [b[n]] + b[n + 1..];
      FlatConcat(b[..n] + [b[n]], b[n + 1..]);
      FlatConcat(b[..n], [b[n]]);
      assert Flat([b[n]]) == b[n].content by { assert [b[n]][..0] == []; }
      assert a[n].content <= b[n].content;
    }
  }

  lemma {:induction false} PushExtends(out: seq<Turn>, side: Side, blocks: seq<Block>)
    ensures PrefixTurns(out, Push(out, side, blocks))
    ensures Flat(Push(out, side, blocks)) == Flat(out) + blocks
  {
    PushFlat(out, side, blocks);
    var r := Push(out, side, blocks);
    assert forall i | 0 <= i < |out| - 1 :: r[i] == out[i];
  }

  lemma {:induction false} PushFlat(out: seq<Turn>, side: Side, blocks: seq<Block>)
    ensures Flat(Push(out, side, blocks)) == Flat(out) + blocks
  {
    if blocks == [] {
      assert Flat(out) + [] == Flat(out);
    } else if out != [] && out[|out| - 1].side == side {
      var front, t := out[..|out| - 1], out[|out| - 1];
      FlatSnoc(front, t);
      FlatSnoc(front, Turn(side, t.content + blocks));
      assert out == front + [t];
      AppendAssoc(Flat(front), t.content, blocks);
    } else {
      FlatSnoc(out, Turn(side, blocks));
    }
  }

  lemma {:induction false} FlatSnoc(out: seq<Turn>, t: Turn)
    ensures Flat(out + [t]) == Flat(out) + t.content
  {
    assert (out + [t])[..|out|] == out;
  }

  // ------------------------------------------------------------ steps and folds

  /** The blocks one message adds to the transcript. */
  function Appended(st: State, m: Message): seq<Block> {
    match m.role
    case Tool =>
      var a := AnswerParts(Answer(st.pending, [], []), m.parts);
      a.results + a.orphans
    case Assistant =>
      var c := CallParts(Calls(st.counter, [], [], [], []), m.parts);
      InterruptedAll(st.pending) + (c.leading + c.texts + c.tools)
    case _ => InterruptedAll(st.pending) + UserBlocks(m.parts)
  }

  lemma {:induction false} TwoPushes(out: seq<Turn>, s1: Side, b1: seq<Block>, s2: Side, b2: seq<Block>)
    ensures PrefixTurns(out, Push(Push(out, s1, b1), s2, b2))
    ensures Flat(Push(Push(out, s1, b1), s2, b2)) == Flat(out) + (b1 + b2)
  {
    var mid := Push(out, s1, b1);
    var last := Push(mid, s2, b2);
    PushExtends(out, s1, b1);
    PushExtends(mid, s2, b2);
    PrefixTransitive(out, mid, last);
    AppendAssoc(Flat(out), b1, b2);
  }

  /** Nothing already in the transcript is ever changed or moved: a step appends. */
  lemma {:induction false} StepAppends(st: State, m: Message)
    requires Inv(st)
    ensures PrefixTurns(st.out, Step(st, m).out)
    ensures Flat(Step(st, m).out) == Flat(st.out) + Appended(st, m)
  {
    StepKeepsInv(st, m);
    match m.role
    case Tool =>
      var a := AnswerParts(Answer(st.pending, [], []), m.parts);
      TwoPushes(st.out, UserSide, a.results, UserSide, a.orphans);
    case Assistant =>
      var c := CallParts(Calls(st.counter, [], [], [], []), m.parts);
      TwoPushes(st.out, UserSide, InterruptedAll(st.pending), AssistantSide, c.leading + c.texts + c.tools);
    case _ =>
      TwoPushes(st.out, UserSide, InterruptedAll(st.pending), UserSide, UserBlocks(m.parts));
  }

  lemma {:induction false} FoldAppends(st: State, history: seq<Message>)
    requires Inv(st)
    ensures PrefixTurns(st.out, Fold(st, history).out)
    decreases |history|
  {
    if history != [] {
      var next := Step(st, history[0]);
      StepKeepsInv(st, history[0]);
      StepAppends(st, history[0]);
      FoldAppends(next, history[1..]);
      PrefixTransitive(st.out, next.out, Fold(next, history[1..]).out);
    }
  }

  lemma {:induction false} FoldConcat(st: State, a: seq<Message>, b: seq<Message>)
    ensures Fold(st, a + b) == Fold(Fold(st, a), b)
    decreases |a|
  {
    if a == [] {
      assert a + b == b;
    } else {
      TailOfConcat(a, b);
      FoldConcat(Step(st, a[0]), a[1..], b);
    }
  }

  lemma {:induction false} ReplayedConcat(a: seq<Message>, b: seq<Message>)
    ensures Replayed(a + b, -1) == Replayed(a, -1) + Replayed(b, -1)
  {
  }

  /** The state after a history, without thinking replay. */
  function After(history: seq<Message>): State {
    Fold(EMPTY, Replayed(history, -1))
  }

  lemma {:induction false} AfterConcat(a: seq<Message>, b: seq<Message>)
    ensures After(a + b) == Fold(After(a), Replayed(b, -1))
    ensures Inv(After(a)) && Inv(After(a + b))
  {
    ReplayedConcat(a, b);
    FoldConcat(EMPTY, Replayed(a, -1), Replayed(b, -1));
    assert Inv(EMPTY);
    FoldKeepsInv(EMPTY, Replayed(a, -1));
    FoldKeepsInv(EMPTY, Replayed(a + b, -1));
  }

  lemma {:induction false} ConvertIsFinish(history: seq<Message>)
    ensures Convert(history, false) == Finish(After(history))
  {
  }

  // --------------------------------------------------------------- open rounds

  function CountCalls(parts: seq<Part>): nat {
    if parts == [] then 0 else (if parts[0].CallPart? then 1 else 0) + CountCalls(parts[1..])
  }

  function CountResults(parts: seq<Part>): nat {
    if parts == [] then 0 else (if parts[0].ResultPart? then 1 else 0) + CountResults(parts[1..])
  }

  /** Calls of the last non-tool message that the tool messages after it have not answered. */
  function OpenCalls(history: seq<Message>): nat {
    if history == [] then 0 else
    var m := history[|history| - 1];
    match m.role
    case Tool =>
      var before := OpenCalls(history[..|history| - 1]);
      if before < CountResults(m.parts) then 0 else before - CountResults(m.parts)
    case Assistant => CountCalls(m.parts)
    case _ => 0
  }

  lemma {:induction false} AnswersCount(a: Answer, parts: seq<Part>)
    ensures |AnswerParts(a, parts).pending|
            == if |a.pending| < CountResults(parts) then 0 else |a.pending| - CountResults(parts)
    decreases |parts|
  {
    if parts != [] {
      AnswersCount(AnswerPart(a, parts[0]), parts[1..]);
    }
  }

  lemma {:induction false} CallsCount(c: Calls, parts: seq<Part>)
    ensures |CallParts(c, parts).pending| == |c.pending| + CountCalls(parts)
    decreases |parts|
  {
    if parts != [] {
      CallsCount(CallPartStep(c, parts[0]), parts[1..]);
    }
  }

  lemma {:induction false} DropKeepsCounts(parts: seq<Part>, dropped: seq<Part>)
    requires |dropped| == |parts| && forall i | 0 <= i < |parts| :: dropped[i] == DropPartThinking(parts[i])
    ensures CountCalls(dropped) == CountCalls(parts) && CountResults(dropped) == CountResults(parts)
  {
    if parts != [] {
      DropKeepsCounts(parts[1..], dropped[1..]);
    }
  }

  lemma {:induction false} OpenCallsIsPending(history: seq<Message>)
    ensures |After(history).pending| == OpenCalls(history)
  {
    if history != [] {
      var init, m := history[..|history| - 1], history[|history| - 1];
      assert history == init + [m];
      OpenCallsIsPending(init);
      AfterConcat(init, [m]);
      var d := DropThinking(m);
      assert Replayed([m], -1) == [d];
      assert Fold(After(init), [d]) == Step(After(init), d);
      DropKeepsCounts(m.parts, d.parts);
      AnswersCount(Answer(After(init).pending, [], []), d.parts);
      CallsCount(Calls(After(init).counter, [], [], [], []), d.parts);
    }
  }

  // ------------------------------------------------------------- the theorems

  const OPENING := Turn(UserSide, [TextBlock("[Earlier conversation context was omitted.]")])

  function Opened(out: seq<Turn>): seq<Turn> {
    if out != [] && out[0].side == AssistantSide then [OPENING] + out else out
  }

  lemma {:induction false} OpenedPrefix(a: seq<Turn>, b: seq<Turn>)
    requires PrefixTurns(a, b)
    ensures PrefixTurns(Opened(a), Opened(b))
  {
    if a != [] {
      assert a[0].side == b[0].side;
      if a[0].side == AssistantSide {
        var oa, ob := [OPENING] + a, [OPENING] + b;
        assert forall i | 0 < i < |oa| :: oa[i] == a[i - 1] && ob[i] == b[i - 1];
      }
    }
  }

  lemma {:induction false} FinishIsOpened(st: State)
    requires Inv(st)
    ensures Finish(st) == Opened(Push(st.out, UserSide, InterruptedAll(st.pending)))
  {
    FlushKeepsInv(st);
  }

  /** With no open round, the transcript of a history is a prefix of the transcript of
      every continuation. */
  lemma {:induction false} PrefixStable(a: seq<Message>, b: seq<Message>)
    requires OpenCalls(a) == 0
    ensures PrefixTurns(Convert(a, false), Convert(a + b, false))
    ensures Flat(Convert(a, false)) <= Flat(Convert(a + b, false))
  {
    AfterConcat(a, b);
    OpenCallsIsPending(a);
    var sa, sb := After(a), After(a + b);
    FoldAppends(sa, Replayed(b, -1));
    FinishIsOpened(sa);
    FinishIsOpened(sb);
    var fb := Push(sb.out, UserSide, InterruptedAll(sb.pending));
    PushExtends(sb.out, UserSide, InterruptedAll(sb.pending));
    PrefixTransitive(sa.out, sb.out, fb);
    OpenedPrefix(sa.out, fb);
    PrefixFlat(Convert(a, false), Convert(a + b, false));
  }

  /** An empty result for the oldest open call. */
  const ANSWER := Message(Tool, [ResultPart("", "", [])])

  function Lead(out: seq<Turn>): seq<Block> {
    if out != [] && out[0].side == AssistantSide then OPENING.content else []
  }

  lemma {:induction false} FlatOpenedPush(out: seq<Turn>, more: seq<Block>)
    ensures Flat(Opened(Push(out, UserSide, more))) == Flat(Opened(out)) + more
  {
    var r := Push(out, UserSide, more);
    PushExtends(out, UserSide, more);
    if out != [] && out[0].side == AssistantSide {
      assert r[0].side == AssistantSide;
      FlatConcat([OPENING], out);
      FlatConcat([OPENING], r);
    }
  }

  lemma {:induction false} FlatOpened(out: seq<Turn>)
    ensures Flat(Opened(out)) == Lead(out) + Flat(out)
  {
    FlatConcat([OPENING], out);
    assert [OPENING][..0] == [];
    assert Flat([OPENING]) == OPENING.content;
  }

  lemma {:induction false} FinishFlat(st: State)
    requires Inv(st)
    ensures Flat(Finish(st)) == Lead(st.out) + Flat(st.out) + InterruptedAll(st.pending)
  {
    FinishIsOpened(st);
    FlatOpenedPush(st.out, InterruptedAll(st.pending));
    FlatOpened(st.out);
  }

  lemma {:induction false} AnswerStep(st: State)
    requires Inv(st) && st.pending != []
    ensures var n := Step(st, ANSWER);
            && st.out != [] && n.out != [] && n.out[0].side == st.out[0].side
            && Flat(n.out) == Flat(st.out) + [ToolResult(st.pending[0].id, false, "", [])]
  {
    StepAppends(st, ANSWER);
    assert ANSWER.parts[1..] == [];
    assert Appended(st, ANSWER) == [ToolResult(st.pending[0].id, false, "", [])];
  }

  lemma {:induction false} FirstDifference(lead: seq<Block>, f: seq<Block>, x: seq<Block>, y: Block, rest: seq<Block>)
    requires x != [] && x[0] != y
    ensures !(lead + f + x <= lead + (f + [y]) + rest)
  {
    var k := |lead| + |f|;
    assert (lead + f + x)[k] == x[0] && (lead + (f + [y]) + rest)[k] == y;
  }

  lemma {:induction false} AnswerReplacesPlaceholder(st: State)
    requires Inv(st) && st.pending != []
    ensures !PrefixTurns(Finish(st), Finish(Step(st, ANSWER)))
  {
    var next := Step(st, ANSWER);
    AnswerStep(st);
    StepKeepsInv(st, ANSWER);
    FinishFlat(st);
    FinishFlat(next);
    FirstDifference(Lead(st.out), Flat(st.out), InterruptedAll(st.pending),
                    ToolResult(st.pending[0].id, false, "", []), InterruptedAll(next.pending));
    if PrefixTurns(Finish(st), Finish(next)) {
      PrefixFlat(Finish(st), Finish(next));
    }
  }

  /** With an open round, the placeholder sent for an unanswered call is replaced as soon
      as the answer arrives. */
  lemma {:induction false} OpenRoundIsNotStable(a: seq<Message>)
    requires OpenCalls(a) > 0
    ensures !PrefixTurns(Convert(a, false), Convert(a + [ANSWER], false))
  {
    OpenCallsIsPending(a);
    AfterConcat(a, [ANSWER]);
    assert Replayed([ANSWER], -1) == [ANSWER] by { assert DropThinking(ANSWER).parts == ANSWER.parts; }
    assert Fold(After(a), [ANSWER]) == Step(After(a), ANSWER);
    AnswerReplacesPlaceholder(After(a));
    ConvertIsFinish(a);
    ConvertIsFinish(a + [ANSWER]);
  }

  /** Exactly when a request's transcript survives: no call of the last round is open. */
  lemma {:induction false} PrefixStableIff(a: seq<Message>)
    ensures (forall b: seq<Message> :: PrefixTurns(Convert(a, false), Convert(a + b, false)))
            <==> OpenCalls(a) == 0
  {
    if OpenCalls(a) == 0 {
      forall b: seq<Message>
        ensures PrefixTurns(Convert(a, false), Convert(a + b, false))
      {
        PrefixStable(a, b);
      }
    } else {
      OpenRoundIsNotStable(a);
    }
  }
}
