/** Prefix stability when thinking is replayed: the kept thinking is dropped as soon as a
    later assistant message exists, so a prefix lasts exactly until then. */
module AnthropicReplayPrefix {
  import opened Text
  import opened Anthropic
  import opened AnthropicProtocol
  import opened AnthropicPrefix
  import opened AnthropicReplay
  import opened AnthropicCache

  predicate CarriesThinking(m: Message) {
    exists p | p in m.parts :: p.CallPart? && p.thinking != []
  }

  /** A request for the history replays thinking. */
  predicate KeepsThinking(h: seq<Message>) {
    var k := KeepIndex(h, true);
    k >= 0 && CarriesThinking(h[k])
  }

  predicate NoAssistant(h: seq<Message>) {
    forall i | 0 <= i < |h| :: h[i].role != Assistant
  }

  // ------------------------------------------------------------- what is replayed

  lemma {:induction false} NothingKept(h: seq<Message>)
    requires !KeepsThinking(h)
    ensures Replayed(h, KeepIndex(h, true)) == Replayed(h, -1)
    ensures Convert(h, true) == Convert(h, false)
  {
    var k := KeepIndex(h, true);
    if k >= 0 {
      forall i | 0 <= i < |h[k].parts|
        ensures DropPartThinking(h[k].parts[i]) == h[k].parts[i]
      {
        assert h[k].parts[i] in h[k].parts;
      }
      assert DropThinking(h[k]).parts == h[k].parts;
      assert Replayed(h, k) == Replayed(h, -1);
    }
  }

  lemma {:induction false} LastIs(h: seq<Message>, k: int)
    requires -1 <= k < |h| && (k >= 0 ==> h[k].role == Assistant)
    requires forall i | k < i < |h| :: h[i].role != Assistant
    ensures LastAssistant(h) == k
  {
  }

  /** The latest assistant message of a continuation. */
  lemma {:induction false} KeepInContinuation(a: seq<Message>, b: seq<Message>)
    ensures NoAssistant(b) ==> KeepIndex(a + b, true) == KeepIndex(a, true)
    ensures !NoAssistant(b) ==> KeepIndex(a + b, true) == -1 || KeepIndex(a + b, true) >= |a|
  {
    var h, k := a + b, LastAssistant(a);
    assert forall i | 0 <= i < |a| :: h[i] == a[i];
    assert forall i | |a| <= i < |h| :: h[i] == b[i - |a|];
    if NoAssistant(b) {
      LastIs(h, k);
    } else {
      var i :| 0 <= i < |b| && b[i].role == Assistant;
      assert h[|a| + i] == b[i];
    }
  }

  /** The part of `a` of what a continuation replays. */
  lemma {:induction false} ContinuationSplits(a: seq<Message>, b: seq<Message>) returns (rest: seq<Message>)
    ensures Replayed(a + b, KeepIndex(a + b, true))
            == Replayed(a, if NoAssistant(b) then KeepIndex(a, true) else -1) + rest
  {
    KeepInContinuation(a, b);
    var k := KeepIndex(a + b, true);
    rest := Replayed(b, if k >= |a| then k - |a| else -1);
  }

  // ------------------------------------------------------- continuing any replay

  lemma {:induction false} ReplayKeepsPending(h: seq<Message>, keep: int)
    ensures Inv(Fold(EMPTY, Replayed(h, keep)))
    ensures |Fold(EMPTY, Replayed(h, keep)).pending| == OpenCalls(h)
  {
    var kept, none := Replayed(h, keep), Replayed(h, -1);
    forall i | 0 <= i < |h|
      ensures none[i] == DropThinking(kept[i])
    {
      DropTwice(h[i]);
    }
    assert Inv(EMPTY) && BareState(EMPTY, EMPTY);
    BareFold(EMPTY, EMPTY, kept, none);
    OpenCallsIsPending(h);
  }

  lemma {:induction false} FinishContinues(st: State, rest: seq<Message>)
    requires Inv(st) && st.pending == []
    ensures PrefixTurns(Finish(st), Finish(Fold(st, rest)))
  {
    var n := Fold(st, rest);
    FoldKeepsInv(st, rest);
    FoldAppends(st, rest);
    FinishIsOpened(st);
    FinishIsOpened(n);
    var pushed := Push(n.out, UserSide, InterruptedAll(n.pending));
    PushExtends(n.out, UserSide, InterruptedAll(n.pending));
    PrefixTransitive(st.out, n.out, pushed);
    OpenedPrefix(st.out, pushed);
  }

  /** What has been sent stays at the front of whatever follows. */
  lemma {:induction false} FinishStarts(st: State, rest: seq<Message>)
    requires Inv(st) && st.out != []
    ensures Lead(st.out) + Flat(st.out) <= Flat(Finish(Fold(st, rest)))
  {
    var n := Fold(st, rest);
    FoldKeepsInv(st, rest);
    FoldAppends(st, rest);
    PrefixFlat(st.out, n.out);
    FinishFlat(n);
    SameLead(st.out, n.out);
    PrefixThen(Lead(st.out), Flat(st.out), Flat(n.out), InterruptedAll(n.pending));
  }

  lemma {:induction false} SameLead(a: seq<Turn>, b: seq<Turn>)
    requires a != [] && b != [] && a[0].side == b[0].side
    ensures Lead(a) == Lead(b)
  {
  }

  lemma {:induction false} PrefixThen(lead: seq<Block>, a: seq<Block>, b: seq<Block>, more: seq<Block>)
    requires a <= b
    ensures lead + a <= lead + b + more
  {
    assert lead + b + more == lead + a + (b[|a|..] + more);
  }

  // ------------------------------------------------------ where the thinking stands

  lemma {:induction false} CallsThink(c: Calls, parts: seq<Part>)
    ensures var d := CallParts(c, parts);
            && ((exists p | p in parts :: p.CallPart?) || c.tools != [] ==> d.tools != [])
            && ((c.tools != [] ==> c.tools[|c.tools| - 1].ToolUse?) ==>
                  (d.tools != [] ==> d.tools[|d.tools| - 1].ToolUse?))
            && (!NoThinking(c.leading) || !NoThinking(c.tools)
                || (exists p | p in parts :: p.CallPart? && p.thinking != []) ==>
                  !NoThinking(d.leading) || !NoThinking(d.tools))
    decreases |parts|
  {
    if parts != [] {
      var next := CallPartStep(c, parts[0]);
      CallThinks(c, parts[0]);
      CallsThink(next, parts[1..]);
      assert forall p | p in parts :: p == parts[0] || p in parts[1..];
    }
  }

  lemma {:induction false} CallThinks(c: Calls, p: Part)
    ensures var d := CallPartStep(c, p);
            && (p.CallPart? || c.tools != [] ==> d.tools != [])
            && ((c.tools != [] ==> c.tools[|c.tools| - 1].ToolUse?) ==>
                  (d.tools != [] ==> d.tools[|d.tools| - 1].ToolUse?))
            && (!NoThinking(c.leading) || !NoThinking(c.tools) || (p.CallPart? && p.thinking != []) ==>
                  !NoThinking(d.leading) || !NoThinking(d.tools))
  {
    var d := CallPartStep(c, p);
    assert c.leading <= d.leading && c.tools <= d.tools;
    if !NoThinking(c.leading) {
      var i :| 0 <= i < |c.leading| && c.leading[i].ThinkingBlock?;
      assert d.leading[i].ThinkingBlock?;
    }
    if !NoThinking(c.tools) {
      var i :| 0 <= i < |c.tools| && c.tools[i].ThinkingBlock?;
      assert d.tools[i].ThinkingBlock?;
    }
    if p.CallPart? && p.thinking != [] {
      assert ThinkingBlocks(p.thinking)[0].ThinkingBlock?;
      if c.tools == [] {
        assert d.leading[|c.leading|].ThinkingBlock?;
      } else {
        assert d.tools[|c.tools|].ThinkingBlock?;
      }
    }
  }

  /** The blocks of an assistant message. */
  function CallBlocks(counter: nat, parts: seq<Part>): seq<Block> {
    var c := CallParts(Calls(counter, [], [], [], []), parts);
    c.leading + c.texts + c.tools
  }

  /** So it is for one with a call that carries thinking. */
  lemma {:induction false} KeptBlocks(counter: nat, m: Message)
    requires CarriesThinking(m)
    ensures var blocks := CallBlocks(counter, m.parts);
            && blocks != [] && blocks[|blocks| - 1].ToolUse? && !NoThinking(blocks)
            && Bare(blocks) == CallBlocks(counter, DropThinking(m).parts)
  {
    var start := Calls(counter, [], [], [], []);
    var c := CallParts(start, m.parts);
    CallsThink(start, m.parts);
    BareCallParts(start, start, m.parts, DropThinking(m).parts);
    BareBlocks(c, CallParts(start, DropThinking(m).parts));
    ThinkingWithin(c.leading, c.texts, c.tools);
  }

  lemma {:induction false} ThinkingWithin(a: seq<Block>, b: seq<Block>, c: seq<Block>)
    requires !NoThinking(a) || !NoThinking(c)
    ensures !NoThinking(a + b + c) && (c != [] ==> (a + b + c)[|a + b + c| - 1] == c[|c| - 1])
  {
    var all := a + b + c;
    if !NoThinking(a) {
      var i :| 0 <= i < |a| && a[i].ThinkingBlock?;
      assert all[i].ThinkingBlock?;
    } else {
      var i :| 0 <= i < |c| && c[i].ThinkingBlock?;
      assert all[|a| + |b| + i].ThinkingBlock?;
    }
  }

  /** Without its thinking the sequence differs at the place of the first thinking. */
  lemma {:induction false} FirstThinking(bs: seq<Block>) returns (j: nat)
    requires !NoThinking(bs) && !bs[|bs| - 1].ThinkingBlock?
    ensures j < |bs| - 1 && j < |Bare(bs)| && bs[j].ThinkingBlock? && !Bare(bs)[j].ThinkingBlock?
  {
    BareIsPlain(bs);
    if bs[0].ThinkingBlock? {
      j := 0;
      assert bs[1..][|bs| - 2] == bs[|bs| - 1];
      BareKeepsLast(bs[1..]);
    } else {
      var i :| 0 <= i < |bs| && bs[i].ThinkingBlock?;
      assert bs[1..][i - 1] == bs[i];
      j := FirstThinking(bs[1..]);
      j := j + 1;
    }
  }

  lemma {:induction false} BareIsPlain(bs: seq<Block>)
    ensures NoThinking(Bare(bs))
  {
    if bs != [] {
      BareIsPlain(bs[1..]);
    }
  }

  lemma {:induction false} BareKeepsLast(bs: seq<Block>)
    requires bs != [] && !bs[|bs| - 1].ThinkingBlock?
    ensures Bare(bs) != []
  {
    if bs[0].ThinkingBlock? {
      BareKeepsLast(bs[1..]);
    }
  }

  /** Nothing replayed, nothing thought. */
  lemma {:induction false} DroppedIsBare(h: seq<Message>)
    ensures BareState(After(h), After(h)) && Inv(After(h))
  {
    var none := Replayed(h, -1);
    forall i | 0 <= i < |h|
      ensures none[i] == DropThinking(none[i])
    {
      DropTwice(h[i]);
    }
    assert Inv(EMPTY) && BareState(EMPTY, EMPTY);
    BareFold(EMPTY, EMPTY, none, none);
  }

  /** The blocks of the step that replays thinking, and of the same step without it. */
  lemma {:induction false} KeptAppends(st: State, m: Message) returns (blocks: seq<Block>)
    requires Inv(st) && m.role == Assistant && CarriesThinking(m)
    ensures var sent := Flat(st.out) + InterruptedAll(st.pending);
            && Flat(Step(st, m).out) == sent + blocks
            && Flat(Step(st, DropThinking(m)).out) == sent + Bare(blocks)
    ensures blocks != [] && blocks[|blocks| - 1].ToolUse? && !NoThinking(blocks)
  {
    KeptBlocks(st.counter, m);
    AssistantAppends(st, m);
    AssistantAppends(st, DropThinking(m));
    blocks := CallBlocks(st.counter, m.parts);
  }

  lemma {:induction false} StepSides(st: State, m: Message)
    requires Inv(st) && BareState(st, st)
    ensures var s, t := Step(st, m), Step(st, DropThinking(m));
            && Inv(s) && Inv(t) && |s.out| == |t.out|
            && (s.out != [] ==> Lead(s.out) == Lead(t.out))
  {
    StepKeepsInv(st, m);
    StepKeepsInv(st, DropThinking(m));
    BareStep(st, st, m);
    var s, t := Step(st, m), Step(st, DropThinking(m));
    if s.out != [] {
      assert BareTurns(s.out)[0].side == s.out[0].side;
      SameLead(s.out, t.out);
    }
  }

  /** What a state sends before the placeholders. */
  function Sent(st: State): seq<Block> {
    Lead(st.out) + Flat(st.out)
  }

  /** The two steps, behind the same blocks. */
  lemma {:induction false} KeptStep(st: State, m: Message) returns (before: seq<Block>, blocks: seq<Block>)
    requires Inv(st) && BareState(st, st) && m.role == Assistant && CarriesThinking(m)
    ensures Step(st, m).out != [] && Step(st, DropThinking(m)).out != []
    ensures Sent(Step(st, m)) == before + blocks && Sent(Step(st, DropThinking(m))) == before + Bare(blocks)
    ensures blocks != [] && blocks[|blocks| - 1].ToolUse? && !NoThinking(blocks)
  {
    StepSides(st, m);
    blocks := KeptAppends(st, m);
    var lead, sent := Lead(Step(st, m).out), Flat(st.out) + InterruptedAll(st.pending);
    NotEmpty(Step(st, m).out, blocks, sent);
    before := lead + sent;
    AppendAssoc(lead, sent, blocks);
    AppendAssoc(lead, sent, Bare(blocks));
  }

  lemma {:induction false} AssistantAppends(st: State, m: Message)
    requires Inv(st) && m.role == Assistant
    ensures Flat(Step(st, m).out) == Flat(st.out) + InterruptedAll(st.pending) + CallBlocks(st.counter, m.parts)
  {
    StepAppends(st, m);
    AppendAssoc(Flat(st.out), InterruptedAll(st.pending), CallBlocks(st.counter, m.parts));
  }

  lemma {:induction false} NotEmpty(out: seq<Turn>, blocks: seq<Block>, before: seq<Block>)
    requires blocks != [] && Flat(out) == before + blocks
    ensures out != []
  {
  }

  /** `f` ends with a call and has thinking where `g` has none. */
  ghost predicate Differs(f: seq<Block>, g: seq<Block>, d: nat) {
    && d < |f| - 1 && d < |g| && f[|f| - 1].ToolUse?
    && f[d].ThinkingBlock? && !g[d].ThinkingBlock?
  }

  lemma {:induction false} SplitDiffers(before: seq<Block>, blocks: seq<Block>, f: seq<Block>, g: seq<Block>)
    returns (d: nat)
    requires blocks != [] && blocks[|blocks| - 1].ToolUse? && !NoThinking(blocks)
    requires f == before + blocks && g == before + Bare(blocks)
    ensures Differs(f, g, d)
  {
    var j, n, bare := FirstThinkingIn(blocks);
    Behind(before, blocks, j);
    Behind(before, blocks, n);
    Behind(before, bare, j);
    d := |before| + j;
  }

  lemma {:induction false} FirstThinkingIn(blocks: seq<Block>) returns (j: nat, n: nat, bare: seq<Block>)
    requires blocks != [] && blocks[|blocks| - 1].ToolUse? && !NoThinking(blocks)
    ensures j < n == |blocks| - 1 && bare == Bare(blocks) && j < |bare|
    ensures blocks[n].ToolUse? && blocks[j].ThinkingBlock? && !bare[j].ThinkingBlock?
  {
    j := FirstThinking(blocks);
    n, bare := |blocks| - 1, Bare(blocks);
  }

  lemma {:induction false} Behind(before: seq<Block>, bs: seq<Block>, i: nat)
    requires i < |bs|
    ensures (before + bs)[|before| + i] == bs[i]
  {
  }

  /** Thinking of `f` before one of its calls is missing from `g`. */
  ghost predicate Missing(f: seq<Block>, g: seq<Block>, d: nat, e: nat) {
    && d < e < |f| && d < |g| && f[e].ToolUse?
    && f[d].ThinkingBlock? && !g[d].ThinkingBlock?
  }

  lemma {:induction false} DiffersInLonger(f: seq<Block>, g: seq<Block>, d: nat, ff: seq<Block>, gg: seq<Block>)
    requires Differs(f, g, d) && f <= ff && g <= gg
    ensures Missing(ff, gg, d, |f| - 1)
  {
  }

  /** So the two differ at the first thinking, before the last call. */
  lemma {:induction false} KeptStepDiffers(st: State, m: Message) returns (d: nat)
    requires Inv(st) && BareState(st, st) && m.role == Assistant && CarriesThinking(m)
    ensures Step(st, m).out != [] && Step(st, DropThinking(m)).out != []
    ensures Differs(Sent(Step(st, m)), Sent(Step(st, DropThinking(m))), d)
  {
    var before, blocks := KeptStep(st, m);
    d := SplitDiffers(before, blocks, Sent(Step(st, m)), Sent(Step(st, DropThinking(m))));
  }

  /** A history whose thinking is replayed, step by step: up to the message that keeps it,
      that message, and the rest. */
  lemma {:induction false} KeptSplits(a: seq<Message>, kept: bool) returns (tail: seq<Message>)
    requires KeepsThinking(a)
    ensures var k := KeepIndex(a, true);
            Replayed(a, if kept then k else -1)
            == Replayed(a[..k], -1) + ([if kept then a[k] else DropThinking(a[k])] + tail)
    ensures tail == Replayed(a[KeepIndex(a, true) + 1..], -1)
  {
    var k := KeepIndex(a, true);
    tail := Replayed(a[k + 1..], -1);
  }

  /** Any continuation starts with what the step at the kept message has sent. */
  lemma {:induction false} ConvertStarts(a: seq<Message>, b: seq<Message>)
    requires KeepsThinking(a)
    ensures var k := KeepIndex(a, true);
            var n := Step(After(a[..k]), if NoAssistant(b) then a[k] else DropThinking(a[k]));
            Inv(n) && (n.out != [] ==> Sent(n) <= Flat(Convert(a + b, true)))
  {
    var k := KeepIndex(a, true);
    var m := if NoAssistant(b) then a[k] else DropThinking(a[k]);
    var tail := KeptSplits(a, NoAssistant(b));
    var rest := ContinuationSplits(a, b);
    AppendAssoc(Replayed(a[..k], -1), [m] + tail, rest);
    AppendAssoc([m], tail, rest);
    Continues(Replayed(a[..k], -1), m, tail + rest);
    DroppedIsBare(a[..k]);
    StepKeepsInv(After(a[..k]), m);
    if Step(After(a[..k]), m).out != [] {
      FinishStarts(Step(After(a[..k]), m), tail + rest);
    }
  }

  lemma {:induction false} StartsHere(a: seq<Message>)
    requires KeepsThinking(a)
    ensures var k := KeepIndex(a, true);
            var n := Step(After(a[..k]), a[k]);
            n.out != [] ==> |Sent(n)| <= |Flat(Convert(a, true))|
  {
    ConvertStarts(a, []);
    assert a + [] == a;
  }

  /** In a continuation with a later assistant message the thinking is gone. */
  lemma {:induction false} ThinkingIsDropped(a: seq<Message>, more: seq<Message>, b: seq<Message>)
    returns (d: nat, e: nat)
    requires KeepsThinking(a) && NoAssistant(more) && !NoAssistant(b)
    ensures Missing(Flat(Convert(a + more, true)), Flat(Convert(a + b, true)), d, e)
    ensures e < |Flat(Convert(a, true))|
  {
    var st, m := After(a[..KeepIndex(a, true)]), a[KeepIndex(a, true)];
    DroppedIsBare(a[..KeepIndex(a, true)]);
    d := KeptStepDiffers(st, m);
    e := |Sent(Step(st, m))| - 1;
    ConvertStarts(a, more);
    ConvertStarts(a, b);
    StartsHere(a);
    DiffersInLonger(Sent(Step(st, m)), Sent(Step(st, DropThinking(m))), d,
                    Flat(Convert(a + more, true)), Flat(Convert(a + b, true)));
  }

  lemma {:induction false} Continues(front: seq<Message>, m: Message, rest: seq<Message>)
    ensures Fold(EMPTY, front + ([m] + rest)) == Fold(Step(Fold(EMPTY, front), m), rest)
  {
    FoldConcat(EMPTY, front, [m] + rest);
    assert ([m] + rest)[1..] == rest;
  }

  // ---------------------------------------------------------------- the theorems

  const PLAIN := Message(Assistant, [])

  /** Thinking that is replayed now is missing from the request after the next turn. */
  lemma {:induction false} KeptThinkingIsNotStable(a: seq<Message>)
    requires KeepsThinking(a)
    ensures !PrefixTurns(Convert(a, true), Convert(a + [PLAIN], true))
  {
    assert a + [] == a && [PLAIN][0].role == Assistant;
    var d, e := ThinkingIsDropped(a, [], [PLAIN]);
    if PrefixTurns(Convert(a, true), Convert(a + [PLAIN], true)) {
      PrefixFlat(Convert(a, true), Convert(a + [PLAIN], true));
    }
  }

  lemma {:induction false} ClosedPrefixStable(a: seq<Message>, b: seq<Message>)
    requires OpenCalls(a) == 0 && (!KeepsThinking(a) || NoAssistant(b))
    ensures PrefixTurns(Convert(a, true), Convert(a + b, true))
  {
    var k := KeepIndex(a, true);
    var st := Fold(EMPTY, Replayed(a, k));
    if !KeepsThinking(a) {
      NothingKept(a);
    }
    var rest := ContinuationSplits(a, b);
    ReplayKeepsPending(a, k);
    FoldConcat(EMPTY, Replayed(a, k), rest);
    FinishContinues(st, rest);
  }

  /** With replay, as the provider sends it: the transcript of a history stays a prefix
      under every continuation if and only if no call is open and no thinking is replayed. */
  lemma {:induction false} ReplayPrefixStableIff(a: seq<Message>)
    ensures (forall b: seq<Message> :: PrefixTurns(Convert(a, true), Convert(a + b, true)))
            <==> OpenCalls(a) == 0 && !KeepsThinking(a)
  {
    if KeepsThinking(a) {
      KeptThinkingIsNotStable(a);
    } else if OpenCalls(a) > 0 {
      NothingKept(a);
      KeepInContinuation(a, [ANSWER]);
      assert !KeepsThinking(a + [ANSWER]) by {
        assert KeepIndex(a, true) >= 0 ==> (a + [ANSWER])[KeepIndex(a, true)] == a[KeepIndex(a, true)];
      }
      NothingKept(a + [ANSWER]);
      OpenRoundIsNotStable(a);
    } else {
      forall b: seq<Message>
        ensures PrefixTurns(Convert(a, true), Convert(a + b, true))
      {
        ClosedPrefixStable(a, b);
      }
    }
  }

  // ---------------------------------------------------------------- marked prefixes

  /** A request is a closed history followed by the runtime state, with replay. */
  lemma {:induction false} TailFollows(h: seq<Message>, tail: Message)
    requires OpenCalls(h) == 0 && IsUserTail(tail) && UserBlocks(tail.parts) != []
    ensures Flat(Convert(h + [tail], true)) == Flat(Convert(h, true)) + UserBlocks(tail.parts)
    ensures var r := Convert(h + [tail], true); r != [] && r[|r| - 1].side == UserSide
  {
    var st, d := Fold(EMPTY, Replayed(h, KeepIndex(h, true))), DropThinking(tail);
    ReplayKeepsPending(h, KeepIndex(h, true));
    TailConverts(h, tail);
    DropKeepsUserBlocks(tail);
    TailStep(st, d);
    TailOut(st, d);
    OpenedLast(st.out, UserBlocks(d.parts));
  }

  lemma {:induction false} TailConverts(h: seq<Message>, tail: Message)
    requires IsUserTail(tail)
    ensures Convert(h + [tail], true)
            == Finish(Step(Fold(EMPTY, Replayed(h, KeepIndex(h, true))), DropThinking(tail)))
  {
    var k, d := KeepIndex(h, true), DropThinking(tail);
    KeepInContinuation(h, [tail]);
    assert Replayed(h + [tail], k) == Replayed(h, k) + ([d] + []);
    Continues(Replayed(h, k), d, []);
  }

  /** The blocks up to and including a position. */
  lemma {:induction false} FlatUpTo(messages: seq<Turn>, j: nat)
    requires j < |Positions(messages)|
    ensures var p := Positions(messages)[j];
            && InRange(messages, p) && j < |Flat(messages)|
            && Flat(messages)[..j + 1] == Flat(messages[..p.0]) + messages[p.0].content[..p.1 + 1]
  {
    PositionsAreFlat(messages);
    var n := |messages| - 1;
    PositionsAreFlat(messages[..n]);
    var before := |Positions(messages[..n])|;
    if j < before {
      FlatUpTo(messages[..n], j);
      var p := Positions(messages[..n])[j];
      assert messages[..n][..p.0] == messages[..p.0];
      assert Flat(messages)[..j + 1] == Flat(messages[..n])[..j + 1];
    } else {
      assert Positions(messages)[j] == (n, j - before);
    }
  }

  lemma {:induction false} SameBlocks(a: seq<Turn>, b: seq<Turn>, j: nat)
    requires j < |Positions(a)| && SameUpTo(a, b, Positions(a)[j])
    ensures j < |Flat(a)| && j < |Flat(b)| && forall i | 0 <= i <= j :: Flat(a)[i] == Flat(b)[i]
  {
    var p := Positions(a)[j];
    FlatUpTo(a, j);
    var same, more := b[p.0].content[..p.1 + 1], b[p.0].content[p.1 + 1..];
    assert b == b[..p.0] + [b[p.0]] + b[p.0 + 1..] && b[p.0].content == same + more;
    FlatConcat(b[..p.0] + [b[p.0]], b[p.0 + 1..]);
    FlatSnoc(b[..p.0], b[p.0]);
    SharedFront(Flat(a), j + 1, Flat(b[..p.0]) + same, more + Flat(b[p.0 + 1..]));
    assert Flat(b) == Flat(b[..p.0]) + same + (more + Flat(b[p.0 + 1..]));
  }

  lemma {:induction false} SharedFront(a: seq<Block>, n: nat, front: seq<Block>, more: seq<Block>)
    requires n <= |a| && a[..n] == front
    ensures |front| == n && forall i | 0 <= i < n :: a[i] == (front + more)[i]
  {
    forall i | 0 <= i < n
      ensures a[i] == (front + more)[i]
    {
      assert a[i] == a[..n][i];
    }
  }

  /** The first mark is at or behind every cacheable stable block. */
  lemma {:induction false} MarkIsLate(r: seq<Turn>, volatileBlocks: nat, p: Position, e: nat) returns (j: nat)
    requires IsFirstMark(r, volatileBlocks, p) && e < StableCount(r, volatileBlocks) && e < |Flat(r)|
    requires !Flat(r)[e].ThinkingBlock?
    ensures e <= j < StableCount(r, volatileBlocks) && j < |Positions(r)| && Positions(r)[j] == p
  {
    PositionsAreFlat(r);
    j :| 0 <= j < StableCount(r, volatileBlocks) && p == Positions(r)[j]
         && forall k | j < k < StableCount(r, volatileBlocks) :: !Cacheable(r, Positions(r)[k]);
    assert Cacheable(r, Positions(r)[e]);
  }

  lemma {:induction false} MarkedPrefixStays(h: seq<Message>, tail: Message, more: seq<Message>,
                                             volatileBlocks: nat, p: Position)
    requires OpenCalls(h) == 0 && IsUserTail(tail) && |UserBlocks(tail.parts)| == volatileBlocks > 0
    requires IsFirstMark(Convert(h + [tail], true), volatileBlocks, p)
    requires !KeepsThinking(h) || NoAssistant(more)
    ensures SameUpTo(Convert(h + [tail], true), Convert(h + more, true), p)
  {
    var c, r, s := Convert(h, true), Convert(h + [tail], true), Convert(h + more, true);
    TailFollows(h, tail);
    PositionsAreFlat(c);
    PositionsAreFlat(r);
    ClosedPrefixStable(h, [tail]);
    ClosedPrefixStable(h, more);
    PositionsPrefix(c, r);
    var j :| 0 <= j < StableCount(r, volatileBlocks) && p == Positions(r)[j];
    assert j < |Positions(c)| && p == Positions(c)[j];
    InPrefix(c, r, p);
    InPrefix(c, s, p);
  }

  lemma {:induction false} MarkedPrefixGoes(h: seq<Message>, tail: Message, more: seq<Message>,
                                            volatileBlocks: nat, p: Position)
    requires OpenCalls(h) == 0 && IsUserTail(tail) && |UserBlocks(tail.parts)| == volatileBlocks > 0
    requires IsFirstMark(Convert(h + [tail], true), volatileBlocks, p)
    requires KeepsThinking(h) && !NoAssistant(more)
    ensures !SameUpTo(Convert(h + [tail], true), Convert(h + more, true), p)
  {
    var r, s := Convert(h + [tail], true), Convert(h + more, true);
    TailFollows(h, tail);
    PositionsAreFlat(r);
    var d, e := ThinkingIsDropped(h, [tail], more);
    var j := MarkIsLate(r, volatileBlocks, p, e);
    if SameUpTo(r, s, p) {
      SameBlocks(r, s, j);
    }
  }

  /** What the marked prefix is worth under replay: it reappears in a later request exactly
      if no thinking was replayed or no assistant message has come since. */
  lemma {:induction false} MarkedPrefixReappearsIff(h: seq<Message>, tail: Message, more: seq<Message>,
                                                    volatileBlocks: nat, p: Position)
    requires OpenCalls(h) == 0 && IsUserTail(tail) && |UserBlocks(tail.parts)| == volatileBlocks > 0
    requires IsFirstMark(Convert(h + [tail], true), volatileBlocks, p)
    ensures SameUpTo(Convert(h + [tail], true), Convert(h + more, true), p)
            <==> !KeepsThinking(h) || NoAssistant(more)
  {
    if !KeepsThinking(h) || NoAssistant(more) {
      MarkedPrefixStays(h, tail, more, volatileBlocks, p);
    } else {
      MarkedPrefixGoes(h, tail, more, volatileBlocks, p);
    }
  }
}
