/** Cache breakpoints: where a request marks its history, and why the marked prefix is
    found again in the next request. A mark is a position (turn, block). */
module AnthropicCache {
  import opened Text
  import opened Anthropic
  import opened AnthropicProtocol
  import opened AnthropicPrefix

  type Position = (nat, nat)

  function TurnPositions(mi: nat, n: nat): (r: seq<Position>)
    ensures |r| == n && forall k | 0 <= k < n :: r[k] == (mi, k)
  {
    seq(n, k requires 0 <= k < n => (mi, k))
  }

  /** The positions of all blocks, in order. */
  function Positions(messages: seq<Turn>): seq<Position> {
    if messages == [] then []
    else
      var n := |messages| - 1;
      Positions(messages[..n]) + TurnPositions(n, |messages[n].content|)
  }

  predicate InRange(messages: seq<Turn>, p: Position) {
    p.0 < |messages| && p.1 < |messages[p.0].content|
  }

  function At(messages: seq<Turn>, p: Position): Block
    requires InRange(messages, p)
  {
    messages[p.0].content[p.1]
  }

  predicate Cacheable(messages: seq<Turn>, p: Position) {
    InRange(messages, p) && !At(messages, p).ThinkingBlock?
  }

  /** Positions enumerate the flattened blocks. */
  lemma {:induction false} PositionsAreFlat(messages: seq<Turn>)
    ensures |Positions(messages)| == |Flat(messages)|
    ensures forall j | 0 <= j < |Positions(messages)| ::
              InRange(messages, Positions(messages)[j]) && At(messages, Positions(messages)[j]) == Flat(messages)[j]
  {
    if messages != [] {
      var n := |messages| - 1;
      PositionsAreFlat(messages[..n]);
      forall j | 0 <= j < |Positions(messages)|
        ensures InRange(messages, Positions(messages)[j])
                && At(messages, Positions(messages)[j]) == Flat(messages)[j]
      {
        if j < |Positions(messages[..n])| {
          assert InRange(messages[..n], Positions(messages[..n])[j]);
        }
      }
    }
  }

  lemma {:induction false} PositionsConcat(a: seq<Turn>, b: seq<Turn>)
    ensures Positions(a) <= Positions(a + b)
  {
    if b == [] {
      assert a + b == a;
    } else {
      assert (a + b)[..|a + b| - 1] == a + b[..|b| - 1];
      PositionsConcat(a, b[..|b| - 1]);
    }
  }

  lemma {:induction false} PositionsPrefix(a: seq<Turn>, b: seq<Turn>)
    requires PrefixTurns(a, b)
    ensures Positions(a) <= Positions(b)
  {
    if a != [] {
      var n := |a| - 1;
      assert b == b[..n + 1] + b[n + 1..];
      PositionsConcat(b[..n + 1], b[n + 1..]);
      assert b[..n + 1][..n] == b[..n] == a[..n];
      assert |a[n].content| <= |b[n].content|;
      assert TurnPositions(n, |a[n].content|) <= TurnPositions(n, |b[n].content|);
    }
  }

  // ------------------------------------------------- _mark_history_breakpoints

  /** How many blocks precede the volatile tail. */
  function StableCount(messages: seq<Turn>, volatileBlocks: nat): (n: nat)
    requires messages != []
  {
    var total := |Positions(messages)|;
    var skip := if messages[|messages| - 1].side == UserSide then volatileBlocks else 0;
    if total < skip then 0 else total - skip
  }

  /** The last stable position that can be marked. */
  ghost predicate IsFirstMark(messages: seq<Turn>, volatileBlocks: nat, p: Position) {
    messages != [] &&
    exists j | 0 <= j < StableCount(messages, volatileBlocks) ::
      && p == Positions(messages)[j] && Cacheable(messages, p)
      && forall k | j < k < StableCount(messages, volatileBlocks) :: !Cacheable(messages, Positions(messages)[k])
  }

  /** The last markable block of the nearest user turn before the first mark. */
  ghost predicate IsSecondMark(messages: seq<Turn>, first: Position, p: Position) {
    && Cacheable(messages, p) && p.0 < first.0 <= |messages|
    && messages[p.0].side == UserSide
    && (forall i | p.0 < i < first.0 :: messages[i].side != UserSide)
    && forall b | p.1 < b < |messages[p.0].content| :: !Cacheable(messages, (p.0, b))
  }

  method MarkHistoryBreakpoints(messages: seq<Turn>, volatileBlocks: nat) returns (marked: seq<Position>)
    ensures |marked| <= 2
    ensures forall p | p in marked :: Cacheable(messages, p)
    ensures |marked| >= 1 ==> IsFirstMark(messages, volatileBlocks, marked[0])
    ensures |marked| == 2 ==> IsSecondMark(messages, marked[0], marked[1])
    ensures marked == [] ==> forall p :: !IsFirstMark(messages, volatileBlocks, p)
    ensures |marked| == 1 ==> forall p :: !IsSecondMark(messages, marked[0], p)
  {
    marked := [];
    PositionsAreFlat(messages);
    var positions := Positions(messages);
    if positions == [] {
      return;
    }
    var count := StableCount(messages, volatileBlocks);
    var j := count;
    while j > 0 && marked == []
      invariant 0 <= j <= count && |marked| <= 1
      invariant marked == [] ==> forall k | j <= k < count :: !Cacheable(messages, positions[k])
      invariant marked != [] ==> Cacheable(messages, marked[0])
                                 && IsFirstMark(messages, volatileBlocks, marked[0])
      decreases j, |marked| == 0
    {
      j := j - 1;
      if Cacheable(messages, positions[j]) {
        marked := [positions[j]];
      }
    }
    if marked != [] {
      var second := PreviousUserMark(messages, marked[0]);
      if second.Some? {
        marked := marked + [second.value];
      }
    }
  }

  method PreviousUserMark(messages: seq<Turn>, first: Position) returns (mark: Option<Position>)
    requires InRange(messages, first)
    ensures mark.Some? ==> IsSecondMark(messages, first, mark.value)
    ensures mark.None? ==> forall p :: !IsSecondMark(messages, first, p)
  {
    var mi := first.0;
    while mi > 0 && messages[mi - 1].side != UserSide
      invariant 0 <= mi <= first.0
      invariant forall i | mi <= i < first.0 :: messages[i].side != UserSide
    {
      mi := mi - 1;
    }
    if mi == 0 {
      return None;
    }
    mi := mi - 1;
    var bi := |messages[mi].content|;
    while bi > 0
      invariant 0 <= bi <= |messages[mi].content|
      invariant forall b | bi <= b < |messages[mi].content| :: !Cacheable(messages, (mi, b))
    {
      bi := bi - 1;
      if Cacheable(messages, (mi, bi)) {
        return Some((mi, bi));
      }
    }
    mark := None;
  }

  /** Block `j` of a transcript can be marked: it is no thinking, and in a transcript that
      ends on the user side at least the volatile blocks come behind it. */
  predicate Stable(messages: seq<Turn>, volatileBlocks: nat, j: nat) {
    && j < |Flat(messages)| && !Flat(messages)[j].ThinkingBlock?
    && (messages[|messages| - 1].side == UserSide ==> |Flat(messages)| - 1 - j >= volatileBlocks)
  }

  /** The first mark is the last block that can be marked. */
  lemma {:induction false} FirstMarkIff(messages: seq<Turn>, volatileBlocks: nat, p: Position)
    ensures IsFirstMark(messages, volatileBlocks, p) <==>
            exists j: nat :: && j < |Positions(messages)| && p == Positions(messages)[j]
                             && Stable(messages, volatileBlocks, j)
                             && forall k: nat | j < k :: !Stable(messages, volatileBlocks, k)
  {
    PositionsAreFlat(messages);
    if messages != [] {
      var count := StableCount(messages, volatileBlocks);
      assert forall j: nat :: Stable(messages, volatileBlocks, j)
                              <==> j < count && Cacheable(messages, Positions(messages)[j]);
      if IsFirstMark(messages, volatileBlocks, p) {
        var j :| 0 <= j < count && p == Positions(messages)[j] && Cacheable(messages, p)
                 && forall k | j < k < count :: !Cacheable(messages, Positions(messages)[k]);
        assert Stable(messages, volatileBlocks, j);
      }
    }
  }

  // --------------------------------------------------------------- the request

  /** The marks of one request: on the tools, the system prompt, the history, or the
      automatic one on its last block. */
  datatype Marks = Marks(tools: bool, system: bool, history: seq<Position>, auto: bool) {
    function Count(): nat {
      (if tools then 1 else 0) + (if system then 1 else 0) + |history| + (if auto then 1 else 0)
    }
  }

  method BuildMarks(messages: seq<Turn>, hasSystem: bool, hasTools: bool,
                    cacheSystem: bool, cacheTools: bool, autoCache: bool, volatileBlocks: nat)
    returns (m: Marks)
    ensures m.Count() <= 4
    ensures m.tools == (hasTools && cacheTools) && m.system == (hasSystem && cacheSystem)
    ensures var cacheTail := (cacheSystem || cacheTools) && autoCache;
            && (m.auto <==> cacheTail && volatileBlocks == 0)
            && (m.history != [] ==>
                  cacheTail && volatileBlocks > 0 && IsFirstMark(messages, volatileBlocks, m.history[0]))
            && (m.history == [] && cacheTail && volatileBlocks > 0 ==>
                  forall p :: !IsFirstMark(messages, volatileBlocks, p))
            && (|m.history| == 1 ==> forall p :: !IsSecondMark(messages, m.history[0], p))
            && (|m.history| == 2 ==> IsSecondMark(messages, m.history[0], m.history[1]))
  {
    var cacheTail := (cacheSystem || cacheTools) && autoCache;
    m := Marks(hasTools && cacheTools, hasSystem && cacheSystem, [], false);
    if cacheTail && volatileBlocks > 0 {
      var marked := MarkHistoryBreakpoints(messages, volatileBlocks);
      m := m.(history := marked);
    } else if cacheTail {
      m := m.(auto := true);
    }
  }

  // ------------------------------------------------------------- reappearance

  /** A message that only adds user content: the runtime-state block at the end. */
  predicate IsUserTail(m: Message) {
    m.role != Tool && m.role != Assistant
  }

  /** A request is a closed history followed by the runtime state: the state comes last
      and takes exactly its own blocks. */
  lemma {:induction false} TailAddsItsBlocks(h: seq<Message>, tail: Message)
    requires OpenCalls(h) == 0 && IsUserTail(tail)
    ensures Flat(Convert(h + [tail], false)) == Flat(Convert(h, false)) + UserBlocks(tail.parts)
  {
    OpenCallsIsPending(h);
    AfterConcat(h, [tail]);
    DropKeepsUserBlocks(tail);
    var d := DropThinking(tail);
    assert Replayed([tail], -1) == [d];
    assert Fold(After(h), [d]) == Step(After(h), d);
    TailStep(After(h), d);
    ConvertIsFinish(h);
    ConvertIsFinish(h + [tail]);
  }

  lemma {:induction false} DropKeepsUserBlocks(m: Message)
    ensures UserBlocks(DropThinking(m).parts) == UserBlocks(m.parts)
  {
    DroppedUserBlocks(m.parts, DropThinking(m).parts);
  }

  lemma {:induction false} TailOut(st: State, tail: Message)
    requires Inv(st) && st.pending == [] && IsUserTail(tail)
    ensures Step(st, tail).out == Push(st.out, UserSide, UserBlocks(tail.parts))
    ensures Step(st, tail).pending == [] && Inv(Step(st, tail))
    ensures Finish(Step(st, tail)) == Opened(Push(st.out, UserSide, UserBlocks(tail.parts)))
    ensures Finish(st) == Opened(st.out)
  {
    StepKeepsInv(st, tail);
    FinishIsOpened(st);
    FinishIsOpened(Step(st, tail));
  }

  lemma {:induction false} TailStep(st: State, tail: Message)
    requires Inv(st) && st.pending == [] && IsUserTail(tail)
    ensures Flat(Finish(Step(st, tail))) == Flat(Finish(st)) + UserBlocks(tail.parts)
  {
    TailOut(st, tail);
    FlatOpenedPush(st.out, UserBlocks(tail.parts));
  }

  /** Everything up to and including position `p` is the same in both. */
  ghost predicate SameUpTo(a: seq<Turn>, b: seq<Turn>, p: Position) {
    && InRange(a, p) && InRange(b, p)
    && a[..p.0] == b[..p.0] && a[p.0].side == b[p.0].side
    && a[p.0].content[..p.1 + 1] == b[p.0].content[..p.1 + 1]
  }

  lemma {:induction false} InPrefix(c: seq<Turn>, r: seq<Turn>, p: Position)
    requires PrefixTurns(c, r) && InRange(c, p)
    ensures SameUpTo(c, r, p)
  {
    assert c[p.0].content <= r[p.0].content;
  }

  lemma {:induction false} LastTurnIsUser(h: seq<Message>, tail: Message)
    requires OpenCalls(h) == 0 && IsUserTail(tail) && UserBlocks(tail.parts) != []
    ensures var r := Convert(h + [tail], false); r != [] && r[|r| - 1].side == UserSide
  {
    OpenCallsIsPending(h);
    AfterConcat(h, [tail]);
    var d := DropThinking(tail);
    DropKeepsUserBlocks(tail);
    assert Replayed([tail], -1) == [d];
    assert Fold(After(h), [d]) == Step(After(h), d);
    ConvertIsFinish(h + [tail]);
    TailOut(After(h), d);
    OpenedLast(After(h).out, UserBlocks(tail.parts));
  }

  lemma {:induction false} OpenedLast(out: seq<Turn>, more: seq<Block>)
    requires more != []
    ensures var r := Opened(Push(out, UserSide, more)); r != [] && r[|r| - 1].side == UserSide
  {
  }
}
