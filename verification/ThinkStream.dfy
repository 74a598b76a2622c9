/** The think-tag splitter threaded over a whole stream of content chunks, and when
    the result does not depend on where the stream was cut. */
module ThinkStream {
  import opened Text
  import opened ThinkSplitter

  /** Visible text and thinking text emitted so far, the carried tail, the state. */
  datatype Flow = Flow(text: string, think: string, carry: string, inThink: bool) {
    function Emitted(): Parse {
      Parse(text, think, inThink)
    }

    /** The end of the stream emits the carry in the current state. */
    function Flush(): Parse {
      Emitted().Push(inThink, carry)
    }
  }

  /** One record's content. An empty content leaves everything as it is. */
  function StepContent(ds: Tags, f: Flow, content: string): Flow {
    if content == "" then f else
    var full := f.carry + content;
    var p := Shown(ds, full, f.inThink);
    Flow(f.text + p.text, f.think + p.think, CarryOf(ds, full), p.inThink)
  }

  function RunContents(ds: Tags, contents: seq<string>): Flow {
    if contents == [] then Flow("", "", "", false)
    else StepContent(ds, RunContents(ds, contents[..|contents| - 1]), contents[|contents| - 1])
  }

  /** What a consumer has received when the stream is over. */
  function Received(ds: Tags, contents: seq<string>): Parse {
    RunContents(ds, contents).Flush()
  }

  // ---------------------------------------------------------------- cut points

  /** A stream may be cut after `p`: what `p` ends with is not more than one character
      of the delimiter that is *not* being looked for there. */
  predicate CleanCut(ds: Tags, p: string) {
    HeldLen(p, ds.Of(!Split(ds, p, false).inThink)) <= 1
  }

  /** Every cut of the stream is clean, the one after the last chunk included. */
  predicate CleanCuts(ds: Tags, contents: seq<string>) {
    contents == [] ||
    (CleanCuts(ds, contents[..|contents| - 1]) && CleanCut(ds, Concat(contents)))
  }

  /** Characters carried but not withheld: they were emitted and will be again. */
  function Repeated(ds: Tags, p: string): int {
    CarryLen(ds, p) - Withheld(ds, p, false)
  }

  /** A partial delimiter that is longer than `<` belongs to one delimiter only. */
  lemma {:induction false} HeldByOne(ds: Tags, p: string, b: bool)
    requires HeldLen(p, ds.Of(b)) > 1
    ensures HeldLen(p, ds.Of(!b)) == 0
  {
    var n, m := HeldLen(p, ds.Of(b)), HeldLen(p, ds.Of(!b));
    HeldShape(ds, p, b, n);
    HeldShape(ds, p, !b, m);
  }

  lemma {:induction false} CarryIsWithheldIff(ds: Tags, p: string)
    ensures Repeated(ds, p) >= 0
    ensures Repeated(ds, p) == 0 <==> CleanCut(ds, p)
  {
    var e := Split(ds, p, false).inThink;
    var m, n := HeldLen(p, ds.Of(e)), HeldLen(p, ds.Of(!e));
    if n > 1 {
      HeldByOne(ds, p, !e);
    } else if n == 1 {
      HeldIsLongest(p, ds.Of(e));
      HeldIsLongest(p, ds.Of(!e));
      assert p[|p| - 1 + 0] == ds.Of(!e)[0] == ds.Of(e)[0];
      assert IsHeld(p, ds.Of(e), 1);
    }
  }

  // ------------------------------------------------------- one step, in the large

  lemma {:induction false} CarryHasNoGt(ds: Tags, p: string)
    ensures '>' !in CarryOf(ds, p)
    ensures Withheld(ds, p, false) <= |CarryOf(ds, p)|
    ensures p == p[..|p| - CarryLen(ds, p)] + CarryOf(ds, p)
  {
    HeldShape(ds, p, false, HeldLen(p, ds.open));
    HeldShape(ds, p, true, HeldLen(p, ds.close));
  }

  /** A partial delimiter at the end of `p + c` begins in `c` or in the carry of `p`. */
  lemma {:induction false} HeldReach(ds: Tags, p: string, c: string, w: string, b: bool)
    requires w == p + c
    ensures HeldLen(w, ds.Of(b)) <= CarryLen(ds, p) + |c|
  {
    var d := ds.Of(b);
    var m := HeldLen(w, d);
    if m > |c| {
      HeldIsLongest(w, d);
      HeldInFront(p, c, w, d, m);
      HeldIsLongest(p, d);
    }
  }

  lemma {:induction false} HeldInFront(p: string, c: string, w: string, d: string, m: nat)
    requires w == p + c && IsHeld(w, d, m) && m > |c|
    ensures IsHeld(p, d, m - |c|)
  {
    forall i | 0 <= i < m - |c|
      ensures p[|p| - (m - |c|) + i] == d[i]
    {
      assert w[|w| - m + i] == d[i];
    }
  }

  lemma {:induction false} CarryEnds(ds: Tags, p: string, c: string)
    ensures IsSuffix(CarryOf(ds, p) + c, p + c)
  {
  }

  /** Only the carry of what came before matters for what is held next. */
  lemma {:induction false} HeldIsLocal(ds: Tags, p: string, c: string, b: bool)
    ensures HeldLen(p + c, ds.Of(b)) == HeldLen(CarryOf(ds, p) + c, ds.Of(b))
  {
    HeldReach(ds, p, c, p + c, b);
    CarryEnds(ds, p, c);
    HeldFromHere(p + c, CarryOf(ds, p) + c, ds.Of(b));
  }

  lemma {:induction false} CarryIsLocal(ds: Tags, p: string, c: string)
    ensures CarryOf(ds, p + c) == CarryOf(ds, CarryOf(ds, p) + c)
  {
    var w, x := p + c, CarryOf(ds, p) + c;
    HeldIsLocal(ds, p, c, false);
    HeldIsLocal(ds, p, c, true);
    CarryEnds(ds, p, c);
    SameCarry(ds, w, x);
  }

  lemma {:induction false} SameCarry(ds: Tags, w: string, x: string)
    requires IsSuffix(x, w) && CarryLen(ds, w) == CarryLen(ds, x)
    ensures CarryOf(ds, w) == CarryOf(ds, x)
  {
    SuffixOfSuffix(w, x, CarryLen(ds, w));
  }

  lemma {:induction false} SuffixOfSuffix(w: string, x: string, n: nat)
    requires IsSuffix(x, w) && n <= |x|
    ensures w[|w| - n..] == x[|x| - n..]
  {
    var a, b := w[|w| - n..], x[|x| - n..];
    forall i | 0 <= i < n
      ensures a[i] == b[i]
    {
      assert b[i] == x[|x| - n + i];
    }
  }

  /** `a` is the part of the text that the next chunk can no longer change. */
  lemma {:induction false} Advance(ds: Tags, p: string, c: string) returns (a: Parse)
    ensures var r, e := CarryOf(ds, p), Split(ds, p, false).inThink;
            && a.inThink == e
            && Split(ds, p, false) == a.Then(Plain(r, e))
            && Split(ds, p + c, false) == a.Then(Split(ds, r + c, e))
            && Withheld(ds, p + c, false) == Withheld(ds, r + c, e)
  {
    CarryHasNoGt(ds, p);
    var pre, r := p[..|p| - CarryLen(ds, p)], CarryOf(ds, p);
    a := Split(ds, pre, false);
    ExtendNamed(ds, p, p + c, pre, r, c);
    HeldIsLocal(ds, p, c, Split(ds, r + c, a.inThink).inThink);
  }

  lemma {:induction false} Assoc(a: string, b: string, c: string)
    ensures (a + b) + c == a + (b + c)
  {
  }

  lemma {:induction false} ExtendNamed(ds: Tags, p: string, w: string, pre: string, r: string, c: string)
    requires p == pre + r && w == p + c && '>' !in r && Withheld(ds, p, false) <= |r|
    ensures var a := Split(ds, pre, false);
            && Split(ds, p, false) == a.Then(Plain(r, a.inThink))
            && Split(ds, w, false) == a.Then(Split(ds, r + c, a.inThink))
  {
    Assoc(pre, r, c);
    SplitExtends(ds, pre, r, c, false);
  }

  lemma {:induction false} StateIsReference(ds: Tags, contents: seq<string>)
    ensures RunContents(ds, contents).inThink == Split(ds, Concat(contents), false).inThink
    ensures RunContents(ds, contents).carry == CarryOf(ds, Concat(contents))
  {
    if contents == [] {
      EmptySplit(ds, false);
    } else {
      var init, c := Unsnoc(ds, contents);
      StateIsReference(ds, init);
      if c != "" {
        var a := Advance(ds, Concat(init), c);
        CarryIsLocal(ds, Concat(init), c);
      }
    }
  }

  lemma {:induction false} EmptySplit(ds: Tags, inThink: bool)
    ensures Split(ds, "", inThink) == Plain("", inThink)
  {
  }

  // ------------------------------------------------------------- the theorems

  /** Characters emitted twice over the whole stream. */
  function Extra(ds: Tags, contents: seq<string>): int {
    if contents == [] then 0
    else
      var init, last := contents[..|contents| - 1], contents[|contents| - 1];
      Extra(ds, init) + if last == "" then 0 else Repeated(ds, Concat(contents))
  }

  /** The last chunk of a stream, and the stream before it. */
  lemma {:induction false} Unsnoc(ds: Tags, contents: seq<string>) returns (init: seq<string>, c: string)
    requires contents != []
    ensures |init| < |contents| && contents == init + [c]
    ensures Concat(contents) == Concat(init) + c && (c == "" ==> Concat(contents) == Concat(init))
    ensures RunContents(ds, contents) == StepContent(ds, RunContents(ds, init), c)
    ensures Extra(ds, contents) == Extra(ds, init) + if c == "" then 0 else Repeated(ds, Concat(contents))
    ensures CleanCuts(ds, contents) <==> CleanCuts(ds, init) && CleanCut(ds, Concat(contents))
  {
    init, c := contents[..|contents| - 1], contents[|contents| - 1];
    assert contents == init + [c];
    ConcatSnoc(init, c);
  }

  /** A chunk lets through everything but what it withholds. */
  lemma {:induction false} ShownAndHeld(ds: Tags, s: string, b: bool, tail: string)
    requires tail == s[|s| - Withheld(ds, s, b)..]
    ensures var p := Shown(ds, s, b); p.Push(p.inThink, tail) == Split(ds, s, b)
    ensures Shown(ds, s, b).inThink == Split(ds, s, b).inThink
  {
    var w := Withheld(ds, s, b);
    HeldShape(ds, s, Split(ds, s, b).inThink, w);
    HeldWithinStream(ds, s, b);
    var front := s[..|s| - w];
    assert front + tail == s;
    TailIsPlain(ds, front, tail, b);
    WithheldTail(Split(ds, front, b), tail);
  }

  lemma {:induction false} WithheldTail(a: Parse, tail: string)
    ensures var p := a.Then(Plain(tail, a.inThink));
            |tail| <= |p.Stream(p.inThink)| && p.Withhold(|tail|).Push(p.inThink, tail) == p
  {
  }

  /** What one more chunk does: `a` is settled, and the carry is parsed again with the chunk. */
  lemma {:induction false} StepAdvances(ds: Tags, init: seq<string>, c: string) returns (a: Parse, x: string)
    requires c != ""
    ensures var p, f := Concat(init), RunContents(ds, init);
            var g := StepContent(ds, f, c);
            && a.inThink == f.inThink && x == f.carry + c
            && Split(ds, p, false) == a.Then(Plain(f.carry, a.inThink))
            && Split(ds, p + c, false) == a.Then(Split(ds, x, a.inThink))
            && Withheld(ds, p + c, false) == Withheld(ds, x, a.inThink)
            && CarryLen(ds, p + c) == CarryLen(ds, x)
            && g == Flow(f.text + Shown(ds, x, a.inThink).text, f.think + Shown(ds, x, a.inThink).think,
                         CarryOf(ds, x), Shown(ds, x, a.inThink).inThink)
  {
    StateIsReference(ds, init);
    a := Advance(ds, Concat(init), c);
    x := RunContents(ds, init).carry + c;
    CarryIsLocal(ds, Concat(init), c);
    assert |CarryOf(ds, Concat(init) + c)| == |CarryOf(ds, x)|;
  }

  lemma {:induction false} ShownLength(ds: Tags, x: string, b: bool)
    ensures var p, q := Shown(ds, x, b), Split(ds, x, b);
            |p.text| + |p.think| + Withheld(ds, x, b) == |q.text| + |q.think|
  {
    HeldWithinStream(ds, x, b);
  }

  /** The stream emits the reference and, besides, exactly the repeated tails. */
  lemma {:induction false} EmittedLength(ds: Tags, contents: seq<string>)
    ensures var r, p := Received(ds, contents), Split(ds, Concat(contents), false);
            |r.text| + |r.think| == |p.text| + |p.think| + Extra(ds, contents)
  {
    if contents == [] {
      EmptySplit(ds, false);
    } else {
      var init, c := Unsnoc(ds, contents);
      EmittedLength(ds, init);
      if c != "" {
        var a, x := StepAdvances(ds, init, c);
        ShownLength(ds, x, a.inThink);
      }
    }
  }

  lemma {:induction false} CleanAfterAll(ds: Tags, contents: seq<string>)
    requires CleanCuts(ds, contents)
    ensures CleanCut(ds, Concat(contents))
  {
    EmptySplit(ds, false);
  }

  lemma {:induction false} ExtraIsZeroIff(ds: Tags, contents: seq<string>)
    ensures Extra(ds, contents) >= 0
    ensures Extra(ds, contents) == 0 <==> CleanCuts(ds, contents)
  {
    if contents != [] {
      var init, c := Unsnoc(ds, contents);
      ExtraIsZeroIff(ds, init);
      CarryIsWithheldIff(ds, Concat(contents));
      if c == "" && CleanCuts(ds, init) {
        CleanAfterAll(ds, init);
      }
    }
  }

  lemma {:induction false} ExactWithoutExtra(ds: Tags, contents: seq<string>)
    requires Extra(ds, contents) == 0
    ensures Received(ds, contents) == Split(ds, Concat(contents), false)
  {
    if contents == [] {
      EmptySplit(ds, false);
    } else {
      var init, c := Unsnoc(ds, contents);
      ExtraIsZeroIff(ds, init);
      CarryIsWithheldIff(ds, Concat(contents));
      ExactWithoutExtra(ds, init);
      if c != "" {
        ExactLast(ds, init, c);
      }
    }
  }

  lemma {:induction false} ExactLast(ds: Tags, init: seq<string>, c: string)
    requires c != ""
    ensures Received(ds, init) == Split(ds, Concat(init), false) && Repeated(ds, Concat(init) + c) == 0
            ==> StepContent(ds, RunContents(ds, init), c).Flush() == Split(ds, Concat(init) + c, false)
  {
    var a, x := StepAdvances(ds, init, c);
    var f := RunContents(ds, init);
    if Received(ds, init) == Split(ds, Concat(init), false) && Repeated(ds, Concat(init) + c) == 0 {
      ExactFlow(ds, a, f, StepContent(ds, f, c), x);
    }
  }

  lemma {:induction false} ExactFlow(ds: Tags, a: Parse, f: Flow, g: Flow, x: string)
    requires a.inThink == f.inThink && f.Flush() == a.Then(Plain(f.carry, a.inThink))
    requires CarryLen(ds, x) == Withheld(ds, x, a.inThink)
    requires var p := Shown(ds, x, a.inThink);
             g == Flow(f.text + p.text, f.think + p.think, CarryOf(ds, x), p.inThink)
    ensures g.Flush() == a.Then(Split(ds, x, a.inThink))
  {
    var p := Shown(ds, x, a.inThink);
    CarryCompletes(ds, x, a.inThink, g.carry);
    ExactStep(a, f, g, p);
  }

  lemma {:induction false} CarryCompletes(ds: Tags, x: string, b: bool, carry: string)
    requires carry == CarryOf(ds, x) && CarryLen(ds, x) == Withheld(ds, x, b)
    ensures var p := Shown(ds, x, b); p.Push(p.inThink, carry) == Split(ds, x, b)
  {
    ShownAndHeld(ds, x, b, carry);
  }

  lemma {:induction false} ExactStep(a: Parse, f: Flow, g: Flow, shown: Parse)
    requires a.inThink == f.inThink && f.Flush() == a.Then(Plain(f.carry, a.inThink))
    requires g.text == f.text + shown.text && g.think == f.think + shown.think && g.inThink == shown.inThink
    ensures g.Flush() == a.Then(shown.Push(shown.inThink, g.carry))
  {
    assert f.text == (f.text + f.carry)[..|f.text|] && f.think == (f.think + f.carry)[..|f.think|];
    assert a.text == (a.text + f.carry)[..|a.text|] && a.think == (a.think + f.carry)[..|a.think|];
    assert a.text == f.text && a.think == f.think;
    assert f.text + shown.text + g.carry == f.text + (shown.text + g.carry);
    assert f.think + shown.think + g.carry == f.think + (shown.think + g.carry);
  }

  /** Chunk independence, and exactly when it holds: the chunked stream delivers the
      leftmost-delimiter split of the concatenation if and only if every cut is clean. */
  lemma {:induction false} ChunkIndependenceIff(ds: Tags, contents: seq<string>)
    ensures Received(ds, contents) == Split(ds, Concat(contents), false) <==> CleanCuts(ds, contents)
  {
    EmittedLength(ds, contents);
    ExtraIsZeroIff(ds, contents);
    if CleanCuts(ds, contents) {
      ExactWithoutExtra(ds, contents);
    }
  }

  /** At an unclean cut the whole carry has already been emitted: nothing was withheld. */
  lemma {:induction false} UncleanCutWithholdsNothing(ds: Tags, p: string)
    requires !CleanCut(ds, p)
    ensures Withheld(ds, p, false) == 0 && Repeated(ds, p) == |CarryOf(ds, p)| > 1
  {
    HeldByOne(ds, p, !Split(ds, p, false).inThink);
  }

  /** One unclean cut is enough, whatever follows. */
  lemma {:induction false} UncleanCutSpoils(ds: Tags, p: string, c: string)
    requires !CleanCut(ds, p)
    ensures Received(ds, [p, c]) != Split(ds, p + c, false)
  {
    var one := [p];
    var init, d := Unsnoc(ds, [p, c]);
    assert init == one && d == c;
    assert one[1..] == [] && Concat(one) == p;
    ChunkIndependenceIff(ds, [p, c]);
  }

  lemma {:induction false} PartialCloseIsUnclean(ds: Tags, p: string)
    requires |p| < |ds.open| && IsHeld(p, ds.close, 2)
    ensures !CleanCut(ds, p)
  {
    assert Find(p, ds.open) == None;
    HeldIsLongest(p, ds.close);
  }

  /** The smallest failure with the real delimiters: the text `</x` cut after `</`. */
  lemma {:induction false} ChunkDependenceExample()
    ensures Received(THINK, ["</", "x"]) != Split(THINK, "</" + "x", false)
  {
    var p: string := ['<', '/'];
    assert p[0..] == p == THINK.close[..2];
    PartialCloseIsUnclean(THINK, p);
    UncleanCutSpoils(THINK, p, "x");
  }
}
