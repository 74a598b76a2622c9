/** The think-tag splitter of the Ollama provider.

    Streamed content arrives in chunks. `SplitThinkBlocks` (ThinkLoop.dfy) routes one chunk to
    the visible text or to the thinking text and withholds a partial delimiter
    at its end; `EmitContent` (OllamaReader.dfy) threads the withheld tail into the next chunk.
    The reference is `Split`: one left-to-right pass over the whole text. */
module ThinkSplitter {
  import opened Text

  /** The delimiter pair. The proofs use only its shape: `<` opens each delimiter
      and `>` closes it, neither occurs elsewhere, and the second characters differ. */
  datatype Delims = Delims(open: string, close: string) {
    /** The delimiter the splitter looks for. */
    function Of(inThink: bool): string {
      if inThink then close else open
    }

    predicate Shape() {
      IsTag(open) && IsTag(close) && open[1] != close[1]
    }
  }

  predicate IsTag(d: string) {
    |d| > 2 && d[0] == '<' && d[|d| - 1] == '>'
    && (forall i | 0 < i < |d| :: d[i] != '<') && forall i | 0 <= i < |d| - 1 :: d[i] != '>'
  }

  type Tags = ds: Delims | ds.Shape() witness Delims("<t>", "</t>")

  const THINK: Tags := Delims("<think>", "</think>")

  // ------------------------------------------------------------ the reference

  /** Visible text, thinking text, and whether the text ends inside a block. */
  datatype Parse = Parse(text: string, think: string, inThink: bool) {
    function Stream(thinking: bool): string {
      if thinking then think else text
    }

    function Prepend(thinking: bool, s: string): Parse {
      if thinking then this.(think := s + think) else this.(text := s + text)
    }

    /** Drops the last `n` characters of the stream the parse ends in. */
    function Withhold(n: nat): Parse
      requires n <= |Stream(inThink)|
    {
      if inThink then this.(think := think[..|think| - n]) else this.(text := text[..|text| - n])
    }

    function Push(thinking: bool, s: string): Parse {
      if thinking then this.(think := think + s) else this.(text := text + s)
    }

    function Then(q: Parse): Parse {
      Parse(text + q.text, think + q.think, q.inThink)
    }
  }

  function Plain(s: string, inThink: bool): Parse {
    if inThink then Parse("", s, true) else Parse(s, "", false)
  }

  /** The leftmost-delimiter split of a whole text. */
  function Split(ds: Tags, s: string, inThink: bool): (p: Parse)
    decreases |s|
  {
    var d := ds.Of(inThink);
    match Find(s, d)
    case None => Plain(s, inThink)
    case Some(i) => Split(ds, s[i + |d|..], !inThink).Prepend(inThink, s[..i])
  }

  // ------------------------------------------------ partial delimiters at the end

  /** The last `n` characters of `s` are a proper prefix of `d`. */
  predicate IsHeld(s: string, d: string, n: int) {
    0 <= n <= |s| && n < |d| && forall i | 0 <= i < n :: s[|s| - n + i] == d[i]
  }

  predicate IsSuffix(t: string, s: string) {
    |t| <= |s| && forall i | 0 <= i < |t| :: s[|s| - |t| + i] == t[i]
  }

  function LongestHeld(s: string, d: string, max: nat): (n: nat)
    requires max <= |s| && max < |d|
    ensures n <= max
  {
    if max == 0 || IsHeld(s, d, max) then max else LongestHeld(s, d, max - 1)
  }

  /** Length of the longest partial delimiter at the end of `s`. */
  function HeldLen(s: string, d: string): (n: nat)
    requires d != ""
    ensures n <= |s| && n < |d|
  {
    LongestHeld(s, d, if |s| < |d| - 1 then |s| else |d| - 1)
  }

  lemma {:induction false} LongestHeldIsLongest(s: string, d: string, max: nat)
    requires max <= |s| && max < |d|
    ensures IsHeld(s, d, LongestHeld(s, d, max))
    ensures forall m | IsHeld(s, d, m) && m <= max :: m <= LongestHeld(s, d, max)
  {
    if max > 0 && !IsHeld(s, d, max) {
      LongestHeldIsLongest(s, d, max - 1);
    }
  }

  lemma {:induction false} HeldIsLongest(s: string, d: string)
    requires d != ""
    ensures IsHeld(s, d, HeldLen(s, d))
    ensures forall m | IsHeld(s, d, m) :: m <= HeldLen(s, d)
  {
    LongestHeldIsLongest(s, d, if |s| < |d| - 1 then |s| else |d| - 1);
  }

  method PartialSuffixLen(s: string, d: string) returns (n: nat)
    requires d != ""
    ensures n == HeldLen(s, d)
    ensures IsHeld(s, d, n) && forall m | IsHeld(s, d, m) :: m <= n
  {
    n := if |s| < |d| - 1 then |s| else |d| - 1;
    while n > 0
      invariant n <= |s| && n < |d|
      invariant forall m | IsHeld(s, d, m) :: m <= n
    {
      HeldAsSlice(s, d, n);
      if s[|s| - n..] == d[..n] {
        HeldIsLongest(s, d);
        return;
      }
      n := n - 1;
    }
    HeldIsLongest(s, d);
  }

  lemma {:induction false} HeldAsSlice(s: string, d: string, n: nat)
    requires n <= |s| && n < |d|
    ensures IsHeld(s, d, n) <==> s[|s| - n..] == d[..n]
  {
    var a, b := s[|s| - n..], d[..n];
    if a == b {
      forall i | 0 <= i < n
        ensures s[|s| - n + i] == d[i]
      {
        assert a[i] == b[i];
      }
    }
    if IsHeld(s, d, n) {
      forall i | 0 <= i < n
        ensures a[i] == b[i]
      {
        assert s[|s| - n + i] == d[i];
      }
    }
  }

  /** A held tail holds no `>`, so it never reaches back over a delimiter;
      it begins at the last `<`, so two held tails of one text are equally long. */
  lemma {:induction false} HeldShape(ds: Tags, s: string, inThink: bool, n: nat)
    requires n == HeldLen(s, ds.Of(inThink))
    ensures forall i | |s| - n <= i < |s| :: s[i] != '>'
    ensures n > 0 ==> s[|s| - n] == '<'
    ensures n > 1 ==> s[|s| - n + 1] == ds.Of(inThink)[1]
    ensures forall i | |s| - n < i < |s| :: s[i] != '<'
  {
    var d := ds.Of(inThink);
    HeldIsLongest(s, d);
    forall i | |s| - n <= i < |s|
      ensures s[i] == d[i - (|s| - n)]
    {
      assert s[|s| - n + (i - (|s| - n))] == d[i - (|s| - n)];
    }
  }

  /** What the splitter withholds at the end of `s`. */
  function Withheld(ds: Tags, s: string, inThink: bool): nat {
    HeldLen(s, ds.Of(Split(ds, s, inThink).inThink))
  }

  /** What the stream loop carries into the next chunk: the longer of the two. */
  function CarryLen(ds: Tags, s: string): nat {
    var a, b := HeldLen(s, ds.open), HeldLen(s, ds.close);
    if a < b then b else a
  }

  function CarryOf(ds: Tags, s: string): string {
    s[|s| - CarryLen(ds, s)..]
  }

  // ------------------------------------------------------------- composition

  lemma {:induction false} OccursLeft(pre: string, x: string, d: string, j: int)
    requires 0 <= j && j + |d| <= |pre|
    ensures OccursAt(pre + x, d, j) <==> OccursAt(pre, d, j)
  {
    assert (pre + x)[j..j + |d|] == pre[j..j + |d|];
  }

  lemma {:induction false} OccursRight(pre: string, x: string, d: string, j: int)
    requires |pre| <= j
    ensures OccursAt(pre + x, d, j) <==> OccursAt(x, d, j - |pre|)
  {
    if j + |d| <= |pre + x| {
      assert (pre + x)[j..j + |d|] == x[j - |pre|..j - |pre| + |d|];
    }
  }

  /** No occurrence of `d` in `pre + x` lies across the cut. */
  ghost predicate NoStraddle(pre: string, x: string, d: string) {
    forall j | OccursAt(pre + x, d, j) :: j + |d| <= |pre| || |pre| <= j
  }

  lemma {:induction false} FindInLeft(pre: string, x: string, d: string)
    requires d != "" && Find(pre, d).Some?
    ensures Find(pre + x, d) == Find(pre, d)
  {
    FindIsLeftmost(pre, d);
    OccursLeft(pre, x, d, Find(pre, d).value);
    FindIsLeftmost(pre + x, d);
    OccursLeft(pre, x, d, Find(pre + x, d).value);
  }

  lemma {:induction false} FindInRight(pre: string, x: string, d: string)
    requires d != "" && Find(pre, d).None? && NoStraddle(pre, x, d)
    ensures Find(pre + x, d) == if Find(x, d).None? then None else Some(|pre| + Find(x, d).value)
  {
    FindIsLeftmost(x, d);
    FindIsLeftmost(pre + x, d);
    if Find(x, d).Some? {
      OccursRight(pre, x, d, |pre| + Find(x, d).value);
    }
    if Find(pre + x, d).Some? {
      var g := Find(pre + x, d).value;
      if g < |pre| {
        OccursLeft(pre, x, d, g);
        FindMeets(pre, d, g);
      } else {
        OccursRight(pre, x, d, g);
      }
    }
  }

  /** The reference may be cut wherever no delimiter of the state reached lies across. */
  lemma {:induction false} SplitCompose(ds: Tags, pre: string, x: string, inThink: bool)
    requires NoStraddle(pre, x, ds.Of(Split(ds, pre, inThink).inThink))
    ensures Split(ds, pre + x, inThink)
            == Split(ds, pre, inThink).Then(Split(ds, x, Split(ds, pre, inThink).inThink))
    decreases |pre|
  {
    match Find(pre, ds.Of(inThink))
    case None =>
      ComposeAtOnce(ds, pre, x, inThink);
    case Some(i) =>
      var rest := pre[i + |ds.Of(inThink)|..];
      var q := Split(ds, rest, !inThink);
      SplitFound(ds, pre, inThink, i, pre[..i], rest);
      NoStraddleRest(pre, x, ds.Of(q.inThink), i + |ds.Of(inThink)|);
      SplitCompose(ds, rest, x, !inThink);
      ComposeStep(ds, pre, x, inThink, i, rest, q, Split(ds, x, q.inThink));
  }

  lemma {:induction false} ComposeAtOnce(ds: Tags, pre: string, x: string, inThink: bool)
    requires Find(pre, ds.Of(inThink)).None? && NoStraddle(pre, x, ds.Of(inThink))
    ensures Split(ds, pre + x, inThink) == Plain(pre, inThink).Then(Split(ds, x, inThink))
  {
    FindInRight(pre, x, ds.Of(inThink));
    ComposePlain(ds, pre, x, pre + x, inThink);
  }

  lemma {:induction false} ComposeStep(ds: Tags, pre: string, x: string, inThink: bool, i: nat, rest: string,
                                       q: Parse, r: Parse)
    requires Find(pre, ds.Of(inThink)) == Some(i) && rest == pre[i + |ds.Of(inThink)|..]
    requires Split(ds, rest + x, !inThink) == q.Then(r)
    ensures Split(ds, pre + x, inThink) == q.Prepend(inThink, pre[..i]).Then(r)
  {
    var w, after := pre + x, rest + x;
    FindInLeft(pre, x, ds.Of(inThink));
    CutLeft(pre, x, i, |ds.Of(inThink)|);
    ComposeFound(ds, w, inThink, i, pre[..i], after, q, r);
  }

  lemma {:induction false} ComposeFound(ds: Tags, w: string, inThink: bool, i: nat, before: string, after: string,
                                        q: Parse, r: Parse)
    requires Find(w, ds.Of(inThink)) == Some(i) && before == w[..i] && after == w[i + |ds.Of(inThink)|..]
    requires Split(ds, after, !inThink) == q.Then(r)
    ensures Split(ds, w, inThink) == q.Prepend(inThink, before).Then(r)
  {
    SplitFound(ds, w, inThink, i, before, after);
    PrependThen(before, inThink, q, r);
  }

  lemma {:induction false} CutLeft(pre: string, x: string, i: nat, n: nat)
    requires i + n <= |pre|
    ensures (pre + x)[..i] == pre[..i] && (pre + x)[i + n..] == pre[i + n..] + x
  {
  }

  lemma {:induction false} NoStraddleRest(pre: string, x: string, d: string, n: nat)
    requires n <= |pre| && NoStraddle(pre, x, d)
    ensures NoStraddle(pre[n..], x, d)
  {
    assert pre + x == pre[..n] + (pre[n..] + x);
    forall j | OccursAt(pre[n..] + x, d, j)
      ensures j + |d| <= |pre| - n || |pre| - n <= j
    {
      OccursRight(pre[..n], pre[n..] + x, d, j + n);
      assert OccursAt(pre + x, d, j + n);
    }
  }

  lemma {:induction false} PrependThen(s: string, inThink: bool, p: Parse, q: Parse)
    ensures p.Then(q).Prepend(inThink, s) == p.Prepend(inThink, s).Then(q)
  {
    assert s + (p.think + q.think) == s + p.think + q.think;
    assert s + (p.text + q.text) == s + p.text + q.text;
  }

  lemma {:induction false} ComposePlain(ds: Tags, pre: string, x: string, w: string, inThink: bool)
    requires w == pre + x
    requires Find(w, ds.Of(inThink))
             == if Find(x, ds.Of(inThink)).None? then None else Some(|pre| + Find(x, ds.Of(inThink)).value)
    ensures Split(ds, w, inThink) == Plain(pre, inThink).Then(Split(ds, x, inThink))
  {
    if Find(x, ds.Of(inThink)).Some? {
      var i, n := Find(x, ds.Of(inThink)).value, |ds.Of(inThink)|;
      var y := x[i + n..];
      assert w[..|pre| + i] == pre + x[..i];
      assert w[|pre| + i + n..] == y;
      SplitFound(ds, w, inThink, |pre| + i, pre + x[..i], y);
      SplitFound(ds, x, inThink, i, x[..i], y);
      PlainThenPrepend(pre, inThink, Split(ds, y, !inThink), x[..i]);
    }
  }

  /** One step of the reference, with the two pieces named. */
  lemma {:induction false} SplitFound(ds: Tags, s: string, inThink: bool, i: nat, before: string, after: string)
    requires Find(s, ds.Of(inThink)) == Some(i)
    requires before == s[..i] && after == s[i + |ds.Of(inThink)|..]
    ensures Split(ds, s, inThink) == Split(ds, after, !inThink).Prepend(inThink, before)
  {
  }

  lemma {:induction false} PlainThenPrepend(pre: string, inThink: bool, q: Parse, s: string)
    ensures Plain(pre, inThink).Then(q.Prepend(inThink, s)) == q.Prepend(inThink, pre + s)
  {
    if inThink {
      assert pre + (s + q.think) == pre + s + q.think;
    } else {
      assert pre + (s + q.text) == pre + s + q.text;
    }
  }

  /** A tail without `>` that is at least as long as what is withheld parses on its own. */
  lemma {:induction false} SplitExtends(ds: Tags, pre: string, t: string, c: string, inThink: bool)
    requires '>' !in t && Withheld(ds, pre + t, inThink) <= |t|
    ensures var a := Split(ds, pre, inThink);
            && Split(ds, pre + t, inThink) == a.Then(Plain(t, a.inThink))
            && Split(ds, pre + (t + c), inThink) == a.Then(Split(ds, t + c, a.inThink))
  {
    var a := Split(ds, pre, inThink);
    TailIsPlain(ds, pre, t, inThink);
    NoStraddleTail(pre, t, c, ds.Of(a.inThink));
    SplitCompose(ds, pre, t + c, inThink);
  }

  lemma {:induction false} TailIsPlain(ds: Tags, pre: string, t: string, inThink: bool)
    requires '>' !in t
    ensures var a := Split(ds, pre, inThink); Split(ds, pre + t, inThink) == a.Then(Plain(t, a.inThink))
  {
    var d := ds.Of(Split(ds, pre, inThink).inThink);
    forall j | OccursAt(pre + t, d, j)
      ensures j + |d| <= |pre|
    {
      EndsInGt(pre + t, d, j);
    }
    if Find(t, d).Some? {
      FindIsLeftmost(t, d);
      EndsInGt(t, d, Find(t, d).value);
    }
    SplitCompose(ds, pre, t, inThink);
  }

  lemma {:induction false} EndsInGt(s: string, d: string, j: int)
    requires IsTag(d) && OccursAt(s, d, j)
    ensures s[j + |d| - 1] == '>' && '>' in s
  {
    assert s[j + |d| - 1] == s[j..j + |d|][|d| - 1];
  }

  lemma {:induction false} NoStraddleTail(pre: string, t: string, c: string, d: string)
    requires IsTag(d) && '>' !in t && HeldLen(pre + t, d) <= |t|
    ensures NoStraddle(pre, t + c, d)
  {
    forall j | OccursAt(pre + (t + c), d, j)
      ensures j + |d| <= |pre| || |pre| <= j
    {
      if j < |pre| < j + |d| {
        StraddlerIsHeld(pre, t, c, d, j);
      }
    }
  }

  lemma {:induction false} StraddlerIsHeld(pre: string, t: string, c: string, d: string, j: nat)
    requires OccursAt(pre + (t + c), d, j) && j < |pre| < j + |d|
    requires IsTag(d) && '>' !in t
    ensures IsHeld(pre + t, d, |pre| + |t| - j)
    ensures HeldLen(pre + t, d) > |t|
  {
    var w := pre + (t + c);
    var e := j + |d| - 1;
    EndsInGt(w, d, j);
    assert e >= |pre| + |t|;
    forall i | 0 <= i < |pre| + |t| - j
      ensures (pre + t)[j + i] == d[i]
    {
      assert w[j..j + |d|][i] == d[i];
    }
    assert IsHeld(pre + t, d, |pre| + |t| - j);
    HeldIsLongest(pre + t, d);
  }

  lemma {:induction false} HeldOfSuffix(p: string, rest: string, d: string)
    requires d != "" && IsSuffix(rest, p)
    ensures HeldLen(rest, d) <= HeldLen(p, d)
  {
    var m := HeldLen(rest, d);
    HeldIsLongest(rest, d);
    HeldIsLongest(p, d);
    forall i | 0 <= i < m
      ensures p[|p| - m + i] == d[i]
    {
      assert rest[|rest| - m + i] == d[i];
    }
    assert IsHeld(p, d, m);
  }

  lemma {:induction false} HeldFromHere(text: string, rest: string, d: string)
    requires d != "" && IsSuffix(rest, text)
    requires HeldLen(text, d) <= |rest|
    ensures HeldLen(text, d) == HeldLen(rest, d)
  {
    HeldOfSuffix(text, rest, d);
    var m := HeldLen(text, d);
    HeldIsLongest(text, d);
    HeldIsLongest(rest, d);
    forall i | 0 <= i < m
      ensures rest[|rest| - m + i] == d[i]
    {
      assert text[|text| - m + i] == d[i];
    }
    assert IsHeld(rest, d, m);
  }

  lemma {:induction false} HeldWithinStream(ds: Tags, s: string, inThink: bool)
    ensures var p := Split(ds, s, inThink); Withheld(ds, s, inThink) <= |p.Stream(p.inThink)|
  {
    var w := Withheld(ds, s, inThink);
    HeldShape(ds, s, Split(ds, s, inThink).inThink, w);
    assert s == s[..|s| - w] + s[|s| - w..];
    SplitExtends(ds, s[..|s| - w], s[|s| - w..], "", inThink);
  }

  /** What the splitter lets through of one chunk: the reference, less the held tail. */
  function Shown(ds: Tags, s: string, inThink: bool): Parse {
    HeldWithinStream(ds, s, inThink);
    Split(ds, s, inThink).Withhold(Withheld(ds, s, inThink))
  }
}
