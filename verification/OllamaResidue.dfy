/** What a missing newline at the end of a body costs: the unterminated last record decides
    the outcome as it would with a newline, but its content is never delivered. */
module OllamaResidue {
  import opened Text
  import opened ThinkSplitter
  import opened ThinkStream
  import opened OllamaReader

  /** The contents of the last record that are looked at only if a newline follows. */
  function Lost(parse: string -> Record, body: string): seq<string> {
    var rest := Rest(body);
    if ScanLines(parse, START, Lines(body)).verdict.None? && !Blank(rest) && parse(rest).Chunk? then
      [parse(rest).content]
    else []
  }

  lemma {:induction false} RestHasNoNewline(body: string)
    ensures Find(Rest(body), NL).None?
    decreases |body|
  {
    match Find(body, NL)
    case None =>
    case Some(i) => RestHasNoNewline(body[i + 1..]);
  }

  lemma {:induction false} LineOfRest(rest: string)
    requires Find(rest, NL).None?
    ensures Find(rest + NL, NL) == Some(|rest|)
    ensures Lines(rest + NL) == [rest] && Rest(rest + NL) == ""
  {
    FindIsLeftmost(rest, NL);
    assert OccursAt(rest + NL, NL, |rest|);
    FindMeets(rest + NL, NL, |rest|);
    FindIsLeftmost(rest + NL, NL);
    var i := Find(rest + NL, NL).value;
    if i < |rest| {
      OccursLeft(rest, NL, NL, i);
    }
    LinesFound(rest + NL, |rest|, rest, "");
    assert Find("", NL).None?;
    assert Lines("") == [] && Rest("") == "";
  }

  /** The newline adds the last record to the complete ones. */
  lemma {:induction false} NewlineAddsLine(body: string)
    ensures Lines(body + NL) == Lines(body) + [Rest(body)] && Rest(body + NL) == ""
  {
    RestHasNoNewline(body);
    LinesExtend(body, NL);
    LineOfRest(Rest(body));
  }

  function Verdict(r: Record): Outcome {
    if r.Chunk? then (if r.done then Finished else Truncated) else Failed
  }

  /** The last record decides the same with and without the white space around it, which
      is stripped from it only when its newline is missing. */
  predicate SameVerdict(parse: string -> Record, body: string) {
    var rest := Rest(body);
    ScanLines(parse, START, Lines(body)).verdict.Some? || Blank(rest)
    || Verdict(parse(rest)) == Verdict(parse(Strip(rest)))
  }

  /** What a newline adds to what is processed is exactly the content of the last record;
      the outcome stays the same exactly if that record's verdict does. */
  lemma {:induction false} NewlineKeepsOutcomeIff(parse: string -> Record, body: string)
    ensures Process(parse, body + NL).0 == Process(parse, body).0 + Lost(parse, body)
    ensures Process(parse, body + NL).1 == Process(parse, body).1 <==> SameVerdict(parse, body)
  {
    NewlineAddsLine(body);
    var st, rest := ScanLines(parse, START, Lines(body)), Rest(body);
    ScanConcat(parse, START, Lines(body), [rest]);
    assert [rest][1..] == [] && ScanLines(parse, st, [rest]) == ScanOne(parse, st, rest);
    assert Blank("");
    assert st.contents + [] == st.contents;
  }

  // ------------------------------------------------------------------- delivery

  /** Text and thinking after one more content, given the carry and the state before it. */
  function Tail(ds: Tags, carry: string, inThink: bool, content: string): Parse {
    StepContent(ds, Flow("", "", carry, inThink), content).Flush()
  }

  /** The content leaves no trace in what is delivered. */
  predicate AddsNothing(ds: Tags, carry: string, inThink: bool, content: string) {
    var p, q := Tail(ds, carry, inThink, content), Plain(carry, inThink);
    p.text == q.text && p.think == q.think
  }

  /** The same on the text as a whole: behind `before` the content changes neither text nor
      thinking of the split, and the stream may be cut after it. */
  predicate Traceless(ds: Tags, before: string, content: string) {
    content == "" ||
    var p, q := Split(ds, before + content, false), Split(ds, before, false);
    p.text == q.text && p.think == q.think && CleanCut(ds, before + content)
  }

  /** Everything lost leaves no trace behind the contents so far. */
  predicate LosesNothing(ds: Tags, parse: string -> Record, body: string) {
    var lost := Lost(parse, body);
    lost == [] || Traceless(ds, Concat(Process(parse, body).0), lost[0])
  }

  lemma {:induction false} SameFront(front: string, a: string, b: string)
    ensures front + a == front + b <==> a == b
  {
    assert a == (front + a)[|front|..] && b == (front + b)[|front|..];
  }

  lemma {:induction false} LastContent(ds: Tags, contents: seq<string>, content: string)
    ensures var f := RunContents(ds, contents);
            var p, q := Received(ds, contents + [content]), Received(ds, contents);
            (p.text == q.text && p.think == q.think) <==> AddsNothing(ds, f.carry, f.inThink, content)
  {
    var f := RunContents(ds, contents);
    RunSnoc(ds, contents, content);
    StepShifts(ds, f, content);
    var g := StepContent(ds, Flow("", "", f.carry, f.inThink), content);
    var p, q := g.Flush(), Plain(f.carry, f.inThink);
    AppendAssoc(f.text, g.text, g.carry);
    AppendAssoc(f.think, g.think, g.carry);
    assert f.text + "" == f.text && f.think + "" == f.think;
    SameFront(f.text, p.text, q.text);
    SameFront(f.think, p.think, q.think);
  }

  lemma {:induction false} SameThen(a: Parse, p: Parse, q: Parse)
    ensures (a.Then(p).text == a.Then(q).text <==> p.text == q.text)
    ensures (a.Then(p).think == a.Then(q).think <==> p.think == q.think)
  {
    SameFront(a.text, p.text, q.text);
    SameFront(a.think, p.think, q.think);
  }

  /** A carry begins with `<` and has no other. */
  lemma {:induction false} CarryShape(ds: Tags, s: string)
    ensures var r := CarryOf(ds, s);
            (r != "" ==> r[0] == '<') && forall i | 0 < i < |r| :: r[i] != '<'
  {
    HeldShape(ds, s, false, HeldLen(s, ds.open));
    HeldShape(ds, s, true, HeldLen(s, ds.close));
    var r, n := CarryOf(ds, s), |s| - CarryLen(ds, s);
    assert forall i | 0 <= i < |r| :: r[i] == s[n + i];
  }

  /** A tail emitted twice always shows: a carry cannot hold it twice. */
  lemma {:induction false} RepeatShows(ds: Tags, carry: string, b: bool, x: string)
    requires Withheld(ds, x, b) == 0 && CarryLen(ds, x) > 0
    requires forall i | 0 < i < |carry| :: carry[i] != '<'
    ensures var p, q := Shown(ds, x, b).Push(Split(ds, x, b).inThink, CarryOf(ds, x)), Plain(carry, b);
            p.text != q.text || p.think != q.think
  {
    var z, tail := Split(ds, x, b), CarryOf(ds, x);
    CarryHasNoGt(ds, x);
    CarryShape(ds, x);
    var front := x[..|x| - CarryLen(ds, x)];
    TailIsPlain(ds, front, tail, b);
    var w := Split(ds, front, b).Stream(z.inThink);
    assert z.Stream(z.inThink) == w + tail;
    ShownWhole(ds, x, b);
    TwiceIsNoCarry(w, tail, carry);
  }

  lemma {:induction false} ShownWhole(ds: Tags, x: string, b: bool)
    requires Withheld(ds, x, b) == 0
    ensures Shown(ds, x, b) == Split(ds, x, b)
  {
    var z := Split(ds, x, b);
    assert z.Stream(z.inThink)[..|z.Stream(z.inThink)|] == z.Stream(z.inThink);
  }

  lemma {:induction false} TwiceIsNoCarry(w: string, tail: string, carry: string)
    requires tail != "" && tail[0] == '<' && forall i | 0 < i < |carry| :: carry[i] != '<'
    ensures w + tail + tail != carry && w + tail + tail != ""
  {
    assert (w + tail + tail)[|w| + |tail|] == '<';
  }

  lemma {:induction false} CleanTail(ds: Tags, carry: string, b: bool, content: string)
    requires content != "" && CarryLen(ds, carry + content) == Withheld(ds, carry + content, b)
    ensures var p, z := Tail(ds, carry, b, content), Split(ds, carry + content, b);
            p.text == z.text && p.think == z.think
  {
    var x := carry + content;
    CarryCompletes(ds, x, b, CarryOf(ds, x));
    var p := Shown(ds, x, b);
    assert "" + p.text == p.text && "" + p.think == p.think;
  }

  /** What the loop does with a content, on the text as a whole. */
  lemma {:induction false} TracelessIff(ds: Tags, contents: seq<string>, content: string)
    ensures var f := RunContents(ds, contents);
            AddsNothing(ds, f.carry, f.inThink, content) <==> Traceless(ds, Concat(contents), content)
  {
    var f, before := RunContents(ds, contents), Concat(contents);
    if content != "" {
      var a, x := StepAdvances(ds, contents, content);
      SameThen(a, Split(ds, x, a.inThink), Plain(f.carry, a.inThink));
      CarryIsWithheldIff(ds, before + content);
      if CleanCut(ds, before + content) {
        CleanTail(ds, f.carry, f.inThink, content);
      } else {
        UncleanCutWithholdsNothing(ds, before + content);
        StateIsReference(ds, contents);
        CarryShape(ds, before);
        RepeatShows(ds, f.carry, f.inThink, x);
        var p := Shown(ds, x, f.inThink);
        assert "" + p.text == p.text && "" + p.think == p.think;
      }
    }
  }

  /** Adding the newline leaves everything delivered as it is exactly if the last record
      decides the same and its content leaves no trace. */
  lemma {:induction false} NewlineMattersIff(ds: Tags, parse: string -> Record, body: string)
    ensures Delivered(ds, parse, body + NL) == Delivered(ds, parse, body)
            <==> SameVerdict(parse, body) && LosesNothing(ds, parse, body)
  {
    var (contents, outcome) := Process(parse, body);
    NewlineKeepsOutcomeIff(parse, body);
    var lost := Lost(parse, body);
    if lost == [] {
      assert contents + lost == contents;
    } else if SameVerdict(parse, body) {
      assert lost == [lost[0]] && outcome != Failed;
      LastContent(ds, contents, lost[0]);
      TracelessIff(ds, contents, lost[0]);
    }
  }

  /** Content that closes no delimiter always leaves a trace. */
  lemma {:induction false} PlainContentIsLost(ds: Tags, carry: string, inThink: bool, content: string)
    requires content != "" && '>' !in carry && '>' !in content
    ensures !AddsNothing(ds, carry, inThink, content)
  {
    var full := carry + content;
    TailIsPlain(ds, "", full, inThink);
    EmptySplit(ds, inThink);
    assert "" + full == full;
    ShownLength(ds, full, inThink);
    HeldIsShort(ds, full, inThink);
  }

  lemma {:induction false} HeldIsShort(ds: Tags, s: string, b: bool)
    ensures Withheld(ds, s, b) <= CarryLen(ds, s)
  {
  }

  /** The carry of a stream never holds the end of a delimiter. */
  lemma {:induction false} CarryStaysOpen(ds: Tags, contents: seq<string>)
    ensures '>' !in RunContents(ds, contents).carry
  {
    StateIsReference(ds, contents);
    CarryHasNoGt(ds, Concat(contents));
  }

  /** So a last record without `>` in its content is missing from what is delivered. */
  lemma {:induction false} PlainRecordIsMissing(ds: Tags, parse: string -> Record, body: string)
    requires Lost(parse, body) != [] && Lost(parse, body)[0] != "" && '>' !in Lost(parse, body)[0]
    ensures Delivered(ds, parse, body + NL) != Delivered(ds, parse, body)
  {
    var f := RunContents(ds, Process(parse, body).0);
    CarryStaysOpen(ds, Process(parse, body).0);
    PlainContentIsLost(ds, f.carry, f.inThink, Lost(parse, body)[0]);
    TracelessIff(ds, Process(parse, body).0, Lost(parse, body)[0]);
    NewlineMattersIff(ds, parse, body);
  }

  /** The smallest case: one record, read as done with a content. Without the newline the
      stream ends normally and delivers nothing. */
  lemma {:induction false} LostContentExample(parse: string -> Record)
    requires parse("r") == Chunk("x", true)
    ensures Delivered(THINK, parse, "r") == ("", "", Finished)
    ensures Delivered(THINK, parse, "r" + NL) != Delivered(THINK, parse, "r")
  {
    var body := "r";
    assert body[0] == 'r' && !IsSpace(body[0]);
    assert !Blank(body) && Strip(body) == body by { StripOne(body); }
    FindIsLeftmost(body, NL);
    assert body[0..1] == body && body[0] != NL[0];
    assert Lines(body) == [] && Rest(body) == body;
    assert Process(parse, body) == ([], Finished);
    var x := "x";
    assert x[0] == 'x' && '>' !in x;
    assert Lost(parse, body) == ["x"];
    PlainRecordIsMissing(THINK, parse, body);
  }

  lemma {:induction false} StripOne(s: string)
    requires |s| == 1 && !IsSpace(s[0])
    ensures Strip(s) == s
  {
  }
}
