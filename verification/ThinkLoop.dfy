/** The splitter as the provider runs it, one chunk at a time, against the reference. */
module ThinkLoop {
  import opened Text
  import opened ThinkSplitter

  /** The same, computed as the loop does: a partial delimiter is looked for only behind
      the last complete one. */
  function Cut(ds: Tags, s: string, inThink: bool): Parse
    decreases |s|
  {
    var d := ds.Of(inThink);
    match Find(s, d)
    case None => Plain(s[..|s| - HeldLen(s, d)], inThink)
    case Some(i) => Cut(ds, s[i + |d|..], !inThink).Prepend(inThink, s[..i])
  }

  lemma {:induction false} CutFound(ds: Tags, s: string, inThink: bool, i: nat, before: string, after: string)
    requires Find(s, ds.Of(inThink)) == Some(i)
    requires before == s[..i] && after == s[i + |ds.Of(inThink)|..]
    ensures Cut(ds, s, inThink) == Cut(ds, after, !inThink).Prepend(inThink, before)
  {
  }

  lemma {:induction false} CutIsShown(ds: Tags, s: string, inThink: bool)
    ensures Cut(ds, s, inThink) == Shown(ds, s, inThink)
    decreases |s|
  {
    match Find(s, ds.Of(inThink))
    case None =>
    case Some(i) =>
      var before, after := s[..i], s[i + |ds.Of(inThink)|..];
      CutIsShown(ds, after, !inThink);
      CutFound(ds, s, inThink, i, before, after);
      ShownFound(ds, s, inThink, i, before, after);
  }

  lemma {:induction false} ShownFound(ds: Tags, s: string, inThink: bool, i: nat, before: string, after: string)
    requires Find(s, ds.Of(inThink)) == Some(i)
    requires before == s[..i] && after == s[i + |ds.Of(inThink)|..]
    ensures Shown(ds, s, inThink) == Shown(ds, after, !inThink).Prepend(inThink, before)
  {
    var q := Split(ds, after, !inThink);
    SplitFound(ds, s, inThink, i, before, after);
    HeldBehind(ds, s, inThink, i, after, q.inThink);
    HeldWithinStream(ds, after, !inThink);
    PrependWithhold(q, inThink, before, Withheld(ds, after, !inThink));
  }

  lemma {:induction false} PrependWithhold(q: Parse, thinking: bool, s: string, n: nat)
    requires n <= |q.Stream(q.inThink)|
    ensures n <= |q.Prepend(thinking, s).Stream(q.inThink)|
    ensures q.Prepend(thinking, s).Withhold(n) == q.Withhold(n).Prepend(thinking, s)
  {
    if thinking && q.inThink {
      assert (s + q.think)[..|s + q.think| - n] == s + q.think[..|q.think| - n];
    } else if !thinking && !q.inThink {
      assert (s + q.text)[..|s + q.text| - n] == s + q.text[..|q.text| - n];
    }
  }

  method SplitThinkBlocks(ds: Tags, text: string, start: bool)
    returns (contentChunks: seq<string>, thinkChunks: seq<string>, inThink: bool)
    ensures Parse(Concat(contentChunks), Concat(thinkChunks), inThink) == Shown(ds, text, start)
  {
    contentChunks, thinkChunks, inThink := [], [], start;
    var remaining := text;
    CutIsShown(ds, text, start);
    ghost var goal := Cut(ds, text, start);
    NothingYet(start, goal);
    while remaining != ""
      invariant Routed(contentChunks, thinkChunks, inThink).Then(Cut(ds, remaining, inThink)) == goal
      decreases |remaining|
    {
      match Find(remaining, ds.Of(inThink)) {
        case None =>
          var hold := PartialSuffixLen(remaining, ds.Of(inThink));
          var piece := remaining[..|remaining| - hold];
          LastCut(ds, Routed(contentChunks, thinkChunks, inThink), remaining, inThink, piece);
          contentChunks, thinkChunks := Route(contentChunks, thinkChunks, inThink, piece);
          return;
        case Some(i) =>
          var before, after := remaining[..i], remaining[i + |ds.Of(inThink)|..];
          NextCut(ds, Routed(contentChunks, thinkChunks, inThink), remaining, inThink, i, before, after);
          if inThink || i > 0 {
            contentChunks, thinkChunks := Route(contentChunks, thinkChunks, inThink, before);
          }
          remaining, inThink := after, !inThink;
      }
    }
    LastCut(ds, Routed(contentChunks, thinkChunks, inThink), "", inThink, "");
  }

  ghost function Routed(contentChunks: seq<string>, thinkChunks: seq<string>, inThink: bool): Parse {
    Parse(Concat(contentChunks), Concat(thinkChunks), inThink)
  }

  /** Appends one piece to the list of the current state. */
  method Route(contentChunks: seq<string>, thinkChunks: seq<string>, inThink: bool, piece: string)
    returns (contentChunks': seq<string>, thinkChunks': seq<string>)
    ensures Concat(contentChunks') == if inThink then Concat(contentChunks) else Concat(contentChunks) + piece
    ensures Concat(thinkChunks') == if inThink then Concat(thinkChunks) + piece else Concat(thinkChunks)
  {
    contentChunks', thinkChunks' := contentChunks, thinkChunks;
    ConcatSnoc(thinkChunks, piece);
    ConcatSnoc(contentChunks, piece);
    if inThink {
      thinkChunks' := thinkChunks + [piece];
    } else {
      contentChunks' := contentChunks + [piece];
    }
  }

  lemma {:induction false} NothingYet(start: bool, goal: Parse)
    ensures Routed([], [], start).Then(goal) == goal
  {
    assert "" + goal.text == goal.text && "" + goal.think == goal.think;
  }

  lemma {:induction false} LastCut(ds: Tags, acc: Parse, rest: string, inThink: bool, piece: string)
    requires acc.inThink == inThink && Find(rest, ds.Of(inThink)).None?
    requires piece == rest[..|rest| - HeldLen(rest, ds.Of(inThink))]
    ensures acc.Then(Cut(ds, rest, inThink)) == acc.Push(inThink, piece)
    ensures piece == "" ==> acc.Push(inThink, piece) == acc
  {
  }

  lemma {:induction false} NextCut(ds: Tags, acc: Parse, rest: string, inThink: bool, i: nat, before: string,
                                   after: string)
    requires acc.inThink == inThink && Find(rest, ds.Of(inThink)) == Some(i)
    requires before == rest[..i] && after == rest[i + |ds.Of(inThink)|..]
    ensures acc.Then(Cut(ds, rest, inThink))
            == acc.(inThink := !inThink).Push(inThink, before).Then(Cut(ds, after, !inThink))
    ensures before == "" ==> acc.Push(inThink, before) == acc
  {
    CutFound(ds, rest, inThink, i, before, after);
    PushThen(acc, inThink, before, Cut(ds, after, !inThink));
  }

  lemma {:induction false} PushThen(acc: Parse, thinking: bool, s: string, q: Parse)
    ensures acc.Then(q.Prepend(thinking, s)) == acc.Push(thinking, s).(inThink := !thinking).Then(q)
  {
    if thinking {
      assert acc.think + (s + q.think) == acc.think + s + q.think;
    } else {
      assert acc.text + (s + q.text) == acc.text + s + q.text;
    }
  }

  lemma {:induction false} HeldBehind(ds: Tags, s: string, inThink: bool, i: nat, after: string, b: bool)
    requires Find(s, ds.Of(inThink)) == Some(i) && after == s[i + |ds.Of(inThink)|..]
    ensures HeldLen(s, ds.Of(b)) == HeldLen(after, ds.Of(b))
  {
    FindIsLeftmost(s, ds.Of(inThink));
    EndsInGt(s, ds.Of(inThink), i);
    HeldShape(ds, s, b, HeldLen(s, ds.Of(b)));
    HeldFromHere(s, after, ds.Of(b));
  }
}
