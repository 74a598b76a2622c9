/** The reference split without the search: a text is a sequence of segments with the
    delimiters between them, in turn visible and thinking. */
module ThinkSegments {
  import opened Text
  import opened ThinkSplitter
  import opened ThinkStream
  import opened OllamaReader

  /** Segment `k` is thinking, if the text begins with `inThink`. */
  predicate Inside(inThink: bool, k: nat) {
    (k % 2 == 1) != inThink
  }

  /** The segments with the delimiters that separate them. */
  function Joined(ds: Tags, segments: seq<string>, inThink: bool): string
    decreases |segments|
  {
    if segments == [] then ""
    else if |segments| == 1 then segments[0]
    else segments[0] + ds.Of(inThink) + Joined(ds, segments[1..], !inThink)
  }

  /** The segments of one kind, put together. */
  function Only(segments: seq<string>, inThink: bool, thinking: bool): string
    decreases |segments|
  {
    if segments == [] then ""
    else (if inThink == thinking then segments[0] else "") + Only(segments[1..], !inThink, thinking)
  }

  /** No segment holds the delimiter that would end it. */
  ghost predicate Unbroken(ds: Tags, segments: seq<string>, inThink: bool) {
    forall k, i | 0 <= k < |segments| :: !OccursAt(segments[k], ds.Of(Inside(inThink, k)), i)
  }

  /** `p` consists of the segments of the text: the visible ones, the thinking ones, and the
      kind of the last one. */
  ghost predicate ConsistsOf(p: Parse, ds: Tags, s: string, inThink: bool, segments: seq<string>) {
    && segments != [] && s == Joined(ds, segments, inThink) && Unbroken(ds, segments, inThink)
    && p.text == Only(segments, inThink, false) && p.think == Only(segments, inThink, true)
    && p.inThink == Inside(inThink, |segments| - 1)
  }

  lemma {:induction false} NoneOccurs(s: string, d: string)
    requires Find(s, d).None?
    ensures forall i :: !OccursAt(s, d, i)
  {
    FindIsLeftmost(s, d);
  }

  lemma {:induction false} BeforeFirst(s: string, d: string)
    requires Find(s, d).Some?
    ensures var i := Find(s, d).value;
            s == s[..i] + d + s[i + |d|..] && forall j | d != "" :: !OccursAt(s[..i], d, j)
  {
    FindIsLeftmost(s, d);
    var i := Find(s, d).value;
    forall j | OccursAt(s[..i], d, j)
      ensures d == ""
    {
      assert s[j..j + |d|] == s[..i][j..j + |d|];
      assert OccursAt(s, d, j);
    }
  }

  lemma {:induction false} OneSegment(ds: Tags, s: string, inThink: bool)
    requires Find(s, ds.Of(inThink)).None?
    ensures ConsistsOf(Plain(s, inThink), ds, s, inThink, [s])
  {
    UnbrokenOne(ds, s, inThink);
    OnlyOne(s, inThink, false);
    OnlyOne(s, inThink, true);
  }

  lemma {:induction false} UnbrokenOne(ds: Tags, s: string, inThink: bool)
    requires Find(s, ds.Of(inThink)).None?
    ensures Unbroken(ds, [s], inThink)
  {
    forall k, i | 0 <= k < 1
      ensures !OccursAt([s][k], ds.Of(Inside(inThink, k)), i)
    {
      assert Inside(inThink, 0) == inThink && [s][k] == s;
      NoneOccurs(s, ds.Of(inThink));
    }
  }

  lemma {:induction false} OnlyOne(s: string, inThink: bool, thinking: bool)
    ensures Only([s], inThink, thinking) == if inThink == thinking then s else ""
  {
    assert [s][1..] == [];
  }

  lemma {:induction false} InsideNext(inThink: bool, k: nat)
    ensures Inside(inThink, k + 1) == Inside(!inThink, k)
  {
  }

  lemma {:induction false} UnbrokenCons(ds: Tags, first: string, rest: seq<string>, inThink: bool)
    requires Unbroken(ds, rest, !inThink) && forall i :: !OccursAt(first, ds.Of(inThink), i)
    ensures Unbroken(ds, [first] + rest, inThink)
  {
    var all := [first] + rest;
    forall k, i | 0 <= k < |all|
      ensures !OccursAt(all[k], ds.Of(Inside(inThink, k)), i)
    {
      if k > 0 {
        InsideNext(inThink, k - 1);
        assert !OccursAt(rest[k - 1], ds.Of(Inside(!inThink, k - 1)), i);
      }
    }
  }

  lemma {:induction false} JoinedCons(ds: Tags, first: string, rest: seq<string>, inThink: bool, thinking: bool)
    requires rest != []
    ensures Joined(ds, [first] + rest, inThink) == first + ds.Of(inThink) + Joined(ds, rest, !inThink)
    ensures Only([first] + rest, inThink, thinking)
            == (if inThink == thinking then first else "") + Only(rest, !inThink, thinking)
  {
    assert ([first] + rest)[1..] == rest;
  }

  /** The split of any text consists of its segments. */
  lemma {:induction false} SplitIsSegments(ds: Tags, s: string, inThink: bool) returns (segments: seq<string>)
    ensures ConsistsOf(Split(ds, s, inThink), ds, s, inThink, segments)
    decreases |s|
  {
    match Find(s, ds.Of(inThink))
    case None =>
      segments := [s];
      OneSegment(ds, s, inThink);
    case Some(i) =>
      var before, after := s[..i], s[i + |ds.Of(inThink)|..];
      var rest := SplitIsSegments(ds, after, !inThink);
      segments := [before] + rest;
      BeforeFirst(s, ds.Of(inThink));
      MoreSegments(ds, s, inThink, before, after, Split(ds, after, !inThink), rest);
      SplitFound(ds, s, inThink, i, before, after);
  }

  lemma {:induction false} MoreSegments(ds: Tags, s: string, inThink: bool, before: string, after: string,
                                        q: Parse, rest: seq<string>)
    requires s == before + ds.Of(inThink) + after && forall i :: !OccursAt(before, ds.Of(inThink), i)
    requires ConsistsOf(q, ds, after, !inThink, rest)
    ensures ConsistsOf(q.Prepend(inThink, before), ds, s, inThink, [before] + rest)
  {
    UnbrokenCons(ds, before, rest, inThink);
    JoinedCons(ds, before, rest, inThink, false);
    JoinedCons(ds, before, rest, inThink, true);
    InsideNext(inThink, |rest| - 1);
    assert "" + q.text == q.text && "" + q.think == q.think;
  }

  // ---------------------------------------------------------------- what is delivered

  /** With clean cuts, what is delivered is the split of all contents; if the stream fails,
      less the partial delimiter at the end, which is then withheld for good. */
  lemma {:induction false} DeliveredIsSplit(ds: Tags, parse: string -> Record, body: string)
    requires CleanCuts(ds, Process(parse, body).0)
    ensures var (contents, outcome) := Process(parse, body);
            var (text, think, end) := Delivered(ds, parse, body);
            var p := Split(ds, Concat(contents), false);
            && end == outcome
            && (outcome != Failed ==> text == p.text && think == p.think)
            && (outcome == Failed ==>
                  Parse(text, think, p.inThink).Push(p.inThink, CarryOf(ds, Concat(contents))) == p)
  {
    var contents := Process(parse, body).0;
    ChunkIndependenceIff(ds, contents);
    StateIsReference(ds, contents);
  }
}
