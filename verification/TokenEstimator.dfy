/** Token counting that never gives the tokenizer a long run of letters or symbols. The
    tokenizer is the parameter `encode` (None is its ValueError), the character classes of
    the run pattern are the parameter `kind`. */
module TokenEstimator {
  import opened Text

  datatype Kind = Letter | Symbol | Plain

  const SLICE := 1024

  /** End of the longest stretch of one kind that starts at `i`. */
  function RunEnd(kind: char -> Kind, text: string, i: nat): (e: nat)
    requires i < |text|
    ensures i < e <= |text|
    decreases |text| - i
  {
    if i + 1 < |text| && kind(text[i + 1]) == kind(text[i]) then RunEnd(kind, text, i + 1) else i + 1
  }

  /** The first match of the run pattern at or after `i`. */
  function NextRun(kind: char -> Kind, text: string, i: nat): (r: Option<(nat, nat)>)
    ensures r.Some? ==> i <= r.value.0 && r.value.0 + SLICE <= r.value.1 <= |text|
    decreases |text| - i
  {
    if i >= |text| then None
    else if !kind(text[i]).Plain? && RunEnd(kind, text, i) - i >= SLICE then Some((i, RunEnd(kind, text, i)))
    else NextRun(kind, text, i + 1)
  }

  /** A whole slice of one kind starts at `s`. */
  predicate LongRunAt(kind: char -> Kind, text: string, s: int) {
    0 <= s && s + SLICE <= |text| && !kind(text[s]).Plain?
    && forall i | s <= i < s + SLICE :: kind(text[i]) == kind(text[s])
  }

  lemma {:induction false} RunIsUniform(kind: char -> Kind, text: string, i: nat)
    requires i < |text|
    ensures forall j | i <= j < RunEnd(kind, text, i) :: kind(text[j]) == kind(text[i])
    ensures RunEnd(kind, text, i) < |text| ==> kind(text[RunEnd(kind, text, i)]) != kind(text[i])
    decreases |text| - i
  {
    if i + 1 < |text| && kind(text[i + 1]) == kind(text[i]) {
      RunIsUniform(kind, text, i + 1);
    }
  }

  /** The search finds the leftmost long run, and none only if there is none. */
  lemma {:induction false} NextRunIsLeftmost(kind: char -> Kind, text: string, i: nat)
    ensures var r := NextRun(kind, text, i);
            && (r.Some? ==> LongRunAt(kind, text, r.value.0))
            && forall s | i <= s && LongRunAt(kind, text, s) :: r.Some? && r.value.0 <= s
    decreases |text| - i
  {
    if i < |text| {
      RunIsUniform(kind, text, i);
      if LongRunAt(kind, text, i) {
        assert RunEnd(kind, text, i) < |text| ==> RunEnd(kind, text, i) >= i + SLICE;
      }
      NextRunIsLeftmost(kind, text, i + 1);
    }
  }

  // --------------------------------------------------------------- the pieces

  function Sliced(text: string): (r: seq<string>)
    ensures forall i | 0 <= i < |r| :: |r[i]| <= SLICE
  {
    if |text| <= SLICE then (if text == "" then [] else [text])
    else [text[..SLICE]] + Sliced(text[SLICE..])
  }

  predicate HasRun(kind: char -> Kind, text: string) {
    |text| >= SLICE && NextRun(kind, text, 0).Some?
  }

  /** The strings whose token counts are added up. */
  function Pieces(kind: char -> Kind, encode: string -> Option<nat>, text: string): seq<string>
    decreases |text|, |text| + 1
  {
    if HasRun(kind, text) then PiecesFrom(kind, encode, text, 0)
    else if encode(text).Some? then [text]
    else Sliced(text)
  }

  /** The same after position `last`, between and inside the runs that follow. */
  function PiecesFrom(kind: char -> Kind, encode: string -> Option<nat>, text: string, last: nat): seq<string>
    requires last <= |text| && (last > 0 || HasRun(kind, text))
    decreases |text|, |text| - last
  {
    match NextRun(kind, text, last)
    case None => if last < |text| then Pieces(kind, encode, text[last..]) else []
    case Some((s, e)) =>
      (if s > last then Pieces(kind, encode, text[last..s]) else [])
      + Sliced(text[s..e]) + PiecesFrom(kind, encode, text, e)
  }

  function Add(a: Option<nat>, b: Option<nat>): Option<nat> {
    if a.Some? && b.Some? then Some(a.value + b.value) else None
  }

  /** The sum of the counts; a tokenizer error on any piece is an error. */
  function Count(encode: string -> Option<nat>, pieces: seq<string>): Option<nat> {
    if pieces == [] then Some(0) else Add(encode(pieces[0]), Count(encode, pieces[1..]))
  }

  lemma {:induction false} CountConcat(encode: string -> Option<nat>, a: seq<string>, b: seq<string>)
    ensures Count(encode, a + b) == Add(Count(encode, a), Count(encode, b))
  {
    if a == [] {
      assert a + b == b;
    } else {
      TailOfConcat(a, b);
      CountConcat(encode, a[1..], b);
    }
  }

  // ------------------------------------------------------------------ the code

  method SlicedLen(encode: string -> Option<nat>, text: string) returns (n: Option<nat>)
    ensures n == Count(encode, Sliced(text))
  {
    n := Some(0);
    var i := 0;
    ghost var goal := Count(encode, Sliced(text));
    assert text[0..] == text;
    while i < |text|
      invariant i <= |text| && Add(n, Count(encode, Sliced(text[i..]))) == goal
      decreases |text| - i
    {
      var stop := if i + SLICE <= |text| then i + SLICE else |text|;
      SlicedFirst(text[i..]);
      assert text[i..][..stop - i] == text[i..stop] && text[i..][stop - i..] == text[stop..];
      n := Add(n, encode(text[i..stop]));
      i := stop;
    }
  }

  lemma {:induction false} SlicedFirst(t: string)
    requires t != ""
    ensures var k := if |t| < SLICE then |t| else SLICE; Sliced(t) == [t[..k]] + Sliced(t[k..])
  {
    if |t| <= SLICE {
      assert t[..|t|] == t && t[|t|..] == "";
    }
  }

  /** The pieces of the stretch before a run. */
  function Gap(kind: char -> Kind, encode: string -> Option<nat>, text: string, last: nat, s: nat): seq<string>
    requires last <= s <= |text|
  {
    if s > last then Pieces(kind, encode, text[last..s]) else []
  }

  lemma {:induction false} PiecesStep(kind: char -> Kind, encode: string -> Option<nat>, text: string, last: nat)
    requires last <= |text| && (last > 0 || HasRun(kind, text)) && NextRun(kind, text, last).Some?
    ensures var (s, e) := NextRun(kind, text, last).value;
            PiecesFrom(kind, encode, text, last)
            == Gap(kind, encode, text, last, s) + Sliced(text[s..e]) + PiecesFrom(kind, encode, text, e)
  {}

  lemma {:induction false} CountStep(kind: char -> Kind, encode: string -> Option<nat>, text: string, last: nat,
                                     total: Option<nat>)
    requires last <= |text| && (last > 0 || HasRun(kind, text)) && NextRun(kind, text, last).Some?
    ensures var (s, e) := NextRun(kind, text, last).value;
            Add(total, Count(encode, PiecesFrom(kind, encode, text, last)))
            == Add(Add(Add(total, Count(encode, Gap(kind, encode, text, last, s))),
                       Count(encode, Sliced(text[s..e]))),
                   Count(encode, PiecesFrom(kind, encode, text, e)))
  {
    var (s, e) := NextRun(kind, text, last).value;
    PiecesStep(kind, encode, text, last);
    var (before, inside) := (Gap(kind, encode, text, last, s), Sliced(text[s..e]));
    CountConcat(encode, before + inside, PiecesFrom(kind, encode, text, e));
    CountConcat(encode, before, inside);
  }

  lemma {:induction false} CountOne(encode: string -> Option<nat>, text: string)
    ensures Count(encode, [text]) == encode(text)
  {
    assert [text][1..] == [];
    assert Count(encode, []) == Some(0);
  }

  method EncodedLen(kind: char -> Kind, encode: string -> Option<nat>, text: string) returns (n: Option<nat>)
    ensures n == Count(encode, Pieces(kind, encode, text))
    decreases |text|, 1
  {
    if HasRun(kind, text) {
      n := RunsLen(kind, encode, text);
    } else {
      n := encode(text);
      CountOne(encode, text);
      if n.None? {
        n := SlicedLen(encode, text);
      }
    }
  }

  /** The loop over the runs of a text that has one. */
  method RunsLen(kind: char -> Kind, encode: string -> Option<nat>, text: string) returns (n: Option<nat>)
    requires HasRun(kind, text)
    ensures n == Count(encode, PiecesFrom(kind, encode, text, 0))
    decreases |text|, 0
  {
    var total: Option<nat>, last: nat := Some(0), 0;
    ghost var goal := Count(encode, PiecesFrom(kind, encode, text, 0));
    var run := NextRun(kind, text, 0);
    while run.Some?
      invariant last <= |text| && run == NextRun(kind, text, last) && (last > 0 || run.Some?)
      invariant Add(total, Count(encode, PiecesFrom(kind, encode, text, last))) == goal
      decreases |text| - last
    {
      var (start, end) := run.value;
      CountStep(kind, encode, text, last, total);
      if start > last {
        var gap := EncodedLen(kind, encode, text[last..start]);
        total := Add(total, gap);
      }
      var sliced := SlicedLen(encode, text[start..end]);
      total := Add(total, sliced);
      last := end;
      run := NextRun(kind, text, last);
    }
    n := total;
    if last < |text| {
      var rest := EncodedLen(kind, encode, text[last..]);
      n := Add(total, rest);
    }
  }

  // ------------------------------------------------------------------ the laws

  lemma {:induction false} SlicesConcat(text: string)
    ensures Concat(Sliced(text)) == text
  {
    if text != "" {
      if |text| <= SLICE {
        assert [text][1..] == [];
        assert text + "" == text;
      } else {
        SlicesConcat(text[SLICE..]);
        assert text[..SLICE] + text[SLICE..] == text;
      }
    }
  }

  /** Nothing is lost: the pieces given to the tokenizer make up the text. */
  lemma {:induction false} PiecesConcat(kind: char -> Kind, encode: string -> Option<nat>, text: string)
    ensures Concat(Pieces(kind, encode, text)) == text
    decreases |text|, |text| + 1
  {
    if HasRun(kind, text) {
      PiecesFromConcat(kind, encode, text, 0);
      assert text[0..] == text;
    } else if encode(text).Some? {
      assert [text][1..] == [];
      assert text + "" == text;
    } else {
      SlicesConcat(text);
    }
  }

  lemma {:induction false} PiecesFromConcat(kind: char -> Kind, encode: string -> Option<nat>, text: string, last: nat)
    requires last <= |text| && (last > 0 || HasRun(kind, text))
    ensures Concat(PiecesFrom(kind, encode, text, last)) == text[last..]
    decreases |text|, |text| - last
  {
    match NextRun(kind, text, last)
    case None =>
      if last < |text| {
        PiecesConcat(kind, encode, text[last..]);
      }
    case Some((s, e)) =>
      var (gap, inside, rest) :=
        (Gap(kind, encode, text, last, s), Sliced(text[s..e]), PiecesFrom(kind, encode, text, e));
      if s > last {
        PiecesConcat(kind, encode, text[last..s]);
      }
      SlicesConcat(text[s..e]);
      PiecesFromConcat(kind, encode, text, e);
      PiecesStep(kind, encode, text, last);
      ConcatThree(gap, inside, rest);
      JoinSlices(text, last, s, e);
  }

  lemma {:induction false} ConcatThree(a: seq<string>, b: seq<string>, c: seq<string>)
    ensures Concat(a + b + c) == Concat(a) + Concat(b) + Concat(c)
  {
    ConcatAppend(a, b);
    ConcatAppend(a + b, c);
  }

  lemma {:induction false} JoinSlices(text: string, last: nat, s: nat, e: nat)
    requires last <= s <= e <= |text|
    ensures text[last..s] + text[s..e] + text[e..] == text[last..]
  {}

  predicate SafePiece(kind: char -> Kind, p: string) {
    |p| <= SLICE || NextRun(kind, p, 0).None?
  }

  /** Every piece is at most one slice long or free of long runs. */
  lemma {:induction false} PiecesAreSafe(kind: char -> Kind, encode: string -> Option<nat>, text: string)
    ensures forall p | p in Pieces(kind, encode, text) :: SafePiece(kind, p)
    decreases |text|, |text| + 1
  {
    if HasRun(kind, text) {
      PiecesFromAreSafe(kind, encode, text, 0);
    }
  }

  lemma {:induction false} PiecesFromAreSafe(kind: char -> Kind, encode: string -> Option<nat>, text: string, last: nat)
    requires last <= |text| && (last > 0 || HasRun(kind, text))
    ensures forall p | p in PiecesFrom(kind, encode, text, last) :: SafePiece(kind, p)
    decreases |text|, |text| - last
  {
    match NextRun(kind, text, last)
    case None =>
      if last < |text| {
        PiecesAreSafe(kind, encode, text[last..]);
      }
    case Some((s, e)) =>
      if s > last {
        PiecesAreSafe(kind, encode, text[last..s]);
      }
      PiecesFromAreSafe(kind, encode, text, e);
  }

  /** A safe piece, on the characters: no slice of one kind in a piece longer than a slice. */
  lemma {:induction false} SafeMeansNoLongRun(kind: char -> Kind, p: string)
    requires SafePiece(kind, p) && |p| > SLICE
    ensures forall s :: !LongRunAt(kind, p, s)
  {
    NextRunIsLeftmost(kind, p, 0);
  }

  ghost predicate Subadditive(count: string -> nat) {
    forall a: string, b: string :: count(a + b) <= count(a) + count(b)
  }

  /** `encode` counts with `count` whenever it does not fail. */
  ghost predicate CountsWith(encode: string -> Option<nat>, count: string -> nat) {
    forall s: string :: encode(s).Some? ==> encode(s).value == count(s)
  }

  lemma {:induction false} SumIsAtLeast(encode: string -> Option<nat>, count: string -> nat, pieces: seq<string>)
    requires Subadditive(count) && CountsWith(encode, count) && pieces != [] && Count(encode, pieces).Some?
    ensures Count(encode, pieces).value >= count(Concat(pieces))
  {
    var rest := pieces[1..];
    if rest == [] {
      assert pieces[0] + "" == pieces[0];
    } else {
      SumIsAtLeast(encode, count, rest);
      assert count(pieces[0] + Concat(rest)) <= count(pieces[0]) + count(Concat(rest));
    }
  }

  ghost predicate Additive(count: string -> nat) {
    count("") == 0 && forall a: string, b: string :: count(a + b) == count(a) + count(b)
  }

  /** For an additive tokenizer the estimate is exact: each piece is counted once. */
  lemma {:induction false} AdditiveIsExact(encode: string -> Option<nat>, count: string -> nat, pieces: seq<string>)
    requires Additive(count) && CountsWith(encode, count)
    ensures Count(encode, pieces).Some? ==> Count(encode, pieces).value == count(Concat(pieces))
    ensures Count(encode, pieces).None? <==> exists i :: 0 <= i < |pieces| && encode(pieces[i]).None?
  {
    if pieces != [] {
      var rest := pieces[1..];
      AdditiveIsExact(encode, count, rest);
      assert count(pieces[0] + Concat(rest)) == count(pieces[0]) + count(Concat(rest));
      if i :| 0 <= i < |rest| && encode(rest[i]).None? {
        assert pieces[i + 1] == rest[i];
      }
      if i :| 0 <= i < |pieces| && encode(pieces[i]).None? {
        assert i > 0 ==> rest[i - 1] == pieces[i];
      }
    }
  }

  /** The estimate never under-counts, for any subadditive tokenizer; on text without long
      runs that the tokenizer accepts it is exact. */
  lemma {:induction false} NeverUndercounts(kind: char -> Kind, encode: string -> Option<nat>,
                                            count: string -> nat, text: string)
    requires Subadditive(count) && CountsWith(encode, count) && text != ""
    requires Count(encode, Pieces(kind, encode, text)).Some?
    ensures Count(encode, Pieces(kind, encode, text)).value >= count(text)
    ensures (forall s :: !LongRunAt(kind, text, s)) && encode(text).Some? ==>
              Count(encode, Pieces(kind, encode, text)) == Some(count(text))
  {
    var pieces := Pieces(kind, encode, text);
    PiecesConcat(kind, encode, text);
    SumIsAtLeast(encode, count, pieces);
    if (forall s :: !LongRunAt(kind, text, s)) && encode(text).Some? {
      NextRunIsLeftmost(kind, text, 0);
      assert pieces == [text] && pieces[1..] == [];
    }
  }
}
