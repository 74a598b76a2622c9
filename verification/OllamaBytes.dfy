/** The stream of the Ollama provider over bytes: how the body is cut into reads matters
    only where a cut falls inside a character. */
module OllamaBytes {
  import opened Text
  import opened ThinkSplitter
  import opened ThinkStream
  import opened OllamaReader
  import opened Utf8

  /** What the stream delivers, from its reads (see `OllamaReader.Stream`). */
  function FromReads(ds: Tags, parse: string -> Record, raws: seq<seq<Byte>>): (string, string, Outcome) {
    Delivered(ds, parse, Concat(Decoded(raws)))
  }

  /** As long as no cut falls inside a character, only the body matters. */
  lemma {:induction false} CutsDoNotMatter(ds: Tags, parse: string -> Record, raws: seq<seq<Byte>>)
    requires CutsBetween(raws)
    ensures FromReads(ds, parse, raws) == Delivered(ds, parse, Decode(Joined(raws)))
  {
    ReadsDecodeIff(raws);
  }

  /** A decoder for which every line is a done record with itself as its content. */
  function Echo(line: string): Record {
    Chunk(line, true)
  }

  /** Neither blank nor a delimiter nor a newline in it. */
  predicate PlainText(line: string) {
    !Blank(line) && '<' !in line && '>' !in line && '\n' !in line
  }

  /** A line of plain text is delivered as it is. */
  lemma {:induction false} EchoDelivers(line: string)
    requires PlainText(line)
    ensures Delivered(THINK, Echo, line + NL).0 == line
  {
    NoNewline(line);
    LineEnds(line);
    ScanOneLine(line);
    assert Process(Echo, line + NL) == ([line], Finished);
    PlainIsReceived(THINK, line);
  }

  lemma {:induction false} NoNewline(line: string)
    requires '\n' !in line
    ensures Find(line, NL).None?
  {
    FindIsLeftmost(line, NL);
    if Find(line, NL).Some? {
      NewlineOccurs(line, Find(line, NL).value);
    }
  }

  lemma {:induction false} NewlineOccurs(line: string, i: nat)
    requires OccursAt(line, NL, i)
    ensures '\n' in line
  {
    assert line[i] == line[i..i + 1][0];
  }

  lemma {:induction false} LineEnds(line: string)
    requires Find(line, NL).None?
    ensures Lines(line + NL) == [line] && Rest(line + NL) == ""
  {
    FindIsLeftmost(line, NL);
    assert OccursAt(line + NL, NL, |line|);
    FindMeets(line + NL, NL, |line|);
    FindIsLeftmost(line + NL, NL);
    var i := Find(line + NL, NL).value;
    if i < |line| {
      OccursLeft(line, NL, NL, i);
    }
    LinesFound(line + NL, |line|, line, "");
  }

  lemma {:induction false} ScanOneLine(line: string)
    requires !Blank(line)
    ensures ScanLines(Echo, START, [line]) == Scan([line], Some(Finished))
  {
    assert [line][1..] == [];
    assert [] + [line] == [line];
  }

  lemma {:induction false} PlainIsReceived(ds: Tags, s: string)
    requires '<' !in s && '>' !in s
    ensures Received(ds, [s]).text == s
  {
    var one := [s];
    assert one[1..] == [] && one[..0] == [] && Concat(one) == s;
    PlainIsClean(ds, s);
    EmptySplit(ds, false);
    TailIsPlain(ds, "", s, false);
    assert "" + s == s;
    assert CleanCuts(ds, []) && CleanCuts(ds, one);
    ChunkIndependenceIff(ds, one);
  }

  lemma {:induction false} PlainIsClean(ds: Tags, s: string)
    requires '<' !in s && '>' !in s
    ensures CleanCut(ds, s)
  {
    var b := !Split(ds, s, false).inThink;
    HeldShape(ds, s, b, HeldLen(s, ds.Of(b)));
  }

  // ------------------------------------------------------------------ the failing cut

  const E_ACUTE: seq<Byte> := [0xC3, 0xA9]

  /** Cutting a line between the two bytes of its last character spoils it: the content
      delivered is longer than with the whole line in one read. */
  lemma {:induction false} CutCharacterExample()
    ensures FromReads(THINK, Echo, [[0xC3], [0xA9, 0x0A]]) != FromReads(THINK, Echo, [[0xC3, 0xA9, 0x0A]])
  {
    var whole, cut := [[0xC3, 0xA9, 0x0A]], [[0xC3], [0xA9, 0x0A]];
    WholeDecodes(whole);
    CutDecodes(cut);
    assert E_TEXT[0] == '\U{E9}' && !IsSpace(E_TEXT[0]) && BROKEN[0] == REPLACEMENT && !IsSpace(BROKEN[0]);
    EchoDelivers(E_TEXT);
    EchoDelivers(BROKEN);
  }

  const E_TEXT: string := ['\U{E9}']
  const BROKEN: string := [REPLACEMENT, REPLACEMENT]

  lemma {:induction false} WholeDecodes(raws: seq<seq<Byte>>)
    requires raws == [[0xC3, 0xA9, 0x0A]]
    ensures Concat(Decoded(raws)) == E_TEXT + NL
  {
    var bs: seq<Byte> := [0xC3, 0xA9, 0x0A];
    assert Decoded(raws) == [Decode(bs)];
    assert Going(bs, 2) == 2 && UnitLen(bs) == 2 && bs[2..] == [0x0A];
    DecodeHead(bs, 2, [0x0A]);
    AsciiDecodes(0x0A);
    assert [Decode(bs)][1..] == [];
  }

  lemma {:induction false} AsciiDecodes(b: Byte)
    requires b < 0x80
    ensures Decode([b]) == [b as char]
  {
    assert [b][1..] == [];
    DecodeHead([b], 1, []);
  }

  lemma {:induction false} CutDecodes(raws: seq<seq<Byte>>)
    requires raws == [[0xC3], [0xA9, 0x0A]]
    ensures Concat(Decoded(raws)) == BROKEN + NL
  {
    var x: seq<Byte>, y: seq<Byte> := [0xC3], [0xA9, 0x0A];
    assert Decoded(raws) == [Decode(x), Decode(y)];
    assert x[1..] == [] && UnitLen(x) == 1;
    DecodeHead(x, 1, []);
    assert y[1..] == [0x0A] && UnitLen(y) == 1;
    DecodeHead(y, 1, [0x0A]);
    AsciiDecodes(0x0A);
    var one := [Decode(x)];
    assert Decoded(raws) == one + [Decode(y)] && one[1..] == [];
    ConcatSnoc(one, Decode(y));
    assert Decode(x) == [REPLACEMENT] + "" && Decode(y) == [REPLACEMENT] + NL;
  }
}
