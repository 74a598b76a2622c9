/** The read loop of the Ollama provider's `stream`: newline-framed records are rebuilt
    from arbitrary reads, their content goes through the think-tag splitter, and only a
    record with `done` ends the stream normally. JSON decoding is the parameter `parse`. */
module OllamaReader {
  import opened Text
  import opened ThinkSplitter
  import opened ThinkLoop
  import opened ThinkStream
  import opened Utf8

  datatype Record = Malformed | ErrorRecord | Chunk(content: string, done: bool)

  datatype Outcome = Finished | Failed | Truncated

  datatype Delta = TextDelta(piece: string) | ThinkingDelta(piece: string)

  const NL := "\n"

  // ------------------------------------------------------------ the reference

  /** The newline-terminated records of a body. */
  function Lines(body: string): seq<string>
    decreases |body|
  {
    match Find(body, NL)
    case None => []
    case Some(i) => [body[..i]] + Lines(body[i + 1..])
  }

  /** What follows the last newline. */
  function Rest(body: string): string
    decreases |body|
  {
    match Find(body, NL)
    case None => body
    case Some(i) => Rest(body[i + 1..])
  }

  /** The contents of the records handled so far, and the verdict once there is one. */
  datatype Scan = Scan(contents: seq<string>, verdict: Option<Outcome>)

  const START := Scan([], None)

  function ScanOne(parse: string -> Record, st: Scan, line: string): Scan {
    if st.verdict.Some? || Blank(line) then st else
    match parse(line)
    case Malformed => st.(verdict := Some(Failed))
    case ErrorRecord => st.(verdict := Some(Failed))
    case Chunk(content, done) => Scan(st.contents + [content], if done then Some(Finished) else None)
  }

  function ScanLines(parse: string -> Record, st: Scan, lines: seq<string>): Scan
    decreases |lines|
  {
    if lines == [] then st else ScanLines(parse, ScanOne(parse, st, lines[0]), lines[1..])
  }

  /** The verdict on a record without its newline: its content is never looked at. */
  function ResidueOutcome(parse: string -> Record, rest: string): Outcome {
    if Blank(rest) then Truncated else
    match parse(Strip(rest))
    case Malformed => Failed
    case ErrorRecord => Failed
    case Chunk(_, done) => if done then Finished else Truncated
  }

  /** Contents delivered and outcome, from the body alone. */
  function Process(parse: string -> Record, body: string): (seq<string>, Outcome) {
    var st := ScanLines(parse, START, Lines(body));
    (st.contents, if st.verdict.Some? then st.verdict.value else ResidueOutcome(parse, Rest(body)))
  }

  // ------------------------------------------------------------ framing lemmas

  lemma {:induction false} LinesExtend(a: string, b: string)
    ensures Lines(a + b) == Lines(a) + Lines(Rest(a) + b)
    ensures Rest(a + b) == Rest(Rest(a) + b)
    decreases |a|
  {
    match Find(a, NL)
    case None =>
    case Some(i) =>
      var after := a[i + 1..];
      FindInLeft(a, b, NL);
      CutLeft(a, b, i, 1);
      LinesExtend(after, b);
      LinesFound(a, i, a[..i], after);
      LinesFound(a + b, i, a[..i], after + b);
  }

  lemma {:induction false} LinesFound(body: string, i: nat, line: string, after: string)
    requires Find(body, NL) == Some(i) && line == body[..i] && after == body[i + 1..]
    ensures Lines(body) == [line] + Lines(after) && Rest(body) == Rest(after)
  {
  }

  lemma {:induction false} ScanConcat(parse: string -> Record, st: Scan, a: seq<string>, b: seq<string>)
    ensures ScanLines(parse, st, a + b) == ScanLines(parse, ScanLines(parse, st, a), b)
    decreases |a|
  {
    if a == [] {
      assert a + b == b;
    } else {
      TailOfConcat(a, b);
      ScanConcat(parse, ScanOne(parse, st, a[0]), a[1..], b);
    }
  }

  lemma {:induction false} ScanDecided(parse: string -> Record, st: Scan, lines: seq<string>)
    requires st.verdict.Some?
    ensures ScanLines(parse, st, lines) == st
    decreases |lines|
  {
    if lines != [] {
      ScanDecided(parse, st, lines[1..]);
    }
  }

  /** A further read extends the scan of what was read before. */
  lemma {:induction false} ScanExtends(parse: string -> Record, a: string, b: string)
    ensures ScanLines(parse, START, Lines(a + b))
            == ScanLines(parse, ScanLines(parse, START, Lines(a)), Lines(Rest(a) + b))
  {
    LinesExtend(a, b);
    ScanConcat(parse, START, Lines(a), Lines(Rest(a) + b));
  }

  // --------------------------------------------------------------- delivery

  function TextOf(events: seq<Delta>): string {
    if events == [] then ""
    else (if events[0].TextDelta? then events[0].piece else "") + TextOf(events[1..])
  }

  function ThinkingOf(events: seq<Delta>): string {
    if events == [] then ""
    else (if events[0].ThinkingDelta? then events[0].piece else "") + ThinkingOf(events[1..])
  }

  lemma {:induction false} DeliveryConcat(a: seq<Delta>, b: seq<Delta>)
    ensures TextOf(a + b) == TextOf(a) + TextOf(b)
    ensures ThinkingOf(a + b) == ThinkingOf(a) + ThinkingOf(b)
  {
    TextConcat(a, b);
    ThinkingConcat(a, b);
  }

  lemma {:induction false} TextConcat(a: seq<Delta>, b: seq<Delta>)
    ensures TextOf(a + b) == TextOf(a) + TextOf(b)
  {
    if a == [] {
      assert a + b == b;
    } else {
      TailOfConcat(a, b);
      TextConcat(a[1..], b);
    }
  }

  lemma {:induction false} ThinkingConcat(a: seq<Delta>, b: seq<Delta>)
    ensures ThinkingOf(a + b) == ThinkingOf(a) + ThinkingOf(b)
  {
    if a == [] {
      assert a + b == b;
    } else {
      TailOfConcat(a, b);
      ThinkingConcat(a[1..], b);
    }
  }

  lemma {:induction false} DeliverySnoc(events: seq<Delta>, e: Delta)
    ensures TextOf(events + [e]) == if e.TextDelta? then TextOf(events) + e.piece else TextOf(events)
    ensures ThinkingOf(events + [e]) == if e.ThinkingDelta? then ThinkingOf(events) + e.piece else ThinkingOf(events)
  {
    DeliveryConcat(events, [e]);
    assert [e][1..] == [] && e.piece + "" == e.piece;
  }

  /** `for piece in pieces: if piece: yield ...` */
  method YieldPieces(pieces: seq<string>, thinking: bool) returns (events: seq<Delta>)
    ensures TextOf(events) == if thinking then "" else Concat(pieces)
    ensures ThinkingOf(events) == if thinking then Concat(pieces) else ""
    ensures forall e | e in events :: e.piece != ""
  {
    events := [];
    for i := 0 to |pieces|
      invariant TextOf(events) == if thinking then "" else Concat(pieces[..i])
      invariant ThinkingOf(events) == if thinking then Concat(pieces[..i]) else ""
      invariant forall e | e in events :: e.piece != ""
    {
      assert pieces[..i + 1] == pieces[..i] + [pieces[i]];
      ConcatSnoc(pieces[..i], pieces[i]);
      if pieces[i] != "" {
        var e := if thinking then ThinkingDelta(pieces[i]) else TextDelta(pieces[i]);
        DeliverySnoc(events, e);
        events := events + [e];
      }
    }
    assert pieces[..|pieces|] == pieces;
  }

  /** One record's content through the splitter, with the carry of the previous one. */
  method EmitContent(ds: Tags, content: string, carry: string, inThink: bool)
    returns (events: seq<Delta>, carry': string, inThink': bool)
    ensures StepContent(ds, Flow("", "", carry, inThink), content)
            == Flow(TextOf(events), ThinkingOf(events), carry', inThink')
  {
    events, carry', inThink' := [], carry, inThink;
    if content != "" {
      var full := carry + content;
      var contentParts, thinkParts, next := SplitThinkBlocks(ds, full, inThink);
      carry' := HeldTail(ds, full);
      events := YieldParts(contentParts, thinkParts);
      inThink' := next;
      StepFromStart(ds, carry, inThink, content, Parse(TextOf(events), ThinkingOf(events), next), carry');
    }
  }

  /** The longer of the two partial delimiters at the end. */
  method HeldTail(ds: Tags, full: string) returns (carry: string)
    ensures carry == CarryOf(ds, full)
  {
    var holdOpen := PartialSuffixLen(full, ds.open);
    var holdClose := PartialSuffixLen(full, ds.close);
    var hold := if holdOpen < holdClose then holdClose else holdOpen;
    carry := if hold > 0 then full[|full| - hold..] else "";
  }

  method YieldParts(contentParts: seq<string>, thinkParts: seq<string>) returns (events: seq<Delta>)
    ensures TextOf(events) == Concat(contentParts) && ThinkingOf(events) == Concat(thinkParts)
  {
    var shown := YieldPieces(contentParts, false);
    var thoughts := YieldPieces(thinkParts, true);
    DeliveryConcat(shown, thoughts);
    events := shown + thoughts;
  }

  lemma {:induction false} StepFromStart(ds: Tags, carry: string, inThink: bool, content: string, p: Parse,
                                         carry': string)
    requires content != "" && p == Shown(ds, carry + content, inThink)
    requires carry' == CarryOf(ds, carry + content)
    ensures StepContent(ds, Flow("", "", carry, inThink), content) == Flow(p.text, p.think, carry', p.inThink)
  {
    assert "" + p.text == p.text && "" + p.think == p.think;
  }

  lemma {:induction false} StepShifts(ds: Tags, f: Flow, content: string)
    ensures var g := StepContent(ds, Flow("", "", f.carry, f.inThink), content);
            StepContent(ds, f, content) == Flow(f.text + g.text, f.think + g.think, g.carry, g.inThink)
  {
    if content != "" {
      var p := Shown(ds, f.carry + content, f.inThink);
      assert "" + p.text == p.text && "" + p.think == p.think;
    }
  }

  lemma {:induction false} RunSnoc(ds: Tags, contents: seq<string>, c: string)
    ensures RunContents(ds, contents + [c]) == StepContent(ds, RunContents(ds, contents), c)
  {
    assert (contents + [c])[..|contents|] == contents;
  }

  // ------------------------------------------------------------ the read loop

  /** Text and thinking delivered, and the outcome, from the body alone. */
  function Delivered(ds: Tags, parse: string -> Record, body: string): (string, string, Outcome) {
    var (contents, outcome) := Process(parse, body);
    var p := if outcome.Failed? then RunContents(ds, contents).Emitted() else Received(ds, contents);
    (p.text, p.think, outcome)
  }

  /** The loop's view of what it has read so far. */
  ghost predicate Reading(ds: Tags, parse: string -> Record, body: string, buffer: string, st: Scan,
                          events: seq<Delta>, carry: string, inThink: bool) {
    && ScanLines(parse, START, Lines(body)) == ScanLines(parse, st, Lines(buffer))
    && Rest(body) == Rest(buffer)
    && Flow(TextOf(events), ThinkingOf(events), carry, inThink) == RunContents(ds, st.contents)
  }

  /** `while "\n" in line_buffer`: handles complete records until one decides. */
  method DrainBuffer(ds: Tags, parse: string -> Record, ghost body: string, buffer: string, ghost st: Scan,
                     events: seq<Delta>, carry: string, inThink: bool)
    returns (buffer': string, ghost st': Scan, events': seq<Delta>, carry': string, inThink': bool,
             verdict: Option<Outcome>)
    requires Reading(ds, parse, body, buffer, st, events, carry, inThink) && st.verdict.None?
    ensures Reading(ds, parse, body, buffer', st', events', carry', inThink')
    ensures st'.verdict == verdict && (verdict.None? ==> Find(buffer', NL).None?)
  {
    buffer', st', events', carry', inThink', verdict := buffer, st, events, carry, inThink, None;
    while verdict.None? && Find(buffer', NL).Some?
      invariant Reading(ds, parse, body, buffer', st', events', carry', inThink')
      invariant st'.verdict == verdict
      decreases verdict.None?, |buffer'|
    {
      var i := Find(buffer', NL).value;
      var record := buffer'[..i];
      TakeLine(ds, parse, body, buffer', st', events', carry', inThink', i);
      ghost var before := st';
      buffer', st' := buffer'[i + 1..], ScanOne(parse, st', record);
      if !Blank(record) {
        match parse(record) {
          case Malformed => verdict := Some(Failed);
          case ErrorRecord => verdict := Some(Failed);
          case Chunk(content, done) =>
            var more, carry2, inThink2 := EmitContent(ds, content, carry', inThink');
            Emit(ds, before.contents, events', carry', inThink', content, more, carry2, inThink2);
            events', carry', inThink' := events' + more, carry2, inThink2;
            verdict := if done then Some(Finished) else None;
        }
      }
    }
  }

  method FlushCarry(events: seq<Delta>, carry: string, inThink: bool) returns (events': seq<Delta>)
    ensures Parse(TextOf(events'), ThinkingOf(events'), inThink)
            == Flow(TextOf(events), ThinkingOf(events), carry, inThink).Flush()
  {
    events' := events;
    if carry != "" {
      var e := if inThink then ThinkingDelta(carry) else TextDelta(carry);
      DeliveryConcat(events, [e]);
      events' := events + [e];
    }
  }

  method Stream(ds: Tags, parse: string -> Record, raws: seq<seq<Byte>>)
    returns (events: seq<Delta>, outcome: Outcome)
    ensures (TextOf(events), ThinkingOf(events), outcome) == Delivered(ds, parse, Concat(Decoded(raws)))
  {
    var lineBuffer, thinkCarry, inThink, verdict := "", "", false, None;
    events := [];
    ghost var st, body, texts := START, "", Decoded(raws);
    var k := 0;
    while k < |raws| && verdict.None?
      invariant k <= |raws| && body == Concat(texts[..k])
      invariant Reading(ds, parse, body, lineBuffer, st, events, thinkCarry, inThink)
      invariant st.verdict == verdict && (verdict.None? ==> Find(lineBuffer, NL).None?)
    {
      var text := Decode(raws[k]);
      ReadMore(ds, parse, body, lineBuffer, st, events, thinkCarry, inThink, text);
      NextRead(texts, k);
      body, k := body + text, k + 1;
      lineBuffer, st, events, thinkCarry, inThink, verdict :=
        DrainBuffer(ds, parse, body, lineBuffer + text, st, events, thinkCarry, inThink);
    }
    ghost var contents := st.contents;
    if verdict.Some? {
      Decided(ds, parse, body, lineBuffer, st, texts, k);
      outcome := verdict.value;
    } else {
      assert texts[..k] == texts;
      outcome := Residue(parse, lineBuffer);
    }
    assert Process(parse, Concat(texts)) == (contents, outcome);
    if outcome != Failed {
      events := FlushCarry(events, thinkCarry, inThink);
    }
  }

  /** The final record without a newline. */
  method Residue(parse: string -> Record, lineBuffer: string) returns (outcome: Outcome)
    ensures outcome == ResidueOutcome(parse, lineBuffer)
  {
    var residue := Strip(lineBuffer);
    outcome := Truncated;
    if residue != "" {
      match parse(residue) {
        case Malformed => outcome := Failed;
        case ErrorRecord => outcome := Failed;
        case Chunk(_, done) =>
          if done {
            outcome := Finished;
          }
      }
    }
  }

  lemma {:induction false} NextRead(raws: seq<string>, k: nat)
    requires k < |raws|
    ensures Concat(raws[..k + 1]) == Concat(raws[..k]) + raws[k]
  {
    assert raws[..k + 1] == raws[..k] + [raws[k]];
    ConcatSnoc(raws[..k], raws[k]);
  }

  lemma {:induction false} ReadMore(ds: Tags, parse: string -> Record, body: string, buffer: string, st: Scan,
                 events: seq<Delta>, carry: string, inThink: bool, raw: string)
    requires Reading(ds, parse, body, buffer, st, events, carry, inThink)
    requires Find(buffer, NL).None?
    ensures Reading(ds, parse, body + raw, buffer + raw, st, events, carry, inThink)
  {
    ScanExtends(parse, body, raw);
    LinesExtend(body, raw);
  }

  lemma {:induction false} TakeLine(ds: Tags, parse: string -> Record, body: string, buffer: string, st: Scan,
                 events: seq<Delta>, carry: string, inThink: bool, i: nat)
    requires Reading(ds, parse, body, buffer, st, events, carry, inThink)
    requires Find(buffer, NL) == Some(i)
    ensures ScanLines(parse, START, Lines(body))
            == ScanLines(parse, ScanOne(parse, st, buffer[..i]), Lines(buffer[i + 1..]))
    ensures Rest(body) == Rest(buffer[i + 1..])
  {
    assert Lines(buffer)[0] == buffer[..i] && Lines(buffer)[1..] == Lines(buffer[i + 1..]);
  }

  lemma {:induction false} Emit(ds: Tags, contents: seq<string>, events: seq<Delta>, carry: string, inThink: bool,
             content: string, more: seq<Delta>, carry': string, inThink': bool)
    ensures Flow(TextOf(events), ThinkingOf(events), carry, inThink) == RunContents(ds, contents)
            && StepContent(ds, Flow("", "", carry, inThink), content)
               == Flow(TextOf(more), ThinkingOf(more), carry', inThink')
            ==> Flow(TextOf(events + more), ThinkingOf(events + more), carry', inThink')
                == RunContents(ds, contents + [content])
  {
    RunSnoc(ds, contents, content);
    StepShifts(ds, RunContents(ds, contents), content);
    DeliveryConcat(events, more);
  }

  /** Once a record decides, the reads that follow do not matter. */
  lemma {:induction false} Decided(ds: Tags, parse: string -> Record, body: string, buffer: string, st: Scan,
                raws: seq<string>, k: nat)
    requires k <= |raws| && body == Concat(raws[..k]) && st.verdict.Some?
    requires ScanLines(parse, START, Lines(body)) == ScanLines(parse, st, Lines(buffer))
    ensures Process(parse, Concat(raws)) == (st.contents, st.verdict.value)
  {
    ScanDecided(parse, st, Lines(buffer));
    assert raws == raws[..k] + raws[k..];
    ConcatAppend(raws[..k], raws[k..]);
    ScanExtends(parse, body, Concat(raws[k..]));
    ScanDecided(parse, st, Lines(Rest(body) + Concat(raws[k..])));
  }

  // ------------------------------------------------- when the stream ends normally

  /** Every record of the body, the unterminated last one included. */
  function Records(body: string): seq<string> {
    Lines(body) + [Strip(Rest(body))]
  }

  predicate IsDone(parse: string -> Record, record: string) {
    !Blank(record) && parse(record).Chunk? && parse(record).done
  }

  /** Blank, or a chunk after which the stream goes on. */
  predicate Continues(parse: string -> Record, record: string) {
    Blank(record) || (parse(record).Chunk? && !parse(record).done)
  }

  ghost predicate FirstDecisive(parse: string -> Record, records: seq<string>, k: int) {
    0 <= k < |records| && !Continues(parse, records[k]) && forall j | 0 <= j < k :: Continues(parse, records[j])
  }

  lemma {:induction false} ScanFinds(parse: string -> Record, st: Scan, lines: seq<string>)
    requires st.verdict.None?
    ensures var v := ScanLines(parse, st, lines).verdict;
            && (v.None? <==> forall j | 0 <= j < |lines| :: Continues(parse, lines[j]))
            && (v.Some? ==> exists k :: FirstDecisive(parse, lines, k)
                                       && v.value == if IsDone(parse, lines[k]) then Finished else Failed)
    decreases |lines|
  {
    if lines != [] {
      var one := ScanOne(parse, st, lines[0]);
      if one.verdict.Some? {
        ScanDecided(parse, one, lines[1..]);
        assert FirstDecisive(parse, lines, 0);
      } else {
        ScanFinds(parse, one, lines[1..]);
        assert forall j | 0 < j < |lines| :: lines[j] == lines[1..][j - 1];
        var v := ScanLines(parse, one, lines[1..]).verdict;
        if v.Some? {
          var k :| FirstDecisive(parse, lines[1..], k)
                   && v.value == if IsDone(parse, lines[1..][k]) then Finished else Failed;
          assert FirstDecisive(parse, lines, k + 1);
        }
      }
    }
  }

  /** The stream ends normally if and only if the first decisive record is a done record;
      it fails if that record is malformed or an error, and is cut short if there is none. */
  lemma {:induction false} EndsNormallyIff(parse: string -> Record, body: string)
    ensures var rs := Records(body);
            && (Process(parse, body).1 == Finished
                <==> exists k :: FirstDecisive(parse, rs, k) && IsDone(parse, rs[k]))
            && (Process(parse, body).1 == Truncated
                <==> forall j | 0 <= j < |rs| :: Continues(parse, rs[j]))
  {
    var rs, lines := Records(body), Lines(body);
    var v := ScanLines(parse, START, lines).verdict;
    ScanFinds(parse, START, lines);
    assert forall j | 0 <= j < |lines| :: rs[j] == lines[j];
    if v.Some? {
      var k :| FirstDecisive(parse, lines, k) && v.value == if IsDone(parse, lines[k]) then Finished else Failed;
      assert FirstDecisive(parse, rs, k) && rs[k] == lines[k];
      OnlyOneIsFirst(parse, rs, k);
    } else if !Continues(parse, rs[|lines|]) {
      assert FirstDecisive(parse, rs, |lines|);
      OnlyOneIsFirst(parse, rs, |lines|);
    }
  }

  lemma {:induction false} OnlyOneIsFirst(parse: string -> Record, rs: seq<string>, k: int)
    requires FirstDecisive(parse, rs, k)
    ensures forall j | FirstDecisive(parse, rs, j) :: j == k
  {
  }
}
