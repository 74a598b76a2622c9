/** What the Chat Completions transcript says, read off the history: one entry for each call
    of an assistant message and each result of a tool message, and what it says. */
module OpenAIReading {
  import opened Text
  import opened OpenAI
  import opened OpenAIRepairs

  /** Calls count in assistant messages, results in tool messages. */
  predicate Speaks(role: Role, p: Part) {
    (role == Assistant && p.CallPart?) || (role == Tool && p.ResultPart?)
  }

  function Spoken(role: Role, parts: seq<Part>): (r: seq<Part>)
    ensures forall i | 0 <= i < |r| :: Speaks(role, r[i])
  {
    if parts == [] then []
    else (if Speaks(role, parts[0]) then [parts[0]] else []) + Spoken(role, parts[1..])
  }

  /** How many messages have closed a batch of calls. */
  function Closed(messages: seq<Message>): nat {
    if messages == [] then 0
    else Closed(messages[..|messages| - 1]) + if messages[|messages| - 1].role == Tool then 0 else 1
  }

  /** The entry for part `p`, the k-th call of message `mi` if it is a call. An explicit id is
      kept; a generated one begins with the place of its call. */
  ghost predicate Says(e: Entry, p: Part, mi: nat, k: nat, batch: nat) {
    && e.batch == batch
    && (p.CallPart? ==>
          && e.Issued? && e.name == p.name
          && if Truthy(p.id) then e.id == p.id.value && !e.generated
             else "call_mucli_" + Decimal(mi) + "_" + Decimal(k) <= e.id && e.generated)
    && (p.ResultPart? ==>
          && e.Answered? && e.toolName == p.toolName && e.payload == p.payload
          && if Truthy(p.id) then e.id == p.id.value && !e.repaired else e.repaired)
    && !p.Content?
  }

  /** `out` continues `before` with one entry for each part. */
  ghost predicate SaysAll(before: seq<Entry>, out: seq<Entry>, parts: seq<Part>, mi: nat, k: nat, batch: nat) {
    && before <= out && |out| == |before| + |parts|
    && forall i | 0 <= i < |parts| :: Says(out[|before| + i], parts[i], mi, k + i, batch)
  }

  /** The entries are those of the messages, message by message. */
  ghost predicate ReadsAs(out: seq<Entry>, messages: seq<Message>)
    decreases |messages|
  {
    if messages == [] then out == []
    else
      var init, m := messages[..|messages| - 1], messages[|messages| - 1];
      var parts := Spoken(m.role, m.parts);
      && |parts| <= |out| && ReadsAs(out[..|out| - |parts|], init)
      && SaysAll(out[..|out| - |parts|], out, parts, |init|, 0, Closed(messages))
  }

  // ------------------------------------------------------------------------ the proof

  lemma {:induction false} CallSays(st: State, mi: nat, k: nat, p: Part)
    requires p.CallPart?
    ensures var n := Step(st, MakeCall(mi, k, p.id, p.name));
            && n.Good? && n.state.batch == st.batch && st.out <= n.state.out && |n.state.out| == |st.out| + 1
            && Says(n.state.out[|st.out|], p, mi, k, st.batch)
  {
  }

  lemma {:induction false} ResultSays(st: State, mi: nat, k: nat, p: Part)
    requires p.ResultPart? && Step(st, TakeResult(p.id, p.toolName, p.payload)).Good?
    ensures var n := Step(st, TakeResult(p.id, p.toolName, p.payload));
            && n.state.batch == st.batch && st.out <= n.state.out && |n.state.out| == |st.out| + 1
            && Says(n.state.out[|st.out|], p, mi, k, st.batch)
  {
  }

  lemma {:induction false} SaysCons(before: seq<Entry>, next: seq<Entry>, out: seq<Entry>, p: Part, rest: seq<Part>,
                                    mi: nat, k: nat, batch: nat)
    requires before <= next && |next| == |before| + 1 && Says(next[|before|], p, mi, k, batch)
    requires SaysAll(next, out, rest, mi, k + 1, batch)
    ensures SaysAll(before, out, [p] + rest, mi, k, batch)
  {
    var all := [p] + rest;
    forall i | 0 <= i < |all|
      ensures Says(out[|before| + i], all[i], mi, k + i, batch)
    {
      if i == 0 {
        assert out[|before|] == next[|before|];
      } else {
        assert Says(out[|next| + (i - 1)], rest[i - 1], mi, k + 1 + (i - 1), batch);
      }
    }
  }

  /** The place of a result does not matter. */
  lemma {:induction false} ResultsAnywhere(before: seq<Entry>, out: seq<Entry>, parts: seq<Part>, mi: nat, k: nat,
                                           l: nat, batch: nat)
    requires SaysAll(before, out, parts, mi, k, batch) && forall i | 0 <= i < |parts| :: parts[i].ResultPart?
    ensures SaysAll(before, out, parts, mi, l, batch)
  {
    forall i | 0 <= i < |parts|
      ensures Says(out[|before| + i], parts[i], mi, l + i, batch)
    {
      assert Says(out[|before| + i], parts[i], mi, k + i, batch);
    }
  }

  lemma {:induction false} PartsSay(st: State, role: Role, mi: nat, k: nat, parts: seq<Part>)
    requires Fold(st, PartActions(role, mi, k, parts)).Good?
    ensures var n := Fold(st, PartActions(role, mi, k, parts)).state;
            n.batch == st.batch && SaysAll(st.out, n.out, Spoken(role, parts), mi, k, st.batch)
    decreases |parts|
  {
    if parts != [] {
      var p, rest := parts[0], parts[1..];
      if Speaks(role, p) {
        var acts := PartActions(role, mi, k, parts);
        var next := Step(st, acts[0]).state;
        if p.CallPart? {
          CallSays(st, mi, k, p);
          assert acts[1..] == PartActions(role, mi, k + 1, rest);
          PartsSay(next, role, mi, k + 1, rest);
        } else {
          ResultSays(st, mi, k, p);
          assert acts[1..] == PartActions(role, mi, k, rest);
          PartsSay(next, role, mi, k, rest);
          ResultsAnywhere(next.out, Fold(next, acts[1..]).state.out, Spoken(role, rest), mi, k, k + 1, st.batch);
        }
        SaysCons(st.out, next.out, Fold(next, acts[1..]).state.out, p, Spoken(role, rest), mi, k, st.batch);
      } else {
        PartsSay(st, role, mi, k, rest);
      }
    }
  }

  lemma {:induction false} MessageSays(st: State, mi: nat, m: Message)
    requires Fold(st, MessageActions(mi, m)).Good?
    ensures var n := Fold(st, MessageActions(mi, m)).state;
            && n.batch == st.batch + (if m.role == Tool then 0 else 1)
            && SaysAll(st.out, n.out, Spoken(m.role, m.parts), mi, 0, n.batch)
  {
    var acts := PartActions(m.role, mi, 0, m.parts);
    if m.role == Tool {
      assert MessageActions(mi, m) == acts;
      PartsSay(st, m.role, mi, 0, m.parts);
    } else {
      assert MessageActions(mi, m)[1..] == acts;
      PartsSay(Step(st, Close).state, m.role, mi, 0, m.parts);
    }
  }

  lemma {:induction false} HistorySays(st: State, messages: seq<Message>)
    requires st.out == [] && st.batch == 0 && Fold(st, Actions(0, messages)).Good?
    ensures var n := Fold(st, Actions(0, messages)).state;
            n.batch == Closed(messages) && ReadsAs(n.out, messages)
  {
    if messages != [] {
      var init, m := messages[..|messages| - 1], messages[|messages| - 1];
      assert messages == init + [m];
      ActionsSnoc(0, init, m);
      FoldConcat(st, Actions(0, init), MessageActions(|init|, m));
      HistorySays(st, init);
      var before := Fold(st, Actions(0, init)).state;
      MessageSays(before, |init|, m);
      var out := Fold(before, MessageActions(|init|, m)).state.out;
      assert out[..|out| - |Spoken(m.role, m.parts)|] == before.out;
    }
  }

  /** Every history that converts is read message by message: each call and each result gives
      one entry, in order, with its own name, payload, id and batch, and nothing else does. */
  lemma {:induction false} ConversionReads(messages: seq<Message>)
    requires Convert(messages).Good?
    ensures ReadsAs(Convert(messages).state.out, messages)
  {
    HistorySays(Initial(messages), messages);
  }
}
