/** What the id repair guarantees for every history it accepts. */
module OpenAILaws {
  import opened Text
  import opened OpenAI

  /** The unanswered calls of batch `b`, read off the transcript. */
  function OpenOf(out: seq<Entry>, b: nat): map<string, string> {
    if out == [] then map[]
    else
      var last := out[|out| - 1];
      if last.batch != b then map[]
      else
        match last
        case Issued(id, name, _, _) => OpenOf(out[..|out| - 1], b)[id := name]
        case Answered(id, _, _, _, _) => OpenOf(out[..|out| - 1], b) - {id}
  }

  // ------------------------------------------------------------- the invariant

  /** A generated id is no explicit id of the history and belongs to one call only. */
  ghost predicate GeneratedAreNew(out: seq<Entry>, explicit: set<string>) {
    forall i | 0 <= i < |out| && out[i].Issued? && out[i].generated ::
      && out[i].id !in explicit
      && forall j | 0 <= j < |out| && j != i && out[j].Issued? :: out[j].id != out[i].id
  }

  /** A repaired result took the only unanswered call of its batch with its name. */
  ghost predicate RepairsAreUnique(out: seq<Entry>) {
    forall i | 0 <= i < |out| && out[i].Answered? && out[i].repaired ::
      Matches(OpenOf(out[..i], out[i].batch), out[i].toolName) == {out[i].id}
  }

  ghost predicate BatchesRise(out: seq<Entry>, batch: nat) {
    forall i | 0 <= i < |out| :: out[i].batch <= batch
  }

  ghost predicate Inv(st: State, explicit: set<string>) {
    && explicit <= st.used
    && (forall i | 0 <= i < |st.out| && st.out[i].Issued? :: st.out[i].id in st.used)
    && GeneratedAreNew(st.out, explicit)
    && RepairsAreUnique(st.out)
    && BatchesRise(st.out, st.batch)
    && st.pending == OpenOf(st.out, st.batch)
  }

  predicate ExplicitIn(a: Action, explicit: set<string>) {
    !a.Close? && Truthy(a.id) ==> a.id.value in explicit
  }

  lemma {:induction false} RepairsSnoc(out: seq<Entry>, e: Entry)
    requires RepairsAreUnique(out)
    requires e.Answered? && e.repaired ==> Matches(OpenOf(out, e.batch), e.toolName) == {e.id}
    ensures RepairsAreUnique(out + [e])
  {
    var all := out + [e];
    forall i | 0 <= i < |all| && all[i].Answered? && all[i].repaired
      ensures Matches(OpenOf(all[..i], all[i].batch), all[i].toolName) == {all[i].id}
    {
      assert all[..i] == out[..i];
      if i == |out| {
        assert out[..i] == out;
      }
    }
  }

  lemma {:induction false} OpenSnoc(out: seq<Entry>, e: Entry)
    ensures OpenOf(out + [e], e.batch)
            == if e.Issued? then OpenOf(out, e.batch)[e.id := e.name] else OpenOf(out, e.batch) - {e.id}
  {
    assert (out + [e])[..|out|] == out;
  }

  lemma {:induction false} IssueKeepsInv(st: State, id: string, name: string, generated: bool, explicit: set<string>)
    requires Inv(st, explicit) && (if generated then id !in st.used else id in explicit)
    ensures var e := Issued(id, name, generated, st.batch);
            Inv(State(st.out + [e], st.used + {id}, st.pending[id := name], st.batch), explicit)
  {
    var e := Issued(id, name, generated, st.batch);
    OpenSnoc(st.out, e);
    RepairsSnoc(st.out, e);
    GeneratedSnoc(st.out, e, st.used, explicit);
  }

  lemma {:induction false} GeneratedSnoc(out: seq<Entry>, e: Entry, used: set<string>, explicit: set<string>)
    requires GeneratedAreNew(out, explicit) && explicit <= used
    requires forall i | 0 <= i < |out| && out[i].Issued? :: out[i].id in used
    requires e.Issued? ==> if e.generated then e.id !in used else e.id in explicit
    ensures GeneratedAreNew(out + [e], explicit)
  {
  }

  lemma {:induction false} AnswerKeepsInv(st: State, e: Entry, explicit: set<string>)
    requires Inv(st, explicit) && e.Answered? && e.batch == st.batch
    requires e.repaired ==> Matches(st.pending, e.toolName) == {e.id}
    ensures Inv(st.(out := st.out + [e], pending := st.pending - {e.id}), explicit)
  {
    OpenSnoc(st.out, e);
    RepairsSnoc(st.out, e);
    GeneratedSnoc(st.out, e, st.used, explicit);
  }

  lemma {:induction false} StepKeepsInv(st: State, a: Action, explicit: set<string>)
    requires Inv(st, explicit) && ExplicitIn(a, explicit) && Step(st, a).Good?
    ensures Inv(Step(st, a).state, explicit)
  {
    match a
    case Close =>
    case MakeCall(mi, k, id, name) =>
      var cid := if Truthy(id) then id.value else Freshen(st.used, BaseId(mi, k));
      IssueKeepsInv(st, cid, name, !Truthy(id), explicit);
    case TakeResult(id, name, payload) =>
      var cid := if Truthy(id) then id.value else The(Matches(st.pending, name));
      AnswerKeepsInv(st, Answered(cid, name, payload, !Truthy(id), st.batch), explicit);
  }

  ghost predicate AllExplicit(acts: seq<Action>, explicit: set<string>) {
    forall i | 0 <= i < |acts| :: ExplicitIn(acts[i], explicit)
  }

  lemma {:induction false} FoldKeepsInv(st: State, acts: seq<Action>, explicit: set<string>)
    requires Inv(st, explicit) && Fold(st, acts).Good? && AllExplicit(acts, explicit)
    ensures Inv(Fold(st, acts).state, explicit)
    decreases |acts|
  {
    if acts != [] {
      assert ExplicitIn(acts[0], explicit);
      StepKeepsInv(st, acts[0], explicit);
      FoldKeepsInv(Step(st, acts[0]).state, acts[1..], explicit);
    }
  }

  lemma {:induction false} PartActionsExplicit(role: Role, mi: nat, k: nat, parts: seq<Part>, explicit: set<string>)
    requires PartIds(parts) <= explicit
    ensures AllExplicit(PartActions(role, mi, k, parts), explicit)
    decreases |parts|
  {
    if parts != [] {
      var p, rest := parts[0], parts[1..];
      assert PartIds(rest) <= PartIds(parts);
      assert !p.Content? && Truthy(p.id) ==> p.id.value in PartIds(parts);
      PartActionsExplicit(role, mi, k, rest, explicit);
      PartActionsExplicit(role, mi, k + 1, rest, explicit);
    }
  }

  lemma {:induction false} ActionsExplicit(mi: nat, messages: seq<Message>, explicit: set<string>)
    requires ExplicitIds(messages) <= explicit
    ensures AllExplicit(Actions(mi, messages), explicit)
    decreases |messages|
  {
    if messages != [] {
      PartActionsExplicit(messages[0].role, mi, 0, messages[0].parts, explicit);
      ActionsExplicit(mi + 1, messages[1..], explicit);
    }
  }

  /** For every history that converts: generated ids are new, repaired results are unique. */
  lemma {:induction false} IdsAreRepaired(messages: seq<Message>)
    requires Convert(messages).Good?
    ensures var out := Convert(messages).state.out;
            GeneratedAreNew(out, ExplicitIds(messages)) && RepairsAreUnique(out)
  {
    var explicit := ExplicitIds(messages);
    ActionsExplicit(0, messages, explicit);
    FoldKeepsInv(Initial(messages), Actions(0, messages), explicit);
  }

  // --------------------------------------------------- repaired results and ids

  lemma {:induction false} OpenWasIssued(out: seq<Entry>, b: nat, c: string)
    requires c in OpenOf(out, b)
    ensures exists k | 0 <= k < |out| :: out[k].Issued? && out[k].id == c
    decreases |out|
  {
    var n := |out| - 1;
    if !(out[n].Issued? && out[n].id == c) {
      OpenWasIssued(out[..n], b, c);
      var k :| 0 <= k < n && out[..n][k].Issued? && out[..n][k].id == c;
      assert out[k].Issued?;
    }
  }

  /** What was just answered becomes open again only by being issued again. */
  lemma {:induction false} ReopenedByIssue(out: seq<Entry>, i: nat, j: nat, b: nat, c: string)
    requires i < j <= |out| && out[i].Answered? && out[i].id == c && c in OpenOf(out[..j], b)
    ensures exists k | i < k < j :: out[k].Issued? && out[k].id == c
    decreases j
  {
    var n := j - 1;
    assert out[..j][..n] == out[..n] && out[..j][n] == out[n];
    if !(out[n].Issued? && out[n].id == c) {
      assert n > i;
      ReopenedByIssue(out, i, n, b, c);
    }
  }

  /** Two repaired results share an id only if the history itself issues that explicit id
      again between them. */
  lemma {:induction false} SharedRepairIsReissued(messages: seq<Message>, i: nat, j: nat)
    requires Convert(messages).Good?
    requires var out := Convert(messages).state.out;
             && i < j < |out| && out[i].Answered? && out[i].repaired && out[j].Answered? && out[j].repaired
             && out[i].id == out[j].id
    ensures var out := Convert(messages).state.out;
            exists k | i < k < j :: out[k].Issued? && out[k].id == out[i].id && !out[k].generated
  {
    var out := Convert(messages).state.out;
    IdsAreRepaired(messages);
    var c := out[i].id;
    assert c in Matches(OpenOf(out[..i], out[i].batch), out[i].toolName);
    assert c in Matches(OpenOf(out[..j], out[j].batch), out[j].toolName);
    OpenWasIssued(out[..i], out[i].batch, c);
    var k0 :| 0 <= k0 < i && out[..i][k0].Issued? && out[..i][k0].id == c;
    assert out[k0] == out[..i][k0];
    ReopenedByIssue(out, i, j, out[j].batch, c);
    var k :| i < k < j && out[k].Issued? && out[k].id == c;
    assert !out[k].generated;
  }

  // ------------------------------------------------------------------ fidelity

  function NonClose(acts: seq<Action>): (r: seq<Action>)
    ensures forall i | 0 <= i < |r| :: !r[i].Close?
  {
    if acts == [] then [] else (if acts[0].Close? then [] else [acts[0]]) + NonClose(acts[1..])
  }

  /** An entry records its part: explicit ids are never replaced. */
  predicate Records(e: Entry, a: Action) {
    match a
    case MakeCall(_, _, id, name) =>
      e.Issued? && e.name == name && (if Truthy(id) then e.id == id.value && !e.generated else e.generated)
    case TakeResult(id, name, payload) =>
      e.Answered? && e.toolName == name && e.payload == payload
      && (if Truthy(id) then e.id == id.value && !e.repaired else e.repaired)
    case Close => false
  }

  /** `out` continues `before` with one entry for each action. */
  ghost predicate Follows(before: seq<Entry>, out: seq<Entry>, todo: seq<Action>) {
    && before <= out && |out| == |before| + |todo|
    && forall i | 0 <= i < |todo| :: Records(out[|before| + i], todo[i])
  }

  lemma {:induction false} EntriesFollowHistory(st: State, acts: seq<Action>)
    requires Fold(st, acts).Good?
    ensures Follows(st.out, Fold(st, acts).state.out, NonClose(acts))
    decreases |acts|
  {
    if acts != [] {
      var a, rest := acts[0], acts[1..];
      var n := Step(st, a).state;
      EntriesFollowHistory(n, rest);
      if a.Close? {
        assert NonClose(acts) == NonClose(rest);
      } else {
        assert NonClose(acts) == [a] + NonClose(rest);
        StepRecords(st, a);
        FollowsCons(st.out, n.out, Fold(n, rest).state.out, a, NonClose(rest));
      }
    }
  }

  lemma {:induction false} StepRecords(st: State, a: Action)
    requires Step(st, a).Good? && !a.Close?
    ensures var n := Step(st, a).state.out;
            |n| == |st.out| + 1 && st.out <= n && Records(n[|st.out|], a)
  {
  }

  lemma {:induction false} FollowsCons(before: seq<Entry>, next: seq<Entry>, out: seq<Entry>, a: Action,
                                       todo: seq<Action>)
    requires |next| == |before| + 1 && before <= next && Records(next[|before|], a)
    requires Follows(next, out, todo)
    ensures Follows(before, out, [a] + todo)
  {
    var all := [a] + todo;
    forall i | 0 <= i < |all|
      ensures Records(out[|before| + i], all[i])
    {
      if i == 0 {
        assert out[|before|] == next[|before|];
      } else {
        assert Records(out[|next| + (i - 1)], todo[i - 1]);
      }
    }
  }

  /** Every call and result of the history is in the transcript once, in order. */
  lemma {:induction false} NothingIsLost(messages: seq<Message>)
    requires Convert(messages).Good?
    ensures var out, todo := Convert(messages).state.out, NonClose(Actions(0, messages));
            |out| == |todo| && forall i | 0 <= i < |todo| :: Records(out[i], todo[i])
  {
    var acts := Actions(0, messages);
    EntriesFollowHistory(Initial(messages), acts);
    FollowsNothing(Convert(messages).state.out, NonClose(acts));
  }

  lemma {:induction false} FollowsNothing(out: seq<Entry>, todo: seq<Action>)
    requires Follows([], out, todo)
    ensures |out| == |todo| && forall i | 0 <= i < |todo| :: Records(out[i], todo[i])
  {
    var none: seq<Entry> := [];
    forall i | 0 <= i < |todo|
      ensures Records(out[i], todo[i])
    {
      assert Records(out[|none| + i], todo[i]);
    }
  }
}
