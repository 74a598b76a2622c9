/** When two repaired results can share an id: exactly when an explicit call id occurs in
    two messages in which a result without an id can be paired with it. */
module OpenAIRepairs {
  import opened Text
  import opened OpenAI
  import opened OpenAILaws
  import opened OpenAIFailures

  // ------------------------------------------------------------ on the history

  /** The messages that are not tool messages. */
  function Turns(messages: seq<Message>): seq<Message> {
    if messages == [] then []
    else
      var n := |messages| - 1;
      Turns(messages[..n]) + if messages[n].role == Tool then [] else [messages[n]]
  }

  /** The name of the last call with the id. */
  function LastCall(parts: seq<Part>, id: string): Option<string> {
    if parts == [] then None
    else
      var p := parts[|parts| - 1];
      if p.CallPart? && p.id == Some(id) then Some(p.name) else LastCall(parts[..|parts| - 1], id)
  }

  predicate Calls(m: Message, id: string) {
    m.role == Assistant && id != "" && LastCall(m.parts, id).Some?
  }

  function NamesWithoutId(parts: seq<Part>): set<string> {
    set p | p in parts && p.CallPart? && !Truthy(p.id) :: p.name
  }

  /** A result without an id can be paired with this call: once the other explicit calls are
      answered, no other open call has its name. */
  predicate Repairable(m: Message, id: string) {
    Calls(m, id) && LastCall(m.parts, id).value !in NamesWithoutId(m.parts)
  }

  predicate Repaired(e: Entry) {
    e.Answered? && e.repaired
  }

  ghost predicate RepairedDistinct(out: seq<Entry>) {
    forall i, j | 0 <= i < j < |out| && Repaired(out[i]) && Repaired(out[j]) :: out[i].id != out[j].id
  }

  // ------------------------------------------------------ the history as actions

  function Closes(acts: seq<Action>): nat {
    if acts == [] then 0 else Closes(acts[..|acts| - 1]) + if acts[|acts| - 1].Close? then 1 else 0
  }

  lemma {:induction false} ClosesConcat(a: seq<Action>, b: seq<Action>)
    ensures Closes(a + b) == Closes(a) + Closes(b)
  {
    if b == [] {
      assert a + b == a;
    } else {
      assert (a + b)[..|a + b| - 1] == a + b[..|b| - 1];
      ClosesConcat(a, b[..|b| - 1]);
    }
  }

  lemma {:induction false} ClosesSnoc(acts: seq<Action>, a: Action)
    ensures Closes(acts + [a]) == Closes(acts) + if a.Close? then 1 else 0
  {
    assert (acts + [a])[..|acts|] == acts;
  }

  lemma {:induction false} NoCloses(acts: seq<Action>)
    requires forall i | 0 <= i < |acts| :: !acts[i].Close?
    ensures Closes(acts) == 0
  {
    if acts != [] {
      NoCloses(acts[..|acts| - 1]);
    }
  }

  lemma {:induction false} ActionsSnoc(mi: nat, messages: seq<Message>, m: Message)
    ensures Actions(mi, messages + [m]) == Actions(mi, messages) + MessageActions(mi + |messages|, m)
    decreases |messages|
  {
    if messages == [] {
      assert [m][1..] == [] && Actions(mi + 1, []) == [];
      assert Actions(mi, [m]) == MessageActions(mi, m) + [];
    } else {
      TailOfConcat(messages, [m]);
      ActionsSnoc(mi + 1, messages[1..], m);
      AppendAssoc(MessageActions(mi, messages[0]), Actions(mi + 1, messages[1..]), MessageActions(mi + |messages|, m));
    }
  }

  lemma {:induction false} PartActionsSnoc(role: Role, mi: nat, k: nat, parts: seq<Part>, p: Part) returns (at: nat)
    ensures PartActions(role, mi, k, parts + [p]) == PartActions(role, mi, k, parts) + PartActions(role, mi, at, [p])
    decreases |parts|
  {
    if parts == [] {
      at := k;
      assert [] + [p] == [p];
    } else {
      TailOfConcat(parts, [p]);
      var k' := if parts[0].CallPart? && role == Assistant then k + 1 else k;
      at := PartActionsSnoc(role, mi, k', parts[1..], p);
      var more := PartActions(role, mi, at, [p]);
      var all, rest := PartActions(role, mi, k, parts), PartActions(role, mi, k', parts[1..]);
      AppendAssoc(all[..|all| - |rest|], rest, more);
    }
  }

  /** Only results, or only calls. */
  predicate OnlyKind(acts: seq<Action>, results: bool) {
    forall i | 0 <= i < |acts| :: if results then acts[i].TakeResult? else acts[i].MakeCall?
  }

  /** Assistant messages make calls, tool messages bring results, others do neither. */
  lemma {:induction false} PartActionsKind(role: Role, mi: nat, k: nat, parts: seq<Part>)
    ensures OnlyKind(PartActions(role, mi, k, parts), role == Tool)
    decreases |parts|
  {
    if parts != [] {
      PartActionsKind(role, mi, k, parts[1..]);
      PartActionsKind(role, mi, k + 1, parts[1..]);
    }
  }

  lemma {:induction false} MessageKind(mi: nat, m: Message)
    ensures var acts := MessageActions(mi, m);
            if m.role == Tool then OnlyKind(acts, true)
            else acts != [] && acts[0].Close? && OnlyKind(acts[1..], false)
    ensures Closes(MessageActions(mi, m)) == if m.role == Tool then 0 else 1
  {
    var acts, parts := MessageActions(mi, m), PartActions(m.role, mi, 0, m.parts);
    PartActionsKind(m.role, mi, 0, m.parts);
    NoCloses(parts);
    if m.role == Tool {
      assert acts == parts;
    } else {
      assert acts == [Close] + parts && acts[1..] == parts;
      ClosesConcat([Close], parts);
      assert [Close][..0] == [] && Closes([Close]) == 1;
    }
  }

  // ----------------------------------------------------- the open calls of a message

  /** The open calls are exactly those of the parts. */
  ghost predicate Built(acts: seq<Action>, parts: seq<Part>) {
    var open := OpenCalls(acts);
    && (forall x :: Given(x) in open <==> x != "" && LastCall(parts, x).Some?)
    && (forall x | Given(x) in open :: LastCall(parts, x) == Some(open[Given(x)]))
    && (forall i: nat | Place(i) in open :: i < |acts| && open[Place(i)] in NamesWithoutId(parts))
    && (forall f | f in NamesWithoutId(parts) :: HasPlace(open, f))
  }

  ghost predicate HasPlace(open: map<Key, string>, name: string) {
    exists i: nat :: Place(i) in open && open[Place(i)] == name
  }

  lemma {:induction false} LastCallSnoc(parts: seq<Part>, p: Part, x: string)
    ensures LastCall(parts + [p], x)
            == if p.CallPart? && p.id == Some(x) then Some(p.name) else LastCall(parts, x)
  {
    assert (parts + [p])[..|parts|] == parts;
  }

  lemma {:induction false} NamesSnoc(parts: seq<Part>, p: Part)
    ensures NamesWithoutId(parts + [p])
            == NamesWithoutId(parts) + if p.CallPart? && !Truthy(p.id) then {p.name} else {}
  {
    assert forall q :: q in parts + [p] <==> q in parts || q == p;
  }

  lemma {:induction false} BuildPart(acts: seq<Action>, parts: seq<Part>, p: Part, mi: nat, at: nat)
    requires Built(acts, parts)
    ensures Built(acts + PartActions(Assistant, mi, at, [p]), parts + [p])
  {
    assert [p][1..] == [];
    forall x
      ensures LastCall(parts + [p], x)
              == if p.CallPart? && p.id == Some(x) then Some(p.name) else LastCall(parts, x)
    {
      LastCallSnoc(parts, p, x);
    }
    NamesSnoc(parts, p);
    if p.CallPart? {
      assert PartActions(Assistant, mi, at, [p]) == [MakeCall(mi, at, p.id, p.name)];
      BuildCall(acts, parts, p, mi, at);
    } else {
      assert acts + PartActions(Assistant, mi, at, [p]) == acts;
    }
  }

  lemma {:induction false} BuildCall(acts: seq<Action>, parts: seq<Part>, p: Part, mi: nat, at: nat)
    requires Built(acts, parts) && p.CallPart?
    requires forall x :: LastCall(parts + [p], x) == if p.id == Some(x) then Some(p.name) else LastCall(parts, x)
    requires NamesWithoutId(parts + [p]) == NamesWithoutId(parts) + if !Truthy(p.id) then {p.name} else {}
    ensures Built(acts + [MakeCall(mi, at, p.id, p.name)], parts + [p])
  {
    var open := OpenCalls(acts);
    var key := if Truthy(p.id) then Given(p.id.value) else Place(|acts|);
    CallsSnoc(acts, MakeCall(mi, at, p.id, p.name));
    var next := open[key := p.name];
    forall f | f in NamesWithoutId(parts + [p])
      ensures HasPlace(next, f)
    {
      if !Truthy(p.id) && f == p.name {
        assert next[Place(|acts|)] == f;
      } else {
        var i: nat :| Place(i) in open && open[Place(i)] == f;
        assert Place(i) in next && next[Place(i)] == f;
      }
    }
  }

  lemma {:induction false} BuildParts(front: seq<Action>, mi: nat, parts: seq<Part>)
    requires OpenCalls(front) == map[]
    ensures Built(front + PartActions(Assistant, mi, 0, parts), parts)
    decreases |parts|
  {
    if parts == [] {
      assert front + [] == front;
    } else {
      var init, p := parts[..|parts| - 1], parts[|parts| - 1];
      assert parts == init + [p];
      BuildParts(front, mi, init);
      var at := PartActionsSnoc(Assistant, mi, 0, init, p);
      BuildPart(front + PartActions(Assistant, mi, 0, init), init, p, mi, at);
      AppendAssoc(front, PartActions(Assistant, mi, 0, init), PartActions(Assistant, mi, at, [p]));
    }
  }

  /** Right after a message that is not a tool message. */
  lemma {:induction false} BuildMessage(front: seq<Action>, mi: nat, m: Message)
    requires m.role != Tool
    ensures var all := front + MessageActions(mi, m);
            if m.role == Assistant then Built(all, m.parts) else OpenCalls(all) == map[]
  {
    CallsSnoc(front, Close);
    var parts := PartActions(m.role, mi, 0, m.parts);
    AppendAssoc(front, [Close], parts);
    if m.role == Assistant {
      BuildParts(front + [Close], mi, m.parts);
    } else {
      NoCalls(m.role, mi, 0, m.parts);
      assert front + [Close] + [] == front + [Close];
    }
  }

  lemma {:induction false} NoCalls(role: Role, mi: nat, k: nat, parts: seq<Part>)
    requires role != Tool && role != Assistant
    ensures PartActions(role, mi, k, parts) == []
    decreases |parts|
  {
    if parts != [] {
      NoCalls(role, mi, k, parts[1..]);
    }
  }

  // --------------------------------------------- what can be open when a result comes

  /** After the calls of `m` and any results: an open explicit call has its last name, and
      if its name is also that of a call without an id, such a call is open too. */
  ghost predicate Tracks(acts: seq<Action>, m: Message) {
    var open := OpenCalls(acts);
    && (forall x | Given(x) in open :: Calls(m, x) && LastCall(m.parts, x) == Some(open[Given(x)]))
    && (forall x | Given(x) in open && open[Given(x)] in NamesWithoutId(m.parts) :: HasPlace(open, open[Given(x)]))
  }

  lemma {:induction false} TracksResult(acts: seq<Action>, a: Action, m: Message)
    requires Tracks(acts, m) && a.TakeResult?
    ensures Tracks(acts + [a], m)
  {
    CallsSnoc(acts, a);
    var open, next := OpenCalls(acts), OpenCalls(acts + [a]);
    forall x | Given(x) in next && next[Given(x)] in NamesWithoutId(m.parts)
      ensures HasPlace(next, next[Given(x)])
    {
      var i: nat :| Place(i) in open && open[Place(i)] == open[Given(x)];
      assert Place(i) in next && next[Place(i)] == next[Given(x)];
    }
  }

  lemma {:induction false} TracksResults(acts: seq<Action>, rs: seq<Action>, m: Message)
    requires Tracks(acts, m) && OnlyKind(rs, true)
    ensures Tracks(acts + rs, m)
  {
    if rs == [] {
      assert acts + rs == acts;
    } else {
      var init, a := rs[..|rs| - 1], rs[|rs| - 1];
      TracksResults(acts, init, m);
      TracksResult(acts + init, a, m);
      assert acts + init + [a] == acts + rs;
    }
  }

  const NOTHING := Message(User, [])

  function LastTurn(turns: seq<Message>): Message {
    if turns == [] then NOTHING else turns[|turns| - 1]
  }

  lemma {:induction false} ClosesAreTurns(messages: seq<Message>)
    ensures Closes(Actions(0, messages)) == |Turns(messages)|
  {
    if messages != [] {
      var init, m := messages[..|messages| - 1], messages[|messages| - 1];
      assert messages == init + [m];
      ClosesAreTurns(init);
      ActionsSnoc(0, init, m);
      MessageKind(|init|, m);
      ClosesConcat(Actions(0, init), MessageActions(|init|, m));
    }
  }

  lemma {:induction false} ClosesPrefix(acts: seq<Action>, k: nat, l: nat)
    requires k <= l <= |acts|
    ensures Closes(acts[..k]) <= Closes(acts[..l])
  {
    assert acts[..l] == acts[..k] + acts[k..l];
    ClosesConcat(acts[..k], acts[k..l]);
  }

  /** The open calls after `k` actions are tracked by the last turn before them. */
  ghost predicate TrackedAt(messages: seq<Message>, acts: seq<Action>) {
    var t := Closes(acts);
    t <= |Turns(messages)| && Tracks(acts, LastTurn(Turns(messages)[..t]))
  }

  lemma {:induction false} TrackedLonger(init: seq<Message>, m: Message, acts: seq<Action>)
    requires TrackedAt(init, acts)
    ensures TrackedAt(init + [m], acts)
  {
    TurnsSnoc(init, m);
    var t := Closes(acts);
    assert Turns(init + [m])[..t] == Turns(init)[..t];
  }

  /** So they are whenever a result comes. */
  lemma {:induction false} TracksAt(messages: seq<Message>, k: nat)
    requires var acts := Actions(0, messages); k <= |acts| && (k == |acts| || acts[k].TakeResult?)
    ensures TrackedAt(messages, Actions(0, messages)[..k])
    decreases |messages|, 0
  {
    if messages == [] {
      assert Actions(0, messages)[..k] == [] && OpenCalls([]) == map[];
    } else {
      var init, m := messages[..|messages| - 1], messages[|messages| - 1];
      assert messages == init + [m];
      ActionsSnoc(0, init, m);
      TracksNext(init, m, Actions(0, init), MessageActions(|init|, m), k);
    }
  }

  lemma {:induction false} TracksNext(init: seq<Message>, m: Message, before: seq<Action>, more: seq<Action>, k: nat)
    requires before == Actions(0, init) && more == MessageActions(|init|, m)
    requires k <= |before + more| && (k == |before + more| || (before + more)[k].TakeResult?)
    ensures TrackedAt(init + [m], (before + more)[..k])
    decreases |init|, 1
  {
    MessageKind(|init|, m);
    if k <= |before| {
      assert (before + more)[..k] == before[..k];
      TracksAt(init, k);
      TrackedLonger(init, m, before[..k]);
    } else {
      var n := k - |before|;
      assert (before + more)[..k] == before + more[..n];
      TracksAt(init, |before|);
      assert before[..|before|] == before;
      if m.role == Tool {
        TracksTool(init, m, before, more[..n]);
      } else {
        forall i | 0 < i < |more|
          ensures more[i].MakeCall?
        {
          assert more[i] == more[1..][i - 1];
        }
        assert more[..n] == more;
        TracksTurn(init, m, before, more);
      }
    }
  }

  lemma {:induction false} TracksTool(init: seq<Message>, m: Message, before: seq<Action>, rs: seq<Action>)
    requires TrackedAt(init, before) && m.role == Tool && OnlyKind(rs, true)
    ensures TrackedAt(init + [m], before + rs)
  {
    TurnsSnoc(init, m);
    NoCloses(rs);
    ClosesConcat(before, rs);
    TracksResults(before, rs, LastTurn(Turns(init)[..Closes(before)]));
  }

  lemma {:induction false} TracksTurn(init: seq<Message>, m: Message, before: seq<Action>, more: seq<Action>)
    requires before == Actions(0, init) && m.role != Tool && more == MessageActions(|init|, m)
    ensures TrackedAt(init + [m], before + more)
  {
    TurnsSnoc(init, m);
    ClosesAreTurns(init);
    MessageKind(|init|, m);
    ClosesConcat(before, more);
    TurnTracks(before, |init|, m);
    var turns := Turns(init + [m]);
    assert turns[..|turns|] == turns;
  }

  lemma {:induction false} TurnTracks(before: seq<Action>, mi: nat, m: Message)
    requires m.role != Tool
    ensures Tracks(before + MessageActions(mi, m), m)
  {
    BuildMessage(before, mi, m);
  }

  // ------------------------------------------------------- repairs on the history

  /** Result `k` has no id and is paired with the call that was given the id `x`. */
  predicate RepairsAt(acts: seq<Action>, k: int, x: string) {
    0 <= k < |acts| && ByName(acts[k]) && Named(OpenCalls(acts[..k]), acts[k].toolName) == {Given(x)}
  }

  /** Then the last turn before it is one in which `x` can be repaired. */
  lemma {:induction false} RepairIsRepairable(messages: seq<Message>, k: nat, x: string)
    requires RepairsAt(Actions(0, messages), k, x)
    ensures var t := Closes(Actions(0, messages)[..k]);
            1 <= t <= |Turns(messages)| && Repairable(Turns(messages)[t - 1], x)
  {
    var acts := Actions(0, messages);
    TracksAt(messages, k);
    OnlyNamed(OpenCalls(acts[..k]), acts[k].toolName, Given(x));
  }

  /** No call follows a result within a turn. */
  ghost predicate Orderly(acts: seq<Action>) {
    forall i | 0 <= i < |acts| - 1 && acts[i].TakeResult? :: !acts[i + 1].MakeCall?
  }

  lemma {:induction false} ActionsAreOrderly(messages: seq<Message>)
    ensures Orderly(Actions(0, messages))
  {
    if messages != [] {
      var init, m := messages[..|messages| - 1], messages[|messages| - 1];
      assert messages == init + [m];
      ActionsAreOrderly(init);
      ActionsSnoc(0, init, m);
      MessageKind(|init|, m);
    }
  }

  /** An answered id stays answered until the next turn. */
  lemma {:induction false} StaysAnswered(acts: seq<Action>, k: nat, l: nat, x: string)
    requires Orderly(acts) && k < l < |acts| && acts[k].TakeResult? && acts[l].TakeResult?
    requires Closes(acts[..k]) == Closes(acts[..l]) && Given(x) !in OpenCalls(acts[..k + 1])
    ensures Given(x) !in OpenCalls(acts[..l])
    decreases l - k
  {
    if k + 1 < l {
      assert acts[..k + 1] == acts[..k] + [acts[k]] && acts[..k + 2] == acts[..k + 1] + [acts[k + 1]];
      ClosesSnoc(acts[..k], acts[k]);
      ClosesSnoc(acts[..k + 1], acts[k + 1]);
      ClosesPrefix(acts, k + 2, l);
      CallsSnoc(acts[..k + 1], acts[k + 1]);
      assert acts[k + 1].TakeResult?;
      StaysAnswered(acts, k + 1, l, x);
    }
  }

  /** Two results paired with one explicit id belong to different turns. */
  lemma {:induction false} RepairedInTwoTurns(messages: seq<Message>, k: nat, l: nat, x: string)
    requires k < l && RepairsAt(Actions(0, messages), k, x) && RepairsAt(Actions(0, messages), l, x)
    ensures Closes(Actions(0, messages)[..k]) < Closes(Actions(0, messages)[..l])
  {
    var acts := Actions(0, messages);
    ActionsAreOrderly(messages);
    ClosesPrefix(acts, k, l);
    assert acts[..k + 1] == acts[..k] + [acts[k]];
    CallsSnoc(acts[..k], acts[k]);
    OnlyNamed(OpenCalls(acts[..k]), acts[k].toolName, Given(x));
    OnlyNamed(OpenCalls(acts[..l]), acts[l].toolName, Given(x));
    if Closes(acts[..k]) == Closes(acts[..l]) {
      StaysAnswered(acts, k, l, x);
    }
  }

  // ------------------------------------------------ and in the converter's output

  /** The entry has the id `x` exactly when that explicit call is the one open of its name. */
  ghost predicate EntryIs(out: seq<Entry>, e: nat, open: map<Key, string>, name: Option<string>,
                          explicit: set<string>) {
    && e < |out| && Repaired(out[e])
    && forall x | x in explicit :: out[e].id == x <==> Named(open, name) == {Given(x)}
  }

  lemma {:induction false} FoldSnoc(st: State, acts: seq<Action>, a: Action)
    requires Fold(st, acts).Good?
    ensures Fold(st, acts + [a]) == Step(Fold(st, acts).state, a)
  {
    FoldConcat(st, acts, [a]);
    assert [a][1..] == [];
  }

  lemma {:induction false} GoodPrefix(st: State, acts: seq<Action>, k: nat)
    requires Fold(st, acts).Good? && k <= |acts|
    ensures Fold(st, acts[..k]).Good? && Fold(st, acts) == Fold(Fold(st, acts[..k]).state, acts[k..])
  {
    assert acts == acts[..k] + acts[k..];
    FoldConcat(st, acts[..k], acts[k..]);
  }

  lemma {:induction false} PrefixRenames(st: State, acts: seq<Action>, explicit: set<string>, k: nat)
    returns (ren: map<Key, string>)
    requires explicit <= st.used && st.pending == map[] && AllExplicit(acts, explicit)
    requires Fold(st, acts).Good? && k <= |acts|
    ensures Fold(st, acts[..k]).Good?
    ensures var n := Fold(st, acts[..k]).state;
            Renames(ren, OpenCalls(acts[..k]), n.used, n.pending, explicit, k)
  {
    GoodPrefix(st, acts, k);
    if k == 0 {
      assert acts[..0] == [];
      ren := map[];
    } else {
      var before, a := acts[..k - 1], acts[k - 1];
      ren := PrefixRenames(st, acts, explicit, k - 1);
      assert acts[..k] == before + [a];
      FoldSnoc(st, before, a);
      assert ExplicitIn(a, explicit);
      ren := StepRenames(ren, before, Fold(st, before).state, a, explicit);
    }
  }

  lemma {:induction false} FirstEntry(ren: map<Key, string>, front: seq<Action>, st: State, acts: seq<Action>,
                                      explicit: set<string>)
    requires Renames(ren, OpenCalls(front), st.used, st.pending, explicit, |front|)
    requires acts != [] && Fold(st, acts).Good? && ByName(acts[0])
    ensures EntryIs(Fold(st, acts).state.out, |st.out|, OpenCalls(front), acts[0].toolName, explicit)
  {
    var a := acts[0];
    var n := Step(st, a).state;
    EntriesFollowHistory(n, acts[1..]);
    var key := OneNamed(ren, OpenCalls(front), st, explicit, |front|, a.toolName);
    assert n.out[|st.out|].id == ren[key] && Fold(st, acts).state.out[|st.out|] == n.out[|st.out|];
    assert RenamedOk(ren, key, st.used, explicit, |front|);
    forall x | x in explicit
      ensures ren[key] == x <==> {key} == {Given(x)}
    {
      assert {key} == {Given(x)} <==> key == Given(x) by {
        assert key in {key};
      }
    }
  }

  /** The action behind an entry. */
  lemma {:induction false} ActionAt(acts: seq<Action>, i: nat) returns (k: nat)
    requires i < |NonClose(acts)|
    ensures k < |acts| && acts[k] == NonClose(acts)[i] && |NonClose(acts[..k])| == i
    decreases |acts|
  {
    var rest := acts[1..];
    if i == 0 && !acts[0].Close? {
      k := 0;
      assert acts[..0] == [];
    } else {
      var j := ActionAt(rest, if acts[0].Close? then i else i - 1);
      k := j + 1;
      assert acts[..k][0] == acts[0] && acts[..k][1..] == rest[..j];
    }
  }

  lemma {:induction false} NonCloseConcat(a: seq<Action>, b: seq<Action>)
    ensures NonClose(a + b) == NonClose(a) + NonClose(b)
  {
    if a == [] {
      assert a + b == b;
    } else {
      TailOfConcat(a, b);
      NonCloseConcat(a[1..], b);
      AppendAssoc(if a[0].Close? then [] else [a[0]], NonClose(a[1..]), NonClose(b));
    }
  }

  lemma {:induction false} NonCloseRises(acts: seq<Action>, k: nat, l: nat)
    requires k < l <= |acts| && !acts[k].Close?
    ensures |NonClose(acts[..k])| < |NonClose(acts[..l])|
  {
    assert acts[..l] == acts[..k] + acts[k..l];
    assert acts[k..l][0] == acts[k];
    NonCloseConcat(acts[..k], acts[k..l]);
  }

  lemma {:induction false} EntryIn(messages: seq<Message>, k: nat)
    requires Convert(messages).Good? && k < |Actions(0, messages)| && ByName(Actions(0, messages)[k])
    ensures var acts, out := Actions(0, messages), Convert(messages).state.out;
            var e := |NonClose(acts[..k])|;
            && e < |out| && Repaired(out[e])
            && forall x | x in ExplicitIds(messages) :: out[e].id == x <==> RepairsAt(acts, k, x)
  {
    var acts, explicit, st := Actions(0, messages), ExplicitIds(messages), Initial(messages);
    ActionsExplicit(0, messages, explicit);
    var ren := PrefixRenames(st, acts, explicit, k);
    var n := Fold(st, acts[..k]).state;
    GoodPrefix(st, acts, k);
    EntriesFollowHistory(st, acts[..k]);
    FirstEntry(ren, acts[..k], n, acts[k..], explicit);
  }

  lemma {:induction false} RepairBehind(messages: seq<Message>, i: nat, x: string) returns (k: nat)
    requires Convert(messages).Good? && i < |Convert(messages).state.out|
    requires Repaired(Convert(messages).state.out[i]) && Convert(messages).state.out[i].id == x
    requires x in ExplicitIds(messages)
    ensures RepairsAt(Actions(0, messages), k, x) && |NonClose(Actions(0, messages)[..k])| == i
  {
    NothingIsLost(messages);
    k := ActionAt(Actions(0, messages), i);
    EntryIn(messages, k);
  }

  lemma {:induction false} IssuedIsExplicit(messages: seq<Message>, k: nat)
    requires Convert(messages).Good? && k < |Convert(messages).state.out|
    requires var e := Convert(messages).state.out[k]; e.Issued? && !e.generated
    ensures Convert(messages).state.out[k].id in ExplicitIds(messages)
  {
    NothingIsLost(messages);
    ActionsExplicit(0, messages, ExplicitIds(messages));
    var j := ActionAt(Actions(0, messages), k);
    assert ExplicitIn(Actions(0, messages)[j], ExplicitIds(messages));
  }

  // --------------------------------------------------------------- no more than that

  ghost predicate RepairableTwice(turns: seq<Message>) {
    exists p, q, x | 0 <= p < q < |turns| :: Repairable(turns[p], x) && Repairable(turns[q], x)
  }

  /** A shared id can be repaired in two turns. */
  lemma {:induction false} SharedIsRepairableTwice(messages: seq<Message>)
    requires Convert(messages).Good? && !RepairedDistinct(Convert(messages).state.out)
    ensures RepairableTwice(Turns(messages))
  {
    var out := Convert(messages).state.out;
    var i, j :| 0 <= i < j < |out| && Repaired(out[i]) && Repaired(out[j]) && out[i].id == out[j].id;
    SharedIsExplicit(messages, i, j);
    var k := RepairBehind(messages, i, out[i].id);
    var l := RepairBehind(messages, j, out[i].id);
    LaterEntry(Actions(0, messages), k, l);
    TwoRepairs(messages, k, l, out[i].id);
  }

  lemma {:induction false} SharedIsExplicit(messages: seq<Message>, i: nat, j: nat)
    requires Convert(messages).Good?
    requires var out := Convert(messages).state.out;
             i < j < |out| && Repaired(out[i]) && Repaired(out[j]) && out[i].id == out[j].id
    ensures Convert(messages).state.out[i].id in ExplicitIds(messages)
  {
    var out := Convert(messages).state.out;
    SharedRepairIsReissued(messages, i, j);
    var m :| i < m < j && out[m].Issued? && out[m].id == out[i].id && !out[m].generated;
    IssuedIsExplicit(messages, m);
  }

  lemma {:induction false} LaterEntry(acts: seq<Action>, k: nat, l: nat)
    requires k < |acts| && l < |acts| && !acts[l].Close?
    requires |NonClose(acts[..k])| < |NonClose(acts[..l])|
    ensures k < l
  {
    if l < k {
      NonCloseRises(acts, l, k);
    }
  }

  lemma {:induction false} TwoRepairs(messages: seq<Message>, k: nat, l: nat, x: string)
    requires k < l && RepairsAt(Actions(0, messages), k, x) && RepairsAt(Actions(0, messages), l, x)
    ensures RepairableTwice(Turns(messages))
  {
    var acts, turns := Actions(0, messages), Turns(messages);
    RepairedInTwoTurns(messages, k, l, x);
    RepairIsRepairable(messages, k, x);
    RepairIsRepairable(messages, l, x);
    var p, q := Closes(acts[..k]) - 1, Closes(acts[..l]) - 1;
    assert Repairable(turns[p], x) && Repairable(turns[q], x);
  }

  ghost predicate CalledTwice(turns: seq<Message>) {
    exists p, q, x | 0 <= p < q < |turns| :: Calls(turns[p], x) && Calls(turns[q], x)
  }

  lemma {:induction false} RepairableIsCalled(turns: seq<Message>)
    requires RepairableTwice(turns)
    ensures CalledTwice(turns)
  {
    var p, q, x :| 0 <= p < q < |turns| && Repairable(turns[p], x) && Repairable(turns[q], x);
    assert Calls(turns[p], x) && Calls(turns[q], x);
  }

  /** If no explicit id is called in two messages, no two repaired results share an id. */
  lemma {:induction false} DistinctCallsSuffice(messages: seq<Message>)
    requires Convert(messages).Good? && !CalledTwice(Turns(messages))
    ensures RepairedDistinct(Convert(messages).state.out)
  {
    if !RepairedDistinct(Convert(messages).state.out) {
      SharedIsRepairableTwice(messages);
      RepairableIsCalled(Turns(messages));
    }
  }

  // --------------------------------------------------------------- and no less

  /** The explicit ids other than `x`. */
  function OtherIds(parts: seq<Part>, x: string): seq<string> {
    if parts == [] then []
    else
      var p := parts[|parts| - 1];
      OtherIds(parts[..|parts| - 1], x)
      + if p.CallPart? && Truthy(p.id) && p.id.value != x then [p.id.value] else []
  }

  lemma {:induction false} OtherIdsAre(parts: seq<Part>, x: string)
    ensures forall y :: y in OtherIds(parts, x) <==> y != x && y != "" && LastCall(parts, y).Some?
  {
    if parts != [] {
      OtherIdsAre(parts[..|parts| - 1], x);
    }
  }

  function Answers(ids: seq<string>): (r: seq<Part>)
    ensures |r| == |ids|
  {
    seq(|ids|, i requires 0 <= i < |ids| => ResultPart(Some(ids[i]), None, ""))
  }

  /** Answers every other explicit call of the message by id, and then `x` by its name. */
  function Fix(m: Message, x: string): Message {
    Message(Tool, Answers(OtherIds(m.parts, x)) + [ResultPart(None, LastCall(m.parts, x), "")])
  }

  function Results(parts: seq<Part>): (r: seq<Action>)
    requires forall i | 0 <= i < |parts| :: parts[i].ResultPart?
    ensures |r| == |parts|
  {
    seq(|parts|, i requires 0 <= i < |parts| => TakeResult(parts[i].id, parts[i].toolName, parts[i].payload))
  }

  lemma {:induction false} ToolActions(mi: nat, k: nat, parts: seq<Part>)
    requires forall i | 0 <= i < |parts| :: parts[i].ResultPart?
    ensures PartActions(Tool, mi, k, parts) == Results(parts)
    decreases |parts|
  {
    if parts != [] {
      ToolActions(mi, k, parts[1..]);
      assert Results(parts) == [Results(parts)[0]] + Results(parts[1..]);
    }
  }

  lemma {:induction false} AnswersClose(acts: seq<Action>, ids: seq<string>)
    requires forall y | y in ids :: y != ""
    ensures var open, next := OpenCalls(acts), OpenCalls(acts + Results(Answers(ids)));
            && (forall k :: k in next <==> k in open && !(k.Given? && k.id in ids))
            && forall k | k in next :: next[k] == open[k]
  {
    if ids == [] {
      assert acts + Results(Answers(ids)) == acts;
    } else {
      var init, y := ids[..|ids| - 1], ids[|ids| - 1];
      assert forall z | z in init :: z in ids;
      AnswersClose(acts, init);
      var a := TakeResult(Some(y), None, "");
      assert acts + Results(Answers(ids)) == acts + Results(Answers(init)) + [a];
      CallsSnoc(acts + Results(Answers(init)), a);
      assert forall z :: z in ids <==> z in init || z == y;
    }
  }

  /** After the message and the answers to the others, `x` is the one call of its name. */
  lemma {:induction false} FixFinds(acts: seq<Action>, m: Message, x: string)
    requires Repairable(m, x) && Built(acts, m.parts)
    ensures var before := acts + Results(Answers(OtherIds(m.parts, x)));
            Named(OpenCalls(before), LastCall(m.parts, x)) == {Given(x)}
  {
    var ids, name := OtherIds(m.parts, x), LastCall(m.parts, x);
    OtherIdsAre(m.parts, x);
    AnswersClose(acts, ids);
    var open, next := OpenCalls(acts), OpenCalls(acts + Results(Answers(ids)));
    assert forall y | Given(y) in next :: y == x;
    assert forall i: nat | Place(i) in next :: next[Place(i)] == open[Place(i)] != name.value;
    forall k | k in next
      ensures k == Given(x) || Some(next[k]) != name
    {
      assert k == if k.Given? then Given(k.id) else Place(k.index);
    }
    assert Given(x) in next && Named(next, name) == {Given(x)};
  }

  /** The first `n` messages, with a tool message that repairs `x` after `p` and after `q`. */
  function Inserted(calls: seq<Message>, n: nat, p: nat, q: nat, x: string): seq<Message>
    requires n <= |calls|
  {
    if n == 0 then []
    else
      Inserted(calls, n - 1, p, q, x) + [calls[n - 1]]
      + if n - 1 == p || n - 1 == q then [Fix(calls[n - 1], x)] else []
  }

  lemma {:induction false} TurnsSnoc(messages: seq<Message>, m: Message)
    ensures Turns(messages + [m]) == Turns(messages) + if m.role == Tool then [] else [m]
  {
    assert (messages + [m])[..|messages|] == messages;
  }

  lemma {:induction false} InsertedTurns(calls: seq<Message>, n: nat, p: nat, q: nat, x: string)
    requires n <= |calls| && forall i | 0 <= i < |calls| :: calls[i].role != Tool
    ensures Turns(Inserted(calls, n, p, q, x)) == calls[..n]
  {
    if n > 0 {
      var m := calls[n - 1];
      InsertedTurns(calls, n - 1, p, q, x);
      OneTurn(Inserted(calls, n - 1, p, q, x), m, if n - 1 == p || n - 1 == q then [Fix(m, x)] else []);
      PrefixSnoc(calls, n);
    }
  }

  lemma {:induction false} OneTurn(before: seq<Message>, m: Message, more: seq<Message>)
    requires m.role != Tool && (more == [] || (|more| == 1 && more[0].role == Tool))
    ensures Turns(before + [m] + more) == Turns(before) + [m]
  {
    TurnsSnoc(before, m);
    if more == [] {
      assert before + [m] + more == before + [m];
    } else {
      TurnsSnoc(before + [m], more[0]);
      assert more == [more[0]];
    }
  }

  ghost predicate RepairedIn(acts: seq<Action>, x: string, turn: nat) {
    exists k: nat :: RepairsAt(acts, k, x) && Closes(acts[..k]) == turn
  }

  /** Nothing fails, and `x` is repaired in every turn that is followed by a repair. */
  ghost predicate GoodSoFar(acts: seq<Action>, n: nat, p: nat, q: nat, x: string) {
    && !SomeFails(acts, 0) && Closes(acts) == n
    && (p < n ==> RepairedIn(acts, x, p + 1)) && (q < n ==> RepairedIn(acts, x, q + 1))
  }

  lemma {:induction false} RepairedInLonger(acts: seq<Action>, more: seq<Action>, x: string, turn: nat)
    requires RepairedIn(acts, x, turn)
    ensures RepairedIn(acts + more, x, turn)
  {
    var k: nat :| RepairsAt(acts, k, x) && Closes(acts[..k]) == turn;
    assert (acts + more)[..k] == acts[..k] && (acts + more)[k] == acts[k];
    assert RepairsAt(acts + more, k, x);
  }

  lemma {:induction false} NoFailsLonger(acts: seq<Action>, more: seq<Action>)
    requires !SomeFails(acts, 0) && forall k | |acts| <= k < |acts + more| :: !FailsAt(acts + more, k)
    ensures !SomeFails(acts + more, 0)
  {
    forall k: nat | k < |acts|
      ensures FailsAt(acts + more, k) <==> FailsAt(acts, k)
    {
      assert (acts + more)[..k] == acts[..k] && (acts + more)[k] == acts[k];
    }
  }

  /** A further message that is not a tool message. */
  lemma {:induction false} TurnIsGood(acts: seq<Action>, n: nat, p: nat, q: nat, x: string, mi: nat, m: Message)
    requires m.role != Tool && !SomeFails(acts, 0) && Closes(acts) == n
    ensures !SomeFails(acts + MessageActions(mi, m), 0) && Closes(acts + MessageActions(mi, m)) == n + 1
  {
    var more := MessageActions(mi, m);
    MessageKind(mi, m);
    ClosesConcat(acts, more);
    forall k | |acts| <= k < |acts + more|
      ensures !FailsAt(acts + more, k)
    {
      var i := k - |acts|;
      assert (acts + more)[k] == if i == 0 then more[0] else more[1..][i - 1];
    }
    NoFailsLonger(acts, more);
  }

  /** The repair after it. */
  lemma {:induction false} FixIsGood(acts: seq<Action>, n: nat, x: string, mi: nat, m: Message)
    requires Repairable(m, x) && Built(acts, m.parts) && !SomeFails(acts, 0) && Closes(acts) == n
    ensures var all := acts + MessageActions(mi, Fix(m, x));
            !SomeFails(all, 0) && Closes(all) == n && RepairedIn(all, x, n)
  {
    var ids, last := OtherIds(m.parts, x), TakeResult(None, LastCall(m.parts, x), "");
    var answers := Results(Answers(ids));
    FixActions(mi, m, x);
    OtherIdsAre(m.parts, x);
    FixFinds(acts, m, x);
    AnswersFail(acts, ids);
    NoCloses(answers);
    ClosesConcat(acts, answers);
    LastRepairs(acts + answers, last, x, n);
    AppendAssoc(acts, answers, [last]);
  }

  lemma {:induction false} FixActions(mi: nat, m: Message, x: string)
    ensures MessageActions(mi, Fix(m, x))
            == Results(Answers(OtherIds(m.parts, x))) + [TakeResult(None, LastCall(m.parts, x), "")]
  {
    ToolActions(mi, 0, Fix(m, x).parts);
    assert MessageActions(mi, Fix(m, x)) == Results(Fix(m, x).parts);
  }

  /** Answers by id never fail. */
  lemma {:induction false} AnswersFail(acts: seq<Action>, ids: seq<string>)
    requires !SomeFails(acts, 0) && forall y | y in ids :: y != ""
    ensures !SomeFails(acts + Results(Answers(ids)), 0)
  {
    var more := Results(Answers(ids));
    forall k | |acts| <= k < |acts + more|
      ensures !FailsAt(acts + more, k)
    {
      assert (acts + more)[k] == more[k - |acts|] && ids[k - |acts|] in ids;
    }
    NoFailsLonger(acts, more);
  }

  lemma {:induction false} LastRepairs(acts: seq<Action>, last: Action, x: string, n: nat)
    requires !SomeFails(acts, 0) && Closes(acts) == n && ByName(last)
    requires Named(OpenCalls(acts), last.toolName) == {Given(x)}
    ensures var all := acts + [last]; !SomeFails(all, 0) && Closes(all) == n && RepairedIn(all, x, n)
  {
    var all, k := acts + [last], |acts|;
    ClosesSnoc(acts, last);
    assert all[..k] == acts && all[k] == last;
    assert RepairsAt(all, k, x);
    NoFailsLonger(acts, [last]);
  }

  lemma {:induction false} InsertedIsGood(calls: seq<Message>, n: nat, p: nat, q: nat, x: string)
    requires n <= |calls| && forall i | 0 <= i < |calls| :: calls[i].role != Tool
    requires p < q < |calls| && Repairable(calls[p], x) && Repairable(calls[q], x)
    ensures GoodSoFar(Actions(0, Inserted(calls, n, p, q, x)), n, p, q, x)
  {
    if n == 0 {
      assert Actions(0, []) == [];
    } else {
      var before, m := Inserted(calls, n - 1, p, q, x), calls[n - 1];
      InsertedIsGood(calls, n - 1, p, q, x);
      ActionsSnoc(0, before, m);
      ActionsSnoc(0, before + [m], Fix(m, x));
      var fixed := n - 1 == p || n - 1 == q;
      assert !fixed ==> before + [m] + [] == before + [m];
      OneMore(Actions(0, before), |before|, m, fixed, n, p, q, x);
    }
  }

  /** One more message, with or without a repair behind it. */
  lemma {:induction false} OneMore(acts: seq<Action>, mi: nat, m: Message, fixed: bool,
                                   n: nat, p: nat, q: nat, x: string)
    requires n > 0 && GoodSoFar(acts, n - 1, p, q, x) && m.role != Tool && (fixed ==> Repairable(m, x))
    requires fixed <==> n - 1 == p || n - 1 == q
    ensures var made := acts + MessageActions(mi, m);
            GoodSoFar(if fixed then made + MessageActions(mi + 1, Fix(m, x)) else made, n, p, q, x)
  {
    var made, fix := acts + MessageActions(mi, m), MessageActions(mi + 1, Fix(m, x));
    TurnIsGood(acts, n - 1, p, q, x, mi, m);
    BuildMessage(acts, mi, m);
    if fixed {
      FixIsGood(made, n, x, mi + 1, m);
    }
    forall t | RepairedIn(acts, x, t)
      ensures RepairedIn(made, x, t) && RepairedIn(made + fix, x, t)
    {
      RepairedInLonger(acts, MessageActions(mi, m), x, t);
      RepairedInLonger(made, fix, x, t);
    }
  }

  /** Two turns in which `x` can be repaired have results with which it is, twice. */
  lemma {:induction false} RepairableTwiceIsShared(calls: seq<Message>, p: nat, q: nat, x: string)
    returns (messages: seq<Message>)
    requires forall i | 0 <= i < |calls| :: calls[i].role != Tool
    requires p < q < |calls| && Repairable(calls[p], x) && Repairable(calls[q], x)
    ensures messages == Inserted(calls, |calls|, p, q, x) && Turns(messages) == calls
    ensures Convert(messages).Good? && !RepairedDistinct(Convert(messages).state.out)
  {
    messages := Inserted(calls, |calls|, p, q, x);
    InsertedTurns(calls, |calls|, p, q, x);
    assert calls[..|calls|] == calls;
    InsertedIsGood(calls, |calls|, p, q, x);
    FailsIff(messages);
    var acts := Actions(0, messages);
    var k: nat :| RepairsAt(acts, k, x) && Closes(acts[..k]) == p + 1;
    var l: nat :| RepairsAt(acts, l, x) && Closes(acts[..l]) == q + 1;
    MoreCloses(acts, k, l);
    BothShare(messages, k, l, x);
  }

  lemma {:induction false} MoreCloses(acts: seq<Action>, k: nat, l: nat)
    requires k <= |acts| && l <= |acts| && Closes(acts[..k]) < Closes(acts[..l])
    ensures k < l
  {
    if l < k {
      ClosesPrefix(acts, l, k);
    }
  }

  lemma {:induction false} BothShare(messages: seq<Message>, k: nat, l: nat, x: string)
    requires Convert(messages).Good? && k < l
    requires RepairsAt(Actions(0, messages), k, x) && RepairsAt(Actions(0, messages), l, x)
    ensures !RepairedDistinct(Convert(messages).state.out)
  {
    var acts := Actions(0, messages);
    RepairedIdIsExplicit(messages, k, x);
    EntryIn(messages, k);
    EntryIn(messages, l);
    NonCloseRises(acts, k, l);
  }

  /** An open call with a given id was made with it. */
  lemma {:induction false} OpenWasGiven(acts: seq<Action>, explicit: set<string>, x: string)
    requires AllExplicit(acts, explicit) && Given(x) in OpenCalls(acts)
    ensures x in explicit
  {
    var n := |acts| - 1;
    assert ExplicitIn(acts[n], explicit);
    if Given(x) in OpenCalls(acts[..n]) {
      assert forall i | 0 <= i < n :: acts[..n][i] == acts[i];
      OpenWasGiven(acts[..n], explicit, x);
    }
  }

  lemma {:induction false} RepairedIdIsExplicit(messages: seq<Message>, k: nat, x: string)
    requires RepairsAt(Actions(0, messages), k, x)
    ensures x in ExplicitIds(messages)
  {
    var acts := Actions(0, messages);
    ActionsExplicit(0, messages, ExplicitIds(messages));
    assert Given(x) in Named(OpenCalls(acts[..k]), acts[k].toolName);
    assert AllExplicit(acts[..k], ExplicitIds(messages)) by {
      assert forall i | 0 <= i < k :: acts[..k][i] == acts[i];
    }
    OpenWasGiven(acts[..k], ExplicitIds(messages), x);
  }

  /** Over all ways to put tool messages between given messages: repaired ids stay distinct
      if and only if no explicit id can be repaired in two of them. */
  lemma {:induction false} RepairsStayDistinctIff(calls: seq<Message>)
    requires forall i | 0 <= i < |calls| :: calls[i].role != Tool
    ensures (forall messages | Turns(messages) == calls && Convert(messages).Good? ::
               RepairedDistinct(Convert(messages).state.out))
            <==> !RepairableTwice(calls)
  {
    if RepairableTwice(calls) {
      var p, q, x :| 0 <= p < q < |calls| && Repairable(calls[p], x) && Repairable(calls[q], x);
      var messages := RepairableTwiceIsShared(calls, p, q, x);
    } else {
      forall messages | Turns(messages) == calls && Convert(messages).Good?
        ensures RepairedDistinct(Convert(messages).state.out)
      {
        if !RepairedDistinct(Convert(messages).state.out) {
          SharedIsRepairableTwice(messages);
        }
      }
    }
  }

  const CALL := Message(Assistant, [CallPart(Some("x"), "f")])
  const RESULT := Message(Tool, [ResultPart(None, Some("f"), "")])

  /** The smallest history whose two repaired results share an id. */
  lemma {:induction false} SharingExample()
    ensures Convert([CALL, RESULT, CALL, RESULT]).Good?
    ensures !RepairedDistinct(Convert([CALL, RESULT, CALL, RESULT]).state.out)
  {
    var calls := [CALL, CALL];
    assert CALL.parts[..0] == [] && LastCall(CALL.parts, "x") == Some("f");
    assert OtherIds(CALL.parts, "x") == [];
    assert Fix(CALL, "x").parts == RESULT.parts;
    var messages := RepairableTwiceIsShared(calls, 0, 1, "x");
    assert Inserted(calls, 1, 0, 1, "x") == [CALL, RESULT];
    assert Inserted(calls, 2, 0, 1, "x") == [CALL, RESULT, CALL, RESULT];
  }

  /** The same id in two messages is not enough: here a call without an id has the name
      too, so no result without an id is ever paired with `x`. */
  lemma {:induction false} TwiceCalledExample()
    ensures var m := Message(Assistant, [CallPart(None, "f"), CallPart(Some("x"), "f")]);
            Calls(m, "x") && !RepairableTwice([m, m])
  {
    var parts := [CallPart(None, "f"), CallPart(Some("x"), "f")];
    assert LastCall(parts, "x") == Some("f") && parts[0] in parts;
    assert "f" in NamesWithoutId(parts);
    assert parts[..1] == [parts[0]] && [parts[0]][..0] == [];
    forall x
      ensures !Repairable(Message(Assistant, parts), x)
    {
      if x != "x" {
        assert LastCall(parts, x) == LastCall(parts[..1], x) == LastCall([], x) == None;
      }
    }
  }
}
