/** When the id repair fails, read off the history: calls are named by the id they were
    given or by their place, so that no generated id and no state of the converter occurs. */
module OpenAIFailures {
  import opened Text
  import opened OpenAI
  import opened OpenAILaws

  /** A call with an explicit id, or without one at a place of the history. */
  datatype Key = Given(id: string) | Place(index: nat)

  function Named(open: map<Key, string>, name: Option<string>): set<Key> {
    set k | k in open && Some(open[k]) == name
  }

  /** The unanswered calls of the last batch. A result with an id answers the call with that
      id, one without an id answers by name. */
  function OpenCalls(acts: seq<Action>): map<Key, string> {
    if acts == [] then map[]
    else
      var n := |acts| - 1;
      var open := OpenCalls(acts[..n]);
      match acts[n]
      case Close => map[]
      case MakeCall(_, _, id, name) => open[if Truthy(id) then Given(id.value) else Place(n) := name]
      case TakeResult(id, name, _) =>
        if Truthy(id) then open - {Given(id.value)} else open - Named(open, name)
  }

  lemma {:induction false} CallsSnoc(acts: seq<Action>, a: Action)
    ensures var open := OpenCalls(acts);
            OpenCalls(acts + [a]) ==
            match a
            case Close => map[]
            case MakeCall(_, _, id, name) => open[if Truthy(id) then Given(id.value) else Place(|acts|) := name]
            case TakeResult(id, name, _) =>
              if Truthy(id) then open - {Given(id.value)} else open - Named(open, name)
  {
    assert (acts + [a])[..|acts|] == acts;
  }

  /** The one call with the name. */
  lemma {:induction false} OnlyNamed(open: map<Key, string>, name: Option<string>, key: Key)
    requires Named(open, name) == {key}
    ensures key in open && Some(open[key]) == name
    ensures forall k | k in open && Some(open[k]) == name :: k == key
  {
    assert key in Named(open, name);
    forall k | k in open && Some(open[k]) == name
      ensures k in {key}
    {
      assert k in Named(open, name);
    }
  }

  predicate ByName(a: Action) {
    a.TakeResult? && !Truthy(a.id)
  }

  /** Result `k` has no id, and not exactly one open call has its name. */
  predicate FailsAt(acts: seq<Action>, k: int) {
    0 <= k < |acts| && ByName(acts[k]) && |Named(OpenCalls(acts[..k]), acts[k].toolName)| != 1
  }

  ghost predicate SomeFails(acts: seq<Action>, from: nat) {
    exists k :: from <= k && FailsAt(acts, k)
  }

  // --------------------------------------------------- the converter's own ids

  /** `ren` gives each open call the id the converter knows it by. */
  ghost predicate Renames(ren: map<Key, string>, open: map<Key, string>, used: set<string>,
                          pending: map<string, string>, explicit: set<string>, n: nat) {
    && ren.Keys == open.Keys && explicit <= used
    && (forall k | k in ren :: RenamedOk(ren, k, used, explicit, n))
    && (forall k, l | k in ren && l in ren && ren[k] == ren[l] :: k == l)
    && (forall k | k in ren :: ren[k] in pending && pending[ren[k]] == open[k])
    && (forall c | c in pending :: c in ren.Values)
  }

  ghost predicate RenamedOk(ren: map<Key, string>, k: Key, used: set<string>, explicit: set<string>, n: nat)
    requires k in ren
  {
    match k
    case Given(id) => ren[k] == id && id in explicit
    case Place(index) => index < n && ren[k] !in explicit && ren[k] in used
  }

  /** A call keeps or gets its id. */
  lemma {:induction false} CallRenames(ren: map<Key, string>, open: map<Key, string>, used: set<string>,
                                       pending: map<string, string>, explicit: set<string>, n: nat,
                                       id: Option<string>, cid: string, name: string)
    requires Renames(ren, open, used, pending, explicit, n) && (Truthy(id) ==> id.value in explicit)
    requires if Truthy(id) then cid == id.value else cid !in used
    ensures var key := if Truthy(id) then Given(cid) else Place(n);
            Renames(ren[key := cid], open[key := name], used + {cid}, pending[cid := name], explicit, n + 1)
  {
    var key := if Truthy(id) then Given(cid) else Place(n);
    assert forall k | k in ren && k != key :: ren[k] != cid;
    var p, values := pending[cid := name], ren[key := cid].Values;
    forall c | c in p
      ensures c in values
    {
      AddedValue(ren, key, cid, c);
    }
  }

  lemma {:induction false} AddedValue(ren: map<Key, string>, key: Key, cid: string, c: string)
    requires c == cid || (c in ren.Values && forall k | k in ren && k == key :: ren[k] == cid)
    ensures c in ren[key := cid].Values
  {
    var r := ren[key := cid];
    if c == cid {
      assert r[key] == c;
    } else {
      var k :| k in ren && ren[k] == c;
      assert r[k] == c;
    }
  }

  /** An answered call is open no longer. */
  lemma {:induction false} AnswerRenames(ren: map<Key, string>, open: map<Key, string>, used: set<string>,
                                         pending: map<string, string>, explicit: set<string>, n: nat,
                                         key: Key, c: string)
    requires Renames(ren, open, used, pending, explicit, n)
    requires forall k | k in ren :: k == key <==> ren[k] == c
    ensures Renames(ren - {key}, open - {key}, used, pending - {c}, explicit, n + 1)
  {
    forall d | d in pending - {c}
      ensures d in (ren - {key}).Values
    {
      KeptValue(ren, key, d);
    }
  }

  lemma {:induction false} KeptValue(ren: map<Key, string>, key: Key, d: string)
    requires d in ren.Values && (key in ren ==> ren[key] != d)
    ensures d in (ren - {key}).Values
  {
    var k :| k in ren && ren[k] == d;
    assert k in ren - {key} && (ren - {key})[k] == d;
  }

  /** Open calls of one name: the converter's candidates are the same calls. */
  lemma {:induction false} MatchesAreNamed(ren: map<Key, string>, open: map<Key, string>, st: State,
                                           explicit: set<string>, n: nat, name: Option<string>)
    requires Renames(ren, open, st.used, st.pending, explicit, n)
    ensures Matches(st.pending, name) == set k | k in Named(open, name) :: ren[k]
    ensures |Matches(st.pending, name)| == |Named(open, name)|
  {
    var named := Named(open, name);
    forall c | c in Matches(st.pending, name)
      ensures exists k :: k in named && ren[k] == c
    {
      var k :| k in ren && ren[k] == c;
      assert k in named;
    }
    assert Matches(st.pending, name) == set k | k in named :: ren[k];
    ImageSize(ren, named);
  }

  lemma {:induction false} ImageSize(ren: map<Key, string>, keys: set<Key>)
    requires keys <= ren.Keys
    requires forall k, l | k in ren && l in ren && ren[k] == ren[l] :: k == l
    ensures |set k | k in keys :: ren[k]| == |keys|
  {
    if keys != {} {
      var x :| x in keys;
      var rest := keys - {x};
      ImageSize(ren, rest);
      assert (set k | k in keys :: ren[k]) == (set k | k in rest :: ren[k]) + {ren[x]};
    }
  }

  lemma {:induction false} OneNamed(ren: map<Key, string>, open: map<Key, string>, st: State,
                                    explicit: set<string>, n: nat, name: Option<string>) returns (key: Key)
    requires Renames(ren, open, st.used, st.pending, explicit, n) && |Matches(st.pending, name)| == 1
    ensures Named(open, name) == {key} && key in ren && ren[key] == The(Matches(st.pending, name))
  {
    MatchesAreNamed(ren, open, st, explicit, n, name);
    var named := Named(open, name);
    assert named != {};
    key :| key in named;
    assert |named - {key}| == 0 && named == {key} + (named - {key});
    assert ren[key] in Matches(st.pending, name);
  }

  lemma {:induction false} StepRenames(ren: map<Key, string>, front: seq<Action>, st: State, a: Action,
                                       explicit: set<string>) returns (next: map<Key, string>)
    requires Renames(ren, OpenCalls(front), st.used, st.pending, explicit, |front|)
    requires ExplicitIn(a, explicit) && Step(st, a).Good?
    ensures var n := Step(st, a).state;
            Renames(next, OpenCalls(front + [a]), n.used, n.pending, explicit, |front| + 1)
  {
    var open, n := OpenCalls(front), |front|;
    CallsSnoc(front, a);
    match a
    case Close => next := map[];
    case MakeCall(mi, k, id, name) =>
      var cid := if Truthy(id) then id.value else Freshen(st.used, BaseId(mi, k));
      CallRenames(ren, open, st.used, st.pending, explicit, n, id, cid, name);
      next := ren[if Truthy(id) then Given(cid) else Place(n) := cid];
    case TakeResult(id, name, payload) =>
      if Truthy(id) {
        AnswerRenames(ren, open, st.used, st.pending, explicit, n, Given(id.value), id.value);
        next := ren - {Given(id.value)};
      } else {
        var key := OneNamed(ren, open, st, explicit, n, name);
        AnswerRenames(ren, open, st.used, st.pending, explicit, n, key, ren[key]);
        next := ren - {key};
      }
  }

  // ---------------------------------------------------------------- the theorem

  lemma {:induction false} FoldFailsIff(ren: map<Key, string>, front: seq<Action>, st: State, acts: seq<Action>,
                                        explicit: set<string>)
    requires Renames(ren, OpenCalls(front), st.used, st.pending, explicit, |front|)
    requires AllExplicit(acts, explicit)
    ensures Fold(st, acts).Unpaired? <==> SomeFails(front + acts, |front|)
    decreases |acts|
  {
    var all, n := front + acts, |front|;
    if acts != [] {
      var a, rest := acts[0], acts[1..];
      assert all[..n] == front && all[n] == a && ExplicitIn(a, explicit);
      if ByName(a) {
        MatchesAreNamed(ren, OpenCalls(front), st, explicit, n, a.toolName);
      }
      assert Step(st, a).Unpaired? <==> FailsAt(all, n);
      if Step(st, a).Good? {
        var next := StepRenames(ren, front, st, a, explicit);
        assert front + [a] + rest == all;
        FoldFailsIff(next, front + [a], Step(st, a).state, rest, explicit);
      }
    }
  }

  /** Conversion fails exactly when, for some result without an id, the calls that are still
      open in the batch before it do not include exactly one of its name. */
  lemma {:induction false} FailsIff(messages: seq<Message>)
    ensures Convert(messages).Unpaired? <==> SomeFails(Actions(0, messages), 0)
  {
    var acts, explicit := Actions(0, messages), ExplicitIds(messages);
    ActionsExplicit(0, messages, explicit);
    assert [] + acts == acts;
    FoldFailsIff(map[], [], Initial(messages), acts, explicit);
  }
}
