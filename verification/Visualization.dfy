/** The search for a visualization descriptor in a tool result: a stack loop with a visit
    budget, against recursive preorder. JSON decoding and `str()` are parameters. */
module Visualization {
  import opened Text

  /** A decoded JSON value; a dictionary lists its items in insertion order. */
  datatype Value =
    | Str(text: string)
    | Dict(items: seq<(string, Value)>)
    | List(elems: seq<Value>)
    | Atom(text: string)

  type Descriptor = map<string, Value>

  const ALLOWED: set<string> :=
    {"artifact_id", "name", "title", "size", "mime_type", "created_at", "kind", "display", "height",
     "view_url", "download_url", "timeline_turn_id", "timeline_history_index", "timeline_part_index"}

  const PRIORITY: seq<string> :=
    ["artifact", "artifacts", "data", "result", "output", "content", "value", "payload"]

  const MAX_DEPTH := 8
  const MAX_VISITS := 1000

  function Get(items: seq<(string, Value)>, key: string): Option<Value> {
    if items == [] then None
    else if items[0].0 == key then Some(items[0].1)
    else Get(items[1..], key)
  }

  /** `str(value.get("artifact_id") or "").strip()`; `render` is `str(v or "")`. */
  function ArtifactId(render: Value -> string, items: seq<(string, Value)>): string {
    match Get(items, "artifact_id")
    case None => ""
    case Some(v) => Strip(render(v))
  }

  function AllowedFields(items: seq<(string, Value)>): (m: Descriptor)
    ensures forall k :: k in m <==> k in ALLOWED && Get(items, k).Some?
    ensures forall k | k in m :: m[k] == Get(items, k).value
  {
    map k | k in ALLOWED && Get(items, k).Some? :: Get(items, k).value
  }

  /** `_normalized_visualization` */
  function Normalized(render: Value -> string, v: Value): (r: Option<Descriptor>)
    ensures r.Some? ==> r.value.Keys <= ALLOWED && {"artifact_id", "kind"} <= r.value.Keys
  {
    if !v.Dict? || Get(v.items, "kind") != Some(Str("visualization")) then None
    else
      var id := ArtifactId(render, v.items);
      if id == "" then None
      else Some(AllowedFields(v.items)["artifact_id" := Str(id)]["kind" := Str("visualization")])
  }

  /** A node is a descriptor if and only if it is a dictionary of kind `visualization` with
      an artifact id that is not blank. The result has the stripped id, and every other
      allowed field that is present, unchanged. */
  lemma {:induction false} DescriptorIff(render: Value -> string, v: Value)
    ensures Normalized(render, v).Some? <==>
            && v.Dict? && Get(v.items, "kind") == Some(Str("visualization"))
            && Get(v.items, "artifact_id").Some? && !Blank(render(Get(v.items, "artifact_id").value))
    ensures Normalized(render, v).Some? ==>
              && Normalized(render, v).value["artifact_id"]
                 == Str(Strip(render(Get(v.items, "artifact_id").value)))
              && Normalized(render, v).value["kind"] == Str("visualization")
              && forall k | k in ALLOWED && k != "artifact_id" && k != "kind" ::
                   && (k in Normalized(render, v).value <==> Get(v.items, k).Some?)
                   && (k in Normalized(render, v).value ==>
                         Normalized(render, v).value[k] == Get(v.items, k).value)
  {
    assert Blank("");
  }

  // ------------------------------------------------------------- the reference

  /** The items whose key is no wrapper key, in insertion order. */
  function Others(items: seq<(string, Value)>): seq<Value> {
    if items == [] then []
    else (if items[0].0 in PRIORITY then [] else [items[0].1]) + Others(items[1..])
  }

  /** The values of the wrapper keys that are present, in priority order. */
  function Wrapped(items: seq<(string, Value)>, keys: seq<string>): seq<Value> {
    if keys == [] then []
    else (match Get(items, keys[0])
          case None => []
          case Some(v) => [v]) + Wrapped(items, keys[1..])
  }

  function Children(v: Value): seq<Value> {
    match v
    case Dict(items) => Others(items) + Wrapped(items, PRIORITY)
    case List(elems) => elems
    case _ => []
  }

  /** The decoded nodes at most eight levels down, parents before children. */
  function Preorder(decode: Value -> Value, v: Value, depth: nat): seq<Value>
    decreases MAX_DEPTH - depth, 1
  {
    [decode(v)] + Below(decode, decode(v), depth)
  }

  function Below(decode: Value -> Value, v: Value, depth: nat): seq<Value>
    decreases MAX_DEPTH - depth, 0
  {
    if depth >= MAX_DEPTH then [] else PreorderAll(decode, Children(v), depth + 1)
  }

  function PreorderAll(decode: Value -> Value, vs: seq<Value>, depth: nat): seq<Value>
    decreases MAX_DEPTH - depth, |vs| + 1
  {
    if vs == [] then [] else Preorder(decode, vs[0], depth) + PreorderAll(decode, vs[1..], depth)
  }

  function Take(s: seq<Value>, n: nat): seq<Value> {
    if n < |s| then s[..n] else s
  }

  function First(render: Value -> string, nodes: seq<Value>): Option<Descriptor> {
    if nodes == [] then None
    else if Normalized(render, nodes[0]).Some? then Normalized(render, nodes[0])
    else First(render, nodes[1..])
  }

  ghost predicate IsFirst(render: Value -> string, nodes: seq<Value>, i: int) {
    && 0 <= i < |nodes| && Normalized(render, nodes[i]).Some?
    && forall j | 0 <= j < i :: Normalized(render, nodes[j]).None?
  }

  /** None means that no node is a descriptor; otherwise it is the earliest one. */
  lemma {:induction false} FirstIsEarliest(render: Value -> string, nodes: seq<Value>)
    ensures First(render, nodes).None? <==> forall i | 0 <= i < |nodes| :: Normalized(render, nodes[i]).None?
    ensures First(render, nodes).Some? ==>
              exists i :: IsFirst(render, nodes, i) && First(render, nodes) == Normalized(render, nodes[i])
  {
    if nodes != [] {
      if Normalized(render, nodes[0]).Some? {
        assert IsFirst(render, nodes, 0);
      } else {
        FirstIsEarliest(render, nodes[1..]);
        assert forall j | 0 < j < |nodes| :: nodes[j] == nodes[1..][j - 1];
        if First(render, nodes).Some? {
          var i :| IsFirst(render, nodes[1..], i) && First(render, nodes[1..]) == Normalized(render, nodes[1..][i]);
          assert IsFirst(render, nodes, i + 1);
        }
      }
    }
  }

  /** The first descriptor among the first thousand nodes of the preorder. */
  function Extracted(decode: Value -> Value, render: Value -> string, value: Value): Option<Descriptor> {
    First(render, Take(Preorder(decode, decode(value), 0), MAX_VISITS))
  }

  // -------------------------------------------------------------- the stack loop

  /** What is still to be visited: the stack from its top, each entry in preorder. */
  function Pending(decode: Value -> Value, stack: seq<(Value, nat)>): seq<Value> {
    if stack == [] then []
    else
      var n := |stack| - 1;
      Preorder(decode, stack[n].0, stack[n].1) + Pending(decode, stack[..n])
  }

  lemma {:induction false} PendingPush(decode: Value -> Value, stack: seq<(Value, nat)>, v: Value, depth: nat)
    ensures Pending(decode, stack + [(v, depth)]) == Preorder(decode, v, depth) + Pending(decode, stack)
  {
    assert (stack + [(v, depth)])[..|stack|] == stack;
  }

  lemma {:induction false} PendingPop(decode: Value -> Value, stack: seq<(Value, nat)>)
    requires stack != []
    ensures var (top, depth) := stack[|stack| - 1];
            Pending(decode, stack)
            == [decode(top)] + (Below(decode, decode(top), depth) + Pending(decode, stack[..|stack| - 1]))
  {
  }

  /** Pushing a child that precedes those already pushed. */
  lemma {:induction false} PushFront(decode: Value -> Value, stack: seq<(Value, nat)>, v: Value, vs: seq<Value>,
                                     depth: nat, rest: seq<Value>)
    requires Pending(decode, stack) == PreorderAll(decode, vs, depth) + rest
    ensures Pending(decode, stack + [(v, depth)]) == PreorderAll(decode, [v] + vs, depth) + rest
  {
    PendingPush(decode, stack, v, depth);
    assert ([v] + vs)[1..] == vs;
    assert Preorder(decode, v, depth) + (PreorderAll(decode, vs, depth) + rest)
        == Preorder(decode, v, depth) + PreorderAll(decode, vs, depth) + rest;
  }

  method PushChildren(decode: Value -> Value, stack: seq<(Value, nat)>, current: Value, depth: nat)
    returns (stack': seq<(Value, nat)>)
    ensures Pending(decode, stack')
            == PreorderAll(decode, Children(current), depth + 1) + Pending(decode, stack)
  {
    stack' := stack;
    ghost var rest := Pending(decode, stack);
    if current.Dict? {
      var items := current.items;
      var seen: set<string> := {};
      var i := |PRIORITY|;
      while i > 0
        invariant 0 <= i <= |PRIORITY|
        invariant Pending(decode, stack') == PreorderAll(decode, Wrapped(items, PRIORITY[i..]), depth + 1) + rest
        invariant forall k :: k in seen <==> k in PRIORITY[i..] && Get(items, k).Some?
      {
        i := i - 1;
        var key := PRIORITY[i];
        assert PRIORITY[i..][0] == key && PRIORITY[i..][1..] == PRIORITY[i + 1..];
        var found := Get(items, key);
        if found.Some? {
          PushFront(decode, stack', found.value, Wrapped(items, PRIORITY[i + 1..]), depth + 1, rest);
          stack' := stack' + [(found.value, depth + 1)];
          seen := seen + {key};
        } else {
          assert Wrapped(items, PRIORITY[i..]) == Wrapped(items, PRIORITY[i + 1..]);
        }
      }
      forall i | 0 <= i < |items|
        ensures items[i].0 in seen <==> items[i].0 in PRIORITY
      {
        ItemIsFound(items, i);
      }
      stack' := PushOthers(decode, stack', items, seen, depth, Wrapped(items, PRIORITY), rest);
    } else if current.List? {
      var i := |current.elems|;
      while i > 0
        invariant 0 <= i <= |current.elems|
        invariant Pending(decode, stack') == PreorderAll(decode, current.elems[i..], depth + 1) + rest
      {
        i := i - 1;
        assert [current.elems[i]] + current.elems[i + 1..] == current.elems[i..];
        PushFront(decode, stack', current.elems[i], current.elems[i + 1..], depth + 1, rest);
        stack' := stack' + [(current.elems[i], depth + 1)];
      }
    }
  }

  method PushOthers(decode: Value -> Value, stack: seq<(Value, nat)>, items: seq<(string, Value)>,
                    seen: set<string>, depth: nat, ghost wrapped: seq<Value>, ghost rest: seq<Value>)
    returns (stack': seq<(Value, nat)>)
    requires Pending(decode, stack) == PreorderAll(decode, wrapped, depth + 1) + rest
    requires forall i | 0 <= i < |items| :: items[i].0 in seen <==> items[i].0 in PRIORITY
    ensures Pending(decode, stack') == PreorderAll(decode, Others(items) + wrapped, depth + 1) + rest
  {
    stack' := stack;
    var i := |items|;
    assert [] + wrapped == wrapped;
    while i > 0
      invariant 0 <= i <= |items|
      invariant Pending(decode, stack') == PreorderAll(decode, Others(items[i..]) + wrapped, depth + 1) + rest
    {
      i := i - 1;
      var (key, child) := items[i];
      OthersFrom(items, i, wrapped);
      if key !in seen {
        PushFront(decode, stack', child, Others(items[i + 1..]) + wrapped, depth + 1, rest);
        stack' := stack' + [(child, depth + 1)];
      }
    }
  }

  /** One more item in front, and whether it is a child of its own. */
  lemma {:induction false} OthersFrom(items: seq<(string, Value)>, i: nat, wrapped: seq<Value>)
    requires i < |items|
    ensures Get(items, items[i].0).Some?
    ensures Others(items[i..]) + wrapped ==
            if items[i].0 in PRIORITY then Others(items[i + 1..]) + wrapped
            else [items[i].1] + (Others(items[i + 1..]) + wrapped)
  {
    ItemIsFound(items, i);
    assert items[i..][0] == items[i] && items[i..][1..] == items[i + 1..];
  }

  lemma {:induction false} ItemIsFound(items: seq<(string, Value)>, i: nat)
    requires i < |items|
    ensures Get(items, items[i].0).Some?
  {
    if items[0].0 != items[i].0 {
      ItemIsFound(items[1..], i - 1);
    }
  }

  method ExtractVisualization(decode: Value -> Value, render: Value -> string, value: Value)
    returns (r: Option<Descriptor>)
    ensures r == Extracted(decode, render, value)
  {
    var stack: seq<(Value, nat)> := [(decode(value), 0)];
    var visited := 0;
    PendingPush(decode, [], decode(value), 0);
    assert [] + stack == stack;
    assert Pending(decode, stack) == Preorder(decode, decode(value), 0) + [] == Preorder(decode, decode(value), 0);
    while stack != [] && visited < MAX_VISITS
      invariant visited <= MAX_VISITS
      invariant First(render, Take(Pending(decode, stack), MAX_VISITS - visited)) == Extracted(decode, render, value)
      decreases MAX_VISITS - visited
    {
      var (top, depth) := stack[|stack| - 1];
      PendingPop(decode, stack);
      stack := stack[..|stack| - 1];
      visited := visited + 1;
      var current := decode(top);
      ghost var below := Below(decode, current, depth);
      FirstOfRest(render, current, below + Pending(decode, stack), MAX_VISITS - visited);
      var direct := Normalized(render, current);
      if direct.Some? {
        return direct;
      }
      if depth < MAX_DEPTH {
        stack := PushChildren(decode, stack, current, depth);
      } else {
        assert below + Pending(decode, stack) == Pending(decode, stack);
      }
    }
    r := None;
  }

  lemma {:induction false} FirstOfRest(render: Value -> string, v: Value, rest: seq<Value>, n: nat)
    ensures First(render, Take([v] + rest, n + 1))
            == if Normalized(render, v).Some? then Normalized(render, v) else First(render, Take(rest, n))
  {
    var t := Take([v] + rest, n + 1);
    assert t[0] == v && t[1..] == Take(rest, n);
  }

  // ----------------------------------------------------- wrappers come last

  lemma {:induction false} FirstConcat(render: Value -> string, a: seq<Value>, b: seq<Value>)
    ensures First(render, a + b) == if First(render, a).Some? then First(render, a) else First(render, b)
  {
    if a == [] {
      assert a + b == b;
    } else {
      TailOfConcat(a, b);
      FirstConcat(render, a[1..], b);
    }
  }

  /** What is left of a budget of `n` after `used`. */
  function Left(n: nat, used: nat): nat {
    if used < n then n - used else 0
  }

  lemma {:induction false} TakeConcat(a: seq<Value>, b: seq<Value>, n: nat)
    ensures Take(a + b, n) == Take(a, n) + Take(b, Left(n, |a|))
  {
  }

  lemma {:induction false} PreorderAllConcat(decode: Value -> Value, a: seq<Value>, b: seq<Value>, depth: nat)
    ensures PreorderAll(decode, a + b, depth) == PreorderAll(decode, a, depth) + PreorderAll(decode, b, depth)
    decreases |a|
  {
    if a == [] {
      assert a + b == b;
    } else {
      TailOfConcat(a, b);
      PreorderAllConcat(decode, a[1..], b, depth);
      AppendAssoc(Preorder(decode, a[0], depth), PreorderAll(decode, a[1..], depth), PreorderAll(decode, b, depth));
    }
  }

  /** The nodes below the other keys of a dictionary at the root. */
  function OtherNodes(decode: Value -> Value, items: seq<(string, Value)>): seq<Value> {
    PreorderAll(decode, Others(items), 1)
  }

  /** The nodes below its wrapper keys. */
  function WrapperNodes(decode: Value -> Value, items: seq<(string, Value)>): seq<Value> {
    PreorderAll(decode, Wrapped(items, PRIORITY), 1)
  }

  lemma {:induction false} RootNodes(decode: Value -> Value, value: Value, items: seq<(string, Value)>)
    requires decode(decode(value)) == Dict(items)
    ensures Preorder(decode, decode(value), 0)
            == [Dict(items)] + (OtherNodes(decode, items) + WrapperNodes(decode, items))
  {
    PreorderAllConcat(decode, Others(items), Wrapped(items, PRIORITY), 1);
  }

  /** Although wrapper keys are meant to be visited first: in any dictionary that is no
      descriptor itself, the search goes through everything below the other keys, and
      through what is below the wrapper keys only with the budget that is left. */
  lemma {:induction false} OtherKeysWin(decode: Value -> Value, render: Value -> string, value: Value,
                                        items: seq<(string, Value)>)
    requires decode(decode(value)) == Dict(items) && Normalized(render, Dict(items)).None?
    ensures var others, wrapped := OtherNodes(decode, items), WrapperNodes(decode, items);
            var found := First(render, Take(others, MAX_VISITS - 1));
            Extracted(decode, render, value)
            == if found.Some? then found else First(render, Take(wrapped, Left(MAX_VISITS - 1, |others|)))
  {
    var others, wrapped := OtherNodes(decode, items), WrapperNodes(decode, items);
    RootNodes(decode, value, items);
    FirstOfRest(render, Dict(items), others + wrapped, MAX_VISITS - 1);
    TakeConcat(others, wrapped, MAX_VISITS - 1);
    FirstConcat(render, Take(others, MAX_VISITS - 1), Take(wrapped, Left(MAX_VISITS - 1, |others|)));
  }

  /** The search stops at a node behind the first `n` ones. */
  ghost predicate StopsBehind(decode: Value -> Value, render: Value -> string, value: Value, n: nat) {
    exists i :: i > n && IsFirst(render, Take(Preorder(decode, decode(value), 0), MAX_VISITS), i)
  }

  /** No hit in `others` within the budget, and one in `wrapped` within its rest. */
  ghost predicate OnlyWrapped(hit: Value -> bool, others: seq<Value>, wrapped: seq<Value>, budget: nat) {
    && (forall i | 0 <= i < |others| && i < budget :: !hit(others[i]))
    && exists i :: 0 <= i < |wrapped| && i < Left(budget, |others|) && hit(wrapped[i])
  }

  /** The first hit. */
  ghost predicate FirstHit(hit: Value -> bool, nodes: seq<Value>, i: int) {
    0 <= i < |nodes| && hit(nodes[i]) && forall j | 0 <= j < i :: !hit(nodes[j])
  }

  /** It stops below a wrapper key exactly if no descriptor is below another key within the
      budget and one is below a wrapper key within what those have left of it. */
  lemma {:induction false} WrapperIsFoundIff(decode: Value -> Value, render: Value -> string, value: Value,
                                             items: seq<(string, Value)>)
    requires decode(decode(value)) == Dict(items) && Normalized(render, Dict(items)).None?
    ensures var others, wrapped := OtherNodes(decode, items), WrapperNodes(decode, items);
            StopsBehind(decode, render, value, |others|)
            <==> OnlyWrapped(v => Normalized(render, v).Some?, others, wrapped, MAX_VISITS - 1)
  {
    var hit := v => Normalized(render, v).Some?;
    RootNodes(decode, value, items);
    FirstBehindIff(hit, Dict(items), OtherNodes(decode, items), WrapperNodes(decode, items), MAX_VISITS - 1);
    var nodes := Take(Preorder(decode, decode(value), 0), MAX_VISITS);
    assert forall i :: IsFirst(render, nodes, i) <==> FirstHit(hit, nodes, i);
  }

  lemma {:induction false} FirstBehindIff(hit: Value -> bool, root: Value, others: seq<Value>,
                                          wrapped: seq<Value>, budget: nat)
    requires !hit(root)
    ensures var nodes := Take([root] + (others + wrapped), budget + 1);
            (exists i :: i > |others| && FirstHit(hit, nodes, i)) <==> OnlyWrapped(hit, others, wrapped, budget)
  {
    var nodes := Take([root] + (others + wrapped), budget + 1);
    TakenNodes(root, others, wrapped, budget);
    if i :| i > |others| && FirstHit(hit, nodes, i) {
      BehindIsOnly(hit, root, others, wrapped, budget, nodes, i);
    }
    if OnlyWrapped(hit, others, wrapped, budget) {
      var k := OnlyIsBehind(hit, root, others, wrapped, budget, nodes);
    }
  }

  /** The visited nodes by their places. */
  ghost predicate NodesAre(root: Value, others: seq<Value>, wrapped: seq<Value>, budget: nat, nodes: seq<Value>) {
    && |nodes| == 1 + (if budget < |others| + |wrapped| then budget else |others| + |wrapped|)
    && nodes[0] == root
    && forall k | 0 < k < |nodes| :: nodes[k] == if k <= |others| then others[k - 1] else wrapped[k - 1 - |others|]
  }

  lemma {:induction false} TakenNodes(root: Value, others: seq<Value>, wrapped: seq<Value>, budget: nat)
    ensures NodesAre(root, others, wrapped, budget, Take([root] + (others + wrapped), budget + 1))
  {
  }

  lemma {:induction false} BehindIsOnly(hit: Value -> bool, root: Value, others: seq<Value>, wrapped: seq<Value>,
                                        budget: nat, nodes: seq<Value>, i: nat)
    requires NodesAre(root, others, wrapped, budget, nodes) && i > |others| && FirstHit(hit, nodes, i)
    ensures OnlyWrapped(hit, others, wrapped, budget)
  {
    forall j | 0 <= j < |others| && j < budget
      ensures !hit(others[j])
    {
      assert nodes[j + 1] == others[j];
    }
    assert hit(wrapped[i - 1 - |others|]);
  }

  lemma {:induction false} OnlyIsBehind(hit: Value -> bool, root: Value, others: seq<Value>, wrapped: seq<Value>,
                                        budget: nat, nodes: seq<Value>) returns (k: int)
    requires NodesAre(root, others, wrapped, budget, nodes) && !hit(root)
    requires OnlyWrapped(hit, others, wrapped, budget)
    ensures k > |others| && FirstHit(hit, nodes, k)
  {
    NoneBefore(hit, root, others, wrapped, budget, nodes);
    var i := OneBehind(hit, root, others, wrapped, budget, nodes);
    k := SomeFirst(hit, nodes, i);
  }

  lemma {:induction false} NoneBefore(hit: Value -> bool, root: Value, others: seq<Value>, wrapped: seq<Value>,
                                      budget: nat, nodes: seq<Value>)
    requires NodesAre(root, others, wrapped, budget, nodes) && !hit(root)
    requires OnlyWrapped(hit, others, wrapped, budget)
    ensures forall k | 0 <= k <= |others| && k < |nodes| :: !hit(nodes[k])
  {
    forall k | 0 < k <= |others| && k < |nodes|
      ensures !hit(nodes[k])
    {
      assert nodes[k] == others[k - 1];
    }
  }

  lemma {:induction false} OneBehind(hit: Value -> bool, root: Value, others: seq<Value>, wrapped: seq<Value>,
                                     budget: nat, nodes: seq<Value>) returns (k: nat)
    requires NodesAre(root, others, wrapped, budget, nodes) && OnlyWrapped(hit, others, wrapped, budget)
    ensures k < |nodes| && hit(nodes[k])
  {
    var i :| 0 <= i < |wrapped| && i < Left(budget, |others|) && hit(wrapped[i]);
    k := 1 + |others| + i;
    NodeBehind(root, others, wrapped, budget, nodes, i);
  }

  lemma {:induction false} NodeBehind(root: Value, others: seq<Value>, wrapped: seq<Value>, budget: nat,
                                      nodes: seq<Value>, i: nat)
    requires NodesAre(root, others, wrapped, budget, nodes) && i < |wrapped| && i < Left(budget, |others|)
    ensures 1 + |others| + i < |nodes| && nodes[1 + |others| + i] == wrapped[i]
  {
  }

  lemma {:induction false} SomeFirst(hit: Value -> bool, nodes: seq<Value>, i: nat) returns (k: int)
    requires i < |nodes| && hit(nodes[i])
    ensures FirstHit(hit, nodes, k) && k <= i
  {
    if j: nat :| j < i && hit(nodes[j]) {
      k := SomeFirst(hit, nodes, j);
    } else {
      k := i;
    }
  }
}
