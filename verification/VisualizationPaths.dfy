/** The nodes the search visits, by their paths from the root: which ones, in which order,
    and which one the search returns. */
module VisualizationPaths {
  import opened Text
  import opened Visualization

  /** From a node to a child: an element of a list, an item of a dictionary whose key is no
      wrapper key, or a wrapper key by its rank. */
  datatype Step = Elem(i: nat) | Item(i: nat) | Wrapper(i: nat)

  type Path = seq<Step>

  /** Where each step leads from a node. */
  type Ways = Step -> Option<Value>

  /** The child a step leads to from a decoded node. */
  function Child(v: Value, s: Step): Option<Value> {
    match s
    case Elem(i) => if v.List? && i < |v.elems| then Some(v.elems[i]) else None
    case Item(i) => if v.Dict? && i < |v.items| && v.items[i].0 !in PRIORITY then Some(v.items[i].1) else None
    case Wrapper(i) => if v.Dict? && i < |PRIORITY| then Get(v.items, PRIORITY[i]) else None
  }

  /** The decoded node at the end of a path, if the path leads anywhere. */
  function NodeAt(decode: Value -> Value, v: Value, path: Path): Option<Value>
    decreases |path|
  {
    if path == [] then Some(decode(v))
    else match Child(decode(v), path[0])
         case None => None
         case Some(child) => NodeAt(decode, child, path[1..])
  }

  /** Other keys come before wrapper keys. */
  predicate StepBefore(a: Step, b: Step) {
    match (a, b)
    case (Elem(i), Elem(j)) => i < j
    case (Item(i), Item(j)) => i < j
    case (Wrapper(i), Wrapper(j)) => i < j
    case (Item(_), Wrapper(_)) => true
    case _ => false
  }

  /** The order of visits: a node before what is below it, and siblings by their step. */
  predicate PathBefore(a: Path, b: Path)
    decreases |a|
  {
    && b != []
    && (a == [] || StepBefore(a[0], b[0]) || (a[0] == b[0] && PathBefore(a[1..], b[1..])))
  }

  /** The path leads somewhere in at most `limit` steps. */
  predicate Reaches(decode: Value -> Value, v: Value, limit: nat, path: Path) {
    |path| <= limit && NodeAt(decode, v, path).Some?
  }

  /** All paths of at most `limit` steps, in visiting order. */
  ghost predicate Lists(decode: Value -> Value, v: Value, limit: nat, paths: seq<Path>) {
    && (forall path :: path in paths <==> Reaches(decode, v, limit, path))
    && forall i, j | 0 <= i < j < |paths| :: PathBefore(paths[i], paths[j])
  }

  /** The nodes stand at the ends of the paths. */
  ghost predicate AtPaths(decode: Value -> Value, v: Value, paths: seq<Path>, nodes: seq<Value>) {
    |nodes| == |paths| && forall i | 0 <= i < |paths| :: NodeAt(decode, v, paths[i]) == Some(nodes[i])
  }

  /** The children of a decoded node, as a function of the step. */
  function Kids(v: Value): Ways {
    (s: Step) => Child(v, s)
  }

  // --------------------------------------------------- the children by their steps

  /** `steps` are the steps that lead to the children `vs`, in order. */
  ghost predicate StepsTo(kids: Ways, steps: seq<Step>, vs: seq<Value>) {
    && |steps| == |vs|
    && (forall k | 0 <= k < |steps| :: kids(steps[k]) == Some(vs[k]))
    && forall k, l | 0 <= k < l < |steps| :: StepBefore(steps[k], steps[l])
  }

  function ItemSteps(items: seq<(string, Value)>, from: nat): seq<Step>
    requires from <= |items|
    decreases |items| - from
  {
    if from == |items| then []
    else (if items[from].0 in PRIORITY then [] else [Item(from)]) + ItemSteps(items, from + 1)
  }

  lemma {:induction false} ItemStepsAre(items: seq<(string, Value)>, from: nat)
    requires from <= |items|
    ensures forall s | s in ItemSteps(items, from) :: s.Item? && from <= s.i && Child(Dict(items), s).Some?
    ensures forall s: Step | s.Item? && from <= s.i && Child(Dict(items), s).Some? :: s in ItemSteps(items, from)
    decreases |items| - from
  {
    if from < |items| {
      ItemStepsAre(items, from + 1);
      forall s: Step | s.Item? && from <= s.i && Child(Dict(items), s).Some?
        ensures s in ItemSteps(items, from)
      {
        if s.i == from {
          assert s == Item(from);
        }
      }
    }
  }

  lemma {:induction false} ItemStepsLead(items: seq<(string, Value)>, from: nat)
    requires from <= |items|
    ensures StepsTo(Kids(Dict(items)), ItemSteps(items, from), Others(items[from..]))
    decreases |items| - from
  {
    if from < |items| {
      ItemStepsLead(items, from + 1);
      ItemStepsAre(items, from + 1);
      assert items[from..][0] == items[from] && items[from..][1..] == items[from + 1..];
      if items[from].0 !in PRIORITY {
        StepInFront(Kids(Dict(items)), Item(from), items[from].1, ItemSteps(items, from + 1),
                    Others(items[from + 1..]));
      }
    }
  }

  lemma {:induction false} StepInFront(kids: Ways, s: Step, child: Value, steps: seq<Step>, vs: seq<Value>)
    requires StepsTo(kids, steps, vs) && kids(s) == Some(child) && forall t | t in steps :: StepBefore(s, t)
    ensures StepsTo(kids, [s] + steps, [child] + vs)
  {
  }

  function WrapperSteps(items: seq<(string, Value)>, from: nat): seq<Step>
    requires from <= |PRIORITY|
    decreases |PRIORITY| - from
  {
    if from == |PRIORITY| then []
    else (if Get(items, PRIORITY[from]).Some? then [Wrapper(from)] else []) + WrapperSteps(items, from + 1)
  }

  lemma {:induction false} WrapperStepsAre(items: seq<(string, Value)>, from: nat)
    requires from <= |PRIORITY|
    ensures forall s | s in WrapperSteps(items, from) :: s.Wrapper? && from <= s.i && Child(Dict(items), s).Some?
    ensures forall s: Step | s.Wrapper? && from <= s.i && Child(Dict(items), s).Some? :: s in WrapperSteps(items, from)
    decreases |PRIORITY| - from
  {
    if from < |PRIORITY| {
      WrapperStepsAre(items, from + 1);
      forall s: Step | s.Wrapper? && from <= s.i && Child(Dict(items), s).Some?
        ensures s in WrapperSteps(items, from)
      {
        if s.i == from {
          assert s == Wrapper(from);
        }
      }
    }
  }

  lemma {:induction false} WrapperStepsLead(items: seq<(string, Value)>, from: nat)
    requires from <= |PRIORITY|
    ensures StepsTo(Kids(Dict(items)), WrapperSteps(items, from), Wrapped(items, PRIORITY[from..]))
    decreases |PRIORITY| - from
  {
    if from < |PRIORITY| {
      WrapperStepsLead(items, from + 1);
      WrapperStepsAre(items, from + 1);
      var keys := PRIORITY[from..];
      assert keys[0] == PRIORITY[from] && keys[1..] == PRIORITY[from + 1..];
      var found := Get(items, PRIORITY[from]);
      if found.Some? {
        StepInFront(Kids(Dict(items)), Wrapper(from), found.value, WrapperSteps(items, from + 1),
                    Wrapped(items, keys[1..]));
      }
    }
  }

  function ElemSteps(n: nat): (r: seq<Step>)
    ensures |r| == n && forall i | 0 <= i < n :: r[i] == Elem(i)
  {
    seq(n, i requires 0 <= i < n => Elem(i))
  }

  function Steps(v: Value): seq<Step> {
    match v
    case Dict(items) => ItemSteps(items, 0) + WrapperSteps(items, 0)
    case List(elems) => ElemSteps(|elems|)
    case _ => []
  }

  ghost predicate AllSteps(kids: Ways, steps: seq<Step>) {
    forall s :: s in steps <==> kids(s).Some?
  }

  lemma {:induction false} StepsConcat(kids: Ways, a: seq<Step>, vs: seq<Value>, b: seq<Step>, ws: seq<Value>)
    requires StepsTo(kids, a, vs) && StepsTo(kids, b, ws)
    requires forall s, t | s in a && t in b :: StepBefore(s, t)
    ensures StepsTo(kids, a + b, vs + ws)
  {
  }

  lemma {:induction false} DictSteps(items: seq<(string, Value)>)
    ensures StepsTo(Kids(Dict(items)), Steps(Dict(items)), Children(Dict(items)))
  {
    ItemStepsLead(items, 0);
    WrapperStepsLead(items, 0);
    ItemStepsAre(items, 0);
    WrapperStepsAre(items, 0);
    assert items[0..] == items && PRIORITY[0..] == PRIORITY;
    StepsConcat(Kids(Dict(items)), ItemSteps(items, 0), Others(items),
                WrapperSteps(items, 0), Wrapped(items, PRIORITY));
  }

  lemma {:induction false} ChildOfDict(items: seq<(string, Value)>, s: Step)
    ensures Child(Dict(items), s).Some? ==> s.Item? || s.Wrapper?
  {
  }

  lemma {:induction false} DictAllSteps(items: seq<(string, Value)>)
    ensures AllSteps(Kids(Dict(items)), Steps(Dict(items)))
  {
    ItemStepsAre(items, 0);
    WrapperStepsAre(items, 0);
    forall s
      ensures s in ItemSteps(items, 0) + WrapperSteps(items, 0) <==> Child(Dict(items), s).Some?
    {
      ChildOfDict(items, s);
    }
  }

  lemma {:induction false} StepsLead(v: Value) returns (steps: seq<Step>)
    ensures StepsTo(Kids(v), steps, Children(v)) && AllSteps(Kids(v), steps)
  {
    steps := Steps(v);
    match v
    case Dict(items) =>
      DictSteps(items);
      DictAllSteps(items);
    case List(elems) =>
      ListSteps(elems);
    case _ =>
  }

  lemma {:induction false} ListSteps(elems: seq<Value>)
    ensures StepsTo(Kids(List(elems)), ElemSteps(|elems|), elems) && AllSteps(Kids(List(elems)), ElemSteps(|elems|))
  {
    forall s | Child(List(elems), s).Some?
      ensures s in ElemSteps(|elems|)
    {
      assert ElemSteps(|elems|)[s.i] == s;
    }
  }

  // ------------------------------------------------------------- the paths, listed

  /** The node at the end of a path that starts at a decoded node. */
  function NodeBelow(decode: Value -> Value, kids: Ways, path: Path): Option<Value>
    requires path != []
  {
    match kids(path[0])
    case None => None
    case Some(child) => NodeAt(decode, child, path[1..])
  }

  function Prefixed(s: Step, paths: seq<Path>): (r: seq<Path>)
    ensures |r| == |paths| && forall i | 0 <= i < |r| :: r[i] == [s] + paths[i]
  {
    seq(|paths|, i requires 0 <= i < |paths| => [s] + paths[i])
  }

  lemma {:induction false} InPrefixed(s: Step, paths: seq<Path>, path: Path)
    ensures path in Prefixed(s, paths) <==> path != [] && path[0] == s && path[1..] in paths
  {
    var r := Prefixed(s, paths);
    if path in r {
      var i :| 0 <= i < |r| && r[i] == path;
      assert path[1..] == paths[i];
    }
    if path != [] && path[0] == s && path[1..] in paths {
      var i :| 0 <= i < |paths| && paths[i] == path[1..];
      assert r[i] == path;
    }
  }

  /** All paths of at most `limit` steps below a decoded node that take one of `steps`
      first, in visiting order, and the nodes at their ends. */
  ghost predicate ListsBelow(decode: Value -> Value, kids: Ways, steps: seq<Step>, limit: nat, paths: seq<Path>) {
    && (forall path :: path in paths <==>
          path != [] && path[0] in steps && |path| <= limit && NodeBelow(decode, kids, path).Some?)
    && forall i, j | 0 <= i < j < |paths| :: PathBefore(paths[i], paths[j])
  }

  ghost predicate AtBelow(decode: Value -> Value, kids: Ways, paths: seq<Path>, nodes: seq<Value>) {
    |nodes| == |paths|
    && forall i | 0 <= i < |paths| :: paths[i] != [] && NodeBelow(decode, kids, paths[i]) == Some(nodes[i])
  }

  /** All paths of at most `limit` steps below a decoded node. */
  ghost predicate ListsAllBelow(decode: Value -> Value, kids: Ways, limit: nat, paths: seq<Path>) {
    && (forall path :: path in paths <==> path != [] && |path| <= limit && NodeBelow(decode, kids, path).Some?)
    && forall i, j | 0 <= i < j < |paths| :: PathBefore(paths[i], paths[j])
  }

  lemma {:induction false} PathsOf(decode: Value -> Value, v: Value, depth: nat) returns (paths: seq<Path>)
    requires depth <= MAX_DEPTH
    ensures Lists(decode, v, MAX_DEPTH - depth, paths)
    ensures AtPaths(decode, v, paths, Preorder(decode, v, depth))
    decreases MAX_DEPTH - depth, 1
  {
    if depth == MAX_DEPTH {
      paths := [[]];
      RootAlone(decode, v);
    } else {
      var below := PathsBelow(decode, decode(v), depth);
      paths := [[]] + below;
      RootLists(decode, v, MAX_DEPTH - depth, below);
      RootNodesAt(decode, v, below, PreorderAll(decode, Children(decode(v)), depth + 1));
    }
  }

  lemma {:induction false} PathsBelow(decode: Value -> Value, d: Value, depth: nat) returns (paths: seq<Path>)
    requires depth < MAX_DEPTH
    ensures ListsAllBelow(decode, Kids(d), MAX_DEPTH - depth, paths)
    ensures AtBelow(decode, Kids(d), paths, PreorderAll(decode, Children(d), depth + 1))
    decreases MAX_DEPTH - depth, 0, 1
  {
    var steps := StepsLead(d);
    paths := PathsAlong(decode, Kids(d), depth, steps, Children(d));
  }

  lemma {:induction false} PathsAlong(decode: Value -> Value, kids: Ways, depth: nat, steps: seq<Step>, vs: seq<Value>)
    returns (paths: seq<Path>)
    requires depth < MAX_DEPTH && StepsTo(kids, steps, vs) && AllSteps(kids, steps)
    ensures ListsAllBelow(decode, kids, MAX_DEPTH - depth, paths)
    ensures AtBelow(decode, kids, paths, PreorderAll(decode, vs, depth + 1))
    decreases MAX_DEPTH - depth, 0, 0
  {
    paths := PathsOfAll(decode, kids, steps, vs, depth + 1);
    AllBelow(decode, kids, steps, MAX_DEPTH - depth, paths);
  }

  lemma {:induction false} AllBelow(decode: Value -> Value, kids: Ways, steps: seq<Step>, limit: nat, paths: seq<Path>)
    requires AllSteps(kids, steps) && ListsBelow(decode, kids, steps, limit, paths)
    ensures ListsAllBelow(decode, kids, limit, paths)
  {
    forall path
      ensures path in paths <==> path != [] && |path| <= limit && NodeBelow(decode, kids, path).Some?
    {
      if path != [] {
        assert path[0] in steps <==> kids(path[0]).Some?;
      }
    }
  }

  lemma {:induction false} RootAlone(decode: Value -> Value, v: Value)
    ensures Lists(decode, v, 0, [[]])
    ensures AtPaths(decode, v, [[]], Preorder(decode, v, MAX_DEPTH))
  {
  }

  lemma {:induction false} RootLists(decode: Value -> Value, v: Value, limit: nat, below: seq<Path>)
    requires ListsAllBelow(decode, Kids(decode(v)), limit, below)
    ensures Lists(decode, v, limit, [[]] + below)
  {
    var paths := [[]] + below;
    forall path
      ensures path in paths <==> Reaches(decode, v, limit, path)
    {
      if path != [] {
        assert path in paths <==> path in below;
        assert NodeAt(decode, v, path) == NodeBelow(decode, Kids(decode(v)), path);
      }
    }
    RootIsFirst(below);
  }

  lemma {:induction false} RootIsFirst(below: seq<Path>)
    requires forall i, j | 0 <= i < j < |below| :: PathBefore(below[i], below[j])
    requires forall i | 0 <= i < |below| :: below[i] != []
    ensures var paths := [[]] + below;
            forall i, j | 0 <= i < j < |paths| :: PathBefore(paths[i], paths[j])
  {
    var paths: seq<Path> := [[]] + below;
    assert paths[0] == [] && forall i | 0 < i < |paths| :: paths[i] == below[i - 1];
  }

  lemma {:induction false} RootNodesAt(decode: Value -> Value, v: Value, below: seq<Path>, nodes: seq<Value>)
    requires AtBelow(decode, Kids(decode(v)), below, nodes)
    ensures AtPaths(decode, v, [[]] + below, [decode(v)] + nodes)
  {
    var paths: seq<Path> := [[]] + below;
    forall i | 0 <= i < |paths|
      ensures NodeAt(decode, v, paths[i]) == Some(([decode(v)] + nodes)[i])
    {
      if i > 0 {
        assert paths[i] == below[i - 1];
        assert NodeAt(decode, v, paths[i]) == NodeBelow(decode, Kids(decode(v)), below[i - 1]);
      }
    }
  }

  lemma {:induction false} PathsOfAll(decode: Value -> Value, kids: Ways, steps: seq<Step>, vs: seq<Value>, depth: nat)
    returns (paths: seq<Path>)
    requires depth <= MAX_DEPTH && StepsTo(kids, steps, vs)
    ensures ListsBelow(decode, kids, steps, MAX_DEPTH - depth + 1, paths)
    ensures AtBelow(decode, kids, paths, PreorderAll(decode, vs, depth))
    decreases MAX_DEPTH - depth, |vs| + 1
  {
    paths := [];
    if vs != [] {
      StepsHead(kids, steps, vs);
      var first := PathsOf(decode, vs[0], depth);
      var rest := PathsOfAll(decode, kids, steps[1..], vs[1..], depth);
      paths := Prefixed(steps[0], first) + rest;
      PathsJoin(decode, kids, steps, vs, depth, first, rest);
    }
  }

  lemma {:induction false} StepsHead(kids: Ways, steps: seq<Step>, vs: seq<Value>)
    requires StepsTo(kids, steps, vs) && vs != []
    ensures steps == [steps[0]] + steps[1..] && kids(steps[0]) == Some(vs[0])
    ensures StepsTo(kids, steps[1..], vs[1..])
    ensures forall k | 0 <= k < |steps[1..]| :: StepBefore(steps[0], steps[1..][k])
  {
  }

  lemma {:induction false} PathsJoin(decode: Value -> Value, kids: Ways, steps: seq<Step>, vs: seq<Value>, depth: nat,
                                     first: seq<Path>, rest: seq<Path>)
    requires depth <= MAX_DEPTH && vs != [] && StepsTo(kids, steps, vs)
    requires Lists(decode, vs[0], MAX_DEPTH - depth, first)
    requires AtPaths(decode, vs[0], first, Preorder(decode, vs[0], depth))
    requires ListsBelow(decode, kids, steps[1..], MAX_DEPTH - depth + 1, rest)
    requires AtBelow(decode, kids, rest, PreorderAll(decode, vs[1..], depth))
    ensures ListsBelow(decode, kids, steps, MAX_DEPTH - depth + 1, Prefixed(steps[0], first) + rest)
    ensures AtBelow(decode, kids, Prefixed(steps[0], first) + rest, PreorderAll(decode, vs, depth))
  {
    StepsHead(kids, steps, vs);
    JoinedLists(decode, kids, steps[0], vs[0], steps[1..], MAX_DEPTH - depth + 1, first, rest);
    JoinedNodes(decode, kids, steps[0], vs[0], first, Preorder(decode, vs[0], depth), rest,
                PreorderAll(decode, vs[1..], depth));
  }

  lemma {:induction false} JoinedLists(decode: Value -> Value, kids: Ways, s: Step, v: Value, others: seq<Step>,
                                       limit: nat, first: seq<Path>, rest: seq<Path>)
    requires limit > 0 && kids(s) == Some(v) && forall k | 0 <= k < |others| :: StepBefore(s, others[k])
    requires Lists(decode, v, limit - 1, first) && ListsBelow(decode, kids, others, limit, rest)
    ensures ListsBelow(decode, kids, [s] + others, limit, Prefixed(s, first) + rest)
  {
    var lead, steps := Prefixed(s, first), [s] + others;
    forall path
      ensures path in lead + rest <==>
              path != [] && path[0] in steps && |path| <= limit && NodeBelow(decode, kids, path).Some?
    {
      InPrefixed(s, first, path);
      if path != [] {
        assert path[0] in steps <==> path[0] == s || path[0] in others;
        assert path[1..] in first <==> Reaches(decode, v, limit - 1, path[1..]);
      }
    }
    forall i | 0 <= i < |rest|
      ensures rest[i] != [] && rest[i][0] in others
    {
      assert rest[i] in rest;
    }
    JoinedOrder(s, first, others, rest, steps);
  }

  lemma {:induction false} JoinedNodes(decode: Value -> Value, kids: Ways, s: Step, v: Value, first: seq<Path>,
                                       a: seq<Value>, rest: seq<Path>, b: seq<Value>)
    requires kids(s) == Some(v) && AtPaths(decode, v, first, a) && AtBelow(decode, kids, rest, b)
    ensures AtBelow(decode, kids, Prefixed(s, first) + rest, a + b)
  {
    var lead := Prefixed(s, first);
    forall i | 0 <= i < |lead|
      ensures lead[i] != [] && NodeBelow(decode, kids, lead[i]) == Some(a[i])
    {
      assert lead[i][1..] == first[i];
    }
  }

  lemma {:induction false} JoinedOrder(s: Step, first: seq<Path>, others: seq<Step>, rest: seq<Path>, steps: seq<Step>)
    requires steps == [s] + others && forall k | 0 <= k < |others| :: StepBefore(s, others[k])
    requires forall i, j | 0 <= i < j < |first| :: PathBefore(first[i], first[j])
    requires forall i, j | 0 <= i < j < |rest| :: PathBefore(rest[i], rest[j])
    requires forall i | 0 <= i < |rest| :: rest[i] != [] && rest[i][0] in others
    ensures var all := Prefixed(s, first) + rest;
            forall i, j | 0 <= i < j < |all| :: PathBefore(all[i], all[j])
  {
    var all := Prefixed(s, first) + rest;
    forall i, j | 0 <= i < j < |all|
      ensures PathBefore(all[i], all[j])
    {
      if j < |first| {
        assert all[i][1..] == first[i] && all[j][1..] == first[j];
      } else if i < |first| {
        assert all[j] == rest[j - |first|];
      } else {
        assert all[i] == rest[i - |first|] && all[j] == rest[j - |first|];
      }
    }
  }

  // ---------------------------------------------------------------- the theorems

  /** The search visits the nodes at the ends of all paths of at most eight steps, each
      once: parents first, then elements and other items in order, then wrapper keys by
      their rank. */
  lemma {:induction false} VisitsArePaths(decode: Value -> Value, v: Value) returns (paths: seq<Path>)
    ensures Lists(decode, v, MAX_DEPTH, paths)
    ensures AtPaths(decode, v, paths, Preorder(decode, v, 0))
  {
    paths := PathsOf(decode, v, 0);
  }

  /** The descriptor at the end of a path. */
  function DescriptorAt(decode: Value -> Value, render: Value -> string, v: Value, path: Path): Option<Descriptor> {
    match NodeAt(decode, v, path)
    case None => None
    case Some(node) => Normalized(render, node)
  }

  /** No descriptor is at the first `n` paths. */
  ghost predicate NoneAmong(decode: Value -> Value, render: Value -> string, v: Value, paths: seq<Path>, n: int) {
    forall i | 0 <= i < |paths| && i < n :: DescriptorAt(decode, render, v, paths[i]).None?
  }

  lemma {:induction false} FirstAtPaths(decode: Value -> Value, render: Value -> string, v: Value, paths: seq<Path>,
                                        nodes: seq<Value>, n: nat) returns (k: nat)
    requires AtPaths(decode, v, paths, nodes)
    ensures var r := First(render, Take(nodes, n));
            if r.None? then NoneAmong(decode, render, v, paths, n)
            else && k < |paths| && k < n && DescriptorAt(decode, render, v, paths[k]) == r
                 && NoneAmong(decode, render, v, paths, k)
  {
    var taken := Take(nodes, n);
    FirstIsEarliest(render, taken);
    forall i | 0 <= i < |paths| && i < n
      ensures DescriptorAt(decode, render, v, paths[i]) == Normalized(render, taken[i])
    {
      DescriptorAtEnd(decode, render, v, paths[i], nodes[i]);
    }
    k := 0;
    if First(render, taken).Some? {
      k :| IsFirst(render, taken, k) && First(render, taken) == Normalized(render, taken[k]);
    }
  }

  lemma {:induction false} DescriptorAtEnd(decode: Value -> Value, render: Value -> string, v: Value, path: Path,
                                           node: Value)
    requires NodeAt(decode, v, path) == Some(node)
    ensures DescriptorAt(decode, render, v, path) == Normalized(render, node)
  {
  }

  /** The result is the descriptor at the earliest path that has one, among the first
      thousand; and None only if none of these has one. */
  lemma {:induction false} ExtractedIsFirstPath(decode: Value -> Value, render: Value -> string, value: Value)
    returns (paths: seq<Path>, k: nat)
    ensures Lists(decode, decode(value), MAX_DEPTH, paths)
    ensures var r, root := Extracted(decode, render, value), decode(value);
            if r.None? then NoneAmong(decode, render, root, paths, MAX_VISITS)
            else && k < |paths| && k < MAX_VISITS && DescriptorAt(decode, render, root, paths[k]) == r
                 && NoneAmong(decode, render, root, paths, k)
  {
    paths := VisitsArePaths(decode, decode(value));
    k := FirstAtPaths(decode, render, decode(value), paths, Preorder(decode, decode(value), 0), MAX_VISITS);
  }

  /** A descriptor that is the first element of a list is found. */
  lemma {:induction false} FirstElementIsFound(decode: Value -> Value, render: Value -> string, value: Value,
                                               elems: seq<Value>)
    requires decode(decode(value)) == List(elems) && elems != [] && Normalized(render, decode(elems[0])).Some?
    ensures Extracted(decode, render, value) == Normalized(render, decode(elems[0]))
  {
    var more := ListNodes(decode, decode(value), elems);
    FirstOfRest(render, List(elems), [decode(elems[0])] + more, MAX_VISITS - 1);
    FirstOfRest(render, decode(elems[0]), more, MAX_VISITS - 2);
  }

  lemma {:induction false} ListNodes(decode: Value -> Value, v: Value, elems: seq<Value>) returns (more: seq<Value>)
    requires decode(v) == List(elems) && elems != []
    ensures Preorder(decode, v, 0) == [List(elems)] + ([decode(elems[0])] + more)
  {
    more := Below(decode, decode(elems[0]), 1) + PreorderAll(decode, elems[1..], 1);
    assert PreorderAll(decode, elems, 1) == [decode(elems[0])] + more;
  }
}
