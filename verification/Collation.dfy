/** The collation buffer: deferred tool results with a cached manifest. The artifact id,
    the byte count and the delivered text of an entry are functions the buffer is given. */
module Collation {
  import opened Text

  datatype Entry = Entry(tool: string, args: string, result: string)

  datatype Row = Row(id: string, tool: string, args: string, bytes: nat)

  datatype Hooks = Hooks(id: Entry -> string, bytes: string -> nat, text: Entry -> string)

  function RowOf(k: Hooks, e: Entry): Row {
    Row(k.id(e), e.tool, e.args, k.bytes(e.result))
  }

  function Manifest(k: Hooks, entries: seq<Entry>): (rows: seq<Row>)
    ensures |rows| == |entries| && forall i | 0 <= i < |rows| :: rows[i] == RowOf(k, entries[i])
  {
    seq(|entries|, i requires 0 <= i < |entries| => RowOf(k, entries[i]))
  }

  /** The row names the tool, shows its arguments, and tells the size of the result. */
  ghost predicate Describes(k: Hooks, row: Row, e: Entry) {
    row.id == k.id(e) && row.tool == e.tool && row.args == e.args && row.bytes == k.bytes(e.result)
  }

  /** A request for all entries, or for those with the given ids. */
  datatype Want = Want(all: bool, ids: set<string>)

  predicate Wanted(k: Hooks, w: Want, e: Entry) {
    w.all || k.id(e) in w.ids
  }

  /** The entries that are (not) wanted, in order. */
  function Select(k: Hooks, entries: seq<Entry>, w: Want, inside: bool): seq<Entry> {
    if entries == [] then []
    else
      var n := |entries| - 1;
      Select(k, entries[..n], w, inside) + if Wanted(k, w, entries[n]) == inside then [entries[n]] else []
  }

  /** Each entry goes out under its id with its text, in order. */
  ghost predicate Delivers(k: Hooks, selected: seq<(string, string)>, entries: seq<Entry>) {
    && |selected| == |entries|
    && forall i | 0 <= i < |entries| :: selected[i].0 == k.id(entries[i]) && selected[i].1 == k.text(entries[i])
  }

  function Ids(k: Hooks, entries: seq<Entry>): (r: seq<string>)
    ensures |r| == |entries|
  {
    seq(|entries|, i requires 0 <= i < |entries| => k.id(entries[i]))
  }

  function ToSet(ids: seq<string>): set<string> {
    set x | x in ids
  }

  lemma {:induction false} MultisetSnoc(s: seq<Entry>, x: Entry)
    ensures multiset(s + [x]) == multiset(s) + multiset{x}
  {
  }

  lemma {:induction false} SelectSplits(k: Hooks, entries: seq<Entry>, w: Want)
    ensures multiset(entries) == multiset(Select(k, entries, w, true)) + multiset(Select(k, entries, w, false))
    ensures |Select(k, entries, w, true)| + |Select(k, entries, w, false)| == |entries|
    decreases |entries|
  {
    if entries != [] {
      var front, x := Unsnoc(entries);
      SelectSplits(k, front, w);
      SelectSnoc(k, front, x, w);
      SplitSnoc(front, x, Select(k, front, w, true), Select(k, front, w, false));
    }
  }

  lemma {:induction false} Unsnoc(entries: seq<Entry>) returns (front: seq<Entry>, x: Entry)
    requires entries != []
    ensures entries == front + [x] && |front| < |entries|
  {
    front, x := entries[..|entries| - 1], entries[|entries| - 1];
  }

  lemma {:induction false} SplitSnoc(all: seq<Entry>, x: Entry, yes: seq<Entry>, no: seq<Entry>)
    requires multiset(all) == multiset(yes) + multiset(no)
    ensures multiset(all + [x]) == multiset(yes + [x]) + multiset(no) == multiset(yes) + multiset(no + [x])
  {
    MultisetSnoc(all, x);
    MultisetSnoc(yes, x);
    MultisetSnoc(no, x);
  }

  lemma {:induction false} SelectSnoc(k: Hooks, front: seq<Entry>, x: Entry, w: Want)
    ensures Select(k, front + [x], w, true)
            == if Wanted(k, w, x) then Select(k, front, w, true) + [x] else Select(k, front, w, true)
    ensures Select(k, front + [x], w, false)
            == if Wanted(k, w, x) then Select(k, front, w, false) else Select(k, front, w, false) + [x]
  {
    assert (front + [x])[..|front|] == front;
  }

  /** After a flush or a discard no held entry was asked for, and all that left were. */
  lemma {:induction false} SelectIsExact(k: Hooks, entries: seq<Entry>, w: Want)
    ensures forall e | e in Select(k, entries, w, false) :: !Wanted(k, w, e)
    ensures forall e | e in Select(k, entries, w, true) :: Wanted(k, w, e)
  {
    if entries != [] {
      SelectIsExact(k, entries[..|entries| - 1], w);
    }
  }

  /** Every entry taken has one of the ids, and no entry kept has one. */
  ghost predicate TakenApart(k: Hooks, taken: seq<Entry>, kept: seq<Entry>, ids: seq<string>) {
    (forall e | e in taken :: k.id(e) in ids) && forall e | e in kept :: k.id(e) !in ids
  }

  /** A flush without ids takes everything; otherwise, and in a discard, exactly the entries
      with one of the ids are taken. */
  lemma {:induction false} TakenAsAsked(k: Hooks, entries: seq<Entry>, ids: seq<string>, all: bool)
    ensures var w := Want(all, ToSet(ids));
            var taken, kept := Select(k, entries, w, true), Select(k, entries, w, false);
            if all then kept == [] else TakenApart(k, taken, kept, ids)
  {
    var w := Want(all, ToSet(ids));
    SelectIsExact(k, entries, w);
    NothingKept(k, entries, w);
  }

  lemma {:induction false} NothingKept(k: Hooks, entries: seq<Entry>, w: Want)
    ensures w.all ==> Select(k, entries, w, false) == []
  {
    if entries != [] {
      NothingKept(k, entries[..|entries| - 1], w);
    }
  }

  /** `b` is `a` with some entries taken out. */
  predicate Subsequence(b: seq<Entry>, a: seq<Entry>)
    decreases |a|
  {
    b == [] ||
    (a != [] && ((b[|b| - 1] == a[|a| - 1] && Subsequence(b[..|b| - 1], a[..|a| - 1]))
                 || Subsequence(b, a[..|a| - 1])))
  }

  lemma {:induction false} SubsequenceSnoc(b: seq<Entry>, a: seq<Entry>, x: Entry)
    requires Subsequence(b, a)
    ensures Subsequence(b, a + [x]) && Subsequence(b + [x], a + [x])
  {
    assert (a + [x])[..|a|] == a && (b + [x])[..|b|] == b;
  }

  /** Held entries keep their order, and so do delivered ones. */
  lemma {:induction false} SelectKeepsOrder(k: Hooks, entries: seq<Entry>, w: Want, inside: bool)
    ensures Subsequence(Select(k, entries, w, inside), entries)
  {
    if entries != [] {
      var n := |entries| - 1;
      SelectKeepsOrder(k, entries[..n], w, inside);
      SubsequenceSnoc(Select(k, entries[..n], w, inside), entries[..n], entries[n]);
      assert entries == entries[..n] + [entries[n]];
      assert Select(k, entries[..n], w, inside) + [] == Select(k, entries[..n], w, inside);
    }
  }

  /** If nothing is taken, everything is kept. */
  lemma {:induction false} NothingTaken(k: Hooks, entries: seq<Entry>, w: Want)
    requires Select(k, entries, w, true) == []
    ensures Select(k, entries, w, false) == entries
  {
    if entries != [] {
      var n := |entries| - 1;
      NothingTaken(k, entries[..n], w);
      assert entries == entries[..n] + [entries[n]];
    }
  }

  /** Taking entries out, and what it means for the cache and for conservation. */
  lemma {:induction false} TakenOut(k: Hooks, entries: seq<Entry>, w: Want, taken: seq<Entry>, kept: seq<Entry>,
                                    left: multiset<Entry>)
    requires taken == Select(k, entries, w, true) && kept == Select(k, entries, w, false)
    ensures |kept| + |taken| == |entries| && (taken == [] ==> kept == entries)
    ensures left + multiset(entries) == (left + multiset(taken)) + multiset(kept)
  {
    SelectSplits(k, entries, w);
    if taken == [] {
      NothingTaken(k, entries, w);
    }
  }

  class CollationBuffer {
    const hooks: Hooks
    var entries: seq<Entry>
    var cache: Option<seq<Row>>
    ghost var added: multiset<Entry>
    ghost var delivered: multiset<Entry>
    ghost var discarded: multiset<Entry>

    /** A cached manifest is the recomputed one, and nothing is lost or duplicated. */
    ghost predicate Valid()
      reads this
    {
      && (cache.Some? ==> cache.value == Manifest(hooks, entries))
      && added == delivered + discarded + multiset(entries)
    }

    constructor (hooks: Hooks)
      ensures Valid() && entries == [] && this.hooks == hooks && cache == None
      ensures added == delivered == discarded == multiset{}
    {
      this.hooks, entries, cache := hooks, [], None;
      added, delivered, discarded := multiset{}, multiset{}, multiset{};
    }

    /** A reloaded buffer holds exactly the saved entries, with a built cache. */
    constructor FromDict(hooks: Hooks, saved: seq<Entry>)
      ensures Valid() && entries == saved && this.hooks == hooks && cache == Some(Manifest(hooks, saved))
      ensures added == multiset(saved)
    {
      this.hooks, entries, cache := hooks, saved, Some(Manifest(hooks, saved));
      added, delivered, discarded := multiset(saved), multiset{}, multiset{};
    }

    method Add(e: Entry)
      requires Valid()
      modifies this`entries, this`cache, this`added
      ensures Valid() && entries == old(entries) + [e] && added == old(added) + multiset{e}
    {
      entries := entries + [e];
      if cache.Some? {
        cache := Some(cache.value + [RowOf(hooks, e)]);
      }
      added := added + multiset{e};
    }

    method ArtifactId(index: nat) returns (id: string)
      requires Valid() && index < |entries|
      ensures id == hooks.id(entries[index])
    {
      id := if cache.Some? then cache.value[index].id else hooks.id(entries[index]);
    }

    method GetManifest() returns (rows: seq<Row>)
      requires Valid()
      modifies this`cache
      ensures Valid() && rows == Manifest(hooks, entries) && cache == Some(rows)
      ensures |rows| == |entries| && forall i | 0 <= i < |rows| :: Describes(hooks, rows[i], entries[i])
    {
      if cache.None? {
        cache := Some(Manifest(hooks, entries));
      }
      rows := cache.value;
    }

    method LastManifestEntry() returns (row: Option<Row>)
      requires Valid()
      modifies this`cache
      ensures Valid()
      ensures row.Some? <==> entries != []
      ensures row.Some? ==> Describes(hooks, row.value, entries[|entries| - 1])
    {
      if entries == [] {
        return None;
      }
      if cache.None? {
        cache := Some(Manifest(hooks, entries));
      }
      row := Some(cache.value[|cache.value| - 1]);
    }

    /** The loop shared by a flush and a discard: ids come from the cache if there is one. */
    method Partition(w: Want) returns (taken: seq<Entry>, aids: seq<string>, kept: seq<Entry>)
      requires Valid()
      ensures taken == Select(hooks, entries, w, true) && aids == Ids(hooks, taken)
      ensures kept == Select(hooks, entries, w, false)
    {
      taken, aids, kept := [], [], [];
      for i := 0 to |entries|
        invariant taken == Select(hooks, entries[..i], w, true) && aids == Ids(hooks, taken)
        invariant kept == Select(hooks, entries[..i], w, false)
      {
        assert entries[..i + 1][..i] == entries[..i];
        var aid := ArtifactId(i);
        if w.all || aid in w.ids {
          taken, aids := taken + [entries[i]], aids + [aid];
        } else {
          kept := kept + [entries[i]];
        }
      }
      assert entries[..|entries|] == entries;
    }

    method Deliver(taken: seq<Entry>, aids: seq<string>) returns (selected: seq<(string, string)>)
      requires aids == Ids(hooks, taken)
      ensures Delivers(hooks, selected, taken)
    {
      selected := seq(|taken|, i requires 0 <= i < |taken| => (aids[i], hooks.text(taken[i])));
    }

    /** A change of the entries invalidates the cached manifest. */
    method Keep(kept: seq<Entry>, changed: bool)
      requires cache.Some? ==> cache.value == Manifest(hooks, entries)
      requires !changed ==> kept == entries
      modifies this`entries, this`cache
      ensures entries == kept && (cache.Some? ==> cache.value == Manifest(hooks, entries))
    {
      if changed {
        entries, cache := kept, None;
      }
    }

    /** No ids means everything. */
    method FlushSelected(ids: seq<string>) returns (selected: seq<(string, string)>)
      requires Valid()
      modifies this`entries, this`cache, this`delivered
      ensures Valid() && added == old(added) && discarded == old(discarded)
      ensures var w := Want(ids == [], ToSet(ids));
              && Delivers(hooks, selected, Select(hooks, old(entries), w, true))
              && delivered == old(delivered) + multiset(Select(hooks, old(entries), w, true))
              && entries == Select(hooks, old(entries), w, false)
    {
      var w := Want(ids == [], ToSet(ids));
      var taken, aids, kept := Partition(w);
      selected := Deliver(taken, aids);
      TakenOut(hooks, entries, w, taken, kept, delivered + discarded);
      Keep(kept, |kept| != |entries|);
      delivered := delivered + multiset(taken);
    }

    method Discard(ids: seq<string>) returns (removed: seq<string>)
      requires Valid()
      modifies this`entries, this`cache, this`discarded
      ensures Valid() && added == old(added) && delivered == old(delivered)
      ensures var w := Want(false, ToSet(ids));
              && removed == Ids(hooks, Select(hooks, old(entries), w, true))
              && discarded == old(discarded) + multiset(Select(hooks, old(entries), w, true))
              && entries == Select(hooks, old(entries), w, false)
    {
      var w := Want(false, ToSet(ids));
      var taken, aids, kept := Partition(w);
      removed := aids;
      TakenOut(hooks, entries, w, taken, kept, delivered + discarded);
      Keep(kept, removed != []);
      discarded := discarded + multiset(taken);
    }
  }
}
