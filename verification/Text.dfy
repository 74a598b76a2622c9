/** Strings as sequences of characters: the few operations of Python's `str`
    that the modelled code relies on. */
module Text {

  datatype Option<+T> = None | Some(value: T)

  /** The characters removed by `str.strip()`. */
  predicate IsSpace(c: char) {
    var n := c as int;
    || 0x09 <= n <= 0x0D || 0x1C <= n <= 0x20 || n == 0x85 || n == 0xA0
    || n == 0x1680 || 0x2000 <= n <= 0x200A || n == 0x2028 || n == 0x2029
    || n == 0x202F || n == 0x205F || n == 0x3000
  }

  /** `not s.strip()`: nothing but white space. */
  predicate Blank(s: string) {
    forall i | 0 <= i < |s| :: IsSpace(s[i])
  }

  function LStrip(s: string): (r: string)
    ensures r == "" <==> Blank(s)
    ensures r != "" ==> !IsSpace(r[0])
  {
    if s != "" && IsSpace(s[0]) then
      assert s == [s[0]] + s[1..];
      LStrip(s[1..])
    else s
  }

  function RStrip(s: string): (r: string)
    ensures r <= s
    ensures r == "" <==> Blank(s)
    ensures r != "" ==> !IsSpace(r[|r| - 1])
  {
    if s != "" && IsSpace(s[|s| - 1]) then
      assert s == s[..|s| - 1] + [s[|s| - 1]];
      RStrip(s[..|s| - 1])
    else s
  }

  /** `s.strip()` */
  function Strip(s: string): (r: string)
    ensures r == "" <==> Blank(s)
    ensures Blank(r) ==> r == ""
  {
    RStrip(LStrip(s))
  }

  /** Stripping takes away white space at both ends and nothing else. */
  lemma {:induction false} StripIsTrim(s: string) returns (before: string, after: string)
    ensures s == before + Strip(s) + after && Blank(before) && Blank(after)
    ensures Strip(s) != "" ==> !IsSpace(Strip(s)[0]) && !IsSpace(Strip(s)[|Strip(s)| - 1])
  {
    before := LStripIsTrim(s);
    after := RStripIsTrim(LStrip(s));
    AppendAssoc(before, Strip(s), after);
    StripEnds(s);
  }

  lemma {:induction false} StripEnds(s: string)
    ensures Strip(s) != "" ==> !IsSpace(Strip(s)[0]) && !IsSpace(Strip(s)[|Strip(s)| - 1])
  {
    var l := LStrip(s);
    assert Strip(s) != "" ==> RStrip(l)[0] == l[0];
  }

  lemma {:induction false} LStripIsTrim(s: string) returns (before: string)
    ensures s == before + LStrip(s) && Blank(before)
  {
    before := "";
    if s != "" && IsSpace(s[0]) {
      var rest := LStripIsTrim(s[1..]);
      before := [s[0]] + rest;
    }
  }

  lemma {:induction false} RStripIsTrim(s: string) returns (after: string)
    ensures s == RStrip(s) + after && Blank(after)
  {
    after := "";
    if s != "" && IsSpace(s[|s| - 1]) {
      var rest := RStripIsTrim(s[..|s| - 1]);
      after := rest + [s[|s| - 1]];
    }
  }

  predicate OccursAt(s: string, d: string, i: int) {
    0 <= i && i + |d| <= |s| && s[i..i + |d|] == d
  }

  /** `s.find(d)`, with None for -1. */
  function Find(s: string, d: string): (r: Option<nat>)
    ensures r.Some? ==> r.value + |d| <= |s|
  {
    FindFrom(s, d, 0)
  }

  function FindFrom(s: string, d: string, i: nat): (r: Option<nat>)
    ensures r.Some? ==> r.value + |d| <= |s|
    decreases |s| - i
  {
    if OccursAt(s, d, i) then Some(i)
    else if i >= |s| then None
    else FindFrom(s, d, i + 1)
  }

  /** `Find` is the leftmost occurrence, and None only when there is none. */
  lemma {:induction false} FindIsLeftmost(s: string, d: string)
    ensures Find(s, d).Some? ==> OccursAt(s, d, Find(s, d).value)
    ensures forall j | OccursAt(s, d, j) :: Find(s, d).Some? && Find(s, d).value <= j
  {
    FindFromIsLeftmost(s, d, 0);
  }

  lemma {:induction false} FindFromIsLeftmost(s: string, d: string, i: nat)
    ensures var r := FindFrom(s, d, i); r.Some? ==> i <= r.value && OccursAt(s, d, r.value)
    ensures forall j | OccursAt(s, d, j) && i <= j :: FindFrom(s, d, i).Some? && FindFrom(s, d, i).value <= j
    decreases |s| - i
  {
    if !OccursAt(s, d, i) && i < |s| {
      FindFromIsLeftmost(s, d, i + 1);
    }
  }

  lemma {:induction false} FindMeets(s: string, d: string, j: int)
    requires OccursAt(s, d, j)
    ensures Find(s, d).Some? && Find(s, d).value <= j
  {
    FindIsLeftmost(s, d);
  }

  lemma {:induction false} TailOfConcat<T>(a: seq<T>, b: seq<T>)
    requires a != []
    ensures (a + b)[0] == a[0] && (a + b)[1..] == a[1..] + b
  {
  }

  lemma {:induction false} PrefixSnoc<T>(s: seq<T>, n: nat)
    requires 0 < n <= |s|
    ensures s[..n] == s[..n - 1] + [s[n - 1]]
  {
  }

  lemma {:induction false} AppendAssoc<T>(a: seq<T>, b: seq<T>, c: seq<T>)
    ensures a + b + c == a + (b + c)
  {
  }

  /** `"".join(parts)` */
  function Concat(parts: seq<string>): string {
    if parts == [] then "" else parts[0] + Concat(parts[1..])
  }

  lemma {:induction false} ConcatAppend(a: seq<string>, b: seq<string>)
    ensures Concat(a + b) == Concat(a) + Concat(b)
  {
    if a == [] {
      assert a + b == b;
    } else {
      TailOfConcat(a, b);
      ConcatAppend(a[1..], b);
    }
  }

  lemma {:induction false} ConcatSnoc(a: seq<string>, s: string)
    ensures Concat(a + [s]) == Concat(a) + s
  {
    ConcatAppend(a, [s]);
    assert Concat([s]) == s;
  }

  /** `str(n)` */
  function Decimal(n: nat): string {
    if n < 10 then [('0' as int + n) as char] else Decimal(n / 10) + [('0' as int + n % 10) as char]
  }

  /** The number a string of digits stands for. */
  function Number(s: string): int {
    if s == "" then 0 else 10 * Number(s[..|s| - 1]) + (s[|s| - 1] as int - '0' as int)
  }

  /** Digits that stand for the number, without leading zeros. */
  lemma {:induction false} DecimalIsNumeral(n: nat)
    ensures var s := Decimal(n);
            && s != "" && Number(s) == n && (forall i | 0 <= i < |s| :: '0' <= s[i] <= '9')
            && (n > 0 ==> s[0] != '0')
  {
    if n >= 10 {
      DecimalIsNumeral(n / 10);
      var s := Decimal(n);
      assert s[..|s| - 1] == Decimal(n / 10);
    } else {
      var s := Decimal(n);
      assert s[..|s| - 1] == "" && Number("") == 0;
    }
  }

  /** `None` and the empty string are both false. */
  predicate Truthy(o: Option<string>) {
    o.Some? && o.value != ""
  }
}
