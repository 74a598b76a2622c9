/** `bytes.decode("utf-8", errors="replace")`: each maximal invalid sequence becomes one
    U+FFFD. When decoding a body read by read gives the body decoded as a whole. */
module Utf8 {
  import opened Text

  type Byte = b: int | 0 <= b < 256

  const REPLACEMENT: char := '\U{FFFD}'

  // ---------------------------------------------------------------- one character

  /** How many bytes must follow a first byte; 0 also for bytes that begin nothing. */
  function Need(b: Byte): (n: nat)
    ensures n <= 3
  {
    if 0xC2 <= b <= 0xDF then 1
    else if 0xE0 <= b <= 0xEF then 2
    else if 0xF0 <= b <= 0xF4 then 3
    else 0
  }

  predicate Continues(b: Byte) {
    0x80 <= b <= 0xBF
  }

  /** The byte may follow the first one: overlong forms, surrogates and values above
      U+10FFFF are excluded here. */
  predicate Follows(first: Byte, b: Byte) {
    && Continues(b)
    && (first == 0xE0 ==> b >= 0xA0) && (first == 0xED ==> b <= 0x9F)
    && (first == 0xF0 ==> b >= 0x90) && (first == 0xF4 ==> b <= 0x8F)
  }

  /** The bytes from `i` on that go with the first one. */
  function Going(bs: seq<Byte>, i: nat): (n: nat)
    requires 0 < i <= |bs|
    ensures i <= n <= |bs| && (n <= Need(bs[0]) + 1 || n == i)
    decreases |bs| - i
  {
    if i < |bs| && i <= Need(bs[0]) && (if i == 1 then Follows(bs[0], bs[1]) else Continues(bs[i]))
    then Going(bs, i + 1) else i
  }

  /** Length of the first character, or of the first maximal invalid sequence. */
  function UnitLen(bs: seq<Byte>): (n: nat)
    requires bs != []
    ensures 0 < n <= |bs|
  {
    Going(bs, 1)
  }

  function Low(b: Byte): nat {
    b % 64
  }

  lemma {:induction false} GoingContinues(bs: seq<Byte>, i: nat)
    requires 0 < i <= |bs|
    ensures forall j | i <= j < Going(bs, i) :: Continues(bs[j])
    ensures 1 < Going(bs, i) && i == 1 ==> Follows(bs[0], bs[1])
    decreases |bs| - i
  {
    if Going(bs, i) > i {
      GoingContinues(bs, i + 1);
    }
  }

  /** The first character. */
  function UnitChar(bs: seq<Byte>): char
    requires bs != []
  {
    GoingContinues(bs, 1);
    var b := bs[0];
    if b < 0x80 then b as char
    else if Need(b) == 0 || UnitLen(bs) < Need(b) + 1 then REPLACEMENT
    else if Need(b) == 1 then ((b - 0xC0) * 64 + Low(bs[1])) as char
    else if Need(b) == 2 then ((b - 0xE0) * 4096 + Low(bs[1]) * 64 + Low(bs[2])) as char
    else ((b - 0xF0) * 262144 + Low(bs[1]) * 4096 + Low(bs[2]) * 64 + Low(bs[3])) as char
  }

  function Decode(bs: seq<Byte>): string
    decreases |bs|
  {
    if bs == [] then "" else [UnitChar(bs)] + Decode(bs[UnitLen(bs)..])
  }

  /** The cut after `k` bytes lies between two characters (or invalid sequences). */
  predicate Boundary(bs: seq<Byte>, k: nat)
    decreases |bs|
  {
    k == 0 || (bs != [] && k >= UnitLen(bs) && Boundary(bs[UnitLen(bs)..], k - UnitLen(bs)))
  }

  // --------------------------------------------------------------------- one cut

  lemma {:induction false} GoingOfPrefix(bs: seq<Byte>, k: nat, i: nat)
    requires 0 < i <= k <= |bs|
    ensures Going(bs[..k], i) == if Going(bs, i) < k then Going(bs, i) else k
    decreases k - i
  {
    if i < k {
      GoingOfPrefix(bs, k, i + 1);
    }
  }

  /** A prefix starts with the same character, or is a part of it. */
  lemma {:induction false} UnitOfPrefix(bs: seq<Byte>, k: nat)
    requires 0 < k <= |bs|
    ensures UnitLen(bs[..k]) == if UnitLen(bs) < k then UnitLen(bs) else k
    ensures k >= UnitLen(bs) ==> UnitChar(bs[..k]) == UnitChar(bs)
  {
    GoingOfPrefix(bs, k, 1);
  }

  lemma {:induction false} Slices(bs: seq<Byte>, u: nat, k: nat)
    requires u <= k <= |bs|
    ensures bs[..k][u..] == bs[u..][..k - u] && bs[k..] == bs[u..][k - u..]
  {
  }

  lemma {:induction false} DecodeHead(bs: seq<Byte>, u: nat, rest: seq<Byte>)
    requires bs != [] && u == UnitLen(bs) && rest == bs[u..]
    ensures Decode(bs) == [UnitChar(bs)] + Decode(rest)
  {
  }

  /** A cut behind the first character is a cut of the rest. */
  lemma {:induction false} CutBehind(bs: seq<Byte>, k: nat) returns (c: char, u: nat, rest: seq<Byte>)
    requires bs != [] && UnitLen(bs) <= k <= |bs|
    ensures u == UnitLen(bs) && rest == bs[u..] && |rest| < |bs| && bs[k..] == rest[k - u..]
    ensures Decode(bs) == [c] + Decode(rest) && Decode(bs[..k]) == [c] + Decode(rest[..k - u])
    ensures UnitLen(bs[..k]) == u && bs[..k][u..] == rest[..k - u]
  {
    c, u := UnitChar(bs), UnitLen(bs);
    rest := bs[u..];
    UnitOfPrefix(bs, k);
    Slices(bs, u, k);
    DecodeHead(bs, u, rest);
    DecodeHead(bs[..k], u, rest[..k - u]);
  }

  lemma {:induction false} CutAtBoundary(bs: seq<Byte>, k: nat)
    requires k <= |bs| && Boundary(bs, k)
    ensures Decode(bs[..k]) + Decode(bs[k..]) == Decode(bs)
    decreases |bs|
  {
    if k == 0 {
      assert bs[..0] == [] && bs[0..] == bs;
    } else {
      var c, u, rest := CutBehind(bs, k);
      CutAtBoundary(rest, k - u);
      AppendAssoc([c], Decode(rest[..k - u]), Decode(rest[k - u..]));
    }
  }

  /** Continuation bytes without their first byte are replaced one by one. */
  lemma {:induction false} Stranded(bs: seq<Byte>, n: nat)
    requires n <= |bs| && forall i | 0 <= i < n :: Continues(bs[i])
    ensures |Decode(bs)| == n + |Decode(bs[n..])|
    decreases n
  {
    if n == 0 {
      assert bs[0..] == bs;
    } else {
      assert UnitLen(bs) == 1;
      Stranded(bs[1..], n - 1);
      Slices(bs, 1, n);
    }
  }

  lemma {:induction false} CutInside(bs: seq<Byte>, k: nat)
    requires bs != [] && 0 < k < UnitLen(bs)
    ensures |Decode(bs[..k])| + |Decode(bs[k..])| > |Decode(bs)|
  {
    var u := UnitLen(bs);
    UnitOfPrefix(bs, k);
    assert bs[..k][k..] == [];
    DecodeHead(bs[..k], k, []);
    GoingContinues(bs, 1);
    Stranded(bs[k..], u - k);
    assert bs[k..][u - k..] == bs[u..];
  }

  lemma {:induction false} CutElsewhere(bs: seq<Byte>, k: nat)
    requires k <= |bs| && !Boundary(bs, k)
    ensures |Decode(bs[..k])| + |Decode(bs[k..])| > |Decode(bs)|
    decreases |bs|
  {
    if k < UnitLen(bs) {
      CutInside(bs, k);
    } else {
      var c, u, rest := CutBehind(bs, k);
      CutElsewhere(rest, k - u);
    }
  }

  /** Decoding two parts is decoding the whole if and only if the cut is a boundary; for
      any bytes, valid or not. */
  lemma {:induction false} CutIff(bs: seq<Byte>, k: nat)
    requires k <= |bs|
    ensures Decode(bs[..k]) + Decode(bs[k..]) == Decode(bs) <==> Boundary(bs, k)
    ensures |Decode(bs[..k])| + |Decode(bs[k..])| >= |Decode(bs)|
  {
    if Boundary(bs, k) {
      CutAtBoundary(bs, k);
    } else {
      CutElsewhere(bs, k);
    }
  }

  // --------------------------------------------------------------------- all reads

  function Joined(raws: seq<seq<Byte>>): seq<Byte> {
    if raws == [] then [] else Joined(raws[..|raws| - 1]) + raws[|raws| - 1]
  }

  /** The reads decoded one by one. */
  function Decoded(raws: seq<seq<Byte>>): (r: seq<string>)
    ensures |r| == |raws| && forall i | 0 <= i < |r| :: r[i] == Decode(raws[i])
  {
    seq(|raws|, i requires 0 <= i < |raws| => Decode(raws[i]))
  }

  /** Every cut between two reads lies between two characters. */
  ghost predicate CutsBetween(raws: seq<seq<Byte>>) {
    forall i | 0 <= i <= |raws| :: Boundary(Joined(raws), |Joined(raws[..i])|)
  }

  lemma {:induction false} BoundaryHead(bs: seq<Byte>, j: nat, u: nat, rest: seq<Byte>)
    requires bs != [] && j > 0 && u == UnitLen(bs) && rest == bs[u..]
    ensures Boundary(bs, j) <==> j >= u && Boundary(rest, j - u)
  {
  }

  lemma {:induction false} BoundaryOfPrefix(bs: seq<Byte>, j: nat, k: nat)
    requires j <= k <= |bs| && Boundary(bs, k)
    ensures Boundary(bs[..k], j) <==> Boundary(bs, j)
    decreases |bs|
  {
    if j > 0 {
      var c, u, rest := CutBehind(bs, k);
      var front := bs[..k];
      BoundaryHead(bs, j, u, rest);
      BoundaryHead(front, j, u, rest[..k - u]);
      if j >= u {
        BoundaryOfPrefix(rest, j - u, k - u);
      }
    }
  }

  lemma {:induction false} WholeIsBoundary(bs: seq<Byte>)
    ensures Boundary(bs, |bs|)
    decreases |bs|
  {
    if bs != [] {
      WholeIsBoundary(bs[UnitLen(bs)..]);
    }
  }

  lemma {:induction false} JoinedGrows(raws: seq<seq<Byte>>, i: nat)
    requires i <= |raws|
    ensures |Joined(raws[..i])| <= |Joined(raws)|
  {
    if i < |raws| {
      var n := |raws| - 1;
      JoinedGrows(raws[..n], i);
      assert raws[..n][..i] == raws[..i];
    } else {
      assert raws[..i] == raws;
    }
  }

  /** The last read and those before it. */
  lemma {:induction false} Unsnoc(raws: seq<seq<Byte>>) returns (init: seq<seq<Byte>>, last: seq<Byte>)
    requires raws != []
    ensures raws == init + [last] && |init| < |raws|
    ensures Joined(raws) == Joined(init) + last && Joined(raws)[..|Joined(init)|] == Joined(init)
    ensures Joined(raws)[|Joined(init)|..] == last
    ensures Concat(Decoded(raws)) == Concat(Decoded(init)) + Decode(last)
    ensures forall i | 0 <= i <= |init| :: raws[..i] == init[..i]
  {
    init, last := raws[..|raws| - 1], raws[|raws| - 1];
    assert Decoded(raws) == Decoded(init) + [Decode(last)];
    ConcatSnoc(Decoded(init), Decode(last));
  }

  /** All cuts are boundaries if the last one is and those of the reads before are. */
  lemma {:induction false} CutsSnoc(raws: seq<seq<Byte>>, init: seq<seq<Byte>>)
    requires raws != [] && init == raws[..|raws| - 1]
    ensures CutsBetween(raws) <==> Boundary(Joined(raws), |Joined(init)|) && CutsBetween(init)
  {
    var all, k, n := Joined(raws), |Joined(init)|, |init|;
    assert all[..k] == Joined(init);
    WholeIsBoundary(all);
    forall i | 0 <= i <= n
      ensures raws[..i] == init[..i] && |Joined(init[..i])| <= k
      ensures Boundary(all, k) ==>
                (Boundary(Joined(init), |Joined(init[..i])|) <==> Boundary(all, |Joined(raws[..i])|))
    {
      JoinedGrows(init, i);
      if Boundary(all, k) {
        BoundaryOfPrefix(all, |Joined(init[..i])|, k);
      }
    }
    assert init[..n] == init && raws[..|raws|] == raws;
    if CutsBetween(raws) {
      assert Boundary(all, |Joined(raws[..n])|);
    }
    if Boundary(all, k) && CutsBetween(init) {
      forall i | 0 <= i <= |raws|
        ensures Boundary(all, |Joined(raws[..i])|)
      {
        if i <= n {
          assert Boundary(Joined(init), |Joined(init[..i])|);
        }
      }
    }
  }

  lemma {:induction false} ReadsAreLonger(raws: seq<seq<Byte>>)
    ensures |Concat(Decoded(raws))| >= |Decode(Joined(raws))|
    ensures |Concat(Decoded(raws))| == |Decode(Joined(raws))| <==> CutsBetween(raws)
    ensures CutsBetween(raws) ==> Concat(Decoded(raws)) == Decode(Joined(raws))
    decreases |raws|
  {
    if raws != [] {
      var init, last := Unsnoc(raws);
      ReadsAreLonger(init);
      CutsSnoc(raws, init);
      OneMoreRead(Joined(raws), |Joined(init)|, last);
    }
  }

  lemma {:induction false} OneMoreRead(bs: seq<Byte>, k: nat, last: seq<Byte>)
    requires k <= |bs| && bs[k..] == last
    ensures |Decode(bs[..k])| + |Decode(last)| >= |Decode(bs)|
    ensures |Decode(bs[..k])| + |Decode(last)| == |Decode(bs)| <==> Boundary(bs, k)
    ensures Boundary(bs, k) ==> Decode(bs[..k]) + Decode(last) == Decode(bs)
  {
    if Boundary(bs, k) {
      CutAtBoundary(bs, k);
    } else {
      CutElsewhere(bs, k);
    }
  }

  /** Decoding a body read by read gives the body decoded as a whole if and only if every
      cut lies between two characters. */
  lemma {:induction false} ReadsDecodeIff(raws: seq<seq<Byte>>)
    ensures Concat(Decoded(raws)) == Decode(Joined(raws)) <==> CutsBetween(raws)
  {
    ReadsAreLonger(raws);
  }

  // ------------------------------------------------------------------ valid bodies

  function Tail(n: nat): Byte {
    0x80 + n % 64
  }

  function EncodeChar(c: char): (bs: seq<Byte>)
    ensures bs != []
  {
    var n := c as int;
    if n < 0x80 then [n]
    else if n < 0x800 then [0xC0 + n / 64, Tail(n)]
    else if n < 0x10000 then [0xE0 + n / 4096, Tail(n / 64), Tail(n)]
    else [0xF0 + n / 262144, Tail(n / 4096), Tail(n / 64), Tail(n)]
  }

  /** `s.encode("utf-8")` */
  function Encode(s: string): seq<Byte> {
    if s == "" then [] else EncodeChar(s[0]) + Encode(s[1..])
  }

  /** The digits of a number to the base 64. */
  lemma {:induction false} Digits(n: nat)
    ensures n / 4096 == n / 64 / 64 && n / 262144 == n / 64 / 64 / 64
    ensures n / 64 * 64 + n % 64 == n
    ensures n / 4096 * 4096 + n / 64 % 64 * 64 + n % 64 == n
    ensures n / 262144 * 262144 + n / 4096 % 64 * 4096 + n / 64 % 64 * 64 + n % 64 == n
  {
  }

  lemma {:induction false} LowTail(n: nat)
    ensures Continues(Tail(n)) && Low(Tail(n)) == n % 64
  {
  }

  lemma {:induction false} LowTails(n: nat)
    ensures Low(Tail(n)) == n % 64 && Low(Tail(n / 64)) == n / 64 % 64 && Low(Tail(n / 4096)) == n / 4096 % 64
  {
    LowTail(n);
    LowTail(n / 64);
    LowTail(n / 4096);
  }

  lemma {:induction false} EncodedFirst(c: char)
    requires c as int >= 0x80
    ensures var e := EncodeChar(c); |e| > 1 && Need(e[0]) == |e| - 1 && Follows(e[0], e[1])
    ensures forall i | 1 < i < |EncodeChar(c)| :: Continues(EncodeChar(c)[i])
  {
  }

  lemma {:induction false} EncodedLength(e: seq<Byte>, bs: seq<Byte>)
    requires 1 < |e| <= 4 && Need(e[0]) == |e| - 1 && Follows(e[0], e[1]) && e <= bs
    requires forall i | 1 < i < |e| :: Continues(e[i])
    ensures UnitLen(bs) == |e|
  {
    assert forall i | 0 <= i < |e| :: bs[i] == e[i];
    assert Going(bs, |e|) == |e|;
    assert |e| > 3 ==> Going(bs, 3) == |e|;
    assert |e| > 2 ==> Going(bs, 2) == |e|;
  }

  /** An encoded character is read back, whatever follows. */
  lemma {:induction false} UnitOfEncoded(c: char, bs: seq<Byte>)
    requires EncodeChar(c) <= bs
    ensures UnitLen(bs) == |EncodeChar(c)| && UnitChar(bs) == c
  {
    var n, e := c as int, EncodeChar(c);
    assert forall i | 0 <= i < |e| :: bs[i] == e[i];
    if n < 0x80 {
      assert UnitLen(bs) == 1;
    } else {
      EncodedFirst(c);
      EncodedLength(e, bs);
      UnitOfLong(c, bs);
    }
  }

  lemma {:induction false} UnitOfLong(c: char, bs: seq<Byte>)
    requires c as int >= 0x80 && EncodeChar(c) <= bs && UnitLen(bs) == |EncodeChar(c)|
    requires Need(bs[0]) == |EncodeChar(c)| - 1
    ensures UnitChar(bs) == c
  {
    var n, e := c as int, EncodeChar(c);
    assert forall i | 0 <= i < |e| :: bs[i] == e[i];
    Digits(n);
    LowTails(n);
  }

  /** Decoding inverts encoding. */
  lemma {:induction false} DecodeEncode(s: string)
    ensures Decode(Encode(s)) == s
  {
    if s != "" {
      var bs, rest := Encode(s), Encode(s[1..]);
      UnitOfEncoded(s[0], bs);
      assert bs[|EncodeChar(s[0])|..] == rest;
      DecodeHead(bs, |EncodeChar(s[0])|, rest);
      DecodeEncode(s[1..]);
    }
  }

  /** A place between two characters, as a number of bytes. */
  ghost predicate Between(s: string, k: nat) {
    exists i :: 0 <= i <= |s| && k == |Encode(s[..i])|
  }

  lemma {:induction false} PrefixLength(s: string, i: nat)
    requires 0 < i <= |s|
    ensures |Encode(s[..i])| == |EncodeChar(s[0])| + |Encode(s[1..][..i - 1])|
  {
    assert s[..i][1..] == s[1..][..i - 1];
  }

  lemma {:induction false} BetweenBehind(s: string, k: nat)
    requires s != ""
    ensures Between(s, k) <==> k == 0 || (k >= |EncodeChar(s[0])| && Between(s[1..], k - |EncodeChar(s[0])|))
  {
    var t, u := s[1..], |EncodeChar(s[0])|;
    assert s[..0] == "" && |Encode(s[..0])| == 0;
    if i: nat :| i <= |s| && k == |Encode(s[..i])| && i > 0 {
      PrefixLength(s, i);
      assert k - u == |Encode(t[..i - 1])|;
    }
    if k >= u && Between(t, k - u) {
      var j: nat :| j <= |t| && k - u == |Encode(t[..j])|;
      PrefixLength(s, j + 1);
      assert k == |Encode(s[..j + 1])|;
    }
  }

  /** In a valid body the boundaries are the places between its characters. */
  lemma {:induction false} ValidBoundaryIff(s: string, k: nat)
    ensures Boundary(Encode(s), k) <==> Between(s, k)
  {
    if s == "" {
      assert s[..0] == "" && |Encode(s[..0])| == 0;
    } else {
      var bs, u := Encode(s), |EncodeChar(s[0])|;
      UnitOfEncoded(s[0], bs);
      assert bs[u..] == Encode(s[1..]);
      BetweenBehind(s, k);
      if k >= u {
        ValidBoundaryIff(s[1..], k - u);
      }
    }
  }
}
