/** Detection of repeated tool-call fingerprints at the end of a history. */
module LoopDetection {
  /** `s[start:]` for a start that may be negative. */
  function TailFrom(s: seq<string>, start: int): (r: seq<string>)
    ensures |r| <= |s| && r == s[|s| - |r|..]
  {
    if start >= 0 then (if start <= |s| then s[start..] else [])
    else if |s| + start >= 0 then s[|s| + start..] else s
  }

  predicate AllNonEmpty(s: seq<string>) {
    forall i | 0 <= i < |s| :: s[i] != ""
  }

  // --------------------------------------------------------------- the reference

  /** From `lo` on, every entry equals the one `p` places later. */
  ghost predicate PeriodicFrom(s: seq<string>, p: nat, lo: nat) {
    forall i | lo <= i && i + p < |s| :: s[i] == s[i + p]
  }

  /** The last `p * m` entries exist, are non-empty and have period `p`. */
  ghost predicate PeriodicTail(s: seq<string>, p: nat, m: nat) {
    p * m <= |s| && AllNonEmpty(s[|s| - p * m..]) && PeriodicFrom(s, p, |s| - p * m)
  }

  /** What is accepted for one period. With a repeat count below 1 nothing is compared and
      the block may even be cut short. */
  ghost predicate Accepts(s: seq<string>, p: nat, m: int) {
    if m >= 1 then PeriodicTail(s, p, m) else AllNonEmpty(TailFrom(s, |s| - p))
  }

  // ------------------------------------------------------------ blocks and periods

  /** The block `q` periods before the end. */
  function BlockAt(s: seq<string>, p: nat, q: nat): (b: seq<string>)
    requires p * q + p <= |s|
    ensures |b| == p
  {
    s[|s| - p * q - p..|s| - p * q]
  }

  lemma {:induction false} Mul(p: nat, q: nat, r: nat)
    requires q < r
    ensures p * q + p <= p * r && p * (q + 1) == p * q + p
  {
    assert p * r == p * (q + 1) + p * (r - (q + 1));
  }

  /** The first `r` blocks from the end are all equal to the last one. */
  predicate Repeats(s: seq<string>, p: nat, r: nat)
    requires p * r <= |s|
  {
    r <= 1 ||
    (Mul(p, r - 1, r); Repeats(s, p, r - 1) && BlockAt(s, p, r - 1) == s[|s| - p..])
  }

  lemma {:induction false} ShiftedBlocks(s: seq<string>, p: nat, lo: nat)
    requires lo + 2 * p <= |s|
    ensures s[lo..lo + p] == s[lo + p..lo + 2 * p] <==> forall i | lo <= i < lo + p :: s[i] == s[i + p]
  {
    var a, b := s[lo..lo + p], s[lo + p..lo + 2 * p];
    if a == b {
      forall i | lo <= i < lo + p
        ensures s[i] == s[i + p]
      {
        assert a[i - lo] == b[i - lo];
      }
    }
    if forall i | lo <= i < lo + p :: s[i] == s[i + p] {
      forall k | 0 <= k < p
        ensures a[k] == b[k]
      {
        assert s[lo + k] == s[lo + k + p];
      }
    }
  }

  lemma {:induction false} BlockBeforeLast(s: seq<string>, p: nat, r: nat)
    requires r >= 2 && p * r <= |s|
    ensures var lo := |s| - p * r;
            && lo + 2 * p <= |s|
            && p * (r - 1) + p <= |s| && BlockAt(s, p, r - 1) == s[lo..lo + p]
            && p * (r - 2) + p <= |s| && BlockAt(s, p, r - 2) == s[lo + p..lo + 2 * p]
  {
    Mul(p, r - 1, r);
    Mul(p, r - 2, r - 1);
  }

  lemma {:induction false} RepeatedBlock(s: seq<string>, p: nat, r: nat)
    requires r >= 1 && p * r <= |s| && Repeats(s, p, r)
    ensures p <= |s| && p * (r - 1) + p <= |s|
    ensures BlockAt(s, p, r - 1) == s[|s| - p..]
  {
    Mul(p, 0, r);
    Mul(p, r - 1, r);
  }

  lemma {:induction false} PeriodicSplit(s: seq<string>, p: nat, lo: nat)
    requires lo + 2 * p <= |s|
    ensures PeriodicFrom(s, p, lo) <==> PeriodicFrom(s, p, lo + p) && s[lo..lo + p] == s[lo + p..lo + 2 * p]
  {
    ShiftedBlocks(s, p, lo);
  }

  lemma {:induction false} RepeatsSplit(s: seq<string>, p: nat, r: nat)
    requires r >= 2 && p * r <= |s|
    ensures p * (r - 1) <= |s| && p * r == p * (r - 1) + p && |s| - p * r + 2 * p <= |s|
    ensures var lo := |s| - p * r;
            Repeats(s, p, r) <==> Repeats(s, p, r - 1) && s[lo..lo + p] == s[lo + p..lo + 2 * p]
  {
    Mul(p, r - 1, r);
    BlockBeforeLast(s, p, r);
    if Repeats(s, p, r - 1) {
      RepeatedBlock(s, p, r - 1);
    }
  }

  /** Equal blocks and pointwise period are the same. */
  lemma {:induction false} BlocksArePeriod(s: seq<string>, p: nat, r: nat)
    requires r >= 1 && p * r <= |s|
    ensures Repeats(s, p, r) <==> PeriodicFrom(s, p, |s| - p * r)
  {
    if r > 1 {
      RepeatsSplit(s, p, r);
      BlocksArePeriod(s, p, r - 1);
      PeriodicSplit(s, p, |s| - p * r);
    }
  }

  /** Non-empty last block and equal blocks make the whole tail non-empty. */
  lemma {:induction false} NonEmptyByPeriod(s: seq<string>, p: nat, lo: nat, i: nat)
    requires p >= 1 && lo <= i < |s| && PeriodicFrom(s, p, lo) && lo + p <= |s|
    requires AllNonEmpty(s[|s| - p..])
    ensures s[i] != ""
    decreases |s| - i
  {
    if i + p < |s| {
      NonEmptyByPeriod(s, p, lo, i + p);
    } else {
      assert s[i] == s[|s| - p..][i - (|s| - p)];
    }
  }

  lemma {:induction false} TailIsNonEmpty(s: seq<string>, p: nat, m: nat)
    requires p >= 1 && m >= 1 && p * m <= |s| && PeriodicFrom(s, p, |s| - p * m)
    ensures p <= p * m
    ensures AllNonEmpty(s[|s| - p..]) <==> AllNonEmpty(s[|s| - p * m..])
  {
    Mul(p, 0, m);
    var lo := |s| - p * m;
    if AllNonEmpty(s[|s| - p..]) {
      forall i | 0 <= i < |s| - lo
        ensures s[lo..][i] != ""
      {
        NonEmptyByPeriod(s, p, lo, lo + i);
      }
    } else {
      var i :| 0 <= i < p && s[|s| - p..][i] == "";
      assert s[lo..][|s| - p - lo + i] == "";
    }
  }

  // ------------------------------------------------------------- the two detectors

  predicate AllTheSame(s: seq<string>) {
    s != [] && forall i | 0 <= i < |s| :: s[i] != "" && s[i] == s[|s| - 1]
  }

  /** Below 1 the slice is not the tail: 0 looks at the whole history, and a negative
      threshold drops that many entries at the front. */
  method IsRepeatedToolSequence(history: seq<string>, threshold: int) returns (r: bool)
    ensures r <==> |history| >= threshold && AllTheSame(TailFrom(history, -threshold))
    ensures threshold >= 1 ==>
              (r <==> |history| >= threshold
                      && forall i | |history| - threshold <= i < |history| ::
                           history[i] != "" && history[i] == history[|history| - 1])
  {
    if |history| < threshold {
      return false;
    }
    var tail := TailFrom(history, -threshold);
    TailEntries(history, threshold);
    if !(forall e | e in tail :: e != "") {
      return false;
    }
    var distinct := set e | e in tail;
    r := |distinct| == 1;
    if tail != [] {
      OneDistinct(tail, distinct);
    }
  }

  lemma {:induction false} TailEntries(history: seq<string>, threshold: int)
    requires |history| >= threshold
    ensures threshold >= 1 ==>
              (AllTheSame(TailFrom(history, -threshold))
               <==> forall i | |history| - threshold <= i < |history| ::
                      history[i] != "" && history[i] == history[|history| - 1])
  {
    if threshold >= 1 {
      var tail, lo := TailFrom(history, -threshold), |history| - threshold;
      assert |tail| == threshold && forall i | 0 <= i < threshold :: tail[i] == history[lo + i];
      if AllTheSame(tail) {
        forall i | lo <= i < |history|
          ensures history[i] != "" && history[i] == history[|history| - 1]
        {
          assert history[i] == tail[i - lo];
        }
      }
    }
  }

  lemma {:induction false} OneDistinct(tail: seq<string>, distinct: set<string>)
    requires tail != [] && distinct == (set e | e in tail)
    ensures |distinct| == 1 <==> forall i | 0 <= i < |tail| :: tail[i] == tail[|tail| - 1]
  {
    var x := tail[|tail| - 1];
    if |distinct| == 1 {
      assert |distinct - {x}| == 0;
      assert distinct == {x} + (distinct - {x});
      forall i | 0 <= i < |tail|
        ensures tail[i] == x
      {
        assert tail[i] in distinct;
      }
    }
    if forall i | 0 <= i < |tail| :: tail[i] == x {
      assert distinct == {x};
    }
  }

  method IsPeriodicSequence(history: seq<string>, maxPeriod: int, minRepeats: int) returns (r: bool)
    ensures r <==> |history| >= 4 && exists p: nat :: 2 <= p <= maxPeriod && Accepts(history, p, minRepeats)
  {
    var n := |history|;
    if n < 4 {
      return false;
    }
    var period := 2;
    while period <= maxPeriod
      invariant period >= 2
      invariant forall p: nat | 2 <= p < period && p <= maxPeriod :: !Accepts(history, p, minRepeats)
      decreases maxPeriod - period
    {
      var ok := AcceptsPeriod(history, period, minRepeats);
      if ok {
        return true;
      }
      period := period + 1;
    }
    r := false;
  }

  /** The preceding blocks against the last one. */
  method PrecedingBlocksMatch(s: seq<string>, p: nat, m: int, block: seq<string>) returns (ok: bool)
    requires m >= 1 ==> p * m <= |s| && p <= |s| && block == s[|s| - p..]
    ensures m >= 1 ==> (ok <==> Repeats(s, p, m))
    ensures m < 1 ==> ok
  {
    var r := 1;
    while r < m
      invariant m >= 1 ==> 1 <= r <= m && p * r <= |s| && Repeats(s, p, r)
    {
      Mul(p, r, m);
      var seg := s[|s| - p * (r + 1)..|s| - p * r];
      assert seg == BlockAt(s, p, r);
      if seg != block {
        assert !Repeats(s, p, r + 1);
        RepeatsIsPrefix(s, p, r + 1, m);
        return false;
      }
      r := r + 1;
    }
    ok := true;
  }

  /** What the loop body checks is the period of the whole tail. */
  lemma {:induction false} AcceptsIff(s: seq<string>, p: nat, m: nat)
    requires p >= 1 && m >= 1 && p * m <= |s|
    ensures p <= |s|
    ensures PeriodicTail(s, p, m) <==> AllNonEmpty(s[|s| - p..]) && Repeats(s, p, m)
  {
    Mul(p, 0, m);
    BlocksArePeriod(s, p, m);
    if PeriodicFrom(s, p, |s| - p * m) {
      TailIsNonEmpty(s, p, m);
    }
  }

  /** The loop body for one period. */
  method AcceptsPeriod(s: seq<string>, p: nat, m: int) returns (ok: bool)
    requires p >= 2
    ensures ok <==> Accepts(s, p, m)
  {
    assert m < 1 ==> p * m <= 0;
    if |s| < p * m {
      return false;
    }
    var block := TailFrom(s, |s| - p);
    if m >= 1 {
      AcceptsIff(s, p, m);
    }
    if !AllNonEmpty(block) {
      return false;
    }
    ok := PrecedingBlocksMatch(s, p, m, block);
  }

  lemma {:induction false} RepeatsIsPrefix(s: seq<string>, p: nat, r: nat, m: nat)
    requires 1 <= r <= m && p * m <= |s| && p * r <= |s| && !Repeats(s, p, r)
    ensures !Repeats(s, p, m)
  {
    if r < m {
      Mul(p, m - 1, m);
      Mul(p, r - 1, m - 1);
      RepeatsIsPrefix(s, p, r, m - 1);
    }
  }

  // ------------------------------------------------------------------- the laws

  /** The answer for a history, with a repeat count of at least 1. */
  ghost predicate Periodic(s: seq<string>, maxPeriod: nat, m: nat) {
    |s| >= 4 && exists p: nat :: 2 <= p <= maxPeriod && PeriodicTail(s, p, m)
  }

  lemma {:induction false} TailIsLocal(s: seq<string>, k: nat, p: nat, m: nat)
    requires k <= |s| && p * m <= k
    ensures PeriodicTail(s, p, m) <==> PeriodicTail(s[|s| - k..], p, m)
  {
    var t := s[|s| - k..];
    var off := |s| - k;
    assert t[|t| - p * m..] == s[|s| - p * m..];
    assert forall i | 0 <= i < |t| :: t[i] == s[i + off];
    if PeriodicFrom(s, p, |s| - p * m) {
      forall i | |t| - p * m <= i && i + p < |t|
        ensures t[i] == t[i + p]
      {
        assert s[i + off] == s[i + off + p];
      }
    }
    if PeriodicFrom(t, p, |t| - p * m) {
      forall i | |s| - p * m <= i && i + p < |s|
        ensures s[i] == s[i + p]
      {
        assert t[i - off] == t[i - off + p];
      }
    }
  }

  /** A bounded history is as good as the whole one: keeping the last `k` entries, with k
      at least 4 and maxPeriod * m, never changes the answer. */
  lemma {:induction false} TruncationIsSafe(s: seq<string>, k: nat, maxPeriod: nat, m: nat)
    requires m >= 1 && k >= 4 && k >= maxPeriod * m
    ensures Periodic(s, maxPeriod, m) <==> Periodic(if |s| <= k then s else s[|s| - k..], maxPeriod, m)
  {
    if |s| > k {
      forall p: nat | 2 <= p <= maxPeriod
        ensures PeriodicTail(s, p, m) <==> PeriodicTail(s[|s| - k..], p, m)
      {
        assert p * m <= maxPeriod * m by { assert (maxPeriod - p) * m >= 0; }
        TailIsLocal(s, k, p, m);
      }
      var t := s[|s| - k..];
      if Periodic(s, maxPeriod, m) {
        var p: nat :| 2 <= p <= maxPeriod && PeriodicTail(s, p, m);
        assert PeriodicTail(t, p, m);
      }
      if Periodic(t, maxPeriod, m) {
        var p: nat :| 2 <= p <= maxPeriod && PeriodicTail(t, p, m);
        assert PeriodicTail(s, p, m);
      }
    }
  }

  /** With the default of two repeats, four equal non-empty entries are always reported. */
  lemma {:induction false} FourEqualAreReported(s: seq<string>, maxPeriod: nat)
    requires |s| >= 4 && maxPeriod >= 2
    requires forall i | |s| - 4 <= i < |s| :: s[i] == s[|s| - 1] != ""
    ensures Periodic(s, maxPeriod, 2)
  {
    assert PeriodicTail(s, 2, 2);
  }
}
