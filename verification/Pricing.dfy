/** Token pricing with a long-context tier: per request against in bulk. Money is exact. */
module Pricing {
  import opened Text

  datatype Tier = Tier(input: Option<real>, cached: Option<real>, output: Option<real>)

  datatype Row = Row(base: Tier, long: Tier, cutoff: Option<int>)

  datatype Tokens = Tokens(input: int, cached: int, output: int)

  datatype Cost = Cost(uncachedInput: real, cachedInput: real, input: real, output: real, total: real)

  const PER_MILLION := 1000000.0

  function OrElse(a: Option<real>, b: Option<real>): Option<real> {
    if a.Some? then a else b
  }

  /** `long_context_cutoff and input > long_context_cutoff` */
  predicate IsLong(row: Row, input: int) {
    row.cutoff.Some? && row.cutoff.value != 0 && input > row.cutoff.value
  }

  /** The rates that apply, with the fallbacks: a missing long rate is the base rate, and
      a missing cached rate is the input rate. */
  function Rates(row: Row, high: bool): Tier {
    var input := if high then OrElse(row.long.input, row.base.input) else row.base.input;
    var cached := if high then OrElse(row.long.cached, row.base.cached) else row.base.cached;
    var output := if high then OrElse(row.long.output, row.base.output) else row.base.output;
    Tier(input, OrElse(cached, input), output)
  }

  function Amount(tokens: int, rate: Option<real>): real {
    if rate.Some? then tokens as real / PER_MILLION * rate.value else 0.0
  }

  /** `_token_cost` */
  function TokenCost(row: Row, t: Tokens): Cost {
    var rates := Rates(row, IsLong(row, t.input));
    var uncached := if t.input - t.cached > 0 then t.input - t.cached else 0;
    var u, c, o := Amount(uncached, rates.input), Amount(t.cached, rates.cached), Amount(t.output, rates.output);
    Cost(u, c, u + c, o, u + c + o)
  }

  /** The clamps of `estimate_model_cost`. */
  function Clamp(input: int, cached: int, output: int): (t: Tokens)
    ensures 0 <= t.cached <= t.input && 0 <= t.output
    ensures 0 <= cached <= input && 0 <= output ==> t == Tokens(input, cached, output)
    ensures t.input == 0 || t.input == input
    ensures t.cached == 0 || t.cached == cached || t.cached == t.input < cached
    ensures t.output == 0 || t.output == output
    ensures (input > 0 ==> t.input > 0) && (output > 0 ==> t.output > 0)
    ensures input > 0 && cached > 0 ==> t.cached > 0
  {
    var i := if input < 0 then 0 else input;
    var c := if cached < i then cached else i;
    Tokens(i, if c < 0 then 0 else c, if output < 0 then 0 else output)
  }

  ghost predicate Clamped(t: Tokens) {
    0 <= t.cached <= t.input && 0 <= t.output
  }

  ghost predicate AllClamped(ts: seq<Tokens>) {
    forall i | 0 <= i < |ts| :: Clamped(ts[i])
  }

  function Total(ts: seq<Tokens>): Tokens {
    if ts == [] then Tokens(0, 0, 0)
    else
      var t := Total(ts[1..]);
      Tokens(ts[0].input + t.input, ts[0].cached + t.cached, ts[0].output + t.output)
  }

  /** What the session accumulates: every request priced on its own. */
  function PerRequest(row: Row, ts: seq<Tokens>): real {
    if ts == [] then 0.0 else TokenCost(row, ts[0]).total + PerRequest(row, ts[1..])
  }

  /** The fallback: the summed tokens priced at once. */
  function Bulk(row: Row, ts: seq<Tokens>): real {
    TokenCost(row, Total(ts)).total
  }

  // ------------------------------------------------------------ cost at one tier

  function Rate(r: Option<real>): real {
    if r.Some? then r.value else 0.0
  }

  /** Millionths of the cost of clamped tokens at fixed rates: linear in the tokens. */
  function Linear(rates: Tier, t: Tokens): real {
    (t.input - t.cached) as real * Rate(rates.input) + t.cached as real * Rate(rates.cached)
    + t.output as real * Rate(rates.output)
  }

  lemma {:induction false} AmountIsProduct(n: int, r: Option<real>)
    ensures Amount(n, r) == n as real * Rate(r) / PER_MILLION
  {
  }

  lemma {:induction false} CostIsLinear(row: Row, t: Tokens)
    requires Clamped(t)
    ensures TokenCost(row, t).total == Linear(Rates(row, IsLong(row, t.input)), t) / PER_MILLION
    ensures var c := TokenCost(row, t); c.uncachedInput + c.cachedInput + c.output == c.total
  {
    var rates := Rates(row, IsLong(row, t.input));
    AmountIsProduct(t.input - t.cached, rates.input);
    AmountIsProduct(t.cached, rates.cached);
    AmountIsProduct(t.output, rates.output);
  }

  lemma {:induction false} LinearAdds(rates: Tier, a: Tokens, b: Tokens)
    ensures Linear(rates, Tokens(a.input + b.input, a.cached + b.cached, a.output + b.output))
            == Linear(rates, a) + Linear(rates, b)
  {
    Distribute((a.input - a.cached) as real, (b.input - b.cached) as real, Rate(rates.input));
    Distribute(a.cached as real, b.cached as real, Rate(rates.cached));
    Distribute(a.output as real, b.output as real, Rate(rates.output));
  }

  lemma {:induction false} Distribute(x: real, y: real, r: real)
    ensures (x + y) * r == x * r + y * r
  {
  }

  /** Long rates are nowhere below the rates they replace. */
  ghost predicate LongIsDearer(row: Row) {
    var b, l := Rates(row, false), Rates(row, true);
    && Rate(b.input) <= Rate(l.input) && Rate(b.cached) <= Rate(l.cached) && Rate(b.output) <= Rate(l.output)
  }

  lemma {:induction false} Grows(n: real, x: real, y: real)
    requires n >= 0.0 && x <= y
    ensures n * x <= n * y
  {
  }

  lemma {:induction false} SumGrows(m: real, n: real, k: real, a: real, b: real, c: real, x: real, y: real, z: real)
    requires m >= 0.0 && n >= 0.0 && k >= 0.0 && a <= x && b <= y && c <= z
    ensures m * a + n * b + k * c <= m * x + n * y + k * z
  {
    Grows(m, a, x);
    Grows(n, b, y);
    Grows(k, c, z);
  }

  lemma {:induction false} LinearMono(b: Tier, l: Tier, t: Tokens)
    requires Clamped(t)
    requires Rate(b.input) <= Rate(l.input) && Rate(b.cached) <= Rate(l.cached) && Rate(b.output) <= Rate(l.output)
    ensures Linear(b, t) <= Linear(l, t)
  {
    var uncached, cached, output := (t.input - t.cached) as real, t.cached as real, t.output as real;
    SumGrows(uncached, cached, output, Rate(b.input), Rate(b.cached), Rate(b.output),
             Rate(l.input), Rate(l.cached), Rate(l.output));
  }

  lemma {:induction false} LinearGrows(row: Row, t: Tokens, high: bool)
    requires LongIsDearer(row) && Clamped(t)
    ensures Linear(Rates(row, high), t) <= Linear(Rates(row, true), t)
  {
    if !high {
      LinearMono(Rates(row, false), Rates(row, true), t);
    }
  }

  // ---------------------------------------------------------------- the theorems

  lemma {:induction false} TotalIsClamped(ts: seq<Tokens>)
    requires AllClamped(ts)
    ensures Clamped(Total(ts))
    ensures forall i | 0 <= i < |ts| :: ts[i].input <= Total(ts).input
  {
    if ts != [] {
      assert Clamped(ts[0]);
      assert forall i | 0 <= i < |ts| - 1 :: ts[1..][i] == ts[i + 1];
      TotalIsClamped(ts[1..]);
      assert forall i | 0 < i < |ts| :: ts[i] == ts[1..][i - 1];
    }
  }

  /** The sum of requests, all priced at tier `high`. */
  function AtTier(row: Row, ts: seq<Tokens>, high: bool): real {
    if ts == [] then 0.0 else Linear(Rates(row, high), ts[0]) + AtTier(row, ts[1..], high)
  }

  lemma {:induction false} TierIsLinear(row: Row, ts: seq<Tokens>, high: bool)
    ensures AtTier(row, ts, high) == Linear(Rates(row, high), Total(ts))
  {
    if ts != [] {
      TierIsLinear(row, ts[1..], high);
      LinearAdds(Rates(row, high), ts[0], Total(ts[1..]));
    }
  }

  /** If every request is priced at one tier, so is the sum. */
  lemma {:induction false} SameTier(row: Row, ts: seq<Tokens>, high: bool)
    requires AllClamped(ts) && forall i | 0 <= i < |ts| :: IsLong(row, ts[i].input) == high
    ensures PerRequest(row, ts) == AtTier(row, ts, high) / PER_MILLION
  {
    if ts != [] {
      assert Clamped(ts[0]);
      assert forall i | 0 <= i < |ts| - 1 :: ts[1..][i] == ts[i + 1];
      CostIsLinear(row, ts[0]);
      SameTier(row, ts[1..], high);
    }
  }

  lemma {:induction false} AtMostTop(row: Row, ts: seq<Tokens>)
    requires AllClamped(ts) && LongIsDearer(row)
    ensures PerRequest(row, ts) <= AtTier(row, ts, true) / PER_MILLION
  {
    if ts != [] {
      assert Clamped(ts[0]);
      assert forall i | 0 <= i < |ts| - 1 :: ts[1..][i] == ts[i + 1];
      CostIsLinear(row, ts[0]);
      LinearGrows(row, ts[0], IsLong(row, ts[0].input));
      AtMostTop(row, ts[1..]);
    }
  }

  /** The tier can depend on the size of a non-negative request. */
  ghost predicate HasTier(row: Row) {
    row.cutoff.Some? && row.cutoff.value > 0
  }

  /** Without a positive cutoff, per request and in bulk are the same. */
  lemma {:induction false} NoTierIsAdditive(row: Row, ts: seq<Tokens>)
    requires AllClamped(ts) && !HasTier(row)
    ensures PerRequest(row, ts) == Bulk(row, ts)
  {
    var high := IsLong(row, 0);
    TotalIsClamped(ts);
    forall i | 0 <= i < |ts|
      ensures IsLong(row, ts[i].input) == high
    {
      assert Clamped(ts[i]);
    }
    SameTier(row, ts, high);
    TierIsLinear(row, ts, high);
    CostIsLinear(row, Total(ts));
  }

  /** Per-request pricing never exceeds bulk pricing when the long rates are not lower. */
  lemma {:induction false} PerRequestNeverExceedsBulk(row: Row, ts: seq<Tokens>)
    requires AllClamped(ts) && (HasTier(row) ==> LongIsDearer(row))
    ensures PerRequest(row, ts) <= Bulk(row, ts)
  {
    TotalIsClamped(ts);
    if !HasTier(row) {
      NoTierIsAdditive(row, ts);
    } else if IsLong(row, Total(ts).input) {
      AtMostTop(row, ts);
      TierIsLinear(row, ts, true);
      CostIsLinear(row, Total(ts));
    } else {
      forall i | 0 <= i < |ts|
        ensures !IsLong(row, ts[i].input)
      {
        assert ts[i].input <= Total(ts).input;
      }
      SameTier(row, ts, false);
      TierIsLinear(row, ts, false);
      CostIsLinear(row, Total(ts));
    }
  }

  // ------------------------------------------------------------- when it fails

  /** Two requests just at the cutoff: each is priced low, their sum is priced high. */
  lemma {:induction false} TwoAtCutoff(row: Row, cached: int, output: int) returns (ts: seq<Tokens>)
    requires HasTier(row) && 0 <= cached <= row.cutoff.value && 0 <= output
    ensures AllClamped(ts)
    ensures var sum := Tokens(2 * row.cutoff.value, 2 * cached, output);
            && PerRequest(row, ts) == Linear(Rates(row, false), sum) / PER_MILLION
            && Bulk(row, ts) == Linear(Rates(row, true), sum) / PER_MILLION
  {
    var a, b := Tokens(row.cutoff.value, cached, 0), Tokens(row.cutoff.value, cached, output);
    ts := [a, b];
    assert [a, b][1..] == [b] && [b][1..] == [];
    assert Total([b]) == b;
    SameTier(row, [a, b], false);
    TierIsLinear(row, [a, b], false);
    CostIsLinear(row, Total([a, b]));
  }

  lemma {:induction false} Strict(n: real, x: real, y: real)
    requires n > 0.0 && x < y
    ensures n * x < n * y
  {
  }

  lemma {:induction false} InputOnly(rates: Tier, input: int, output: int)
    ensures Linear(rates, Tokens(input, 0, output))
            == input as real * Rate(rates.input) + output as real * Rate(rates.output)
    ensures Linear(rates, Tokens(input, input, 0)) == input as real * Rate(rates.cached)
  {
  }

  /** Token counts at which lower long rates make the sum cheaper. */
  lemma {:induction false} CheaperPoint(b: Tier, l: Tier, c: nat) returns (cached: nat, output: nat)
    requires c > 0
    requires Rate(l.input) < Rate(b.input) || Rate(l.cached) < Rate(b.cached) || Rate(l.output) < Rate(b.output)
    ensures cached <= c
    ensures Linear(l, Tokens(2 * c, 2 * cached, output)) < Linear(b, Tokens(2 * c, 2 * cached, output))
  {
    var n := 2 * c;
    if Rate(l.cached) < Rate(b.cached) {
      cached, output := c, 0;
      InputOnly(b, n, 0);
      InputOnly(l, n, 0);
      Strict(n as real, Rate(l.cached), Rate(b.cached));
    } else {
      cached := 0;
      output := CheaperOutput(n, Rate(b.input), Rate(l.input), Rate(b.output), Rate(l.output));
      InputOnly(b, n, output);
      InputOnly(l, n, output);
    }
  }

  /** If one long rate is lower, some requests cost more one by one than in bulk. */
  lemma {:induction false} CheaperLongFails(row: Row) returns (ts: seq<Tokens>)
    requires HasTier(row) && !LongIsDearer(row)
    ensures AllClamped(ts) && PerRequest(row, ts) > Bulk(row, ts)
  {
    var cached, output := CheaperPoint(Rates(row, false), Rates(row, true), row.cutoff.value);
    ts := TwoAtCutoff(row, cached, output);
  }

  /** Enough output tokens outweigh a dearer input; none are needed for a cheaper one. */
  lemma {:induction false} CheaperOutput(n: nat, bi: real, li: real, bo: real, lo: real) returns (m: nat)
    requires n > 0 && (li < bi || lo < bo)
    ensures n as real * li + m as real * lo < n as real * bi + m as real * bo
  {
    var x := n as real;
    if li < bi {
      m := 0;
      Strict(x, li, bi);
      NoOutput(m, bo, lo);
      SumLess(x * li, m as real * lo, x * bi, m as real * bo);
    } else {
      m := OutputOutweighs(x, bi, li, bo, lo);
    }
  }

  lemma {:induction false} SumLess(a: real, b: real, c: real, d: real)
    requires a < c && b == d
    ensures a + b < c + d
  {
  }

  lemma {:induction false} NoOutput(m: nat, bo: real, lo: real)
    requires m == 0
    ensures m as real * lo == 0.0 == m as real * bo
  {
  }

  lemma {:induction false} OutputOutweighs(x: real, bi: real, li: real, bo: real, lo: real) returns (m: nat)
    requires x >= 0.0 && bi <= li && lo < bo
    ensures x * li + m as real * lo < x * bi + m as real * bo
  {
    Grows(x, bi, li);
    m := EnoughOutput(bo - lo, x * li - x * bi);
    Spread(m as real, bo, lo);
  }

  lemma {:induction false} Spread(x: real, a: real, b: real)
    ensures x * (a - b) == x * a - x * b
  {
  }

  lemma {:induction false} EnoughOutput(gap: real, extra: real) returns (m: nat)
    requires gap > 0.0 && extra >= 0.0
    ensures m as real * gap > extra
  {
    var q := Quotient(gap, extra);
    m := q.Floor + 1;
    Strict(gap, q, m as real);
  }

  lemma {:induction false} Quotient(gap: real, extra: real) returns (q: real)
    requires gap > 0.0 && extra >= 0.0
    ensures q >= 0.0 && gap * q == extra
  {
    q := extra / gap;
    if q < 0.0 {
      Strict(gap, q, 0.0);
    }
  }

  /** Exactly when no list of requests can cost more one by one than in bulk. */
  lemma {:induction false} NeverExceedsIff(row: Row)
    ensures (forall ts | AllClamped(ts) :: PerRequest(row, ts) <= Bulk(row, ts))
            <==> (HasTier(row) ==> LongIsDearer(row))
  {
    if HasTier(row) && !LongIsDearer(row) {
      var ts := CheaperLongFails(row);
    } else {
      forall ts | AllClamped(ts)
        ensures PerRequest(row, ts) <= Bulk(row, ts)
      {
        PerRequestNeverExceedsBulk(row, ts);
      }
    }
  }

  // --------------------------------------------------------------- which rate applies

  /** `r` is the long rate where it applies and is known, or else the base rate, or else
      what is left. */
  ghost predicate PricedAt(high: bool, long: Option<real>, base: Option<real>, otherwise: real, r: real) {
    && (high && long.Some? ==> r == long.value)
    && ((!high || long.None?) && base.Some? ==> r == base.value)
    && ((!high || long.None?) && base.None? ==> r == otherwise)
  }

  /** A request above the cutoff pays the long rates, any other the base rates; a missing
      long rate is the base rate, a missing cached rate the input rate, and what has no rate
      at all is free. Cached tokens are not paid as input again. */
  lemma {:induction false} RatesApply(row: Row, t: Tokens) returns (input: real, cached: real, output: real)
    requires Clamped(t)
    ensures var high := row.cutoff.Some? && row.cutoff.value != 0 && t.input > row.cutoff.value;
            && PricedAt(high, row.long.input, row.base.input, 0.0, input)
            && PricedAt(high, row.long.cached, row.base.cached, input, cached)
            && PricedAt(high, row.long.output, row.base.output, 0.0, output)
    ensures var c := TokenCost(row, t);
            && c.uncachedInput == (t.input - t.cached) as real * input / PER_MILLION
            && c.cachedInput == t.cached as real * cached / PER_MILLION
            && c.output == t.output as real * output / PER_MILLION
            && c.input == c.uncachedInput + c.cachedInput && c.total == c.input + c.output
  {
    var rates := Rates(row, IsLong(row, t.input));
    input, cached, output := Rate(rates.input), Rate(rates.cached), Rate(rates.output);
    AmountIsProduct(t.input - t.cached, rates.input);
    AmountIsProduct(t.cached, rates.cached);
    AmountIsProduct(t.output, rates.output);
  }

  // ------------------------------------------------------- session_cost_summary

  datatype Source = Accumulated | Recomputed

  /** The accumulated sum, unless it is zero while tokens are not. */
  function SessionCost(row: Row, accumulated: real, t: Tokens): (real, Source) {
    if accumulated > 0.0 || t.input + t.output <= 0 then (accumulated, Accumulated)
    else
      var c := TokenCost(row, Clamp(t.input, t.cached, t.output)).total;
      if c != 0.0 then (c, Recomputed) else (accumulated, Accumulated)
  }

  /** The displayed cost of a session priced request by request is that sum, and at most
      what bulk pricing would have shown. */
  lemma {:induction false} SessionShowsPerRequest(row: Row, ts: seq<Tokens>)
    requires AllClamped(ts) && (HasTier(row) ==> LongIsDearer(row)) && PerRequest(row, ts) > 0.0
    ensures SessionCost(row, PerRequest(row, ts), Total(ts)) == (PerRequest(row, ts), Accumulated)
    ensures SessionCost(row, 0.0, Total(ts)) == (Bulk(row, ts), Recomputed)
    ensures Bulk(row, ts) >= PerRequest(row, ts)
  {
    PerRequestNeverExceedsBulk(row, ts);
    TotalIsClamped(ts);
    if Total(ts).input + Total(ts).output <= 0 {
      assert Total(ts) == Tokens(0, 0, 0);
      CostIsLinear(row, Total(ts));
    }
  }
}
