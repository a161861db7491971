/** Equity curves and their drawdown (scripts/run_backtest_local.py `run_backtest`,
    `run_monte_carlo`; tools/analyze_s12_profit_continuation_promotion.py `max_drawdown`), over
    the reals. */
module EquityRisk {
  import opened Common
  import Backtest

  /** Wealth after the first k returns, starting from one. */
  function Equity(r: seq<real>, k: nat): real
    requires k <= |r|
  {
    if k == 0 then 1.0 else Equity(r, k - 1) * (1.0 + r[k - 1])
  }

  lemma {:induction false} EquityOfPrefix(r: seq<real>, s: seq<real>, k: nat)
    requires k <= |r| && k <= |s| && r[..k] == s[..k]
    ensures Equity(r, k) == Equity(s, k)
  {
    if k == 0 {
    } else {
      assert r[k - 1] == r[..k][k - 1] == s[..k][k - 1] == s[k - 1];
      assert r[..k - 1] == r[..k][..k - 1] && s[..k - 1] == s[..k][..k - 1];
      EquityOfPrefix(r, s, k - 1);
    }
  }

  /** One return x turns wealth w into w (1 + x), and the wealth of two runs of returns is the product of theirs. */
  lemma {:induction false} EquityMultiplies(r: seq<real>, s: seq<real>, x: real)
    ensures Equity([x], 1) == 1.0 + x
    ensures Equity(r + s, |r + s|) == Equity(r, |r|) * Equity(s, |s|)
  {
    if s == [] {
      assert r + s == r;
    } else {
      var front, last := s[..|s| - 1], s[|s| - 1];
      EquityMultiplies(r, front, x);
      assert (r + s)[..|r + front|] == (r + front)[..|r + front|];
      EquityOfPrefix(r + s, r + front, |r + front|);
      EquityOfPrefix(s, front, |front|);
      Associates(Equity(r, |r|), Equity(front, |front|), 1.0 + last);
    }
  }

  lemma Associates(x: real, y: real, z: real)
    ensures (x * y) * z == x * (y * z)
  {
  }

  /** Highest wealth after 1 .. k returns; the starting wealth is not part of the curve. */
  function Peak(r: seq<real>, k: nat): real
    requires 1 <= k <= |r|
  {
    if k == 1 then Equity(r, 1) else Max(Peak(r, k - 1), Equity(r, k))
  }

  /** Drawdown of point k, in the form of the backtest ... */
  function Drawdown(r: seq<real>, k: nat): real
    requires 1 <= k <= |r| && Peak(r, k) != 0.0
  {
    (Equity(r, k) - Peak(r, k)) / Peak(r, k)
  }

  /** ... and in the form of the promotion analysis. */
  function RelativeDrawdown(r: seq<real>, k: nat): real
    requires 1 <= k <= |r| && Peak(r, k) != 0.0
  {
    Equity(r, k) / Peak(r, k) - 1.0
  }

  /** No return loses everything. */
  ghost predicate Solvent(r: seq<real>) {
    forall i :: 0 <= i < |r| ==> r[i] > -1.0
  }

  /** No return loses more than everything, and the first does not lose everything. */
  ghost predicate Covered(r: seq<real>) {
    AtLeast(r, -1.0) && (r != [] ==> r[0] > -1.0)
  }

  ghost predicate AtLeast(r: seq<real>, floor: real) {
    forall i :: 0 <= i < |r| ==> r[i] >= floor
  }

  /** No peak of the first k points is zero, so every drawdown is defined. */
  ghost predicate Measured(r: seq<real>, k: nat)
    requires k <= |r|
  {
    forall j :: 1 <= j <= k ==> Peak(r, j) != 0.0
  }

  lemma ProductPositive(x: real, y: real)
    requires x > 0.0 && y > 0.0
    ensures x * y > 0.0
  {
  }

  lemma {:induction false} EquityPositive(r: seq<real>, k: nat)
    requires Solvent(r) && k <= |r|
    ensures Equity(r, k) > 0.0
  {
    if k == 0 {
    } else {
      EquityPositive(r, k - 1);
      ProductPositive(Equity(r, k - 1), 1.0 + r[k - 1]);
    }
  }

  /** The peak is the largest point so far, and one of them. */
  lemma {:induction false} PeakIsMaximum(r: seq<real>, k: nat) returns (i: nat)
    requires 1 <= k <= |r|
    ensures 1 <= i <= k && Peak(r, k) == Equity(r, i)
    ensures forall j :: 1 <= j <= k ==> Equity(r, j) <= Peak(r, k)
  {
    if k == 1 {
      i := 1;
    } else {
      i := PeakIsMaximum(r, k - 1);
      if Peak(r, k) != Peak(r, k - 1) { i := k; }
    }
  }

  lemma {:induction false} EquityNonNegative(r: seq<real>, k: nat)
    requires AtLeast(r, -1.0) && k <= |r|
    ensures Equity(r, k) >= 0.0
  {
    if k == 0 {
    } else {
      EquityNonNegative(r, k - 1);
      ProductNonNegative(Equity(r, k - 1), 1.0 + r[k - 1]);
    }
  }

  lemma PeakPositive(r: seq<real>, k: nat)
    requires Covered(r) && 1 <= k <= |r|
    ensures Peak(r, k) > 0.0
  {
    var i := PeakIsMaximum(r, k);
    assert Equity(r, 1) == 1.0 + r[0];
  }

  lemma CoveredIsMeasured(r: seq<real>, k: nat)
    requires Covered(r) && k <= |r|
    ensures Measured(r, k)
  {
    forall j | 1 <= j <= k ensures Peak(r, j) != 0.0 { PeakPositive(r, j); }
  }

  /** Minimum of the drawdowns of points 1 .. k. */
  function MaxDrawdown(r: seq<real>, k: nat): real
    requires 1 <= k <= |r| && Measured(r, k)
  {
    if k == 1 then Drawdown(r, 1) else Min(MaxDrawdown(r, k - 1), Drawdown(r, k))
  }

  // ---------- drawdown as the worst pair ----------

  /** Growth from point i to point j. */
  function Growth(r: seq<real>, i: nat, j: nat): real
    requires i <= j <= |r|
    decreases j
  {
    if i == j then 1.0 else Growth(r, i, j - 1) * (1.0 + r[j - 1])
  }

  lemma {:induction false} GrowthNonNegative(r: seq<real>, i: nat, j: nat)
    requires AtLeast(r, -1.0) && i <= j <= |r|
    ensures Growth(r, i, j) >= 0.0
    decreases j
  {
    if i == j {
    } else {
      GrowthNonNegative(r, i, j - 1);
      ProductNonNegative(Growth(r, i, j - 1), 1.0 + r[j - 1]);
    }
  }

  lemma {:induction false} EquityGrows(r: seq<real>, i: nat, j: nat)
    requires i <= j <= |r|
    ensures Equity(r, j) == Equity(r, i) * Growth(r, i, j)
    decreases j
  {
    if i == j {
    } else {
      EquityGrows(r, i, j - 1);
      GrowStep(Equity(r, i), Growth(r, i, j - 1), 1.0 + r[j - 1], Equity(r, j - 1));
    }
  }

  lemma GrowStep(x: real, y: real, z: real, xy: real)
    requires xy == x * y
    ensures xy * z == x * (y * z)
  {
  }

  /** A share q of the peak lies in [0, 1], and is positive with a positive equity. */
  lemma ShareRange(q: real, peak: real, equity: real)
    requires peak > 0.0 && 0.0 <= equity <= peak && q * peak == equity
    ensures 0.0 <= q <= 1.0 && (equity > 0.0 ==> q > 0.0)
  {
    SignOf(q, peak);
    SignOf(1.0 - q, peak);
    assert (1.0 - q) * peak == peak - equity;
  }

  lemma SignOf(x: real, y: real)
    requires y > 0.0
    ensures x * y >= 0.0 <==> x >= 0.0
    ensures x * y > 0.0 <==> x > 0.0
  {
  }

  /** The share of the peak is at most the growth from any earlier point, and equals the growth from
      the peak itself. */
  lemma ShareBelowGrowth(q: real, peak: real, start: real, growth: real)
    requires peak > 0.0 && 0.0 <= start <= peak && 0.0 <= q && 0.0 <= growth && q * peak == start * growth
    ensures q <= growth
    ensures start == peak ==> q == growth
  {
    if start == 0.0 {
      SignOf(q, peak);
    } else {
      ProductNonNegative(q, peak - start);
      assert q * (peak - start) == q * peak - q * start;
      assert (growth - q) * start == q * peak - q * start;
      SignOf(growth - q, start);
      if start == peak { SameProduct(q, growth, peak); }
    }
  }

  /** Both forms of drawdown agree and lie in [-1, 0]. */
  lemma RatioRange(equity: real, peak: real)
    requires peak > 0.0 && 0.0 <= equity <= peak
    ensures (equity - peak) / peak == equity / peak - 1.0
    ensures -1.0 <= equity / peak - 1.0 <= 0.0
    ensures equity > 0.0 ==> -1.0 < equity / peak - 1.0
  {
    DivideMinusOne(equity, peak);
    QuotientTimes(equity, peak);
    ShareRange(equity / peak, peak, equity);
  }

  /** They are at most the growth from any earlier point, and equal to that from the peak. */
  lemma RatioGrowth(equity: real, peak: real, start: real, growth: real)
    requires peak > 0.0 && 0.0 <= start <= peak && 0.0 <= equity <= peak && 0.0 <= growth && equity == start * growth
    ensures equity / peak <= growth
    ensures start == peak ==> equity / peak == growth
  {
    QuotientTimes(equity, peak);
    ShareRange(equity / peak, peak, equity);
    ShareBelowGrowth(equity / peak, peak, start, growth);
  }

  lemma DivideMinusOne(x: real, y: real)
    requires y > 0.0
    ensures (x - y) / y == x / y - 1.0
  {
    var q, d := x / y, (x - y) / y;
    QuotientTimes(x, y);
    QuotientTimes(x - y, y);
    assert (q - 1.0) * y == q * y - y;
    SameProduct(d, q - 1.0, y);
  }

  lemma QuotientTimes(x: real, y: real)
    requires y > 0.0
    ensures (x / y) * y == x
  {
  }

  lemma SameProduct(a: real, b: real, y: real)
    requires y > 0.0 && a * y == b * y
    ensures a == b
  {
    assert (a - b) * y == 0.0;
    SignOf(a - b, y);
    SignOf(b - a, y);
  }

  lemma CurveFacts(r: seq<real>, k: nat, j: nat)
    requires Covered(r) && 1 <= j <= k <= |r|
    ensures Peak(r, k) > 0.0 && 0.0 <= Equity(r, j) <= Peak(r, k) && 0.0 <= Equity(r, k) <= Peak(r, k)
    ensures 0.0 <= Growth(r, j, k) && Equity(r, k) == Equity(r, j) * Growth(r, j, k)
  {
    PeakPositive(r, k);
    var i := PeakIsMaximum(r, k);
    EquityNonNegative(r, j);
    EquityNonNegative(r, k);
    GrowthNonNegative(r, j, k);
    EquityGrows(r, j, k);
  }

  lemma DrawdownForms(r: seq<real>, k: nat)
    requires Covered(r) && 1 <= k <= |r|
    ensures Peak(r, k) > 0.0 && Drawdown(r, k) == RelativeDrawdown(r, k)
    ensures -1.0 <= Drawdown(r, k) <= 0.0 && (Equity(r, k) > 0.0 ==> -1.0 < Drawdown(r, k))
  {
    CurveFacts(r, k, k);
    RatioRange(Equity(r, k), Peak(r, k));
  }

  lemma RelativeBound(r: seq<real>, k: nat, j: nat)
    requires Covered(r) && 1 <= j <= k <= |r|
    ensures Peak(r, k) > 0.0 && RelativeDrawdown(r, k) <= Growth(r, j, k) - 1.0
    ensures Equity(r, j) == Peak(r, k) ==> RelativeDrawdown(r, k) == Growth(r, j, k) - 1.0
  {
    CurveFacts(r, k, j);
    RatioGrowth(Equity(r, k), Peak(r, k), Equity(r, j), Growth(r, j, k));
  }

  /** Both forms agree, lie in [-1, 0], bound every pair ending at k, and one pair attains it; with
      no total loss the drawdown is above -1. */
  lemma DrawdownOfPoint(r: seq<real>, k: nat) returns (i: nat)
    requires Covered(r) && 1 <= k <= |r|
    ensures Peak(r, k) > 0.0 && Drawdown(r, k) == RelativeDrawdown(r, k)
    ensures -1.0 <= Drawdown(r, k) <= 0.0 && (Solvent(r) ==> -1.0 < Drawdown(r, k))
    ensures forall j :: 1 <= j <= k ==> Drawdown(r, k) <= Growth(r, j, k) - 1.0
    ensures 1 <= i <= k && Drawdown(r, k) == Growth(r, i, k) - 1.0
  {
    i := PeakIsMaximum(r, k);
    DrawdownForms(r, k);
    RelativeBound(r, k, i);
    forall j | 1 <= j <= k ensures Drawdown(r, k) <= Growth(r, j, k) - 1.0 { RelativeBound(r, k, j); }
    if Solvent(r) { EquityPositive(r, k); }
  }

  /** Maximum drawdown is the worst growth over all pairs i <= j of the curve, it is attained, and
      it lies in [-1, 0]; for returns above -1 it lies in (-1, 0]. */
  lemma {:induction false} DrawdownIsWorstPair(r: seq<real>, n: nat) returns (i: nat, j: nat)
    requires Covered(r) && 1 <= n <= |r|
    ensures Measured(r, n)
    ensures forall a, b :: 1 <= a <= b <= n ==> MaxDrawdown(r, n) <= Growth(r, a, b) - 1.0
    ensures 1 <= i <= j <= n && MaxDrawdown(r, n) == Growth(r, i, j) - 1.0
    ensures -1.0 <= MaxDrawdown(r, n) <= 0.0 && (Solvent(r) ==> -1.0 < MaxDrawdown(r, n))
  {
    CoveredIsMeasured(r, n);
    var k := DrawdownOfPoint(r, n);
    i, j := k, n;
    if n == 1 {
    } else {
      var a, b := DrawdownIsWorstPair(r, n - 1);
      if MaxDrawdown(r, n) != Drawdown(r, n) { i, j := a, b; }
    }
  }

  /** Growth of a pair as a ratio of the curve, the form a reader expects. */
  lemma GrowthIsRatio(r: seq<real>, i: nat, j: nat)
    requires Solvent(r) && i <= j <= |r|
    ensures Equity(r, i) != 0.0 && Growth(r, i, j) == Equity(r, j) / Equity(r, i)
  {
    EquityPositive(r, i);
    EquityGrows(r, i, j);
    QuotientOf(Equity(r, i), Growth(r, i, j), Equity(r, j));
  }

  lemma QuotientOf(x: real, y: real, z: real)
    requires x > 0.0 && z == x * y
    ensures z / x == y
  {
  }

  // ---------- raising returns never deepens the drawdown ----------

  ghost predicate AtMost(r: seq<real>, s: seq<real>) {
    |r| == |s| && forall i :: 0 <= i < |r| ==> r[i] <= s[i]
  }

  lemma {:induction false} GrowthMonotone(r: seq<real>, s: seq<real>, i: nat, j: nat)
    requires AtLeast(r, -1.0) && AtMost(r, s) && i <= j <= |r|
    ensures Growth(r, i, j) <= Growth(s, i, j)
    decreases j
  {
    if i == j {
    } else {
      GrowthMonotone(r, s, i, j - 1);
      GrowthNonNegative(r, i, j - 1);
      ProductMonotone(Growth(r, i, j - 1), Growth(s, i, j - 1), 1.0 + r[j - 1], 1.0 + s[j - 1]);
    }
  }

  lemma ProductMonotone(a: real, b: real, c: real, d: real)
    requires 0.0 <= a <= b && 0.0 <= c <= d
    ensures a * c <= b * d
  {
    ProductNonNegative(b - a, c);
    ProductNonNegative(b, d - c);
    assert b * d - a * c == (b - a) * c + b * (d - c);
  }

  /** Drawdown is monotone in the returns: better returns on every date, no deeper drawdown. */
  lemma DrawdownMonotone(r: seq<real>, s: seq<real>)
    requires Covered(r) && AtMost(r, s) && r != []
    ensures Covered(s) && Measured(r, |r|) && Measured(s, |s|)
    ensures MaxDrawdown(r, |r|) <= MaxDrawdown(s, |s|)
  {
    assert forall i :: 0 <= i < |s| ==> s[i] >= r[i] >= -1.0;
    var i, j := DrawdownIsWorstPair(s, |s|);
    var a, b := DrawdownIsWorstPair(r, |r|);
    GrowthMonotone(r, s, i, j);
  }

  /** Raising the returns r to s does not deepen a drawdown that is defined for both. */
  ghost predicate NoDeeper(r: seq<real>, s: seq<real>)
    requires r != [] && AtMost(r, s)
  {
    Measured(r, |r|) && Measured(s, |s|) ==> MaxDrawdown(r, |r|) <= MaxDrawdown(s, |s|)
  }

  ghost predicate RaisedFrom(floor: real, r: seq<real>, s: seq<real>) {
    r != [] && AtLeast(r, floor) && AtMost(r, s)
  }

  lemma CoveredByFloor(r: seq<real>)
    requires r != [] && AtLeast(r, -1.0) && Measured(r, |r|)
    ensures Covered(r)
  {
    assert Peak(r, 1) == Equity(r, 1) == 1.0 + r[0];
  }

  /** Losing b < -1 first and half next has no drawdown, losing nothing first and half next has one. */
  lemma OverdraftDeepens(b: real)
    requires b < -1.0
    ensures RaisedFrom(b, [b, -0.5], [0.0, -0.5]) && !NoDeeper([b, -0.5], [0.0, -0.5])
  {
    var r, s := [b, -0.5], [0.0, -0.5];
    var w := 1.0 + b;
    assert Equity(r, 0) == 1.0 && Equity(s, 0) == 1.0;
    assert Equity(r, 1) == w && Equity(r, 2) == w * 0.5;
    assert Equity(s, 1) == 1.0 && Equity(s, 2) == 0.5;
    assert Peak(r, 1) == w && Peak(r, 2) == w * 0.5 && Peak(s, 1) == 1.0 && Peak(s, 2) == 1.0;
    assert Drawdown(r, 1) == 0.0 && Drawdown(r, 2) == 0.0 && Drawdown(s, 2) == -0.5;
    assert MaxDrawdown(r, 1) == 0.0 && MaxDrawdown(r, 2) == 0.0;
  }

  /** Exactly when better returns can be relied on not to deepen the drawdown: a floor under the
      returns guarantees it if and only if the floor is at least -1. */
  lemma DrawdownMonotoneExactly(floor: real)
    ensures (forall r, s :: RaisedFrom(floor, r, s) ==> NoDeeper(r, s)) <==> floor >= -1.0
  {
    if floor >= -1.0 {
      forall r, s | RaisedFrom(floor, r, s) ensures NoDeeper(r, s) {
        if Measured(r, |r|) {
          CoveredByFloor(r);
          DrawdownMonotone(r, s);
        }
      }
    } else {
      OverdraftDeepens(floor);
    }
  }

  // ---------- Monte Carlo permutations ----------

  /** Final wealth as a product over the whole list. */
  function Wealth(r: seq<real>): real {
    if r == [] then 1.0 else Wealth(r[..|r| - 1]) * (1.0 + r[|r| - 1])
  }

  lemma {:induction false} WealthIsFinalEquity(r: seq<real>)
    ensures Wealth(r) == Equity(r, |r|)
  {
    if r == [] {
    } else {
      WealthIsFinalEquity(r[..|r| - 1]);
      EquityPrefix(r, r[..|r| - 1], |r| - 1);
    }
  }

  lemma {:induction false} WealthRemove(r: seq<real>, i: nat)
    requires i < |r|
    ensures Wealth(r) == Wealth(RemoveAt(r, i)) * (1.0 + r[i])
  {
    if i == |r| - 1 {
      assert RemoveAt(r, i) == r[..i];
    } else {
      RemoveBeforeLast(r, i);
      WealthRemove(r[..|r| - 1], i);
      SwapFactors(Wealth(RemoveAt(r[..|r| - 1], i)), 1.0 + r[i], 1.0 + r[|r| - 1],
                  Wealth(r[..|r| - 1]), Wealth(RemoveAt(r, i)));
    }
  }

  lemma SwapFactors(e: real, x: real, y: real, ex: real, ey: real)
    requires ex == e * x && ey == e * y
    ensures ex * y == ey * x
  {
  }

  lemma {:induction false} EquityPrefix(r: seq<real>, s: seq<real>, k: nat)
    requires k <= |r| && k <= |s| && r[..k] == s[..k]
    ensures Equity(r, k) == Equity(s, k)
  {
    if k == 0 {
    } else {
      assert r[..k][..k - 1] == r[..k - 1] && s[..k][..k - 1] == s[..k - 1];
      assert r[k - 1] == r[..k][k - 1] && s[k - 1] == s[..k][k - 1];
      EquityPrefix(r, s, k - 1);
    }
  }

  lemma {:induction false} PermutationKeepsWealth(r: seq<real>, s: seq<real>)
    requires multiset(r) == multiset(s)
    ensures Wealth(r) == Wealth(s)
  {
    assert |multiset(r)| == |r| && |multiset(s)| == |s|;
    if r == [] {
    } else {
      var i := MatchLast(r, s);
      PermutationKeepsWealth(r[..|r| - 1], RemoveAt(s, i));
      WealthRemove(s, i);
    }
  }

  /** Every permutation of the returns ends at the same wealth. */
  lemma PermutationKeepsFinalEquity(r: seq<real>, s: seq<real>)
    requires multiset(r) == multiset(s)
    ensures |r| == |s| && Equity(r, |r|) == Equity(s, |s|)
  {
    assert |multiset(r)| == |r| && |multiset(s)| == |s|;
    PermutationKeepsWealth(r, s);
    WealthIsFinalEquity(r);
    WealthIsFinalEquity(s);
  }

  lemma SolventPermutation(r: seq<real>, s: seq<real>)
    requires Solvent(r) && multiset(r) == multiset(s)
    ensures Solvent(s)
  {
    forall i | 0 <= i < |s| ensures s[i] > -1.0 {
      assert s[i] in multiset(s);
      assert s[i] in r;
    }
  }

  /** `run_monte_carlo` on given shuffles: one drawdown per shuffle, each the worst growth over
      all pairs of its own curve, while the final wealth is that of the original order. */
  method RunMonteCarlo(pnl: seq<real>, shuffles: seq<seq<real>>) returns (drawdowns: seq<real>)
    requires pnl != [] && Solvent(pnl)
    requires forall i :: 0 <= i < |shuffles| ==> multiset(shuffles[i]) == multiset(pnl)
    ensures |drawdowns| == |shuffles|
    ensures forall i :: 0 <= i < |shuffles| ==> Simulated(pnl, shuffles[i], drawdowns[i])
  {
    drawdowns := [];
    for n := 0 to |shuffles|
      invariant |drawdowns| == n
      invariant forall i :: 0 <= i < n ==> Simulated(pnl, shuffles[i], drawdowns[i])
    {
      SimulationFacts(pnl, shuffles[n]);
      drawdowns := drawdowns + [MaxDrawdown(shuffles[n], |shuffles[n]|)];
    }
  }

  /** Drawdown d of one shuffle s of the returns r. */
  ghost predicate Simulated(r: seq<real>, s: seq<real>, d: real) {
    && |s| == |r| && Equity(s, |s|) == Equity(r, |r|) && -1.0 < d <= 0.0
    && (forall a, b :: 1 <= a <= b <= |s| ==> d <= Growth(s, a, b) - 1.0)
    && (exists a, b :: 1 <= a <= b <= |s| && d == Growth(s, a, b) - 1.0)
  }

  lemma SimulationFacts(r: seq<real>, s: seq<real>)
    requires r != [] && Solvent(r) && multiset(s) == multiset(r)
    ensures Solvent(s) && s != [] && Measured(s, |s|) && Simulated(r, s, MaxDrawdown(s, |s|))
  {
    SolventPermutation(r, s);
    PermutationKeepsFinalEquity(s, r);
    var i, j := DrawdownIsWorstPair(s, |s|);
  }

  // ---------- the returns of the simulator ----------

  /** Sound bars cannot produce a total loss, so everything above applies to the returns of the
      trade simulator. */
  lemma SimulatedReturnsSolvent(bars: seq<Backtest.Bar>, p: Backtest.Params, trades: seq<Backtest.Trade>,
                                pnl: seq<real>)
    requires Backtest.Sound(bars) && Backtest.Priced(bars)
    requires p.slMult >= 0.0 && p.tpMult >= 0.0 && p.timeStop >= 1
    requires trades == Backtest.Simulate(bars, p) && Backtest.PnlColumn(trades, pnl)
    ensures |pnl| == |trades| && Solvent(pnl)
  {
    forall k | 0 <= k < |pnl| ensures pnl[k] > -1.0 {
      Backtest.SimulatedTrade(bars, p, k);
    }
  }
}
