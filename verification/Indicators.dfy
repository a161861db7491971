/** scripts/backfill.ts: the indicator helpers and the per-prefix backfill loop, over the reals.
    The loop recomputes every indicator from the first day for each day; the results here show
    that this is the same as carrying a constant amount of state from one day to the next. */
module Indicators {
  import opened Common

  // ---------- sums over index ranges ----------

  /** s[lo] + ... + s[hi - 1]. */
  function RangeSum(s: seq<real>, lo: nat, hi: nat): real
    requires lo <= hi <= |s|
    decreases hi
  {
    if lo == hi then 0.0 else RangeSum(s, lo, hi - 1) + s[hi - 1]
  }

  lemma {:induction false} RangeSumSame(s: seq<real>, t: seq<real>, lo: nat, hi: nat)
    requires lo <= hi <= |s| && hi <= |t| && forall i :: lo <= i < hi ==> s[i] == t[i]
    ensures RangeSum(s, lo, hi) == RangeSum(t, lo, hi)
    decreases hi
  {
    if lo == hi {
    } else {
      RangeSumSame(s, t, lo, hi - 1);
    }
  }

  /** A sum over a slice is a sum over the range it covers. */
  lemma {:induction false} SliceSum(s: seq<real>, lo: nat, hi: nat)
    requires lo <= hi <= |s|
    ensures Sum(s[lo..hi]) == RangeSum(s, lo, hi)
    decreases hi
  {
    if lo == hi {
    } else {
      SliceSum(s, lo, hi - 1);
      assert s[lo..hi][..hi - lo - 1] == s[lo..hi - 1];
    }
  }

  lemma {:induction false} RangeSumFront(s: seq<real>, lo: nat, hi: nat)
    requires lo < hi <= |s|
    ensures RangeSum(s, lo, hi) == s[lo] + RangeSum(s, lo + 1, hi)
    decreases hi
  {
    if lo + 1 < hi { RangeSumFront(s, lo, hi - 1); }
  }

  lemma {:induction false} RangeSumNonNegative(s: seq<real>, lo: nat, hi: nat)
    requires lo <= hi <= |s| && forall i :: lo <= i < hi ==> s[i] >= 0.0
    ensures RangeSum(s, lo, hi) >= 0.0
    decreases hi
  {
    if lo == hi {
    } else {
      RangeSumNonNegative(s, lo, hi - 1);
    }
  }

  // ---------- sma ----------

  /** Mean of the last n values, or nothing when there are fewer. */
  function Sma(arr: seq<real>, n: nat): Option<real>
    requires n >= 1
  {
    if |arr| < n then None else Some(Sum(arr[|arr| - n..]) / n as real)
  }

  /** The average of the n days before day k. */
  function SmaAt(closes: seq<real>, n: nat, k: nat): Option<real>
    requires n >= 1 && k <= |closes|
  {
    if k < n then None else Some(RangeSum(closes, k - n, k) / n as real)
  }

  lemma SmaIsRange(arr: seq<real>, n: nat)
    requires n >= 1
    ensures Sma(arr, n) == SmaAt(arr, n, |arr|)
  {
    if |arr| >= n {
      assert arr[|arr| - n..] == arr[|arr| - n..|arr|];
      SliceSum(arr, |arr| - n, |arr|);
    }
  }

  // ---------- ema ----------

  function Smoothing(n: nat): real { 2.0 / (n + 1) as real }

  /** One step of an exponential average with weight k. */
  function Blend(previous: real, x: real, k: real): real {
    x * k + previous * (1.0 - k)
  }

  /** Value i of the exponential average. */
  function Ema(arr: seq<real>, n: nat, i: nat): real
    requires i < |arr|
  {
    if i == 0 then arr[0] else Blend(Ema(arr, n, i - 1), arr[i], Smoothing(n))
  }

  method EmaList(arr: seq<real>, n: nat) returns (result: seq<real>)
    requires arr != []
    ensures |result| == |arr| && forall i :: 0 <= i < |arr| ==> result[i] == Ema(arr, n, i)
  {
    var k := Smoothing(n);
    result := [arr[0]];
    var i := 1;
    while i < |arr|
      invariant 1 <= i <= |arr| && |result| == i
      invariant forall j :: 0 <= j < i ==> result[j] == Ema(arr, n, j)
    {
      result := result + [Blend(result[i - 1], arr[i], k)];
      i := i + 1;
    }
  }

  lemma {:induction false} EmaSame(s: seq<real>, t: seq<real>, n: nat, i: nat)
    requires i < |s| && i < |t| && forall j :: 0 <= j <= i ==> s[j] == t[j]
    ensures Ema(s, n, i) == Ema(t, n, i)
  {
    if i == 0 {
    } else {
      EmaSame(s, t, n, i - 1);
    }
  }

  /** Value i depends on the first i + 1 inputs only. */
  lemma EmaPrefixStable(arr: seq<real>, more: seq<real>, n: nat, i: nat)
    requires i < |arr|
    ensures Ema(arr + more, n, i) == Ema(arr, n, i)
  {
  }

  lemma SmoothingRange(n: nat)
    requires n >= 1
    ensures 0.0 < Smoothing(n) <= 1.0
  {
  }

  lemma BlendWithin(x: real, y: real, k: real, lo: real, hi: real)
    requires 0.0 < k <= 1.0 && lo <= x <= hi && lo <= y <= hi
    ensures lo <= Blend(y, x, k) <= hi
  {
    ScaleWithin(x, k, lo, hi);
    ProductNonNegative(y - lo, 1.0 - k);
    ProductNonNegative(hi - y, 1.0 - k);
    assert (y - lo) * (1.0 - k) == y * (1.0 - k) - lo + lo * k;
    assert (hi - y) * (1.0 - k) == hi - hi * k - y * (1.0 - k);
  }

  lemma ScaleWithin(x: real, k: real, lo: real, hi: real)
    requires 0.0 <= k && lo <= x <= hi
    ensures lo * k <= x * k <= hi * k
  {
  }

  /** The exponential average stays within any bounds its inputs stay within. */
  lemma {:induction false} EmaWithin(arr: seq<real>, n: nat, i: nat, lo: real, hi: real)
    requires n >= 1 && i < |arr| && forall j :: 0 <= j <= i ==> lo <= arr[j] <= hi
    ensures lo <= Ema(arr, n, i) <= hi
  {
    if i == 0 {
    } else {
      EmaWithin(arr, n, i - 1, lo, hi);
      SmoothingRange(n);
      BlendWithin(arr[i], Ema(arr, n, i - 1), Smoothing(n), lo, hi);
    }
  }

  // ---------- RSI ----------

  /** Rise of day i over the day before, and its fall. */
  function Gain(closes: seq<real>, i: nat): real
    requires i < |closes|
  {
    if i > 0 && closes[i] - closes[i - 1] > 0.0 then closes[i] - closes[i - 1] else 0.0
  }

  function Loss(closes: seq<real>, i: nat): real
    requires i < |closes|
  {
    if i > 0 && closes[i] - closes[i - 1] <= 0.0 then closes[i - 1] - closes[i] else 0.0
  }

  function Gains(closes: seq<real>): (r: seq<real>)
    ensures |r| == |closes|
  {
    seq(|closes|, i requires 0 <= i < |closes| => Gain(closes, i))
  }

  function Losses(closes: seq<real>): (r: seq<real>)
    ensures |r| == |closes|
  {
    seq(|closes|, i requires 0 <= i < |closes| => Loss(closes, i))
  }

  /** RSI from the two sums over fourteen days. */
  function Rsi(gains: real, losses: real): real
    requires gains >= 0.0 && losses >= 0.0
  {
    var avgG, avgL := gains / 14.0, losses / 14.0;
    if avgL == 0.0 then 100.0
    else
      RatioPositive(avgG, avgL);
      100.0 - 100.0 / (1.0 + avgG / avgL)
  }

  lemma RatioPositive(g: real, l: real)
    requires g >= 0.0 && l > 0.0
    ensures g / l >= 0.0
  {
  }

  /** RSI is the share of the gains in all movement: it lies in [0, 100], is 100 exactly without
      losses, and is 0 exactly with losses and no gains. */
  lemma RsiMeaning(gains: real, losses: real)
    requires gains >= 0.0 && losses >= 0.0
    ensures 0.0 <= Rsi(gains, losses) <= 100.0
    ensures losses > 0.0 ==> Rsi(gains, losses) * (gains + losses) == 100.0 * gains
    ensures Rsi(gains, losses) == 100.0 <==> losses == 0.0
    ensures Rsi(gains, losses) == 0.0 <==> losses > 0.0 && gains == 0.0
  {
  }

  // ---------- ATR and the bands ----------

  /** True range of day i; the first day has none. */
  function RangeOfDay(closes: seq<real>, highs: seq<real>, lows: seq<real>, i: nat): real
    requires i < |closes| == |highs| == |lows|
  {
    if i == 0 then 0.0 else TrueRange(highs[i], lows[i], closes[i - 1])
  }

  function TrueRanges(closes: seq<real>, highs: seq<real>, lows: seq<real>): (r: seq<real>)
    requires |closes| == |highs| == |lows|
    ensures |r| == |closes|
  {
    seq(|closes|, i requires 0 <= i < |closes| => RangeOfDay(closes, highs, lows, i))
  }

  function Squares(s: seq<real>): (r: seq<real>)
    ensures |r| == |s|
  {
    seq(|s|, i requires 0 <= i < |s| => s[i] * s[i])
  }

  /** Squared distances from a mean. */
  function Deviations(s: seq<real>, mean: real): (r: seq<real>)
    ensures |r| == |s|
  {
    seq(|s|, i requires 0 <= i < |s| => (s[i] - mean) * (s[i] - mean))
  }

  // ---------- one row ----------

  datatype Macd = Macd(line: real, signal: real, hist: real)

  /** Middle band and the variance whose root gives the band width. */
  datatype Bands = Bands(mid: real, variance: real)

  datatype Row = Row(ma5: Option<real>, ma10: Option<real>, ma20: Option<real>, ma60: Option<real>,
                     rsi14: Option<real>, macd: Option<Macd>, bands: Option<Bands>, atr14: Option<real>)

  function MacdLine(closes: seq<real>, i: nat): real
    requires i < |closes|
  {
    Ema(closes, 12, i) - Ema(closes, 26, i)
  }

  /** Signal on day i: a nine-day average of the line, started on day 25. */
  function Signal(closes: seq<real>, i: nat): real
    requires 25 <= i < |closes|
  {
    if i == 25 then MacdLine(closes, 25)
    else Blend(Signal(closes, i - 1), MacdLine(closes, i), Smoothing(9))
  }

  lemma GainsNonNegative(closes: seq<real>, lo: nat, hi: nat)
    requires lo <= hi <= |closes|
    ensures RangeSum(Gains(closes), lo, hi) >= 0.0 && RangeSum(Losses(closes), lo, hi) >= 0.0
  {
  }

  function RsiAt(closes: seq<real>, k: nat): Option<real>
    requires k <= |closes|
  {
    if k < 15 then None
    else
      GainsNonNegative(closes, k - 14, k);
      Some(Rsi(RangeSum(Gains(closes), k - 14, k), RangeSum(Losses(closes), k - 14, k)))
  }

  function MacdAt(closes: seq<real>, k: nat): Option<Macd>
    requires k <= |closes|
  {
    if k < 35 then None
    else
      var line, signal := MacdLine(closes, k - 1), Signal(closes, k - 1);
      Some(Macd(line, signal, line - signal))
  }

  function BandsAt(closes: seq<real>, k: nat): Option<Bands>
    requires k <= |closes|
  {
    if k < 20 then None
    else
      var mean := RangeSum(closes, k - 20, k) / 20.0;
      Some(Bands(mean, RangeSum(Deviations(closes, mean), k - 20, k) / 20.0))
  }

  function AtrAt(closes: seq<real>, highs: seq<real>, lows: seq<real>, k: nat): Option<real>
    requires k <= |closes| == |highs| == |lows|
  {
    if k < 15 then None else Some(RangeSum(TrueRanges(closes, highs, lows), k - 14, k) / 14.0)
  }

  /** The indicators of day k of a history. */
  function RowAt(closes: seq<real>, highs: seq<real>, lows: seq<real>, k: nat): Row
    requires k <= |closes| == |highs| == |lows|
  {
    Row(SmaAt(closes, 5, k), SmaAt(closes, 10, k), SmaAt(closes, 20, k), SmaAt(closes, 60, k),
        RsiAt(closes, k), MacdAt(closes, k), BandsAt(closes, k), AtrAt(closes, highs, lows, k))
  }

  // ---------- computeIndicators ----------

  method RsiLoop(closes: seq<real>) returns (rsi14: Option<real>)
    ensures rsi14 == RsiAt(closes, |closes|)
  {
    rsi14 := None;
    if |closes| >= 15 {
      var gains, losses := 0.0, 0.0;
      var first := |closes| - 14;
      var i := first;
      while i < |closes|
        invariant first <= i <= |closes|
        invariant gains == RangeSum(Gains(closes), first, i)
        invariant losses == RangeSum(Losses(closes), first, i)
      {
        var d := closes[i] - closes[i - 1];
        if d > 0.0 { gains := gains + d; } else { losses := losses - d; }
        i := i + 1;
      }
      GainsNonNegative(closes, first, |closes|);
      rsi14 := Some(Rsi(gains, losses));
    }
  }

  /** The nine-day average of the sliced line is the signal of the history. */
  lemma {:induction false} SignalOfSlice(closes: seq<real>, line: seq<real>, j: nat)
    requires |line| + 25 == |closes| && j < |line|
    requires forall i :: 0 <= i < |line| ==> line[i] == MacdLine(closes, i + 25)
    ensures Ema(line, 9, j) == Signal(closes, j + 25)
  {
    if j == 0 {
    } else {
      SignalOfSlice(closes, line, j - 1);
    }
  }

  method MacdLoop(closes: seq<real>) returns (macd: Option<Macd>)
    ensures macd == MacdAt(closes, |closes|)
  {
    macd := None;
    if |closes| >= 35 {
      var e12 := EmaList(closes, 12);
      var e26 := EmaList(closes, 26);
      var all := seq(|e12|, i requires 0 <= i < |e12| && |e26| == |e12| => e12[i] - e26[i]);
      var macdLine := all[25..];
      var sigLine := EmaList(macdLine, 9);
      SignalOfSlice(closes, macdLine, |macdLine| - 1);
      var line, signal := macdLine[|macdLine| - 1], sigLine[|sigLine| - 1];
      macd := Some(Macd(line, signal, line - signal));
    }
  }

  lemma DeviationsOfSlice(s: seq<real>, lo: nat, hi: nat, mean: real)
    requires lo <= hi <= |s|
    ensures Sum(Deviations(s[lo..hi], mean)) == RangeSum(Deviations(s, mean), lo, hi)
  {
    var part, whole := Deviations(s[lo..hi], mean), Deviations(s, mean);
    forall i | 0 <= i < hi - lo ensures part[i] == whole[lo..hi][i] {
      assert s[lo..hi][i] == s[lo + i];
      assert whole[lo..hi][i] == whole[lo + i];
    }
    assert part == whole[lo..hi];
    SliceSum(Deviations(s, mean), lo, hi);
  }

  method BandsOf(closes: seq<real>) returns (bands: Option<Bands>)
    ensures bands == BandsAt(closes, |closes|)
  {
    bands := None;
    if |closes| >= 20 {
      var sl := closes[|closes| - 20..];
      assert sl == closes[|closes| - 20..|closes|];
      var mean := Sum(sl) / 20.0;
      SliceSum(closes, |closes| - 20, |closes|);
      DeviationsOfSlice(closes, |closes| - 20, |closes|, mean);
      bands := Some(Bands(mean, Sum(Deviations(sl, mean)) / 20.0));
    }
  }

  lemma SliceSnoc(s: seq<real>, lo: nat, hi: nat)
    requires lo <= hi < |s|
    ensures s[lo..hi + 1] == s[lo..hi] + [s[hi]]
  {
  }

  method AtrLoop(closes: seq<real>, highs: seq<real>, lows: seq<real>) returns (atr14: Option<real>)
    requires |closes| == |highs| == |lows|
    ensures atr14 == AtrAt(closes, highs, lows, |closes|)
  {
    atr14 := None;
    if |highs| >= 15 {
      ghost var ranges := TrueRanges(closes, highs, lows);
      var trs: seq<real> := [];
      var first := |highs| - 14;
      var i := first;
      while i < |highs|
        invariant first <= i <= |highs|
        invariant trs == ranges[first..i]
      {
        var range := TrueRange(highs[i], lows[i], closes[i - 1]);
        assert range == ranges[i];
        SliceSnoc(ranges, first, i);
        trs := trs + [range];
        i := i + 1;
      }
      SliceSum(ranges, first, |highs|);
      atr14 := Some(Sum(trs) / 14.0);
    }
  }

  method ComputeIndicators(closes: seq<real>, highs: seq<real>, lows: seq<real>) returns (row: Row)
    requires |closes| == |highs| == |lows|
    ensures row == RowAt(closes, highs, lows, |closes|)
  {
    SmaIsRange(closes, 5);
    SmaIsRange(closes, 10);
    SmaIsRange(closes, 20);
    SmaIsRange(closes, 60);
    var rsi14 := RsiLoop(closes);
    var macd := MacdLoop(closes);
    var bands := BandsOf(closes);
    var atr14 := AtrLoop(closes, highs, lows);
    row := Row(Sma(closes, 5), Sma(closes, 10), Sma(closes, 20), Sma(closes, 60), rsi14, macd, bands, atr14);
  }

  // ---------- the per-prefix loop ----------

  datatype Bar = Bar(date: int, close: real, high: real, low: real)
  datatype Dated = Dated(date: int, row: Row)

  function Closes(bars: seq<Bar>): (r: seq<real>)
    ensures |r| == |bars|
  {
    seq(|bars|, i requires 0 <= i < |bars| => bars[i].close)
  }

  function Highs(bars: seq<Bar>): (r: seq<real>)
    ensures |r| == |bars|
  {
    seq(|bars|, i requires 0 <= i < |bars| => bars[i].high)
  }

  function Lows(bars: seq<Bar>): (r: seq<real>)
    ensures |r| == |bars|
  {
    seq(|bars|, i requires 0 <= i < |bars| => bars[i].low)
  }

  /** Row k of the whole history, as opposed to row k of its own prefix. */
  function DayRow(bars: seq<Bar>, k: nat): Dated
    requires 1 <= k <= |bars|
  {
    Dated(bars[k - 1].date, RowAt(Closes(bars), Highs(bars), Lows(bars), k))
  }

  ghost predicate Agree(s: seq<real>, t: seq<real>, k: nat) {
    k <= |s| && k <= |t| && forall i :: 0 <= i < k ==> s[i] == t[i]
  }

  lemma SmaSame(s: seq<real>, t: seq<real>, n: nat, k: nat)
    requires n >= 1 && Agree(s, t, k)
    ensures SmaAt(s, n, k) == SmaAt(t, n, k)
  {
    if k >= n { RangeSumSame(s, t, k - n, k); }
  }

  lemma RsiSame(s: seq<real>, t: seq<real>, k: nat)
    requires Agree(s, t, k)
    ensures RsiAt(s, k) == RsiAt(t, k)
  {
    if k >= 15 {
      RangeSumSame(Gains(s), Gains(t), k - 14, k);
      RangeSumSame(Losses(s), Losses(t), k - 14, k);
    }
  }

  lemma {:induction false} SignalSame(s: seq<real>, t: seq<real>, i: nat)
    requires 25 <= i && Agree(s, t, i + 1)
    ensures Signal(s, i) == Signal(t, i)
  {
    EmaSame(s, t, 12, i);
    EmaSame(s, t, 26, i);
    if i == 25 {
    } else {
      SignalSame(s, t, i - 1);
    }
  }

  lemma MacdSame(s: seq<real>, t: seq<real>, k: nat)
    requires Agree(s, t, k)
    ensures MacdAt(s, k) == MacdAt(t, k)
  {
    if k >= 35 {
      EmaSame(s, t, 12, k - 1);
      EmaSame(s, t, 26, k - 1);
      SignalSame(s, t, k - 1);
    }
  }

  lemma BandsSame(s: seq<real>, t: seq<real>, k: nat)
    requires Agree(s, t, k)
    ensures BandsAt(s, k) == BandsAt(t, k)
  {
    if k >= 20 {
      RangeSumSame(s, t, k - 20, k);
      var mean := RangeSum(s, k - 20, k) / 20.0;
      RangeSumSame(Deviations(s, mean), Deviations(t, mean), k - 20, k);
    }
  }

  lemma AtrSame(c: seq<real>, h: seq<real>, l: seq<real>, c2: seq<real>, h2: seq<real>, l2: seq<real>, k: nat)
    requires |c| == |h| == |l| && |c2| == |h2| == |l2|
    requires Agree(c, c2, k) && Agree(h, h2, k) && Agree(l, l2, k)
    ensures AtrAt(c, h, l, k) == AtrAt(c2, h2, l2, k)
  {
    if k >= 15 { RangeSumSame(TrueRanges(c, h, l), TrueRanges(c2, h2, l2), k - 14, k); }
  }

  /** Row k depends on the first k days only. */
  lemma RowSame(c: seq<real>, h: seq<real>, l: seq<real>, c2: seq<real>, h2: seq<real>, l2: seq<real>, k: nat)
    requires |c| == |h| == |l| && |c2| == |h2| == |l2|
    requires Agree(c, c2, k) && Agree(h, h2, k) && Agree(l, l2, k)
    ensures RowAt(c, h, l, k) == RowAt(c2, h2, l2, k)
  {
    SmaSame(c, c2, 5, k);
    SmaSame(c, c2, 10, k);
    SmaSame(c, c2, 20, k);
    SmaSame(c, c2, 60, k);
    RsiSame(c, c2, k);
    MacdSame(c, c2, k);
    BandsSame(c, c2, k);
    AtrSame(c, h, l, c2, h2, l2, k);
  }

  lemma PrefixRow(bars: seq<Bar>, k: nat)
    requires k <= |bars|
    ensures RowAt(Closes(bars[..k]), Highs(bars[..k]), Lows(bars[..k]), k)
         == RowAt(Closes(bars), Highs(bars), Lows(bars), k)
  {
    RowSame(Closes(bars[..k]), Highs(bars[..k]), Lows(bars[..k]), Closes(bars), Highs(bars), Lows(bars), k);
  }

  /** Later days never change a row already written. */
  lemma RowsAreNeverRewritten(bars: seq<Bar>, more: seq<Bar>, k: nat)
    requires 1 <= k <= |bars|
    ensures DayRow(bars + more, k) == DayRow(bars, k)
  {
    var all := bars + more;
    RowSame(Closes(bars), Highs(bars), Lows(bars), Closes(all), Highs(all), Lows(all), k);
  }

  // ---------- the one-pass computation ----------

  /** All that has to be carried from day to day: two averages, the signal, and one sum per
      sliding window. */
  datatype Running = Running(e12: real, e26: real, signal: real, s5: real, s10: real, s20: real, s60: real,
                             squares: real, gains: real, losses: real, ranges: real)

  /** Moves a window of n values one day on: day k enters, day k - n leaves. */
  function Slide(sum: real, s: seq<real>, k: nat, n: nat): real
    requires k < |s|
  {
    sum + s[k] - (if k >= n then s[k - n] else 0.0)
  }

  /** One day's work, at index k. */
  function Advance(r: Running, c: seq<real>, h: seq<real>, l: seq<real>, k: nat): Running
    requires k < |c| == |h| == |l|
  {
    var e12 := if k == 0 then c[0] else Blend(r.e12, c[k], Smoothing(12));
    var e26 := if k == 0 then c[0] else Blend(r.e26, c[k], Smoothing(26));
    var signal := if k <= 25 then e12 - e26 else Blend(r.signal, e12 - e26, Smoothing(9));
    Running(e12, e26, signal,
            Slide(r.s5, c, k, 5), Slide(r.s10, c, k, 10), Slide(r.s20, c, k, 20), Slide(r.s60, c, k, 60),
            Slide(r.squares, Squares(c), k, 20),
            Slide(r.gains, Gains(c), k, 14), Slide(r.losses, Losses(c), k, 14),
            Slide(r.ranges, TrueRanges(c, h, l), k, 14))
  }

  function Pass(c: seq<real>, h: seq<real>, l: seq<real>, k: nat): Running
    requires k <= |c| == |h| == |l|
  {
    if k == 0 then Running(0.0, 0.0, 0.0, 0.0, 0.0, 0.0, 0.0, 0.0, 0.0, 0.0, 0.0)
    else Advance(Pass(c, h, l, k - 1), c, h, l, k - 1)
  }

  function SmaOfPass(sum: real, n: nat, k: nat): Option<real>
    requires n >= 1
  {
    if k < n then None else Some(sum / n as real)
  }

  function RsiOfPass(r: Running, k: nat): Option<real> {
    if k < 15 || r.gains < 0.0 || r.losses < 0.0 then None else Some(Rsi(r.gains, r.losses))
  }

  function MacdOfPass(r: Running, k: nat): Option<Macd> {
    if k < 35 then None else Some(Macd(r.e12 - r.e26, r.signal, r.e12 - r.e26 - r.signal))
  }

  /** Mean square minus squared mean. */
  function Variance(squares: real, sum: real): real {
    squares / 20.0 - (sum / 20.0) * (sum / 20.0)
  }

  function BandsOfPass(r: Running, k: nat): Option<Bands> {
    if k < 20 then None else Some(Bands(r.s20 / 20.0, Variance(r.squares, r.s20)))
  }

  function AtrOfPass(r: Running, k: nat): Option<real> {
    if k < 15 then None else Some(r.ranges / 14.0)
  }

  /** The row a running state stands for after k days. */
  function RowOf(r: Running, k: nat): Row {
    Row(SmaOfPass(r.s5, 5, k), SmaOfPass(r.s10, 10, k), SmaOfPass(r.s20, 20, k), SmaOfPass(r.s60, 60, k),
        RsiOfPass(r, k), MacdOfPass(r, k), BandsOfPass(r, k), AtrOfPass(r, k))
  }

  /** First index of the window of n days before day k. */
  function Start(k: nat, n: nat): nat { if k < n then 0 else k - n }

  function Window(s: seq<real>, k: nat, n: nat): real
    requires k <= |s|
  {
    RangeSum(s, Start(k, n), k)
  }

  lemma SlideIsWindow(s: seq<real>, k: nat, n: nat)
    requires n >= 1 && k < |s|
    ensures Slide(Window(s, k, n), s, k, n) == Window(s, k + 1, n)
  {
    if k >= n { RangeSumFront(s, k - n, k + 1); }
  }

  /** What the carried state stands for after k days. */
  ghost predicate Carries(r: Running, c: seq<real>, h: seq<real>, l: seq<real>, k: nat)
    requires k <= |c| == |h| == |l|
  {
    && r.s5 == Window(c, k, 5) && r.s10 == Window(c, k, 10) && r.s20 == Window(c, k, 20) && r.s60 == Window(c, k, 60)
    && r.squares == Window(Squares(c), k, 20)
    && r.gains == Window(Gains(c), k, 14) && r.losses == Window(Losses(c), k, 14)
    && r.ranges == Window(TrueRanges(c, h, l), k, 14)
    && (k > 0 ==> r.e12 == Ema(c, 12, k - 1) && r.e26 == Ema(c, 26, k - 1))
    && (k > 25 ==> r.signal == Signal(c, k - 1))
  }

  lemma AdvanceWindows(r: Running, c: seq<real>, h: seq<real>, l: seq<real>, k: nat)
    requires k < |c| == |h| == |l| && Carries(r, c, h, l, k)
    ensures var s := Advance(r, c, h, l, k);
            && s.s5 == Window(c, k + 1, 5) && s.s10 == Window(c, k + 1, 10)
            && s.s20 == Window(c, k + 1, 20) && s.s60 == Window(c, k + 1, 60)
  {
    SlideIsWindow(c, k, 5);
    SlideIsWindow(c, k, 10);
    SlideIsWindow(c, k, 20);
    SlideIsWindow(c, k, 60);
  }

  lemma AdvanceSums(r: Running, c: seq<real>, h: seq<real>, l: seq<real>, k: nat)
    requires k < |c| == |h| == |l| && Carries(r, c, h, l, k)
    ensures var s := Advance(r, c, h, l, k);
            && s.squares == Window(Squares(c), k + 1, 20)
            && s.gains == Window(Gains(c), k + 1, 14) && s.losses == Window(Losses(c), k + 1, 14)
            && s.ranges == Window(TrueRanges(c, h, l), k + 1, 14)
  {
    SlideIsWindow(Squares(c), k, 20);
    SlideIsWindow(Gains(c), k, 14);
    SlideIsWindow(Losses(c), k, 14);
    SlideIsWindow(TrueRanges(c, h, l), k, 14);
  }

  lemma AdvanceAverages(r: Running, c: seq<real>, h: seq<real>, l: seq<real>, k: nat)
    requires k < |c| == |h| == |l| && Carries(r, c, h, l, k)
    ensures var s := Advance(r, c, h, l, k);
            && s.e12 == Ema(c, 12, k) && s.e26 == Ema(c, 26, k) && (k >= 25 ==> s.signal == Signal(c, k))
  {
  }

  lemma {:induction false} PassCarries(c: seq<real>, h: seq<real>, l: seq<real>, k: nat)
    requires k <= |c| == |h| == |l|
    ensures Carries(Pass(c, h, l, k), c, h, l, k)
  {
    if k == 0 {
    } else {
      PassCarries(c, h, l, k - 1);
      AdvanceWindows(Pass(c, h, l, k - 1), c, h, l, k - 1);
      AdvanceSums(Pass(c, h, l, k - 1), c, h, l, k - 1);
      AdvanceAverages(Pass(c, h, l, k - 1), c, h, l, k - 1);
    }
  }

  ghost predicate Linear(d: seq<real>, q: seq<real>, s: seq<real>, c: real, e: real)
    requires |d| == |q| == |s|
  {
    forall i :: 0 <= i < |s| ==> d[i] == q[i] - c * s[i] + e
  }

  lemma LinearStep(c: real, e: real, sum: real, x: real, n: real)
    ensures c * (sum + x) == c * sum + c * x
    ensures (n + 1.0) * e == n * e + e
  {
  }

  lemma {:induction false} SumIsLinear(d: seq<real>, q: seq<real>, s: seq<real>, c: real, e: real,
                                       lo: nat, hi: nat, n: real)
    requires |d| == |q| == |s| && Linear(d, q, s, c, e) && lo <= hi <= |s| && n == (hi - lo) as real
    ensures RangeSum(d, lo, hi) == RangeSum(q, lo, hi) - c * RangeSum(s, lo, hi) + n * e
    decreases hi
  {
    if lo == hi {
    } else {
      SumIsLinear(d, q, s, c, e, lo, hi - 1, n - 1.0);
      LinearStep(c, e, RangeSum(s, lo, hi - 1), s[hi - 1], n - 1.0);
    }
  }

  lemma DeviationsLinear(s: seq<real>, m: real)
    ensures Linear(Deviations(s, m), Squares(s), s, 2.0 * m, m * m)
  {
  }

  lemma VarianceBySquares(squares: real, sum: real, m: real, c: real, e: real, deviations: real)
    requires m == sum / 20.0 && c == 2.0 * m && e == m * m
    requires deviations == squares - c * sum + 20.0 * e
    ensures deviations / 20.0 == Variance(squares, sum)
  {
    assert c * sum == 40.0 * e;
  }

  lemma DeviationSum(c: seq<real>, k: nat, m: real, c2: real, e: real)
    requires 20 <= k <= |c| && c2 == 2.0 * m && e == m * m
    ensures RangeSum(Deviations(c, m), k - 20, k)
         == RangeSum(Squares(c), k - 20, k) - c2 * RangeSum(c, k - 20, k) + 20.0 * e
  {
    DeviationsLinear(c, m);
    SumIsLinear(Deviations(c, m), Squares(c), c, c2, e, k - 20, k, 20.0);
  }

  lemma DeviationVariance(c: seq<real>, k: nat, m: real)
    requires 20 <= k <= |c| && m == RangeSum(c, k - 20, k) / 20.0
    ensures RangeSum(Deviations(c, m), k - 20, k) / 20.0
         == Variance(RangeSum(Squares(c), k - 20, k), RangeSum(c, k - 20, k))
  {
    var c2, e := 2.0 * m, m * m;
    DeviationSum(c, k, m, c2, e);
    VarianceBySquares(RangeSum(Squares(c), k - 20, k), RangeSum(c, k - 20, k), m, c2, e,
                      RangeSum(Deviations(c, m), k - 20, k));
  }

  /** The bands from the sum and the sum of squares of the last twenty days. */
  lemma BandsBySquares(c: seq<real>, k: nat)
    requires 20 <= k <= |c|
    ensures var sum, squares := RangeSum(c, k - 20, k), RangeSum(Squares(c), k - 20, k);
            BandsAt(c, k) == Some(Bands(sum / 20.0, Variance(squares, sum)))
  {
    DeviationVariance(c, k, RangeSum(c, k - 20, k) / 20.0);
  }

  lemma CarriedBands(r: Running, c: seq<real>, k: nat)
    requires k <= |c| && r.s20 == Window(c, k, 20) && r.squares == Window(Squares(c), k, 20)
    ensures BandsOfPass(r, k) == BandsAt(c, k)
  {
    if k >= 20 { BandsBySquares(c, k); }
  }

  lemma CarriedRsi(r: Running, c: seq<real>, k: nat)
    requires k <= |c| && r.gains == Window(Gains(c), k, 14) && r.losses == Window(Losses(c), k, 14)
    ensures RsiOfPass(r, k) == RsiAt(c, k)
  {
    if k >= 15 { GainsNonNegative(c, k - 14, k); }
  }

  lemma CarriedRow(r: Running, c: seq<real>, h: seq<real>, l: seq<real>, k: nat)
    requires 1 <= k <= |c| == |h| == |l| && Carries(r, c, h, l, k)
    ensures RowOf(r, k) == RowAt(c, h, l, k)
  {
    CarriedRsi(r, c, k);
    CarriedBands(r, c, k);
  }

  /** The carried state after k days stands for exactly the row the loop recomputes from scratch. */
  lemma OnePassRow(c: seq<real>, h: seq<real>, l: seq<real>, k: nat)
    requires 1 <= k <= |c| == |h| == |l|
    ensures RowOf(Pass(c, h, l, k), k) == RowAt(c, h, l, k)
  {
    PassCarries(c, h, l, k);
    CarriedRow(Pass(c, h, l, k), c, h, l, k);
  }

  /** Row k of the backfill, from the state carried so far. */
  function OnePassDay(bars: seq<Bar>, k: nat): Dated
    requires 1 <= k <= |bars|
  {
    Dated(bars[k - 1].date, RowOf(Pass(Closes(bars), Highs(bars), Lows(bars), k), k))
  }

  lemma OnePassDayRow(bars: seq<Bar>, k: nat)
    requires 1 <= k <= |bars|
    ensures OnePassDay(bars, k) == DayRow(bars, k)
  {
    OnePassRow(Closes(bars), Highs(bars), Lows(bars), k);
  }

  /** What is written for day k is its row of the whole history and its one-pass row. */
  ghost predicate Written(bars: seq<Bar>, k: nat, d: Dated)
    requires 1 <= k <= |bars|
  {
    d == DayRow(bars, k) && d == OnePassDay(bars, k)
  }

  lemma WrittenFromPrefix(bars: seq<Bar>, k: nat, row: Row)
    requires 1 <= k <= |bars| && row == RowAt(Closes(bars[..k]), Highs(bars[..k]), Lows(bars[..k]), k)
    ensures Written(bars, k, Dated(bars[k - 1].date, row))
  {
    PrefixRow(bars, k);
    OnePassDayRow(bars, k);
  }

  /** Rows 20 .. n, nothing for a shorter history. */
  method BackfillRows(sorted: seq<Bar>) returns (stmts: seq<Dated>)
    ensures |stmts| == if |sorted| >= 20 then |sorted| - 19 else 0
    ensures forall j :: 0 <= j < |stmts| ==> Written(sorted, j + 20, stmts[j])
  {
    stmts := [];
    if |sorted| >= 20 {
      var i := 20;
      while i <= |sorted|
        invariant 20 <= i <= |sorted| + 1 && |stmts| == i - 20
        invariant forall j :: 0 <= j < |stmts| ==> Written(sorted, j + 20, stmts[j])
      {
        var window := sorted[..i];
        var row := ComputeIndicators(Closes(window), Highs(window), Lows(window));
        WrittenFromPrefix(sorted, i, row);
        stmts := stmts + [Dated(sorted[i - 1].date, row)];
        i := i + 1;
      }
    }
  }

  // ---------- ranges of the values ----------

  lemma DeviationsNonNegative(s: seq<real>, m: real, lo: nat, hi: nat)
    requires lo <= hi <= |s|
    ensures RangeSum(Deviations(s, m), lo, hi) >= 0.0
  {
    forall i | 0 <= i < |s| ensures Deviations(s, m)[i] >= 0.0 { SquareNonNegative(s[i] - m); }
    RangeSumNonNegative(Deviations(s, m), lo, hi);
  }

  lemma SquareNonNegative(x: real)
    ensures x * x >= 0.0
  {
  }

  lemma {:induction false} SignalWithin(c: seq<real>, i: nat, lo: real, hi: real)
    requires 25 <= i < |c| && forall j :: 25 <= j <= i ==> lo <= MacdLine(c, j) <= hi
    ensures lo <= Signal(c, i) <= hi
  {
    if i == 25 {
    } else {
      SignalWithin(c, i - 1, lo, hi);
      SmoothingRange(9);
      BlendWithin(MacdLine(c, i), Signal(c, i - 1), Smoothing(9), lo, hi);
    }
  }

  /** Every written row: RSI and ATR are present with RSI in [0, 100] and ATR not negative, the
      middle band is the twenty-day average and the variance is not negative, and MACD appears
      exactly from day 35 on. */
  lemma WrittenRow(c: seq<real>, h: seq<real>, l: seq<real>, k: nat)
    requires 20 <= k <= |c| == |h| == |l|
    ensures var row := RowAt(c, h, l, k);
            && row.rsi14.Some? && 0.0 <= row.rsi14.value <= 100.0
            && row.atr14.Some? && row.atr14.value >= 0.0
            && row.bands.Some? && row.ma20 == Some(row.bands.value.mid) && row.bands.value.variance >= 0.0
            && (row.macd.Some? <==> k >= 35) && (row.ma60.Some? <==> k >= 60)
  {
    GainsNonNegative(c, k - 14, k);
    RsiMeaning(RangeSum(Gains(c), k - 14, k), RangeSum(Losses(c), k - 14, k));
    RangeSumNonNegative(TrueRanges(c, h, l), k - 14, k);
    DeviationsNonNegative(c, RangeSum(c, k - 20, k) / 20.0, k - 20, k);
  }

  // ---------- a row in plain arithmetic ----------

  /** v is the mean of the n values before day k, where there are so many. */
  ghost predicate IsMean(s: seq<real>, k: nat, n: nat, v: Option<real>)
    requires k <= |s|
  {
    if k < n then v.None? else v.Some? && v.value * n as real == Sum(s[k - n..k])
  }

  lemma SmaIsMean(s: seq<real>, k: nat, n: nat)
    requires k <= |s| && n >= 1
    ensures IsMean(s, k, n, SmaAt(s, n, k))
  {
    if k >= n {
      SliceSum(s, k - n, k);
      QuotientTimes(RangeSum(s, k - n, k), n as real);
    }
  }

  lemma QuotientTimes(x: real, y: real)
    requires y > 0.0
    ensures (x / y) * y == x
  {
  }

  /** Way and displacement of the closes over days lo .. hi - 1, each against the day before. */
  function Way(closes: seq<real>, lo: nat, hi: nat): real
    requires 1 <= lo <= hi <= |closes|
    decreases hi
  {
    if lo == hi then 0.0 else Way(closes, lo, hi - 1) + Abs(closes[hi - 1] - closes[hi - 2])
  }

  lemma {:induction false} GainsAndLosses(closes: seq<real>, lo: nat, hi: nat)
    requires 1 <= lo <= hi <= |closes|
    ensures RangeSum(Gains(closes), lo, hi) + RangeSum(Losses(closes), lo, hi) == Way(closes, lo, hi)
    ensures RangeSum(Gains(closes), lo, hi) - RangeSum(Losses(closes), lo, hi) == closes[hi - 1] - closes[lo - 1]
    decreases hi
  {
    if lo == hi {
    } else {
      GainsAndLosses(closes, lo, hi - 1);
      assert Gains(closes)[hi - 1] == Gain(closes, hi - 1) && Losses(closes)[hi - 1] == Loss(closes, hi - 1);
    }
  }

  /** The RSI of day k from the way of the last fourteen changes and the displacement d over them: 50 (1 + d / way),
      and 100 when nothing moved. */
  ghost predicate IsRsi(closes: seq<real>, k: nat, v: Option<real>)
    requires k <= |closes|
  {
    if k < 15 then v.None?
    else
      var way, d := Way(closes, k - 14, k), closes[k - 1] - closes[k - 15];
      v.Some? && v.value * way == 50.0 * (way + d) && (way == 0.0 ==> v.value == 100.0)
  }

  lemma RsiExactly(closes: seq<real>, k: nat)
    requires k <= |closes|
    ensures IsRsi(closes, k, RsiAt(closes, k))
  {
    if k >= 15 {
      var g, l := RangeSum(Gains(closes), k - 14, k), RangeSum(Losses(closes), k - 14, k);
      GainsNonNegative(closes, k - 14, k);
      GainsAndLosses(closes, k - 14, k);
      RsiMeaning(g, l);
      RsiShare(g, l, Rsi(g, l), Way(closes, k - 14, k), closes[k - 1] - closes[k - 15]);
    }
  }

  lemma RsiShare(g: real, l: real, rsi: real, way: real, d: real)
    requires g >= 0.0 && l >= 0.0 && way == g + l && d == g - l
    requires l > 0.0 ==> rsi * (g + l) == 100.0 * g
    requires l == 0.0 ==> rsi == 100.0
    ensures rsi * way == 50.0 * (way + d) && (way == 0.0 ==> rsi == 100.0)
  {
    if l == 0.0 { assert rsi * way == 100.0 * g; }
  }

  /** e is the exponential average of n days of s: it starts at the first value, and each value weighs
      2 / (n + 1) against (n - 1) / (n + 1) for the average before it. */
  ghost predicate IsEma(s: seq<real>, n: nat, e: seq<real>) {
    && |e| == |s| && (s != [] ==> e[0] == s[0])
    && forall i :: 1 <= i < |s| ==> (n + 1) as real * e[i] == 2.0 * s[i] + (n as real - 1.0) * e[i - 1]
  }

  function Emas(s: seq<real>, n: nat): (e: seq<real>)
    ensures |e| == |s|
  {
    seq(|s|, i requires 0 <= i < |s| => Ema(s, n, i))
  }

  lemma Regroup(m: real, x: real, k: real, c: real)
    requires c == k * m
    ensures m * (x * k) == c * x
  {
  }

  lemma ScaledBlend(before: real, x: real, k: real, m: real)
    requires k * m == 2.0
    ensures m * (x * k + before * (1.0 - k)) == 2.0 * x + (m - 2.0) * before
  {
    Regroup(m, x, k, 2.0);
    Regroup(m, before, k, 2.0);
    assert before * (1.0 - k) == before - before * k;
    assert m * (x * k + before * (1.0 - k)) == m * (x * k) + (m * before - m * (before * k));
  }

  lemma SmoothingShare(n: nat)
    ensures Smoothing(n) * (n + 1) as real == 2.0
  {
    QuotientTimes(2.0, (n + 1) as real);
  }

  lemma BlendExactly(before: real, x: real, n: nat)
    ensures (n + 1) as real * Blend(before, x, Smoothing(n)) == 2.0 * x + ((n + 1) as real - 2.0) * before
  {
    SmoothingShare(n);
    ScaledBlend(before, x, Smoothing(n), (n + 1) as real);
  }

  lemma EmaExactly(s: seq<real>, n: nat)
    ensures IsEma(s, n, Emas(s, n))
  {
    forall i | 1 <= i < |s|
      ensures (n + 1) as real * Emas(s, n)[i] == 2.0 * s[i] + (n as real - 1.0) * Emas(s, n)[i - 1]
    {
      BlendExactly(Ema(s, n, i - 1), s[i], n);
    }
  }

  /** The line of day i is the difference of the averages of twelve and of 26 days; the signals from day 25 on
      are the average of nine days of the lines from day 25 on. */
  ghost predicate IsMacd(closes: seq<real>, k: nat, e12: seq<real>, e26: seq<real>, lines: seq<real>,
                         signals: seq<real>, v: Macd)
    requires 35 <= k <= |closes|
  {
    && IsEma(closes, 12, e12) && IsEma(closes, 26, e26)
    && |lines| == |closes| - 25 && (forall j :: 0 <= j < |lines| ==> lines[j] == e12[j + 25] - e26[j + 25])
    && IsEma(lines, 9, signals)
    && v.line == lines[k - 26] && v.signal == signals[k - 26] && v.hist == v.line - v.signal
  }

  ghost predicate MacdOf(closes: seq<real>, k: nat, v: Option<Macd>)
    requires k <= |closes|
  {
    if k < 35 then v.None?
    else v.Some? && exists e12, e26, lines, signals :: IsMacd(closes, k, e12, e26, lines, signals, v.value)
  }

  lemma MacdExactly(closes: seq<real>, k: nat)
    requires k <= |closes|
    ensures MacdOf(closes, k, MacdAt(closes, k))
  {
    if k >= 35 {
      EmaExactly(closes, 12);
      EmaExactly(closes, 26);
      var lines := seq(|closes| - 25, j requires 0 <= j < |closes| - 25 => MacdLine(closes, j + 25));
      EmaExactly(lines, 9);
      SignalOfSlice(closes, lines, k - 26);
      assert IsMacd(closes, k, Emas(closes, 12), Emas(closes, 26), lines, Emas(lines, 9), MacdAt(closes, k).value);
    }
  }

  /** Twenty times the variance is the sum of the squared distances of the last twenty closes from their mean. */
  function SquaredDistances(closes: seq<real>, mid: real, lo: nat, hi: nat): real
    requires lo <= hi <= |closes|
    decreases hi
  {
    if lo == hi then 0.0
    else SquaredDistances(closes, mid, lo, hi - 1) + (closes[hi - 1] - mid) * (closes[hi - 1] - mid)
  }

  lemma {:induction false} DeviationsAreSquares(closes: seq<real>, mid: real, lo: nat, hi: nat)
    requires lo <= hi <= |closes|
    ensures RangeSum(Deviations(closes, mid), lo, hi) == SquaredDistances(closes, mid, lo, hi)
    decreases hi
  {
    if lo == hi {
    } else {
      DeviationsAreSquares(closes, mid, lo, hi - 1);
    }
  }

  ghost predicate IsBands(closes: seq<real>, k: nat, v: Option<Bands>)
    requires k <= |closes|
  {
    if k < 20 then v.None?
    else
      && v.Some? && IsMean(closes, k, 20, Some(v.value.mid))
      && v.value.variance * 20.0 == SquaredDistances(closes, v.value.mid, k - 20, k)
  }

  lemma BandsExactly(closes: seq<real>, k: nat)
    requires k <= |closes|
    ensures IsBands(closes, k, BandsAt(closes, k))
  {
    if k >= 20 {
      SliceSum(closes, k - 20, k);
      DeviationsAreSquares(closes, BandsAt(closes, k).value.mid, k - 20, k);
    }
  }

  /** Sum of the true ranges of days lo .. hi - 1. */
  function RangesTotal(closes: seq<real>, highs: seq<real>, lows: seq<real>, lo: nat, hi: nat): real
    requires 1 <= lo <= hi <= |closes| == |highs| == |lows|
    decreases hi
  {
    if lo == hi then 0.0
    else RangesTotal(closes, highs, lows, lo, hi - 1) + TrueRange(highs[hi - 1], lows[hi - 1], closes[hi - 2])
  }

  lemma {:induction false} RangesAdd(closes: seq<real>, highs: seq<real>, lows: seq<real>, lo: nat, hi: nat)
    requires 1 <= lo <= hi <= |closes| == |highs| == |lows|
    ensures RangeSum(TrueRanges(closes, highs, lows), lo, hi) == RangesTotal(closes, highs, lows, lo, hi)
    decreases hi
  {
    if lo == hi {
    } else {
      RangesAdd(closes, highs, lows, lo, hi - 1);
    }
  }

  ghost predicate IsAtr(closes: seq<real>, highs: seq<real>, lows: seq<real>, k: nat, v: Option<real>)
    requires k <= |closes| == |highs| == |lows|
  {
    if k < 15 then v.None?
    else v.Some? && v.value * 14.0 == RangesTotal(closes, highs, lows, k - 14, k)
  }

  lemma AtrExactly(closes: seq<real>, highs: seq<real>, lows: seq<real>, k: nat)
    requires k <= |closes| == |highs| == |lows|
    ensures IsAtr(closes, highs, lows, k, AtrAt(closes, highs, lows, k))
  {
    if k >= 15 { RangesAdd(closes, highs, lows, k - 14, k); }
  }

  /** The closes, highs and lows of the days. */
  ghost predicate Columns(bars: seq<Bar>, c: seq<real>, h: seq<real>, l: seq<real>) {
    && |c| == |bars| && |h| == |bars| && |l| == |bars|
    && forall i :: 0 <= i < |bars| ==> c[i] == bars[i].close && h[i] == bars[i].high && l[i] == bars[i].low
  }

  lemma ColumnsMatch(bars: seq<Bar>, c: seq<real>, h: seq<real>, l: seq<real>)
    requires Columns(bars, c, h, l)
    ensures c == Closes(bars) && h == Highs(bars) && l == Lows(bars)
  {
  }

  /** What the backfill writes for day k, in terms of the days alone: its date, the means of 5, 10, 20 and 60 closes,
      RSI and ATR from day 15, the bands from day 20 and MACD from day 35 on. */
  lemma RowExactly(bars: seq<Bar>, k: nat, d: Dated, c: seq<real>, h: seq<real>, l: seq<real>)
    requires 1 <= k <= |bars| && Written(bars, k, d) && Columns(bars, c, h, l)
    ensures d.date == bars[k - 1].date
    ensures IsMean(c, k, 5, d.row.ma5) && IsMean(c, k, 10, d.row.ma10)
    ensures IsMean(c, k, 20, d.row.ma20) && IsMean(c, k, 60, d.row.ma60)
    ensures IsRsi(c, k, d.row.rsi14) && MacdOf(c, k, d.row.macd)
    ensures IsBands(c, k, d.row.bands) && IsAtr(c, h, l, k, d.row.atr14)
  {
    ColumnsMatch(bars, c, h, l);
    SmaIsMean(c, k, 5);
    SmaIsMean(c, k, 10);
    SmaIsMean(c, k, 20);
    SmaIsMean(c, k, 60);
    RsiExactly(c, k);
    MacdExactly(c, k);
    BandsExactly(c, k);
    AtrExactly(c, h, l, k);
  }
}
