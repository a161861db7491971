/** scripts/run_backtest_local.py: the trade simulator of one symbol (`rolling_mean`,
    `simulate_symbol`), over the reals and without the rounding for display. Dates are bar
    indices; a rolling mean that is not defined yet (NaN) is None. */
module Backtest {
  import opened Common

  datatype Bar = Bar(high: real, low: real, close: real, volume: real)

  datatype Params = Params(slMult: real, tpMult: real, timeStop: nat)

  const BUY_FEE := 0.001425
  const SELL_FEE := 0.004425
  const HARD_STOP := 0.88
  const MIN_BARS := 60
  const FIRST_BAR := 30

  // ---------- rolling means by prefix sums ----------

  /** Difference of two prefix sums over the window, as the numpy expression computes it. */
  function RollingMean(v: seq<real>, window: nat, i: nat): Option<real>
    requires window > 0 && i < |v|
  {
    if i + 1 < window then None
    else Some((PrefixSum(v, i + 1) - PrefixSum(v, i + 1 - window)) / window as real)
  }

  /** The prefix-sum form is the mean of the window. */
  lemma RollingMeanIsWindowMean(v: seq<real>, window: nat, i: nat)
    requires window > 0 && window - 1 <= i < |v|
    ensures RollingMean(v, window, i) == Some(Sum(v[i + 1 - window..i + 1]) / window as real)
  {
    PrefixSumIsSum(v, i + 1 - window, i + 1);
  }

  /** Appending values does not change earlier means. */
  lemma RollingMeanStable(p: seq<real>, q: seq<real>, window: nat, i: nat)
    requires window > 0 && i < |p|
    ensures RollingMean(p + q, window, i) == RollingMean(p, window, i)
  {
    PrefixSumSame(p + q, p, i + 1);
    if i + 1 >= window { PrefixSumSame(p + q, p, i + 1 - window); }
  }

  lemma {:induction false} PrefixSumMonotone(v: seq<real>, a: nat, b: nat)
    requires a <= b <= |v| && forall i :: 0 <= i < |v| ==> v[i] >= 0.0
    ensures PrefixSum(v, a) <= PrefixSum(v, b)
    decreases b
  {
    if a == b {
    } else {
      PrefixSumMonotone(v, a, b - 1);
    }
  }

  // ---------- the series of one frame ----------

  function Closes(bars: seq<Bar>): (r: seq<real>)
    ensures |r| == |bars|
  {
    seq(|bars|, i requires 0 <= i < |bars| => bars[i].close)
  }

  function Volumes(bars: seq<Bar>): (r: seq<real>)
    ensures |r| == |bars|
  {
    seq(|bars|, i requires 0 <= i < |bars| => bars[i].volume)
  }

  /** One value per bar except the first. */
  function TrueRanges(bars: seq<Bar>): (r: seq<real>)
    ensures |r| == if bars == [] then 0 else |bars| - 1
  {
    seq(if bars == [] then 0 else |bars| - 1,
        k requires 0 <= k < |bars| - 1 => TrueRange(bars[k + 1].high, bars[k + 1].low, bars[k].close))
  }

  /** Close above its 20-bar mean on at least 1.2 times the mean volume. Comparisons with an
      undefined mean are false, as in numpy. */
  predicate Signal(bars: seq<Bar>, i: nat)
    requires i < |bars|
  {
    var ma, volMa := RollingMean(Closes(bars), 20, i), RollingMean(Volumes(bars), 20, i);
    && !(ma.Some? && bars[i].close <= ma.value)
    && !(volMa.Some? && bars[i].volume < volMa.value * 1.2)
  }

  /** The 14-bar average true range known before bar i, or 2 % of the close. */
  function Atr(bars: seq<Bar>, i: nat): real
    requires 1 <= i < |bars|
  {
    var mean := RollingMean(TrueRanges(bars), 14, i - 1);
    if mean.Some? then mean.value else bars[i].close * 0.02
  }

  datatype Reason = HardStopHit | StopLoss | TakeProfit | TimeStop

  datatype Exit = Exit(index: nat, price: real, reason: Reason)

  datatype Trade = Trade(entry: nat, exit: nat, entryPrice: real, exitPrice: real, reason: Reason)

  datatype Levels = Levels(entry: real, stop: real, target: real)

  function LevelsAt(bars: seq<Bar>, p: Params, i: nat): Levels
    requires 1 <= i < |bars|
  {
    LevelsAround(bars[i].close, Atr(bars, i), p)
  }

  function LevelsAround(entry: real, atr: real, p: Params): Levels {
    Levels(entry, entry - atr * p.slMult, entry + atr * p.tpMult)
  }

  /** What one bar triggers, checked in this order: hard stop, stop, target. */
  function Trigger(b: Bar, l: Levels, j: nat): Option<Exit> {
    if b.low <= l.entry * HARD_STOP then Some(Exit(j, l.entry * HARD_STOP, HardStopHit))
    else if b.low <= l.stop then Some(Exit(j, l.stop, StopLoss))
    else if b.high >= l.target then Some(Exit(j, l.target, TakeProfit))
    else None
  }

  function TimeExit(bars: seq<Bar>, i: nat, timeStop: nat): Exit
    requires 1 <= i < |bars|
  {
    var index := MinInt(i + timeStop - 1, |bars| - 1);
    Exit(index, bars[index].close, TimeStop)
  }

  /** The first trigger among bars j .. end - 1, or the fallback. */
  function FirstExit(bars: seq<Bar>, l: Levels, j: nat, end: nat, fallback: Exit): Exit
    requires end <= |bars|
    decreases end - j
  {
    if j >= end then fallback
    else match Trigger(bars[j], l, j)
      case Some(exit) => exit
      case None => FirstExit(bars, l, j + 1, end, fallback)
  }

  function ScanEnd(bars: seq<Bar>, i: nat, timeStop: nat): nat {
    if i + timeStop < |bars| then i + timeStop else |bars|
  }

  function ExitOf(bars: seq<Bar>, p: Params, i: nat): Exit
    requires 1 <= i < |bars|
  {
    FirstExit(bars, LevelsAt(bars, p, i), i + 1, ScanEnd(bars, i, p.timeStop), TimeExit(bars, i, p.timeStop))
  }

  /** Net return of a trade, the `pnl_pct` column before rounding. */
  function Pnl(t: Trade): real
    requires t.entryPrice != 0.0
  {
    (t.exitPrice - t.entryPrice) / t.entryPrice - BUY_FEE - SELL_FEE
  }

  function TradeAt(bars: seq<Bar>, p: Params, i: nat): Trade
    requires 1 <= i < |bars|
  {
    var x := ExitOf(bars, p, i);
    Trade(i, x.index, bars[i].close, x.price, x.reason)
  }

  predicate Priced(bars: seq<Bar>) {
    forall i :: 0 <= i < |bars| ==> bars[i].close != 0.0
  }

  lemma {:induction false} FirstExitIndex(bars: seq<Bar>, l: Levels, j: nat, end: nat, fallback: Exit)
    requires end <= |bars|
    ensures var x := FirstExit(bars, l, j, end, fallback);
            x == fallback || j <= x.index < end
    decreases end - j
  {
    if j >= end {
    } else {
      FirstExitIndex(bars, l, j + 1, end, fallback);
    }
  }

  lemma ExitNotBefore(bars: seq<Bar>, p: Params, i: nat)
    requires 1 <= i && i + p.timeStop < |bars|
    ensures i <= ExitOf(bars, p, i).index + 1
    ensures ExitOf(bars, p, i).index < |bars|
  {
    FirstExitIndex(bars, LevelsAt(bars, p, i), i + 1, ScanEnd(bars, i, p.timeStop), TimeExit(bars, i, p.timeStop));
  }

  /** The trades of the outer loop from bar i on. */
  function TradesFrom(bars: seq<Bar>, p: Params, i: nat): seq<Trade>
    requires Priced(bars) && i >= 1
    decreases |bars| - i
  {
    if i + p.timeStop >= |bars| then []
    else if !Signal(bars, i) then TradesFrom(bars, p, i + 1)
    else
      ExitNotBefore(bars, p, i);
      [TradeAt(bars, p, i)] + TradesFrom(bars, p, TradeAt(bars, p, i).exit + 5)
  }

  function Simulate(bars: seq<Bar>, p: Params): seq<Trade>
    requires Priced(bars)
  {
    if |bars| < MIN_BARS then [] else TradesFrom(bars, p, FIRST_BAR)
  }

  /** The inner loop: look for the first trigger, with the time exit as default. */
  method FindExit(bars: seq<Bar>, p: Params, i: nat) returns (exitPrice: real, exitIndex: nat, reason: Reason)
    requires 1 <= i && i + p.timeStop < |bars|
    ensures Exit(exitIndex, exitPrice, reason) == ExitOf(bars, p, i)
  {
    var l := LevelsAt(bars, p, i);
    exitIndex := MinInt(i + p.timeStop - 1, |bars| - 1);
    exitPrice := bars[exitIndex].close;
    reason := TimeStop;
    var j := i + 1;
    while j < i + p.timeStop && j < |bars|
      invariant i + 1 <= j
      invariant Exit(exitIndex, exitPrice, reason) == TimeExit(bars, i, p.timeStop)
      invariant FirstExit(bars, l, j, ScanEnd(bars, i, p.timeStop), TimeExit(bars, i, p.timeStop)) == ExitOf(bars, p, i)
      decreases |bars| - j
    {
      if bars[j].low <= l.entry * HARD_STOP {
        exitPrice, exitIndex, reason := l.entry * HARD_STOP, j, HardStopHit;
        break;
      }
      if bars[j].low <= l.stop {
        exitPrice, exitIndex, reason := l.stop, j, StopLoss;
        break;
      }
      if bars[j].high >= l.target {
        exitPrice, exitIndex, reason := l.target, j, TakeProfit;
        break;
      }
      j := j + 1;
    }
  }

  function Taken(trade: Option<Trade>): seq<Trade> {
    if trade.Some? then [trade.value] else []
  }

  lemma Shift(all: seq<Trade>, done: seq<Trade>, step: seq<Trade>, rest: seq<Trade>, rest': seq<Trade>)
    requires done + rest == all && rest == step + rest'
    ensures (done + step) + rest' == all
  {
  }

  /** One round of the outer loop: skip a bar without a signal, or take a trade. */
  method Round(bars: seq<Bar>, p: Params, i: nat) returns (trade: Option<Trade>, next: nat)
    requires Priced(bars) && 1 <= i && i + p.timeStop < |bars|
    ensures next > i
    ensures TradesFrom(bars, p, i) == Taken(trade) + TradesFrom(bars, p, next)
    ensures trade.Some? ==> trade.value.entryPrice != 0.0
  {
    if !Signal(bars, i) { return None, i + 1; }
    var exitPrice, exitIndex, reason := FindExit(bars, p, i);
    ExitNotBefore(bars, p, i);
    trade := Some(Trade(i, exitIndex, bars[i].close, exitPrice, reason));
    next := exitIndex + 5;
  }

  /** The exit price is the entry price and the return r on it, before fees of 0.585 % in all. */
  ghost predicate NetReturn(t: Trade, r: real) {
    t.entryPrice != 0.0 && t.exitPrice == (1.0 + r + 0.00585) * t.entryPrice
  }

  /** `pnl` is the net return of each trade. */
  ghost predicate PnlColumn(trades: seq<Trade>, pnl: seq<real>) {
    |pnl| == |trades| && forall k :: 0 <= k < |trades| ==> NetReturn(trades[k], pnl[k])
  }

  lemma PnlIsReturn(t: Trade)
    requires t.entryPrice != 0.0
    ensures NetReturn(t, Pnl(t))
  {
    var q := (t.exitPrice - t.entryPrice) / t.entryPrice;
    assert q * t.entryPrice == t.exitPrice - t.entryPrice;
    assert 1.0 + Pnl(t) + 0.00585 == 1.0 + q;
  }

  lemma PnlColumnAppend(trades: seq<Trade>, pnl: seq<real>, t: Trade)
    requires PnlColumn(trades, pnl) && t.entryPrice != 0.0
    ensures PnlColumn(trades + [t], pnl + [Pnl(t)])
  {
    PnlIsReturn(t);
  }

  method SimulateSymbol(bars: seq<Bar>, p: Params) returns (trades: seq<Trade>, pnl: seq<real>)
    requires Priced(bars)
    ensures trades == Simulate(bars, p)
    ensures PnlColumn(trades, pnl)
  {
    trades, pnl := [], [];
    if |bars| < MIN_BARS { return; }
    var i := FIRST_BAR;
    while i + p.timeStop < |bars|
      invariant i >= FIRST_BAR && PnlColumn(trades, pnl)
      invariant trades + TradesFrom(bars, p, i) == TradesFrom(bars, p, FIRST_BAR)
      decreases |bars| - i
    {
      var trade, next := Round(bars, p, i);
      Shift(TradesFrom(bars, p, FIRST_BAR), trades, Taken(trade), TradesFrom(bars, p, i), TradesFrom(bars, p, next));
      if trade.Some? {
        PnlColumnAppend(trades, pnl, trade.value);
        pnl := pnl + [Pnl(trade.value)];
      }
      trades := trades + Taken(trade);
      i := next;
    }
  }

  // ---------- appending bars never rewrites history ----------

  lemma SeriesStable(p: seq<Bar>, q: seq<Bar>)
    ensures Closes(p + q) == Closes(p) + Closes(q)
    ensures Volumes(p + q) == Volumes(p) + Volumes(q)
    ensures p != [] ==> |p| - 1 <= |TrueRanges(p + q)| && TrueRanges(p + q)[..|p| - 1] == TrueRanges(p)
  {
  }

  lemma SignalStable(p: seq<Bar>, q: seq<Bar>, i: nat)
    requires i < |p|
    ensures Signal(p + q, i) == Signal(p, i)
  {
    SeriesStable(p, q);
    RollingMeanStable(Closes(p), Closes(q), 20, i);
    RollingMeanStable(Volumes(p), Volumes(q), 20, i);
  }

  lemma LevelsStable(p: seq<Bar>, q: seq<Bar>, params: Params, i: nat)
    requires 1 <= i < |p|
    ensures LevelsAt(p + q, params, i) == LevelsAt(p, params, i)
  {
    AtrStable(p, q, i);
  }

  lemma AtrStable(p: seq<Bar>, q: seq<Bar>, i: nat)
    requires 1 <= i < |p|
    ensures Atr(p + q, i) == Atr(p, i)
  {
    var r := TrueRanges(p + q);
    assert r == TrueRanges(p) + r[|p| - 1..] by { SeriesStable(p, q); }
    assert RollingMean(r, 14, i - 1) == RollingMean(TrueRanges(p), 14, i - 1) by {
      RollingMeanStable(TrueRanges(p), r[|p| - 1..], 14, i - 1);
    }
  }

  lemma {:induction false} FirstExitStable(p: seq<Bar>, q: seq<Bar>, l: Levels, j: nat, end: nat, fallback: Exit)
    requires end <= |p|
    ensures FirstExit(p + q, l, j, end, fallback) == FirstExit(p, l, j, end, fallback)
    decreases end - j
  {
    if j >= end {
    } else {
      FirstExitStable(p, q, l, j + 1, end, fallback);
    }
  }

  lemma TradeStable(p: seq<Bar>, q: seq<Bar>, params: Params, i: nat)
    requires 1 <= i && i + params.timeStop < |p|
    ensures TradeAt(p + q, params, i) == TradeAt(p, params, i)
  {
    LevelsStable(p, q, params, i);
    FirstExitStable(p, q, LevelsAt(p, params, i), i + 1, i + params.timeStop, TimeExit(p, i, params.timeStop));
  }

  lemma {:induction false} TradesStable(p: seq<Bar>, q: seq<Bar>, params: Params, i: nat)
    requires Priced(p + q) && Priced(p) && i >= 1
    ensures TradesFrom(p, params, i) <= TradesFrom(p + q, params, i)
    decreases |p| - i
  {
    if i + params.timeStop >= |p| {
    } else {
      SignalStable(p, q, i);
      if Signal(p, i) {
        TradeStable(p, q, params, i);
        ExitNotBefore(p, params, i);
        TradesStable(p, q, params, TradeAt(p, params, i).exit + 5);
      } else {
        TradesStable(p, q, params, i + 1);
      }
    }
  }

  /** The trades simulated on a history are a prefix of the trades simulated on any longer one. */
  lemma HistoryIsNeverRewritten(p: seq<Bar>, q: seq<Bar>, params: Params)
    requires Priced(p + q)
    ensures Priced(p)
    ensures Simulate(p, params) <= Simulate(p + q, params)
  {
    forall i | 0 <= i < |p| ensures p[i].close != 0.0 {
      assert (p + q)[i] == p[i];
    }
    if |p| >= MIN_BARS { TradesStable(p, q, params, FIRST_BAR); }
  }

  // ---------- what every trade looks like ----------

  predicate Sound(bars: seq<Bar>) {
    forall i :: 0 <= i < |bars| ==> bars[i].low <= bars[i].close <= bars[i].high && bars[i].close > 0.0
  }

  /** Total close, volume and true range of bars lo .. hi - 1. */
  function CloseTotal(bars: seq<Bar>, lo: nat, hi: nat): real
    requires lo <= hi <= |bars|
    decreases hi
  {
    if lo == hi then 0.0 else CloseTotal(bars, lo, hi - 1) + bars[hi - 1].close
  }

  function VolumeTotal(bars: seq<Bar>, lo: nat, hi: nat): real
    requires lo <= hi <= |bars|
    decreases hi
  {
    if lo == hi then 0.0 else VolumeTotal(bars, lo, hi - 1) + bars[hi - 1].volume
  }

  function RangeTotal(bars: seq<Bar>, lo: nat, hi: nat): real
    requires 1 <= lo <= hi <= |bars|
    decreases hi
  {
    if lo == hi then 0.0
    else RangeTotal(bars, lo, hi - 1) + TrueRange(bars[hi - 1].high, bars[hi - 1].low, bars[hi - 2].close)
  }

  /** An entry bar closes above the mean of twenty closes, on at least 1.2 times the mean volume. */
  ghost predicate Enters(bars: seq<Bar>, i: nat)
    requires 30 <= i < |bars|
  {
    && bars[i].close > CloseTotal(bars, i - 19, i + 1) / 20.0
    && bars[i].volume >= 1.2 * (VolumeTotal(bars, i - 19, i + 1) / 20.0)
  }

  /** Mean of the fourteen true ranges up to bar i. */
  ghost function MeanRange(bars: seq<Bar>, i: nat): real
    requires 30 <= i < |bars|
  {
    RangeTotal(bars, i - 13, i + 1) / 14.0
  }

  /** The close of the entry bar, the stop slMult mean ranges below it, the target tpMult above it. */
  ghost function Distances(bars: seq<Bar>, p: Params, i: nat): Levels
    requires 30 <= i < |bars|
  {
    var close, range := bars[i].close, MeanRange(bars, i);
    Levels(close, close - range * p.slMult, close + range * p.tpMult)
  }

  /** A bar that stays strictly between the stops and the target. */
  predicate Quiet(b: Bar, l: Levels) {
    b.low > 0.88 * l.entry && b.low > l.stop && b.high < l.target
  }

  /** Bar b ends the trade, for its reason and at its price. */
  predicate EndsAt(b: Bar, t: Trade, l: Levels) {
    match t.reason
    case HardStopHit => b.low <= 0.88 * l.entry && t.exitPrice == 0.88 * l.entry
    case StopLoss => 0.88 * l.entry < b.low <= l.stop && t.exitPrice == l.stop
    case TakeProfit => b.low > 0.88 * l.entry && b.low > l.stop && b.high >= l.target && t.exitPrice == l.target
    case TimeStop => false
  }

  /** How a trade ends: the first bar after the entry that is not quiet ends it, at 0.88 of the
      entry, at the stop or at the target, in this order; when all are quiet it ends at the close
      of the last one. */
  ghost predicate EndsFirst(bars: seq<Bar>, t: Trade, end: nat, l: Levels)
    requires t.entry <= end < |bars|
  {
    if t.reason == TimeStop then
      && t.exit == end - 1 && t.exitPrice == bars[t.exit].close
      && forall j :: t.entry < j < end ==> Quiet(bars[j], l)
    else
      && t.entry < t.exit < end && EndsAt(bars[t.exit], t, l)
      && forall j :: t.entry < j < t.exit ==> Quiet(bars[j], l)
  }

  ghost predicate ExitsFirst(bars: seq<Bar>, p: Params, t: Trade)
    requires 30 <= t.entry && t.entry + p.timeStop < |bars|
  {
    EndsFirst(bars, t, t.entry + p.timeStop, Distances(bars, p, t.entry))
  }

  lemma {:induction false} TotalsArePrefixSums(bars: seq<Bar>, lo: nat, hi: nat)
    requires lo <= hi <= |bars|
    ensures CloseTotal(bars, lo, hi) == PrefixSum(Closes(bars), hi) - PrefixSum(Closes(bars), lo)
    ensures VolumeTotal(bars, lo, hi) == PrefixSum(Volumes(bars), hi) - PrefixSum(Volumes(bars), lo)
    decreases hi
  {
    if lo == hi {
    } else {
      TotalsArePrefixSums(bars, lo, hi - 1);
    }
  }

  lemma {:induction false} RangesArePrefixSums(bars: seq<Bar>, i: nat, n: nat)
    requires n <= i && i + 1 < |bars|
    ensures RangeTotal(bars, i + 2 - n, i + 2)
         == PrefixSum(TrueRanges(bars), i + 1) - PrefixSum(TrueRanges(bars), i + 1 - n)
    decreases n
  {
    if n == 0 {
    } else {
      RangesArePrefixSums(bars, i - 1, n - 1);
      assert TrueRanges(bars)[i] == TrueRange(bars[i + 1].high, bars[i + 1].low, bars[i].close);
    }
  }

  lemma RangesMean(bars: seq<Bar>, i: nat, n: nat)
    requires 1 <= n <= i && i + 1 < |bars|
    ensures RollingMean(TrueRanges(bars), n, i) == Some(RangeTotal(bars, i + 2 - n, i + 2) / n as real)
  {
    RangesArePrefixSums(bars, i, n);
  }

  lemma FourteenRanges(bars: seq<Bar>, i: nat)
    requires 30 <= i < |bars|
    ensures RollingMean(TrueRanges(bars), 14, i - 1) == Some(MeanRange(bars, i))
  {
    RangesMean(bars, i - 1, 14);
  }

  lemma EntryIsSignal(bars: seq<Bar>, i: nat)
    requires 30 <= i < |bars|
    ensures Signal(bars, i) <==> Enters(bars, i)
  {
    TotalsArePrefixSums(bars, i - 19, i + 1);
  }

  lemma AtrIsMeanRange(bars: seq<Bar>, i: nat)
    requires 30 <= i < |bars|
    ensures Atr(bars, i) == MeanRange(bars, i)
  {
    FourteenRanges(bars, i);
  }

  lemma LevelsAreDistances(bars: seq<Bar>, p: Params, i: nat)
    requires 30 <= i < |bars|
    ensures LevelsAt(bars, p, i) == Distances(bars, p, i)
  {
    AtrIsMeanRange(bars, i);
  }

  lemma PlainTrigger(b: Bar, l: Levels, j: nat)
    ensures Trigger(b, l, j).None? <==> Quiet(b, l)
  {
  }

  lemma TriggerEnds(b: Bar, l: Levels, t: Trade)
    requires t.reason != TimeStop
    ensures Trigger(b, l, t.exit) == Some(Exit(t.exit, t.exitPrice, t.reason)) <==> EndsAt(b, t, l)
  {
  }

  lemma {:induction false} FirstExitIsFirst(bars: seq<Bar>, l: Levels, j: nat, end: nat, fallback: Exit)
    requires end <= |bars| && fallback.reason == TimeStop
    ensures var x := FirstExit(bars, l, j, end, fallback);
            if x.reason == TimeStop then x == fallback && forall k :: j <= k < end ==> Trigger(bars[k], l, k).None?
            else j <= x.index < end && Trigger(bars[x.index], l, x.index) == Some(x)
                 && forall k :: j <= k < x.index ==> Trigger(bars[k], l, k).None?
    decreases end - j
  {
    if j >= end {
    } else {
      FirstExitIsFirst(bars, l, j + 1, end, fallback);
    }
  }

  lemma FirstExitEnds(bars: seq<Bar>, l: Levels, t: Trade, end: nat)
    requires t.entry <= end < |bars| && t.entry >= 1
    requires Exit(t.exit, t.exitPrice, t.reason)
          == FirstExit(bars, l, t.entry + 1, end, Exit(end - 1, bars[end - 1].close, TimeStop))
    ensures EndsFirst(bars, t, end, l)
  {
    FirstExitIsFirst(bars, l, t.entry + 1, end, Exit(end - 1, bars[end - 1].close, TimeStop));
    forall j | t.entry < j < end ensures Trigger(bars[j], l, j).None? <==> Quiet(bars[j], l) {
      PlainTrigger(bars[j], l, j);
    }
    if t.reason != TimeStop { TriggerEnds(bars[t.exit], l, t); }
  }

  lemma TradeOfLevels(bars: seq<Bar>, p: Params, i: nat, l: Levels) returns (t: Trade)
    requires 1 <= i && i + p.timeStop < |bars| && l == LevelsAt(bars, p, i)
    ensures t == TradeAt(bars, p, i) && t.entry == i && t.entryPrice == bars[i].close
    ensures Exit(t.exit, t.exitPrice, t.reason)
         == FirstExit(bars, l, i + 1, i + p.timeStop,
                      Exit(i + p.timeStop - 1, bars[i + p.timeStop - 1].close, TimeStop))
  {
    t := TradeAt(bars, p, i);
  }

  lemma TradeExitsFirst(bars: seq<Bar>, p: Params, i: nat)
    requires 30 <= i && i + p.timeStop < |bars|
    ensures ExitsFirst(bars, p, TradeAt(bars, p, i))
  {
    LevelsAreDistances(bars, p, i);
    var t := TradeOfLevels(bars, p, i, LevelsAt(bars, p, i));
    FirstExitEnds(bars, LevelsAt(bars, p, i), t, i + p.timeStop);
  }

  /** `trades` is the list the outer loop must produce from bar i on: each trade enters at the close of
      an entry bar and exits first, entries are at least five bars after the previous exit, and no
      entry bar is skipped. */
  ghost predicate TradeList(bars: seq<Bar>, p: Params, i: nat, trades: seq<Trade>)
    requires i >= 30
    decreases |trades|
  {
    if trades == [] then NoEntry(bars, i, |bars| - p.timeStop)
    else
      var t := trades[0];
      && i <= t.entry && t.entry + p.timeStop < |bars|
      && Enters(bars, t.entry) && NoEntry(bars, i, t.entry)
      && t.entryPrice == bars[t.entry].close && t.entryPrice != 0.0
      && ExitsFirst(bars, p, t)
      && TradeList(bars, p, t.exit + 5, trades[1..])
  }

  ghost predicate NoEntry(bars: seq<Bar>, i: nat, end: int)
    requires i >= 30
  {
    forall k :: i <= k < end && k < |bars| ==> !Enters(bars, k)
  }

  lemma SkipBar(bars: seq<Bar>, p: Params, i: nat, trades: seq<Trade>)
    requires i >= 30 && TradeList(bars, p, i + 1, trades) && i < |bars| && !Enters(bars, i)
    ensures TradeList(bars, p, i, trades)
  {
    if trades == [] {
      assert NoEntry(bars, i, |bars| - p.timeStop);
    } else {
      assert NoEntry(bars, i, trades[0].entry);
    }
  }

  lemma AddTrade(bars: seq<Bar>, p: Params, i: nat, rest: seq<Trade>)
    requires i >= 30 && i + p.timeStop < |bars| && bars[i].close != 0.0 && Enters(bars, i)
    requires TradeAt(bars, p, i).exit + 5 >= 30 && TradeList(bars, p, TradeAt(bars, p, i).exit + 5, rest)
    ensures TradeList(bars, p, i, [TradeAt(bars, p, i)] + rest)
  {
    TradeExitsFirst(bars, p, i);
    var trades := [TradeAt(bars, p, i)] + rest;
    assert trades[1..] == rest;
    assert NoEntry(bars, i, i);
  }

  /** The simulator produces exactly that list. */
  lemma {:induction false} SimulatorMeetsSpec(bars: seq<Bar>, p: Params, i: nat)
    requires Priced(bars) && i >= 30
    ensures TradeList(bars, p, i, TradesFrom(bars, p, i))
    decreases |bars| - i
  {
    if i + p.timeStop >= |bars| {
      NothingLeft(bars, p, i);
    } else if Signal(bars, i) {
      EntryIsSignal(bars, i);
      var next := TakenAt(bars, p, i);
      SimulatorMeetsSpec(bars, p, next);
      assert TradeList(bars, p, i, [TradeAt(bars, p, i)] + TradesFrom(bars, p, next)) by {
        AddTrade(bars, p, i, TradesFrom(bars, p, next));
      }
    } else {
      EntryIsSignal(bars, i);
      SkippedAt(bars, p, i);
      SimulatorMeetsSpec(bars, p, i + 1);
      SkipBar(bars, p, i, TradesFrom(bars, p, i + 1));
    }
  }

  lemma NothingLeft(bars: seq<Bar>, p: Params, i: nat)
    requires Priced(bars) && i >= 30 && i + p.timeStop >= |bars|
    ensures TradeList(bars, p, i, TradesFrom(bars, p, i))
  {
  }

  lemma TakenAt(bars: seq<Bar>, p: Params, i: nat) returns (next: nat)
    requires Priced(bars) && i >= 1 && i + p.timeStop < |bars| && Signal(bars, i)
    ensures next == TradeAt(bars, p, i).exit + 5 && i < next
    ensures TradesFrom(bars, p, i) == [TradeAt(bars, p, i)] + TradesFrom(bars, p, next)
  {
    ExitNotBefore(bars, p, i);
    next := TradeAt(bars, p, i).exit + 5;
  }

  lemma SkippedAt(bars: seq<Bar>, p: Params, i: nat)
    requires Priced(bars) && i >= 1 && i + p.timeStop < |bars| && !Signal(bars, i)
    ensures TradesFrom(bars, p, i) == TradesFrom(bars, p, i + 1)
  {
  }

  // ---------- the description determines the trades ----------

  lemma SameEnd(bars: seq<Bar>, t: Trade, u: Trade, end: nat, l: Levels)
    requires t.entry == u.entry <= end < |bars| && EndsFirst(bars, t, end, l) && EndsFirst(bars, u, end, l)
    ensures t.exit == u.exit && t.exitPrice == u.exitPrice && t.reason == u.reason
  {
    if t.reason != TimeStop { assert !Quiet(bars[t.exit], l); }
    if u.reason != TimeStop { assert !Quiet(bars[u.exit], l); }
  }

  lemma HeadFacts(bars: seq<Bar>, p: Params, i: nat, t: Trade, rest: seq<Trade>)
    requires i >= 30 && TradeList(bars, p, i, [t] + rest)
    ensures i <= t.entry && t.entry + p.timeStop < |bars| && Enters(bars, t.entry) && NoEntry(bars, i, t.entry)
    ensures t.entryPrice == bars[t.entry].close && ExitsFirst(bars, p, t)
    ensures t.exit + 5 >= 30 && TradeList(bars, p, t.exit + 5, rest)
  {
    assert ([t] + rest)[1..] == rest && ([t] + rest)[0] == t;
  }

  lemma SameHead(bars: seq<Bar>, p: Params, i: nat, t: Trade, rest: seq<Trade>, u: Trade, rest': seq<Trade>)
    requires i >= 30 && TradeList(bars, p, i, [t] + rest) && TradeList(bars, p, i, [u] + rest')
    ensures t == u && t.exit + 5 >= 30
    ensures TradeList(bars, p, t.exit + 5, rest) && TradeList(bars, p, t.exit + 5, rest')
  {
    HeadFacts(bars, p, i, t, rest);
    HeadFacts(bars, p, i, u, rest');
    assert t.entry == u.entry;
    SameEnd(bars, t, u, t.entry + p.timeStop, Distances(bars, p, t.entry));
  }

  lemma {:induction false} OnlyList(bars: seq<Bar>, p: Params, i: nat, a: seq<Trade>, b: seq<Trade>)
    requires i >= 30 && TradeList(bars, p, i, a) && TradeList(bars, p, i, b)
    ensures a == b
    decreases |a|
  {
    if a != [] { assert a == [a[0]] + a[1..]; }
    if b != [] { assert b == [b[0]] + b[1..]; }
    if a == [] || b == [] {
    } else {
      SameHead(bars, p, i, a[0], a[1..], b[0], b[1..]);
      OnlyList(bars, p, a[0].exit + 5, a[1..], b[1..]);
    }
  }

  /** The description is met by the trades of the simulator and by no other list. */
  lemma SimulatorExactly(bars: seq<Bar>, p: Params, trades: seq<Trade>)
    requires Priced(bars)
    ensures trades == Simulate(bars, p) <==> if |bars| < 60 then trades == [] else TradeList(bars, p, 30, trades)
  {
    SimulatorMeetsSpec(bars, p, 30);
    if |bars| >= 60 && TradeList(bars, p, 30, trades) { OnlyList(bars, p, 30, trades, Simulate(bars, p)); }
  }

  lemma TrueRangesNonNegative(bars: seq<Bar>, k: nat)
    requires Sound(bars) && k < |TrueRanges(bars)|
    ensures TrueRanges(bars)[k] >= 0.0
  {
  }

  lemma AtrNonNegative(bars: seq<Bar>, i: nat)
    requires Sound(bars) && 1 <= i < |bars|
    ensures Atr(bars, i) >= 0.0
  {
    var tr := TrueRanges(bars);
    forall k | 0 <= k < |tr| ensures tr[k] >= 0.0 {
      TrueRangesNonNegative(bars, k);
    }
    RollingMeanNonNegative(tr, 14, i - 1);
  }

  lemma RollingMeanNonNegative(v: seq<real>, window: nat, i: nat)
    requires window > 0 && i < |v| && forall k :: 0 <= k < |v| ==> v[k] >= 0.0
    ensures RollingMean(v, window, i).Some? ==> RollingMean(v, window, i).value >= 0.0
  {
    if i + 1 >= window {
      PrefixSumMonotone(v, i + 1 - window, i + 1);
      QuotientNonNegative(PrefixSum(v, i + 1) - PrefixSum(v, i + 1 - window), window as real);
    }
  }

  lemma QuotientNonNegative(x: real, y: real)
    requires x >= 0.0 && y > 0.0
    ensures x / y >= 0.0
  {
  }

  /** With sound bars, non-negative multipliers and a time stop of at least one bar, every exit
      price lies between 0.88 of the entry and the target, whatever the reason, and the loss
      is bounded. */
  lemma ExitPriceBand(bars: seq<Bar>, p: Params, t: Trade)
    requires Sound(bars) && p.slMult >= 0.0 && p.tpMult >= 0.0 && p.timeStop >= 1
    requires 30 <= t.entry && t.entry + p.timeStop < |bars|
    requires ExitsFirst(bars, p, t) && t.entryPrice == bars[t.entry].close
    ensures InBand(bars, p, t)
  {
    LevelsOrdered(bars, p, t.entry);
    LevelsAreDistances(bars, p, t.entry);
    EndInBand(bars, t, t.entry + p.timeStop, Distances(bars, p, t.entry));
    PnlBound(t);
  }

  lemma EndInBand(bars: seq<Bar>, t: Trade, end: nat, l: Levels)
    requires Sound(bars) && t.entry < end < |bars| && l.entry == bars[t.entry].close && l.stop <= l.entry <= l.target
    requires EndsFirst(bars, t, end, l)
    ensures 0.88 * l.entry <= t.exitPrice <= l.target
  {
    if t.reason == TimeStop && t.exit > t.entry {
      assert Quiet(bars[t.exit], l);
    }
  }

  lemma LevelsOrdered(bars: seq<Bar>, p: Params, i: nat)
    requires Sound(bars) && p.slMult >= 0.0 && p.tpMult >= 0.0 && 1 <= i < |bars|
    ensures var l := LevelsAt(bars, p, i); l.stop <= l.entry <= l.target && l.entry == bars[i].close
  {
    AtrNonNegative(bars, i);
    ProductNonNegative(Atr(bars, i), p.slMult);
    ProductNonNegative(Atr(bars, i), p.tpMult);
  }

  lemma PnlBound(t: Trade)
    requires t.entryPrice > 0.0 && t.exitPrice >= 0.88 * t.entryPrice
    ensures Pnl(t) >= -0.12585
  {
  }

  /** All trades of a run satisfy the band. */
  lemma {:induction false} EveryTradeInBand(bars: seq<Bar>, p: Params, i: nat, trades: seq<Trade>, k: nat)
    requires Sound(bars) && p.slMult >= 0.0 && p.tpMult >= 0.0 && p.timeStop >= 1
    requires i >= 30 && TradeList(bars, p, i, trades) && k < |trades|
    ensures InBand(bars, p, trades[k])
    ensures k + 1 < |trades| ==> trades[k + 1].entry >= trades[k].exit + 5
    decreases k
  {
    if k == 0 {
      ExitPriceBand(bars, p, trades[0]);
    } else {
      EveryTradeInBand(bars, p, trades[0].exit + 5, trades[1..], k - 1);
    }
  }

  /** The exit price of a trade lies in its band, and its loss is bounded. */
  ghost predicate InBand(bars: seq<Bar>, p: Params, t: Trade) {
    && 30 <= t.entry < |bars| && t.entryPrice > 0.0 && Pnl(t) >= -0.12585
    && 0.88 * t.entryPrice <= t.exitPrice <= Distances(bars, p, t.entry).target
  }

  ghost predicate AllInBand(bars: seq<Bar>, p: Params)
    requires Priced(bars)
  {
    forall k :: 0 <= k < |Simulate(bars, p)| ==> InBand(bars, p, Simulate(bars, p)[k])
  }

  lemma SimulatedTrade(bars: seq<Bar>, p: Params, k: nat)
    requires Sound(bars) && Priced(bars) && p.slMult >= 0.0 && p.tpMult >= 0.0 && p.timeStop >= 1
    requires k < |Simulate(bars, p)|
    ensures InBand(bars, p, Simulate(bars, p)[k])
  {
    SimulatorMeetsSpec(bars, p, FIRST_BAR);
    EveryTradeInBand(bars, p, FIRST_BAR, Simulate(bars, p), k);
  }

  /** The bound on the time stop is needed: with a time stop of zero the loop exits one bar
      before it enters, at whatever that bar closed. */
  lemma ZeroTimeStopExitsBeforeEntry(bars: seq<Bar>, p: Params, i: nat)
    requires p.timeStop == 0 && 1 <= i < |bars|
    ensures TradeAt(bars, p, i).exit == i - 1
    ensures TradeAt(bars, p, i).exitPrice == bars[i - 1].close
    ensures TradeAt(bars, p, i).entryPrice == bars[i].close
  {
  }

  /** Sixty flat bars, except that bar 30 doubles in price and volume. */
  function Spike(): (bars: seq<Bar>)
    ensures |bars| == MIN_BARS
  {
    seq(MIN_BARS, i => if i == FIRST_BAR then Bar(2.0, 2.0, 2.0, 2.0) else Bar(1.0, 1.0, 1.0, 1.0))
  }

  lemma {:induction false} FlatPrefix(v: seq<real>, k: nat)
    requires k <= |v| && forall i :: 0 <= i < k ==> v[i] == 1.0
    ensures PrefixSum(v, k) == k as real
  {
    if k == 0 {
    } else {
      FlatPrefix(v, k - 1);
    }
  }

  /** A sound frame on which a time stop of zero loses half of the entry price. */
  lemma ZeroTimeStopBreaksBand(bars: seq<Bar>, p: Params)
    requires p.timeStop == 0 && bars == Spike()
    ensures Sound(bars) && Priced(bars)
    ensures var trades := Simulate(bars, p);
            trades != [] && trades[0].exitPrice == 1.0 < 0.88 * trades[0].entryPrice
  {
    SpikeSignals(bars);
    FirstTrade(bars, p, FIRST_BAR);
    ZeroTimeStopExitsBeforeEntry(bars, p, FIRST_BAR);
  }

  /** So, for non-negative multipliers, the band holds on all sound frames exactly for time stops
      of at least one bar. */
  lemma BandExactly(p: Params)
    requires p.slMult >= 0.0 && p.tpMult >= 0.0
    ensures (forall bars :: Sound(bars) && Priced(bars) ==> AllInBand(bars, p)) <==> p.timeStop >= 1
  {
    if p.timeStop >= 1 {
      forall bars | Sound(bars) && Priced(bars) ensures AllInBand(bars, p) {
        forall k | 0 <= k < |Simulate(bars, p)| ensures InBand(bars, p, Simulate(bars, p)[k]) {
          SimulatedTrade(bars, p, k);
        }
      }
    } else {
      var bars := Spike();
      ZeroTimeStopBreaksBand(bars, p);
      assert !InBand(bars, p, Simulate(bars, p)[0]);
    }
  }

  lemma FirstTrade(bars: seq<Bar>, p: Params, i: nat)
    requires Priced(bars) && 1 <= i && i + p.timeStop < |bars| && Signal(bars, i)
    ensures TradesFrom(bars, p, i) != [] && TradesFrom(bars, p, i)[0] == TradeAt(bars, p, i)
  {
  }

  lemma SpikeSignals(bars: seq<Bar>)
    requires bars == Spike()
    ensures Signal(bars, FIRST_BAR)
  {
    SpikeMean(Closes(bars));
    SpikeMean(Volumes(bars));
  }

  lemma SpikeMean(v: seq<real>)
    requires |v| == MIN_BARS && v[FIRST_BAR] == 2.0 && forall i :: 0 <= i < FIRST_BAR ==> v[i] == 1.0
    ensures RollingMean(v, 20, FIRST_BAR) == Some(1.05)
  {
    FlatPrefix(v, 30);
    FlatPrefix(v, 11);
    assert PrefixSum(v, 31) == PrefixSum(v, 30) + v[30];
  }
}
