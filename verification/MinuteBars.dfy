/** shioaji-proxy/main.py: one-minute bars built tick by tick, a deque of at most 360 bars per
    symbol (`update_minute_bar`), and the bars handed out as completed.

    The deque only ever looks at its last bar. When ticks do not go back to an earlier minute,
    that is enough: the deque is the tail of the list that groups all ticks by minute. */
module MinuteBars {
  import opened Common
  import opened ProxyEvents

  const MINUTE := 60_000
  const DAY_MINUTES := 1440
  const OPEN_MINUTE := 540
  const CLOSE_MINUTE := 810
  const MAX_BARS := 360

  datatype Tick = Tick(price: real, volume: int, minute: int, received: int, epoch: nat)

  datatype Bar = Bar(minute: int, open: real, high: real, low: real, close: real,
                     volume: int, lastEvent: int, epoch: nat)

  predicate InSession(t: Tick) {
    OPEN_MINUTE <= t.minute % DAY_MINUTES < CLOSE_MINUTE
  }

  function Open(t: Tick): Bar {
    Bar(t.minute, t.price, t.price, t.price, t.price, t.volume, t.received, t.epoch)
  }

  function Extend(b: Bar, t: Tick): Bar {
    b.(high := Max(b.high, t.price), low := Min(b.low, t.price), close := t.price,
       volume := b.volume + t.volume, lastEvent := t.received, epoch := t.epoch)
  }

  function TakeLast<T>(s: seq<T>, n: nat): seq<T> {
    if |s| <= n then s else s[|s| - n..]
  }

  /** Extend the last bar if the tick falls into its minute, else append a bar. */
  function Place(bars: seq<Bar>, t: Tick, limit: nat): seq<Bar> {
    if bars != [] && bars[|bars| - 1].minute == t.minute
    then bars[|bars| - 1 := Extend(bars[|bars| - 1], t)]
    else TakeLast(bars + [Open(t)], limit)
  }

  function UpdateBars(bars: seq<Bar>, t: Tick): seq<Bar> {
    if InSession(t) then Place(bars, t, MAX_BARS) else bars
  }

  /** A priced tick; a tick without an exchange time counts as happening now. */
  function TickFrom(e: Event): Option<Tick>
    requires e.TickArrived?
  {
    if e.price.None? then None
    else
      var at := if e.source.Some? then e.source.value else e.now;
      Some(Tick(e.price.value, e.volume, at / MINUTE, e.now, e.epoch))
  }

  type BarStore = map<Symbol, seq<Bar>>

  function Get(bars: BarStore, symbol: Symbol): seq<Bar> {
    if symbol in bars then bars[symbol] else []
  }

  function BarsStep(c: Control, bars: BarStore, e: Event): BarStore {
    if e.TickArrived? && Hears(c, e.epoch) && TickFrom(e).Some? && InSession(TickFrom(e).value)
    then bars[e.symbol := UpdateBars(Get(bars, e.symbol), TickFrom(e).value)]
    else bars
  }

  function BarsOf(cfg: Config, log: Log): BarStore {
    if log == [] then map[]
    else
      var before := log[..|log| - 1];
      BarsStep(ControlOf(cfg, before), BarsOf(cfg, before), log[|log| - 1])
  }

  // ---------- the specification: group the accepted session ticks by minute ----------

  /** Accepted, priced, in-session ticks of one symbol, in arrival order. */
  function SessionTicks(cfg: Config, log: Log, symbol: Symbol): seq<Tick> {
    if log == [] then []
    else
      var before, e := log[..|log| - 1], log[|log| - 1];
      var rest := SessionTicks(cfg, before, symbol);
      if e.TickArrived? && e.symbol == symbol && Hears(ControlOf(cfg, before), e.epoch)
         && TickFrom(e).Some? && InSession(TickFrom(e).value)
      then rest + [TickFrom(e).value]
      else rest
  }

  function TicksIn(ts: seq<Tick>, minute: int): seq<Tick> {
    if ts == [] then []
    else
      var rest := TicksIn(ts[..|ts| - 1], minute);
      if ts[|ts| - 1].minute == minute then rest + [ts[|ts| - 1]] else rest
  }

  function Volume(ts: seq<Tick>): int {
    if ts == [] then 0 else Volume(ts[..|ts| - 1]) + ts[|ts| - 1].volume
  }

  function Highest(ts: seq<Tick>): real
    requires ts != []
  {
    if |ts| == 1 then ts[0].price else Max(Highest(ts[..|ts| - 1]), ts[|ts| - 1].price)
  }

  function Lowest(ts: seq<Tick>): real
    requires ts != []
  {
    if |ts| == 1 then ts[0].price else Min(Lowest(ts[..|ts| - 1]), ts[|ts| - 1].price)
  }

  /** First, highest, lowest and last price and total volume of the ticks of one minute. */
  function Summary(ts: seq<Tick>): Bar
    requires ts != []
  {
    var last := ts[|ts| - 1];
    Bar(ts[0].minute, ts[0].price, Highest(ts), Lowest(ts), last.price, Volume(ts), last.received, last.epoch)
  }

  ghost predicate SummaryAt(bars: seq<Bar>, ts: seq<Tick>, i: nat)
    requires i < |bars|
  {
    TicksIn(ts, bars[i].minute) != [] && bars[i] == Summary(TicksIn(ts, bars[i].minute))
  }

  ghost predicate Increasing(bars: seq<Bar>) {
    forall i, j :: 0 <= i < j < |bars| ==> bars[i].minute < bars[j].minute
  }

  ghost predicate HasBar(bars: seq<Bar>, minute: int) {
    exists j :: 0 <= j < |bars| && bars[j].minute == minute
  }

  /** One bar per minute that has ticks, in time order, each summarizing the ticks of its minute. */
  ghost predicate GroupsByMinute(bars: seq<Bar>, ts: seq<Tick>) {
    && Increasing(bars)
    && (forall i :: 0 <= i < |bars| ==> SummaryAt(bars, ts, i))
    && (forall i :: 0 <= i < |ts| ==> HasBar(bars, ts[i].minute))
  }

  /** The summary has the meaning its names promise. */
  lemma {:induction false} SummaryMeaning(ts: seq<Tick>)
    requires ts != []
    ensures forall i :: 0 <= i < |ts| ==> Lowest(ts) <= ts[i].price <= Highest(ts)
    ensures exists i :: 0 <= i < |ts| && ts[i].price == Highest(ts)
    ensures exists i :: 0 <= i < |ts| && ts[i].price == Lowest(ts)
  {
    var last := |ts| - 1;
    if last == 0 {
      assert ts[0].price == Highest(ts) == Lowest(ts);
    } else {
      var front := ts[..last];
      SummaryMeaning(front);
      var hi :| 0 <= hi < last && front[hi].price == Highest(front);
      var lo :| 0 <= lo < last && front[lo].price == Lowest(front);
      assert ts[hi] == front[hi] && ts[lo] == front[lo];
      assert ts[last].price == Highest(ts) || ts[hi].price == Highest(ts);
      assert ts[last].price == Lowest(ts) || ts[lo].price == Lowest(ts);
      forall i | 0 <= i < |ts| ensures Lowest(ts) <= ts[i].price <= Highest(ts) {
        if i < last { assert ts[i] == front[i]; }
      }
    }
  }

  /** Ticks never go back to an earlier minute. */
  ghost predicate MinuteMonotone(ts: seq<Tick>) {
    forall i, j :: 0 <= i < j < |ts| ==> ts[i].minute <= ts[j].minute
  }

  /** All bars since the start, never truncated. */
  function AllBars(ts: seq<Tick>): seq<Bar> {
    if ts == [] then []
    else Place(AllBars(ts[..|ts| - 1]), ts[|ts| - 1], |ts|)
  }

  lemma {:induction false} AllBarsNotMore(ts: seq<Tick>)
    ensures |AllBars(ts)| <= |ts|
  {
    if ts == [] {
    } else {
      AllBarsNotMore(ts[..|ts| - 1]);
    }
  }

  /** The deque is the last 360 of all bars, whatever order the ticks come in. */
  lemma {:induction false} DequeIsTail(cfg: Config, log: Log, symbol: Symbol)
    ensures Get(BarsOf(cfg, log), symbol) == TakeLast(AllBars(SessionTicks(cfg, log, symbol)), 360)
  {
    if log == [] {
    } else {
      var before, e := log[..|log| - 1], log[|log| - 1];
      DequeIsTail(cfg, before, symbol);
      var ts := SessionTicks(cfg, before, symbol);
      AllBarsNotMore(ts);
      if e.TickArrived? && e.symbol == symbol && Hears(ControlOf(cfg, before), e.epoch) && TickFrom(e).Some? {
        var t := TickFrom(e).value;
        if InSession(t) {
          assert (ts + [t])[..|ts + [t]| - 1] == ts;
          TruncateStep(AllBars(ts), t, |ts| + 1);
        }
      }
    }
  }

  lemma TruncateStep(all: seq<Bar>, t: Tick, limit: nat)
    requires |all| < limit
    ensures Place(TakeLast(all, MAX_BARS), t, MAX_BARS) == TakeLast(Place(all, t, limit), MAX_BARS)
  {
  }

  lemma {:induction false} NoTicksIn(ts: seq<Tick>, minute: int)
    requires forall i :: 0 <= i < |ts| ==> ts[i].minute != minute
    ensures TicksIn(ts, minute) == []
  {
    if ts == [] {
    } else {
      NoTicksIn(ts[..|ts| - 1], minute);
    }
  }

  /** A deque with room never drops a bar. */
  lemma PlaceRoom(bars: seq<Bar>, t: Tick, limit: nat)
    requires |bars| < limit
    ensures Place(bars, t, limit) == Put(bars, t)
  {
  }

  function Put(bars: seq<Bar>, t: Tick): seq<Bar> {
    if bars != [] && bars[|bars| - 1].minute == t.minute
    then bars[|bars| - 1 := Extend(bars[|bars| - 1], t)]
    else bars + [Open(t)]
  }

  lemma AllBarsStep(us: seq<Tick>, t: Tick)
    ensures AllBars(us + [t]) == Put(AllBars(us), t)
  {
    Snoc(us, t);
    AllBarsNotMore(us);
    PlaceRoom(AllBars(us), t, |us| + 1);
  }

  /** The last bar is the one of the last tick ... */
  lemma LastBar(ts: seq<Tick>)
    requires ts != []
    ensures AllBars(ts) != [] && AllBars(ts)[|AllBars(ts)| - 1].minute == ts[|ts| - 1].minute
  {
  }

  /** ... and no bar is later, when ticks do not go back. */
  lemma {:induction false} AllBarsIncreasing(ts: seq<Tick>)
    requires MinuteMonotone(ts)
    ensures Increasing(AllBars(ts))
  {
    if ts == [] {
    } else {
      var us, t := ts[..|ts| - 1], ts[|ts| - 1];
      assert ts == us + [t];
      AllBarsIncreasing(us);
      AllBarsStep(us, t);
      if us != [] {
        LastBar(us);
        assert us[|us| - 1].minute <= t.minute;
      }
    }
  }

  lemma PutCovers(bars: seq<Bar>, t: Tick, minute: int)
    requires HasBar(bars, minute) || t.minute == minute
    ensures HasBar(Put(bars, t), minute)
  {
    var after := Put(bars, t);
    if HasBar(bars, minute) {
      var j :| 0 <= j < |bars| && bars[j].minute == minute;
      assert after[j].minute == minute;
    } else {
      assert after[|after| - 1].minute == minute;
    }
  }

  lemma {:induction false} AllBarsCover(ts: seq<Tick>, i: nat)
    requires i < |ts|
    ensures HasBar(AllBars(ts), ts[i].minute)
  {
    var us, t := ts[..|ts| - 1], ts[|ts| - 1];
    assert ts == us + [t];
    AllBarsStep(us, t);
    if i < |us| { AllBarsCover(us, i); }
    PutCovers(AllBars(us), t, ts[i].minute);
  }

  lemma TicksInStep(us: seq<Tick>, t: Tick, minute: int)
    ensures TicksIn(us + [t], minute) == if t.minute == minute then TicksIn(us, minute) + [t] else TicksIn(us, minute)
  {
  }

  lemma SummaryStep(sub: seq<Tick>, t: Tick)
    requires sub != []
    ensures Summary(sub + [t]) == Extend(Summary(sub), t)
  {
  }

  lemma SummaryOne(t: Tick)
    ensures Summary([t]) == Open(t)
  {
    var ts := [t];
    assert ts[..|ts| - 1] == [] && ts[0] == t;
    assert Volume(ts) == Volume([]) + t.volume;
  }

  lemma BarsGrow(us: seq<Tick>, t: Tick)
    ensures |AllBars(us)| <= |AllBars(us + [t])| <= |AllBars(us)| + 1
  {
    AllBarsStep(us, t);
  }

  lemma {:induction false} AllBarsSummarize(ts: seq<Tick>, i: nat)
    requires MinuteMonotone(ts) && i < |AllBars(ts)|
    ensures SummaryAt(AllBars(ts), ts, i)
  {
    var us, t := ts[..|ts| - 1], ts[|ts| - 1];
    assert ts == us + [t];
    BarsGrow(us, t);
    if i < |AllBars(us)| {
      AllBarsSummarize(us, i);
      EarlierBar(us, t, i);
      OldBar(us, t, i);
    } else {
      NewBar(us, t);
    }
  }

  lemma NewBar(us: seq<Tick>, t: Tick)
    requires MinuteMonotone(us + [t]) && |AllBars(us + [t])| == |AllBars(us)| + 1
    ensures SummaryAt(AllBars(us + [t]), us + [t], |AllBars(us)|)
  {
    AllBarsStep(us, t);
    if us != [] { LastBar(us); }
    forall k | 0 <= k < |us| ensures us[k].minute != t.minute {
      EarlierMinutes(us + [t], k);
    }
    FirstOfMinute(us, t);
  }

  lemma EarlierBar(us: seq<Tick>, t: Tick, i: nat)
    requires MinuteMonotone(us + [t]) && i < |AllBars(us)|
    ensures AllBars(us)[i].minute == t.minute ==> i == |AllBars(us)| - 1
  {
    var bars := AllBars(us + [t]);
    AllBarsStep(us, t);
    AllBarsIncreasing(us + [t]);
    LastBar(us + [t]);
    if i < |AllBars(us)| - 1 {
      assert bars[i].minute < bars[|bars| - 1].minute;
    }
  }

  /** A bar that was there before keeps summarizing its minute. */
  lemma OldBar(us: seq<Tick>, t: Tick, i: nat)
    requires i < |AllBars(us)| && SummaryAt(AllBars(us), us, i)
    requires AllBars(us)[i].minute == t.minute ==> i == |AllBars(us)| - 1
    ensures i < |AllBars(us + [t])| && SummaryAt(AllBars(us + [t]), us + [t], i)
  {
    AllBarsStep(us, t);
    TicksInStep(us, t, AllBars(us)[i].minute);
    if AllBars(us)[i].minute == t.minute { SummaryStep(TicksIn(us, t.minute), t); }
  }

  lemma EarlierMinutes(ts: seq<Tick>, k: nat)
    requires MinuteMonotone(ts) && |ts| >= 2 && k < |ts| - 1
    requires ts[|ts| - 2].minute != ts[|ts| - 1].minute
    ensures ts[k].minute != ts[|ts| - 1].minute
  {
  }

  /** A tick that opens a bar is the first of its minute. */
  lemma FirstOfMinute(us: seq<Tick>, t: Tick)
    requires forall k :: 0 <= k < |us| ==> us[k].minute != t.minute
    ensures TicksIn(us + [t], t.minute) == [t] && Summary([t]) == Open(t)
  {
    NoTicksIn(us, t.minute);
    TicksInStep(us, t, t.minute);
    SummaryOne(t);
  }

  lemma AllBarsGroup(ts: seq<Tick>)
    requires MinuteMonotone(ts)
    ensures GroupsByMinute(AllBars(ts), ts)
  {
    AllBarsIncreasing(ts);
    forall i | 0 <= i < |AllBars(ts)| ensures SummaryAt(AllBars(ts), ts, i) {
      AllBarsSummarize(ts, i);
    }
    forall i | 0 <= i < |ts| ensures HasBar(AllBars(ts), ts[i].minute) {
      AllBarsCover(ts, i);
    }
  }

  /** Bars in increasing order betray that no tick went back to an earlier minute. */
  lemma {:induction false} IncreasingBarsMonotoneTicks(ts: seq<Tick>)
    requires Increasing(AllBars(ts))
    ensures MinuteMonotone(ts)
  {
    if ts == [] {
    } else {
      var us, t := ts[..|ts| - 1], ts[|ts| - 1];
      assert ts == us + [t];
      AllBarsStep(us, t);
      StillIncreasing(AllBars(us), AllBars(ts));
      IncreasingBarsMonotoneTicks(us);
      if us != [] {
        LastBar(us);
        LastBar(ts);
        LaterThanAll(us, t);
      }
    }
  }

  lemma StillIncreasing(prev: seq<Bar>, bars: seq<Bar>)
    requires |prev| <= |bars| && Increasing(bars)
    requires forall i :: 0 <= i < |prev| ==> prev[i].minute == bars[i].minute
    ensures Increasing(prev)
  {
  }

  lemma LaterThanAll(us: seq<Tick>, t: Tick)
    requires us != [] && MinuteMonotone(us) && us[|us| - 1].minute <= t.minute
    ensures MinuteMonotone(us + [t])
  {
  }

  /** In any run the deque of a symbol is the last 360 of its bars, and those bars are the
      grouping of its in-session ticks by minute exactly when no tick goes back to an earlier
      minute. */
  lemma BarsAreGroupedTicks(cfg: Config, log: Log, symbol: Symbol)
    ensures var ts := SessionTicks(cfg, log, symbol);
            && Get(BarsOf(cfg, log), symbol) == TakeLast(AllBars(ts), 360)
            && (GroupsByMinute(AllBars(ts), ts) <==> MinuteMonotone(ts))
  {
    var ts := SessionTicks(cfg, log, symbol);
    if MinuteMonotone(ts) { AllBarsGroup(ts); }
    if GroupsByMinute(AllBars(ts), ts) { IncreasingBarsMonotoneTicks(ts); }
    DequeIsTail(cfg, log, symbol);
  }

  /** Without that the bars are wrong: going back a minute splits the later minute in two. */
  lemma SplitMinute(a: Tick, late: Tick, b: Tick)
    requires late.minute < a.minute && b.minute == a.minute
    ensures AllBars([a, late, b]) == [Open(a), Open(late), Open(b)]
    ensures !GroupsByMinute(AllBars([a, late, b]), [a, late, b])
  {
    assert [] + [a] == [a] && [a] + [late] == [a, late] && [a, late] + [b] == [a, late, b];
    AllBarsStep([], a);
    AllBarsStep([a], late);
    AllBarsStep([a, late], b);
    var bars := AllBars([a, late, b]);
    assert bars[0].minute == bars[2].minute;
  }

  lemma Grow(cfg: Config, log: Log, e: Event, symbol: Symbol)
    ensures ControlOf(cfg, log + [e]) == ControlStep(cfg, ControlOf(cfg, log), e)
    ensures e.TickArrived? && e.symbol == symbol && Hears(ControlOf(cfg, log), e.epoch)
            && TickFrom(e).Some? && InSession(TickFrom(e).value)
            ==> SessionTicks(cfg, log + [e], symbol) == SessionTicks(cfg, log, symbol) + [TickFrom(e).value]
    ensures !e.TickArrived? ==> SessionTicks(cfg, log + [e], symbol) == SessionTicks(cfg, log, symbol)
  {
    Snoc(log, e);
  }

  /** A traded price of 10 at the given exchange time. */
  function Trade(symbol: Symbol, source: int, now: int): Event {
    TickArrived(symbol, Some(10.0), 1, Some(source), 1, now)
  }

  /** One session, three ticks of one symbol: 09:01:00, then 09:00:59 delivered late, then 09:01:10. */
  function LateRun(symbol: Symbol): Log {
    [] + [LoggedIn] + [Trade(symbol, 541 * MINUTE, 541 * MINUTE)]
    + [Trade(symbol, 541 * MINUTE - 1_000, 541 * MINUTE + 5_000)]
    + [Trade(symbol, 541 * MINUTE + 10_000, 541 * MINUTE + 10_000)]
  }

  lemma LateRunTicks(cfg: Config, symbol: Symbol)
    ensures SessionTicks(cfg, LateRun(symbol), symbol)
         == [Tick(10.0, 1, 541, 541 * MINUTE, 1), Tick(10.0, 1, 540, 541 * MINUTE + 5_000, 1),
             Tick(10.0, 1, 541, 541 * MINUTE + 10_000, 1)]
  {
    var l0: Log := [];
    var e0, e1 := LoggedIn, Trade(symbol, 541 * MINUTE, 541 * MINUTE);
    var e2 := Trade(symbol, 541 * MINUTE - 1_000, 541 * MINUTE + 5_000);
    var e3 := Trade(symbol, 541 * MINUTE + 10_000, 541 * MINUTE + 10_000);
    Grow(cfg, l0, e0, symbol);
    Grow(cfg, l0 + [e0], e1, symbol);
    Grow(cfg, l0 + [e0] + [e1], e2, symbol);
    Grow(cfg, l0 + [e0] + [e1] + [e2], e3, symbol);
  }

  /** In that run, although the clock never runs backwards, the deque of the symbol ends with two
      bars of minute 09:01 around one of 09:00, so it is not the grouping by minute. */
  lemma LateTickSplitsAMinute(cfg: Config, symbol: Symbol)
    ensures var log := LateRun(symbol);
            var bars := Get(BarsOf(cfg, log), symbol);
            && TicksInOrder(log) && |bars| == 3
            && bars[0].minute == bars[2].minute == 541 && bars[1].minute == 540
            && bars[0].volume == bars[2].volume == 1
            && !GroupsByMinute(bars, SessionTicks(cfg, log, symbol))
  {
    var log := LateRun(symbol);
    LateRunTicks(cfg, symbol);
    var ts := SessionTicks(cfg, log, symbol);
    DequeIsTail(cfg, log, symbol);
    SplitMinute(ts[0], ts[1], ts[2]);
    assert ts == [ts[0], ts[1], ts[2]];
  }

  /** Which ticks of a run count, and as what: those heard with a price whose exchange time, or clock when
      there is none, lies between 09:00 and 13:30; a tick belongs to the minute it falls into. */
  lemma SessionTickExactly(cfg: Config, log: Log, n: nat, symbol: Symbol)
    requires n < |log|
    ensures var e, ticks := log[n], SessionTicks(cfg, log[..n], symbol);
            if !e.TickArrived? || e.symbol != symbol || !Heard(log, n, e.epoch) || e.price.None? then
              SessionTicks(cfg, log[..n + 1], symbol) == ticks
            else
              var at := if e.source.Some? then e.source.value else e.now;
              var clock := at % 86_400_000;
              forall m :: 60_000 * m <= at < 60_000 * (m + 1) ==>
                SessionTicks(cfg, log[..n + 1], symbol)
                == if 9 * 3_600_000 <= clock < 13 * 3_600_000 + 1_800_000
                   then ticks + [Tick(e.price.value, e.volume, m, e.now, e.epoch)] else ticks
  {
    assert log[..n + 1][..n] == log[..n];
    var e := log[n];
    if e.TickArrived? {
      HeardExactly(cfg, log, n, e.epoch);
      SessionClock(if e.source.Some? then e.source.value else e.now);
    }
  }

  lemma SessionClock(at: int)
    ensures OPEN_MINUTE <= (at / MINUTE) % DAY_MINUTES < CLOSE_MINUTE
       <==> 9 * 3_600_000 <= at % 86_400_000 < 13 * 3_600_000 + 1_800_000
    ensures forall m :: 60_000 * m <= at < 60_000 * (m + 1) ==> at / MINUTE == m
  {
    var day := at / 86_400_000;
    assert at == 86_400_000 * day + at % 86_400_000;
    assert at / MINUTE == 1440 * day + (at % 86_400_000) / MINUTE;
  }

  // ---------- completed bars ----------

  /** Bars of minutes before `minute`. */
  function Completed(bars: seq<Bar>, minute: int): seq<Bar> {
    if bars == [] then []
    else
      var rest := Completed(bars[..|bars| - 1], minute);
      if bars[|bars| - 1].minute < minute then rest + [bars[|bars| - 1]] else rest
  }

  /** Bars whose date lies in the requested range. */
  function OnDays(bars: seq<Bar>, from: int, to: int): seq<Bar> {
    if bars == [] then []
    else
      var rest := OnDays(bars[..|bars| - 1], from, to);
      if from <= bars[|bars| - 1].minute / DAY_MINUTES <= to then rest + [bars[|bars| - 1]] else rest
  }

  /** `rows` are the bars at the positions `at`, in order, and no other bar meets the condition. */
  ghost predicate Chosen(bars: seq<Bar>, rows: seq<Bar>, at: seq<nat>, minute: int, from: int, to: int) {
    && |at| == |rows|
    && (forall k :: 0 <= k < |at| ==> at[k] < |bars| && rows[k] == bars[at[k]])
    && (forall j, k :: 0 <= j < k < |at| ==> at[j] < at[k])
    && (forall i :: 0 <= i < |bars| ==> (i in at <==> bars[i].minute < minute && from <= bars[i].minute / 1440 <= to))
  }

  lemma RowsGrow(bars: seq<Bar>, b: Bar, minute: int, from: int, to: int)
    ensures OnDays(Completed(bars + [b], minute), from, to)
         == OnDays(Completed(bars, minute), from, to)
            + (if b.minute < minute && from <= b.minute / 1440 <= to then [b] else [])
  {
    Snoc(bars, b);
    Snoc(Completed(bars, minute), b);
  }

  lemma ChosenGrow(bars: seq<Bar>, b: Bar, rows: seq<Bar>, at: seq<nat>, minute: int, from: int, to: int)
    requires Chosen(bars, rows, at, minute, from, to)
    ensures if b.minute < minute && from <= b.minute / 1440 <= to
            then Chosen(bars + [b], rows + [b], at + [|bars|], minute, from, to)
            else Chosen(bars + [b], rows, at, minute, from, to)
  {
    var more := bars + [b];
    forall i | 0 <= i < |more|
      ensures i < |bars| ==> more[i] == bars[i] && (i in at + [|bars|] <==> i in at)
      ensures i == |bars| ==> i !in at
    {
    }
  }

  /** The completed bars of the requested days: those of minutes before the current one, in their order. */
  lemma {:induction false} CompletedExactly(bars: seq<Bar>, minute: int, from: int, to: int) returns (at: seq<nat>)
    ensures Chosen(bars, OnDays(Completed(bars, minute), from, to), at, minute, from, to)
  {
    at := [];
    if bars == [] {
    } else {
      var front, b := bars[..|bars| - 1], bars[|bars| - 1];
      assert bars == front + [b];
      at := CompletedExactly(front, minute, from, to);
      RowsGrow(front, b, minute, from, to);
      ChosenGrow(front, b, OnDays(Completed(front, minute), from, to), at, minute, from, to);
      if b.minute < minute && from <= b.minute / 1440 <= to { at := at + [|front|]; }
    }
  }

  ghost predicate Suffix<T>(s: seq<T>, t: seq<T>) {
    |s| <= |t| && s == t[|t| - |s|..]
  }

  lemma SuffixTransitive<T>(s: seq<T>, t: seq<T>, u: seq<T>)
    requires Suffix(s, t) && Suffix(t, u)
    ensures Suffix(s, u)
  {
  }

  lemma {:induction false} CompletedDropFirst(bars: seq<Bar>, minute: int)
    requires bars != []
    ensures Suffix(Completed(bars[1..], minute), Completed(bars, minute))
  {
    if |bars| > 1 {
      var front := bars[..|bars| - 1];
      CompletedDropFirst(front, minute);
      assert bars[1..][..|bars| - 2] == front[1..];
    } else {
      assert bars[..0] == [] && bars[1..] == [];
    }
  }

  lemma UpdateKeepsCompleted(bars: seq<Bar>, t: Tick, minute: int)
    requires InSession(t) ==> t.minute >= minute
    requires |bars| <= MAX_BARS
    ensures Suffix(Completed(UpdateBars(bars, t), minute), Completed(bars, minute))
    ensures |UpdateBars(bars, t)| <= MAX_BARS
  {
    if InSession(t) {
      var updated := UpdateBars(bars, t);
      if bars != [] && bars[|bars| - 1].minute == t.minute {
        assert updated[..|bars| - 1] == bars[..|bars| - 1];
      } else {
        var more := bars + [Open(t)];
        assert more[..|bars|] == bars;
        assert Completed(more, minute) == Completed(bars, minute);
        if |more| > MAX_BARS {
          CompletedDropFirst(more, minute);
          assert updated == more[1..];
        }
      }
    }
  }

  /** Later accepted in-session ticks of the symbol are not stamped before `minute`. */
  ghost predicate NothingBefore(cfg: Config, log: Log, n: nat, symbol: Symbol, minute: int) {
    forall i :: n <= i < |log| && log[i].TickArrived? && log[i].symbol == symbol
                && Hears(ControlOf(cfg, log[..i]), log[i].epoch) && TickFrom(log[i]).Some?
                && InSession(TickFrom(log[i]).value)
                ==> TickFrom(log[i]).value.minute >= minute
  }

  lemma {:induction false} BarCount(cfg: Config, log: Log, symbol: Symbol)
    ensures |Get(BarsOf(cfg, log), symbol)| <= MAX_BARS
  {
    DequeIsTail(cfg, log, symbol);
  }

  /** A bar once completed never changes: in every continuation of the run whose ticks are not
      stamped before the current minute, the completed bars of then that are still retained
      are a tail of the completed bars of now. */
  lemma {:induction false} CompletedNeverChange(cfg: Config, log: Log, n: nat, symbol: Symbol, minute: int)
    requires n <= |log| && NothingBefore(cfg, log, n, symbol, minute)
    ensures Suffix(Completed(Get(BarsOf(cfg, log), symbol), minute),
                   Completed(Get(BarsOf(cfg, log[..n]), symbol), minute))
  {
    if n == |log| {
      assert log[..n] == log;
    } else {
      var last := |log| - 1;
      var before, e := log[..last], log[last];
      assert before[..n] == log[..n];
      assert NothingBefore(cfg, before, n, symbol, minute) by {
        forall i | n <= i < last ensures before[..i] == log[..i] && before[i] == log[i] {}
      }
      CompletedNeverChange(cfg, before, n, symbol, minute);
      BarCount(cfg, before, symbol);
      if e.TickArrived? && e.symbol == symbol && Hears(ControlOf(cfg, before), e.epoch) && TickFrom(e).Some? {
        UpdateKeepsCompleted(Get(BarsOf(cfg, before), symbol), TickFrom(e).value, minute);
        SuffixTransitive(Completed(Get(BarsOf(cfg, log), symbol), minute),
                         Completed(Get(BarsOf(cfg, before), symbol), minute),
                         Completed(Get(BarsOf(cfg, log[..n]), symbol), minute));
      }
    }
  }

  /** No bar changes once the process is poisoned. */
  lemma {:induction false} NoBarsAfterPoison(cfg: Config, log: Log, n: nat)
    requires n <= |log| && ControlOf(cfg, log[..n]).poisoned
    ensures BarsOf(cfg, log) == BarsOf(cfg, log[..n])
  {
    if n < |log| {
      var before := log[..|log| - 1];
      assert before[..n] == log[..n];
      NoBarsAfterPoison(cfg, before, n);
      EpochCountsLogins(cfg, before, n);
    } else {
      assert log[..n] == log;
    }
  }
}
