/** shioaji-research/main.py: rebuilding the last six one-minute bars of a session from raw
    ticks (`warmup_bars_from_ticks`). Timestamps are milliseconds on the Taiwan clock; a value
    the service cannot parse is None. */
module Warmup {
  import opened Common

  const MINUTE := 60_000
  const DAY_MINUTES := 1440
  const OPEN := 540                // 09:00
  const TAIL_START := 799          // 13:19
  const TAIL_END := 805            // 13:25
  const TAIL_MINUTES := 6

  datatype Error = MissingFields | LengthMismatch | InvalidTrade | InvalidSimtrade | SeedMissing

  /** The columns of a tick query; a missing column is None. */
  datatype Payload = Payload(
    times: Option<seq<Option<int>>>, prices: Option<seq<Option<real>>>, volumes: Option<seq<Option<real>>>,
    simulated: Option<seq<Option<real>>>)

  /** One accepted trade. */
  datatype Trade = Trade(ts: int, index: nat, minute: int, price: real, volume: real)

  datatype Bar = Bar(open: real, high: real, low: real, close: real, volume: real)

  /** A returned bar, stamped with the end of its minute. */
  datatype Row = Row(endMinute: int, bar: Bar)

  predicate Complete(p: Payload) {
    p.times.Some? && p.prices.Some? && p.volumes.Some?
  }

  predicate SameLengths(p: Payload)
    requires Complete(p)
  {
    && |p.times.value| == |p.prices.value| == |p.volumes.value|
    && (p.simulated.Some? ==> |p.simulated.value| == |p.times.value|)
  }

  predicate Readable(p: Payload) {
    Complete(p) && SameLengths(p)
  }

  /** What is wrong with row i, if anything. */
  function RowError(p: Payload, i: nat): Option<Error>
    requires Readable(p) && i < |p.times.value|
  {
    var price, volume := p.prices.value[i], p.volumes.value[i];
    if p.times.value[i].None? || price.None? || price.value <= 0.0 || volume.None? || volume.value < 0.0
    then Some(InvalidTrade)
    else if p.simulated.Some? && p.simulated.value[i] != Some(0.0) && p.simulated.value[i] != Some(1.0)
    then Some(InvalidSimtrade)
    else None
  }

  /** Row i is a real trade of the continuous session before 13:25 on the given day. */
  predicate Accepted(p: Payload, day: int, i: nat)
    requires Readable(p) && i < |p.times.value| && RowError(p, i).None?
  {
    var minute := p.times.value[i].value / MINUTE - day * DAY_MINUTES;
    && !(p.simulated.Some? && p.simulated.value[i] == Some(1.0))
    && OPEN <= minute < TAIL_END
    && p.volumes.value[i].value > 0.0
  }

  function TradeAt(p: Payload, i: nat): Trade
    requires Readable(p) && i < |p.times.value| && RowError(p, i).None?
  {
    var ts := p.times.value[i].value;
    Trade(ts, i, ts / MINUTE, p.prices.value[i].value, p.volumes.value[i].value)
  }

  /** Accepted trades among the first n rows, or the error of the first bad row. */
  function Collected(p: Payload, day: int, n: nat): Result<seq<Trade>, Error>
    requires Readable(p) && n <= |p.times.value|
  {
    if n == 0 then Ok([])
    else
      match Collected(p, day, n - 1)
      case Err(e) => Err(e)
      case Ok(trades) =>
        if RowError(p, n - 1).Some? then Err(RowError(p, n - 1).value)
        else if Accepted(p, day, n - 1) then Ok(trades + [TradeAt(p, n - 1)])
        else Ok(trades)
  }

  method CollectTrades(p: Payload, day: int) returns (r: Result<seq<Trade>, Error>)
    requires Readable(p)
    ensures r == Collected(p, day, |p.times.value|)
    ensures r.Ok? <==> forall i :: 0 <= i < |p.times.value| ==> RowError(p, i).None?
  {
    var trades: seq<Trade> := [];
    for i := 0 to |p.times.value|
      invariant Collected(p, day, i) == Ok(trades)
      invariant forall j :: 0 <= j < i ==> RowError(p, j).None?
    {
      var error := RowError(p, i);
      if error.Some? {
        ErrorSticks(p, day, i + 1, |p.times.value|);
        return Err(error.value);
      }
      if Accepted(p, day, i) { trades := trades + [TradeAt(p, i)]; }
    }
    r := Ok(trades);
  }

  lemma {:induction false} ErrorSticks(p: Payload, day: int, m: nat, n: nat)
    requires Readable(p) && m <= n <= |p.times.value| && Collected(p, day, m).Err?
    ensures Collected(p, day, n) == Collected(p, day, m)
    decreases n
  {
    if m == n {
    } else {
      ErrorSticks(p, day, m, n - 1);
    }
  }

  // ---------- sorting by (timestamp, index) ----------

  predicate Before(a: Trade, b: Trade) {
    a.ts < b.ts || (a.ts == b.ts && a.index <= b.index)
  }

  /** Ascending by timestamp, and among equal timestamps by position in the payload. */
  ghost predicate Sorted(s: seq<Trade>) {
    forall i, j :: 0 <= i < j < |s| ==> Before(s[i], s[j])
  }

  function Insert(t: Trade, s: seq<Trade>): (r: seq<Trade>)
    ensures multiset(r) == multiset(s + [t])
  {
    if s == [] then [t]
    else
      var front, last := s[..|s| - 1], s[|s| - 1];
      assert s == front + [last];
      if Before(last, t) then s + [t] else Insert(t, front) + [last]
  }

  function SortTrades(s: seq<Trade>): (r: seq<Trade>)
    ensures multiset(r) == multiset(s)
  {
    if s == [] then []
    else
      assert s == s[..|s| - 1] + [s[|s| - 1]];
      Insert(s[|s| - 1], SortTrades(s[..|s| - 1]))
  }

  lemma {:induction false} InsertSorted(t: Trade, s: seq<Trade>)
    requires Sorted(s)
    ensures Sorted(Insert(t, s))
  {
    if s == [] || Before(s[|s| - 1], t) {
    } else {
      var front, last := s[..|s| - 1], s[|s| - 1];
      InsertSorted(t, front);
      var r := Insert(t, front);
      forall i | 0 <= i < |r| ensures Before(r[i], last) {
        assert r[i] in multiset(r);
        assert r[i] in multiset(front + [t]);
        assert r[i] in front + [t];
      }
    }
  }

  lemma {:induction false} SortSorted(s: seq<Trade>)
    ensures Sorted(SortTrades(s))
  {
    if s == [] {
    } else {
      SortSorted(s[..|s| - 1]);
      InsertSorted(s[|s| - 1], SortTrades(s[..|s| - 1]));
    }
  }

  // ---------- the specification of one bar ----------

  function TradesIn(s: seq<Trade>, minute: int): seq<Trade> {
    if s == [] then []
    else
      var rest := TradesIn(s[..|s| - 1], minute);
      if s[|s| - 1].minute == minute then rest + [s[|s| - 1]] else rest
  }

  function Volume(s: seq<Trade>): real {
    if s == [] then 0.0 else Volume(s[..|s| - 1]) + s[|s| - 1].volume
  }

  function Highest(s: seq<Trade>): real
    requires s != []
  {
    if |s| == 1 then s[0].price else Max(Highest(s[..|s| - 1]), s[|s| - 1].price)
  }

  function Lowest(s: seq<Trade>): real
    requires s != []
  {
    if |s| == 1 then s[0].price else Min(Lowest(s[..|s| - 1]), s[|s| - 1].price)
  }

  function Summary(s: seq<Trade>): Bar
    requires s != []
  {
    Bar(s[0].price, Highest(s), Lowest(s), s[|s| - 1].price, Volume(s))
  }

  function Flat(price: real): Bar {
    Bar(price, price, price, price, 0.0)
  }

  /** Price of the latest trade before the minute. */
  function LastBefore(s: seq<Trade>, minute: int): Option<real> {
    if s == [] then None
    else if s[|s| - 1].minute < minute then Some(s[|s| - 1].price)
    else LastBefore(s[..|s| - 1], minute)
  }

  /** The bar of a minute: its trades summarized, or flat at the last earlier trade. */
  function BarAt(s: seq<Trade>, minute: int): Option<Bar> {
    if TradesIn(s, minute) != [] then Some(Summary(TradesIn(s, minute)))
    else match LastBefore(s, minute)
      case Some(price) => Some(Flat(price))
      case None => None
  }

  // ---------- the two loops ----------

  function Grow(b: Bar, t: Trade): Bar {
    b.(high := Max(b.high, t.price), low := Min(b.low, t.price), close := t.price, volume := b.volume + t.volume)
  }

  lemma SummaryStep(s: seq<Trade>, t: Trade)
    ensures Summary(s + [t])
         == if s == [] then Bar(t.price, t.price, t.price, t.price, t.volume) else Grow(Summary(s), t)
  {
    Snoc(s, t);
    if s == [] {
      assert s + [t] == [t];
      assert Volume([t]) == Volume([t][..0]) + t.volume;
      assert Volume([t][..0]) == 0.0;
    }
  }

  /** Fill the buckets of the tail minutes; remember the close before the tail. */
  method FillBuckets(trades: seq<Trade>, tailStart: int) returns (buckets: map<int, Bar>, previousClose: Option<real>)
    requires Sorted(trades) && MinutesFollow(trades)
    ensures previousClose == LastBefore(trades, tailStart)
    ensures forall m :: m in buckets <==> m >= tailStart && TradesIn(trades, m) != []
    ensures forall m :: m in buckets ==> buckets[m] == Summary(TradesIn(trades, m))
  {
    buckets, previousClose := map[], None;
    for i := 0 to |trades|
      invariant previousClose == LastBefore(trades[..i], tailStart)
      invariant forall m :: m in buckets <==> m >= tailStart && TradesIn(trades[..i], m) != []
      invariant forall m :: m in buckets ==> buckets[m] == Summary(TradesIn(trades[..i], m))
    {
      var t := trades[i];
      assert trades[..i + 1][..i] == trades[..i];
      if t.minute < tailStart {
        previousClose := Some(t.price);
      } else {
        SummaryStep(TradesIn(trades[..i], t.minute), t);
        if t.minute !in buckets {
          buckets := buckets[t.minute := Bar(t.price, t.price, t.price, t.price, t.volume)];
        } else {
          buckets := buckets[t.minute := Grow(buckets[t.minute], t)];
        }
      }
    }
    assert trades[..|trades|] == trades;
  }

  /** The minute field of every trade is the minute of its timestamp. */
  ghost predicate MinutesFollow(s: seq<Trade>) {
    forall i :: 0 <= i < |s| ==> s[i].minute == s[i].ts / MINUTE
  }

  /** In time order, the last price before minute m + 1 is the close of minute m, or carried. */
  lemma {:induction false} CarryForward(s: seq<Trade>, minute: int)
    requires forall i, j :: 0 <= i < j < |s| ==> s[i].minute <= s[j].minute
    ensures LastBefore(s, minute + 1)
         == if TradesIn(s, minute) != [] then Some(TradesIn(s, minute)[|TradesIn(s, minute)| - 1].price)
            else LastBefore(s, minute)
  {
    if s == [] {
    } else {
      var front, last := s[..|s| - 1], s[|s| - 1];
      if last.minute < minute {
        NoneLater(s, minute);
      } else if last.minute > minute {
        CarryForward(front, minute);
      }
    }
  }

  lemma {:induction false} NoneLater(s: seq<Trade>, minute: int)
    requires forall i :: 0 <= i < |s| ==> s[i].minute != minute
    ensures TradesIn(s, minute) == []
  {
    if s == [] {
    } else {
      NoneLater(s[..|s| - 1], minute);
    }
  }

  lemma SortedMinutes(s: seq<Trade>)
    requires Sorted(s) && MinutesFollow(s)
    ensures forall i, j :: 0 <= i < j < |s| ==> s[i].minute <= s[j].minute
  {
  }

  /** The first minutes from 13:19, gaps filled with the previous close; `WarmupBars` asks for six. */
  method BuildRows(trades: seq<Trade>, day: int, minutes: nat) returns (r: Result<seq<Row>, Error>)
    requires Sorted(trades) && MinutesFollow(trades)
    ensures r == TailRows(trades, day, minutes)
  {
    var tailStart := day * DAY_MINUTES + TAIL_START;
    var buckets, previousClose := FillBuckets(trades, tailStart);
    SortedMinutes(trades);
    var rows: seq<Row> := [];
    for k := 0 to minutes
      invariant TailRows(trades, day, k) == Ok(rows)
      invariant previousClose == LastBefore(trades, tailStart + k)
    {
      var minute := tailStart + k;
      CarryForward(trades, minute);
      var bar;
      if minute in buckets {
        bar := buckets[minute];
      } else {
        if previousClose.None? {
          SeedErrorSticks(trades, day, k + 1, minutes);
          return Err(SeedMissing);
        }
        bar := Flat(previousClose.value);
      }
      previousClose := Some(bar.close);
      rows := rows + [Row(minute + 1, bar)];
    }
    r := Ok(rows);
  }

  /** The first k rows, each one the bar of its minute. */
  function TailRows(trades: seq<Trade>, day: int, k: nat): Result<seq<Row>, Error> {
    if k == 0 then Ok([])
    else
      var minute := day * DAY_MINUTES + TAIL_START + k - 1;
      match TailRows(trades, day, k - 1)
      case Err(e) => Err(e)
      case Ok(rows) =>
        match BarAt(trades, minute)
        case None => Err(SeedMissing)
        case Some(bar) => Ok(rows + [Row(minute + 1, bar)])
  }

  lemma {:induction false} SeedErrorSticks(trades: seq<Trade>, day: int, m: nat, n: nat)
    requires m <= n && TailRows(trades, day, m).Err?
    ensures TailRows(trades, day, n) == TailRows(trades, day, m)
    decreases n
  {
    if m == n {
    } else {
      SeedErrorSticks(trades, day, m, n - 1);
    }
  }

  lemma {:induction false} CollectedMinutes(p: Payload, day: int, n: nat)
    requires Readable(p) && n <= |p.times.value| && Collected(p, day, n).Ok?
    ensures MinutesFollow(Collected(p, day, n).value)
  {
    if n == 0 {
    } else {
      CollectedMinutes(p, day, n - 1);
    }
  }

  lemma SortedKeepsMinutes(s: seq<Trade>)
    requires MinutesFollow(s)
    ensures MinutesFollow(SortTrades(s))
  {
    var r := SortTrades(s);
    forall i | 0 <= i < |r| ensures r[i].minute == r[i].ts / MINUTE {
      assert r[i] in multiset(r);
      assert r[i] in multiset(s);
    }
  }

  /** The result of `warmup_bars_from_ticks`. */
  function WarmupOf(p: Payload, day: int): Result<seq<Row>, Error> {
    if !Complete(p) then Err(MissingFields)
    else if !SameLengths(p) then Err(LengthMismatch)
    else if Collected(p, day, |p.times.value|).Err? then Err(Collected(p, day, |p.times.value|).error)
    else TailRows(SortTrades(Collected(p, day, |p.times.value|).value), day, TAIL_MINUTES)
  }

  /** `warmup_bars_from_ticks`. */
  method WarmupBars(p: Payload, day: int) returns (r: Result<seq<Row>, Error>)
    ensures r == WarmupOf(p, day)
    ensures !Complete(p) ==> r == Err(MissingFields)
    ensures Complete(p) && !SameLengths(p) ==> r == Err(LengthMismatch)
    ensures Readable(p) && Collected(p, day, |p.times.value|).Err?
            ==> r == Err(Collected(p, day, |p.times.value|).error)
    ensures Readable(p) && Collected(p, day, |p.times.value|).Ok?
            ==> r == TailRows(SortTrades(Collected(p, day, |p.times.value|).value), day, TAIL_MINUTES)
  {
    if p.times.None? || p.prices.None? || p.volumes.None? { return Err(MissingFields); }
    if !SameLengths(p) { return Err(LengthMismatch); }
    var collected := CollectTrades(p, day);
    if collected.Err? { return Err(collected.error); }
    CollectedMinutes(p, day, |p.times.value|);
    SortedKeepsMinutes(collected.value);
    SortSorted(collected.value);
    r := BuildRows(SortTrades(collected.value), day, TAIL_MINUTES);
  }

  // ---------- what the six rows promise ----------

  /** Some accepted trade precedes 13:20. */
  ghost predicate SeededBy(trades: seq<Trade>, day: int) {
    exists i :: 0 <= i < |trades| && trades[i].minute <= day * DAY_MINUTES + TAIL_START
  }

  lemma {:induction false} EarlierExists(s: seq<Trade>, minute: int)
    ensures LastBefore(s, minute).Some? <==> exists i :: 0 <= i < |s| && s[i].minute < minute
  {
    if s == [] {
    } else {
      var front := s[..|s| - 1];
      EarlierExists(front, minute);
      if s[|s| - 1].minute >= minute && exists i :: 0 <= i < |s| && s[i].minute < minute {
        var i :| 0 <= i < |s| && s[i].minute < minute;
        assert front[i].minute < minute;
      }
    }
  }

  lemma {:induction false} InMinuteExists(s: seq<Trade>, minute: int)
    ensures TradesIn(s, minute) != [] <==> exists i :: 0 <= i < |s| && s[i].minute == minute
  {
    if s == [] {
    } else {
      var front := s[..|s| - 1];
      InMinuteExists(front, minute);
      if s[|s| - 1].minute != minute && exists i :: 0 <= i < |s| && s[i].minute == minute {
        var i :| 0 <= i < |s| && s[i].minute == minute;
        assert front[i].minute == minute;
      }
    }
  }

  /** The seed is missing exactly when no accepted trade precedes 13:20. */
  lemma {:induction false} SeedMissingExactly(trades: seq<Trade>, day: int, k: nat)
    requires k >= 1
    ensures TailRows(trades, day, k).Err? <==> !SeededBy(trades, day)
    ensures TailRows(trades, day, k).Err? ==> TailRows(trades, day, k).error == SeedMissing
  {
    var minute := day * DAY_MINUTES + TAIL_START + k - 1;
    InMinuteExists(trades, minute);
    EarlierExists(trades, minute);
    if k == 1 {
    } else {
      SeedMissingExactly(trades, day, k - 1);
    }
  }

  predicate WellFormed(b: Bar) {
    b.low <= b.open <= b.high && b.low <= b.close <= b.high && b.low > 0.0 && b.volume >= 0.0
  }

  ghost predicate Positive(s: seq<Trade>) {
    forall i :: 0 <= i < |s| ==> s[i].price > 0.0 && s[i].volume >= 0.0
  }

  lemma {:induction false} PositivePart(s: seq<Trade>, minute: int)
    requires Positive(s)
    ensures Positive(TradesIn(s, minute))
    ensures LastBefore(s, minute).Some? ==> LastBefore(s, minute).value > 0.0
  {
    if s == [] {
    } else {
      PositivePart(s[..|s| - 1], minute);
    }
  }

  lemma {:induction false} SummaryWellFormed(s: seq<Trade>)
    requires Positive(s) && s != []
    ensures WellFormed(Summary(s))
    ensures forall i :: 0 <= i < |s| ==> Lowest(s) <= s[i].price <= Highest(s)
  {
    if |s| > 1 {
      var front := s[..|s| - 1];
      SummaryWellFormed(front);
      forall i | 0 <= i < |s| ensures Lowest(s) <= s[i].price <= Highest(s) {
        if i < |s| - 1 { assert s[i] == front[i]; }
      }
    } else {
      assert Volume(s) == Volume(s[..0]) + s[0].volume;
    }
  }

  /** The rows are exactly the consecutive minutes 13:20 .. 13:25 (by end), each well formed and
      each the bar of its minute. */
  lemma {:induction false} RowsWellFormed(trades: seq<Trade>, day: int, k: nat)
    requires Positive(trades) && TailRows(trades, day, k).Ok?
    ensures var rows := TailRows(trades, day, k).value;
            && |rows| == k
            && forall i :: 0 <= i < k ==>
                 && rows[i].endMinute == day * DAY_MINUTES + TAIL_START + i + 1
                 && BarAt(trades, rows[i].endMinute - 1) == Some(rows[i].bar)
                 && WellFormed(rows[i].bar)
  {
    if k == 0 {
    } else {
      RowsWellFormed(trades, day, k - 1);
      var minute := day * DAY_MINUTES + TAIL_START + k - 1;
      PositivePart(trades, minute);
      if TradesIn(trades, minute) != [] { SummaryWellFormed(TradesIn(trades, minute)); }
    }
  }

  function RowVolume(rows: seq<Row>): real {
    if rows == [] then 0.0 else RowVolume(rows[..|rows| - 1]) + rows[|rows| - 1].bar.volume
  }

  /** Volume of the trades of minutes from..to-1. */
  function VolumeBetween(s: seq<Trade>, from: int, to: int): real {
    if s == [] then 0.0
    else VolumeBetween(s[..|s| - 1], from, to) + (if from <= s[|s| - 1].minute < to then s[|s| - 1].volume else 0.0)
  }

  lemma {:induction false} VolumeOfMinute(s: seq<Trade>, from: int, minute: int)
    requires from <= minute
    ensures VolumeBetween(s, from, minute + 1) == VolumeBetween(s, from, minute) + Volume(TradesIn(s, minute))
  {
    if s == [] {
    } else {
      VolumeOfMinute(s[..|s| - 1], from, minute);
    }
  }

  lemma {:induction false} VolumeOfNothing(s: seq<Trade>, from: int)
    ensures VolumeBetween(s, from, from) == 0.0
  {
    if s == [] {
    } else {
      VolumeOfNothing(s[..|s| - 1], from);
    }
  }

  /** No volume is lost or invented: the rows carry the volume of all tail trades. */
  lemma {:induction false} VolumeConserved(trades: seq<Trade>, day: int, k: nat)
    requires TailRows(trades, day, k).Ok?
    ensures RowVolume(TailRows(trades, day, k).value)
         == VolumeBetween(trades, day * DAY_MINUTES + TAIL_START, day * DAY_MINUTES + TAIL_START + k)
  {
    var start := day * DAY_MINUTES + TAIL_START;
    if k == 0 {
      VolumeOfNothing(trades, start);
    } else {
      VolumeConserved(trades, day, k - 1);
      VolumeOfMinute(trades, start, start + k - 1);
      var rows := TailRows(trades, day, k - 1).value;
      Snoc(rows, TailRows(trades, day, k).value[|rows|]);
    }
  }

  lemma {:induction false} CollectedPositive(p: Payload, day: int, n: nat)
    requires Readable(p) && n <= |p.times.value| && Collected(p, day, n).Ok?
    ensures Positive(Collected(p, day, n).value)
  {
    if n == 0 {
    } else {
      CollectedPositive(p, day, n - 1);
    }
  }

  lemma {:induction false} VolumeRemove(s: seq<Trade>, i: nat, from: int, to: int)
    requires i < |s|
    ensures VolumeBetween(s, from, to)
         == VolumeBetween(RemoveAt(s, i), from, to) + (if from <= s[i].minute < to then s[i].volume else 0.0)
  {
    if i == |s| - 1 {
      assert RemoveAt(s, i) == s[..i];
    } else {
      RemoveBeforeLast(s, i);
      VolumeRemove(s[..|s| - 1], i, from, to);
    }
  }

  lemma {:induction false} VolumePermutation(s: seq<Trade>, t: seq<Trade>, from: int, to: int)
    requires multiset(s) == multiset(t)
    ensures VolumeBetween(s, from, to) == VolumeBetween(t, from, to)
  {
    assert |multiset(s)| == |s| && |multiset(t)| == |t|;
    if s == [] {
    } else {
      var i := MatchLast(s, t);
      VolumePermutation(s[..|s| - 1], RemoveAt(t, i), from, to);
      VolumeRemove(t, i, from, to);
    }
  }

  lemma BarVolume(s: seq<Trade>, minute: int)
    requires BarAt(s, minute).Some?
    ensures BarAt(s, minute).value.volume == VolumeBetween(s, minute, minute + 1)
  {
    VolumeOfNothing(s, minute);
    VolumeOfMinute(s, minute, minute);
  }

  /** A row of a minute: well formed, the bar of that minute over the sorted trades, and with the
      volume of exactly the accepted trades of the minute. */
  predicate RowOf(row: Row, trades: seq<Trade>, accepted: seq<Trade>, minute: int) {
    && row.endMinute == minute + 1 && WellFormed(row.bar)
    && BarAt(trades, minute) == Some(row.bar)
    && row.bar.volume == VolumeBetween(accepted, minute, minute + 1)
  }

  predicate RowAt(rows: seq<Row>, trades: seq<Trade>, accepted: seq<Trade>, day: int, i: nat) {
    i < |rows| && RowOf(rows[i], trades, accepted, day * DAY_MINUTES + TAIL_START + i)
  }

  /** k rows from the start of the tail, which together carry the volume of its accepted trades. */
  ghost predicate RowsOf(rows: seq<Row>, trades: seq<Trade>, accepted: seq<Trade>, day: int, k: nat) {
    var start := day * DAY_MINUTES + TAIL_START;
    && |rows| == k
    && (forall i :: 0 <= i < k ==> RowAt(rows, trades, accepted, day, i))
    && RowVolume(rows) == VolumeBetween(accepted, start, start + k)
  }

  lemma BarOfMinute(row: Row, trades: seq<Trade>, accepted: seq<Trade>, minute: int)
    requires multiset(trades) == multiset(accepted)
    requires row.endMinute == minute + 1 && BarAt(trades, row.endMinute - 1) == Some(row.bar) && WellFormed(row.bar)
    ensures RowOf(row, trades, accepted, minute)
  {
    BarVolume(trades, minute);
    VolumePermutation(accepted, trades, minute, minute + 1);
  }

  lemma AllRows(trades: seq<Trade>, accepted: seq<Trade>, day: int, k: nat)
    requires multiset(trades) == multiset(accepted) && Positive(trades) && TailRows(trades, day, k).Ok?
    ensures var rows := TailRows(trades, day, k).value;
            |rows| == k && forall i :: 0 <= i < k ==> RowAt(rows, trades, accepted, day, i)
  {
    var rows, start := TailRows(trades, day, k).value, day * DAY_MINUTES + TAIL_START;
    RowsWellFormed(trades, day, k);
    forall i | 0 <= i < k ensures RowAt(rows, trades, accepted, day, i) {
      BarOfMinute(rows[i], trades, accepted, start + i);
    }
  }

  lemma TailVolume(trades: seq<Trade>, accepted: seq<Trade>, day: int, k: nat)
    requires multiset(trades) == multiset(accepted) && TailRows(trades, day, k).Ok?
    ensures var start := day * DAY_MINUTES + TAIL_START;
            RowVolume(TailRows(trades, day, k).value) == VolumeBetween(accepted, start, start + k)
  {
    var start := day * DAY_MINUTES + TAIL_START;
    VolumeConserved(trades, day, k);
    VolumePermutation(accepted, trades, start, start + k);
  }

  lemma RowsPromise(trades: seq<Trade>, accepted: seq<Trade>, day: int, k: nat)
    requires multiset(trades) == multiset(accepted) && Positive(trades) && TailRows(trades, day, k).Ok?
    ensures RowsOf(TailRows(trades, day, k).value, trades, accepted, day, k)
  {
    AllRows(trades, accepted, day, k);
    TailVolume(trades, accepted, day, k);
  }

  /** A readable answer whose rows are all valid is turned into exactly six rows for the minutes
      ending 13:20 .. 13:25, each the well-formed bar of its minute, together carrying the volume of
      the accepted tail trades, unless no accepted trade precedes 13:20. */
  lemma WarmupPromise(p: Payload, day: int)
    requires Readable(p) && Collected(p, day, |p.times.value|).Ok?
    ensures var accepted, r := Collected(p, day, |p.times.value|).value, WarmupOf(p, day);
            if SeededBy(accepted, day)
            then r.Ok? && RowsOf(r.value, SortTrades(accepted), accepted, day, TAIL_MINUTES)
            else r == Err(SeedMissing)
  {
    var accepted := Collected(p, day, |p.times.value|).value;
    CollectedPositive(p, day, |p.times.value|);
    SameTrades(accepted, SortTrades(accepted));
    SeedMissingExactly(SortTrades(accepted), day, TAIL_MINUTES);
    if SeededBy(accepted, day) { RowsPromise(SortTrades(accepted), accepted, day, TAIL_MINUTES); }
  }

  lemma SameTrades(a: seq<Trade>, b: seq<Trade>)
    requires multiset(a) == multiset(b)
    ensures forall day :: SeededBy(a, day) <==> SeededBy(b, day)
    ensures Positive(a) ==> Positive(b)
  {
    assert forall t :: t in a <==> t in multiset(a);
    assert forall t :: t in b <==> t in multiset(b);
    forall day ensures SeededBy(a, day) <==> SeededBy(b, day) {
      if SeededBy(a, day) {
        var i :| 0 <= i < |a| && a[i].minute <= day * DAY_MINUTES + TAIL_START;
        assert a[i] in b;
      }
      if SeededBy(b, day) {
        var i :| 0 <= i < |b| && b[i].minute <= day * DAY_MINUTES + TAIL_START;
        assert b[i] in a;
      }
    }
    forall i | 0 <= i < |b| && Positive(a) ensures b[i].price > 0.0 && b[i].volume >= 0.0 {
      assert b[i] in a;
    }
  }

  // ---------- the order of the ticks does not matter ----------

  /** A trade without its position in the payload. */
  function Anonymous(t: Trade): Trade {
    t.(index := 0)
  }

  function AnonymousAll(s: seq<Trade>): seq<Trade> {
    if s == [] then [] else AnonymousAll(s[..|s| - 1]) + [Anonymous(s[|s| - 1])]
  }

  lemma {:induction false} AnonymousAt(s: seq<Trade>)
    ensures |AnonymousAll(s)| == |s|
    ensures forall i :: 0 <= i < |s| ==> AnonymousAll(s)[i] == Anonymous(s[i])
  {
    if s == [] {
    } else {
      AnonymousAt(s[..|s| - 1]);
    }
  }

  /** Timestamp, or position in the payload. */
  function Key(t: Trade, byIndex: bool): int {
    if byIndex then t.index else t.ts
  }

  ghost predicate DistinctKeys(s: seq<Trade>, byIndex: bool) {
    forall i, j :: 0 <= i < j < |s| ==> Key(s[i], byIndex) != Key(s[j], byIndex)
  }

  /** Bars depend on the trades only, not on their positions in the payload. */
  lemma {:induction false} BarIgnoresIndex(s: seq<Trade>, minute: int)
    ensures TradesIn(AnonymousAll(s), minute) == AnonymousAll(TradesIn(s, minute))
    ensures LastBefore(AnonymousAll(s), minute) == LastBefore(s, minute)
  {
    if s == [] {
    } else {
      var front := s[..|s| - 1];
      BarIgnoresIndex(front, minute);
      Snoc(AnonymousAll(front), Anonymous(s[|s| - 1]));
      Snoc(TradesIn(front, minute), s[|s| - 1]);
    }
  }

  lemma {:induction false} SummaryIgnoresIndex(s: seq<Trade>)
    requires s != []
    ensures AnonymousAll(s) != [] && Summary(AnonymousAll(s)) == Summary(s)
  {
    AnonymousAt(s);
    var front := s[..|s| - 1];
    Snoc(AnonymousAll(front), Anonymous(s[|s| - 1]));
    if |s| > 1 {
      SummaryIgnoresIndex(front);
    } else {
      assert AnonymousAll(front) == [];
    }
  }

  lemma {:induction false} RowsIgnoreIndex(s: seq<Trade>, day: int, k: nat)
    ensures TailRows(AnonymousAll(s), day, k) == TailRows(s, day, k)
  {
    if k == 0 {
    } else {
      RowsIgnoreIndex(s, day, k - 1);
      var minute := day * DAY_MINUTES + TAIL_START + k - 1;
      BarIgnoresIndex(s, minute);
      if TradesIn(s, minute) != [] { SummaryIgnoresIndex(TradesIn(s, minute)); }
    }
  }

  lemma SameHeads(s: seq<Trade>, t: seq<Trade>)
    requires Sorted(s) && Sorted(t) && DistinctKeys(s, false) && DistinctKeys(t, false) && multiset(s) == multiset(t)
    requires s != [] && t != []
    ensures s[0] == t[0]
  {
    assert s[0] in multiset(t) && t[0] in multiset(s);
    var i :| 0 <= i < |t| && t[i] == s[0];
    var j :| 0 <= j < |s| && s[j] == t[0];
    assert t[0].ts <= s[0].ts <= t[0].ts;
    assert Key(t[i], false) == Key(t[0], false);
  }

  lemma {:induction false} StrictOrderUnique(s: seq<Trade>, t: seq<Trade>)
    requires Sorted(s) && Sorted(t) && DistinctKeys(s, false) && DistinctKeys(t, false) && multiset(s) == multiset(t)
    ensures s == t
  {
    assert |multiset(s)| == |s| && |multiset(t)| == |t|;
    if s == [] {
    } else {
      SameHeads(s, t);
      SameTails(s, t);
      StrictOrderUnique(s[1..], t[1..]);
      assert s == [s[0]] + s[1..] && t == [t[0]] + t[1..];
    }
  }

  lemma {:induction false} AnonymousMultiset(s: seq<Trade>, t: seq<Trade>)
    requires multiset(s) == multiset(t)
    ensures multiset(AnonymousAll(s)) == multiset(AnonymousAll(t))
  {
    assert |multiset(s)| == |s| && |multiset(t)| == |t|;
    if s == [] {
    } else {
      var i := MatchLast(s, t);
      AnonymousMultiset(s[..|s| - 1], RemoveAt(t, i));
      AnonymousRemove(t, i);
    }
  }

  lemma {:induction false} AnonymousRemove(t: seq<Trade>, i: nat)
    requires i < |t|
    ensures multiset(AnonymousAll(t)) == multiset(AnonymousAll(RemoveAt(t, i))) + multiset{Anonymous(t[i])}
  {
    if i == |t| - 1 {
      assert RemoveAt(t, i) == t[..i];
    } else {
      var front, last := t[..|t| - 1], Anonymous(t[|t| - 1]);
      AnonymousRemove(front, i);
      RemoveBeforeLast(t, i);
      var rest := RemoveAt(front, i);
      assert AnonymousAll(t) == AnonymousAll(front) + [last];
      assert AnonymousAll(RemoveAt(t, i)) == AnonymousAll(rest) + [last];
    }
  }

  /** The same trades, collected in another order, give the same rows when no two of them share a
      timestamp. */
  lemma SameRows(a: seq<Trade>, b: seq<Trade>, day: int, k: nat)
    requires multiset(AnonymousAll(a)) == multiset(AnonymousAll(b))
    requires DistinctKeys(a, false) && DistinctKeys(b, false)
    ensures TailRows(SortTrades(a), day, k) == TailRows(SortTrades(b), day, k)
  {
    var s, t := SortTrades(a), SortTrades(b);
    SortSorted(a);
    SortSorted(b);
    AnonymousMultiset(s, a);
    AnonymousMultiset(t, b);
    DistinctPermutation(a, s, false);
    DistinctPermutation(b, t, false);
    AnonymousAt(s);
    AnonymousAt(t);
    StrictOrderUnique(AnonymousAll(s), AnonymousAll(t));
    RowsIgnoreIndex(s, day, k);
    RowsIgnoreIndex(t, day, k);
  }

  lemma FoundIn(s: seq<Trade>, t: seq<Trade>, k: nat) returns (j: nat)
    requires multiset(s) == multiset(t) && k < |s|
    ensures j < |t| && t[j] == s[k]
  {
    assert s[k] in multiset(s);
    assert s[k] in multiset(t);
    j :| 0 <= j < |t| && t[j] == s[k];
  }

  lemma {:induction false} DistinctPermutation(a: seq<Trade>, b: seq<Trade>, byIndex: bool)
    requires DistinctKeys(a, byIndex) && multiset(a) == multiset(b)
    ensures DistinctKeys(b, byIndex)
  {
    assert |multiset(a)| == |a| && |multiset(b)| == |b|;
    if b == [] {
    } else {
      var front, last := b[..|b| - 1], b[|b| - 1];
      var i := MatchLast(b, a);
      var rest := RemoveAt(a, i);
      DistinctPermutation(rest, front, byIndex);
      forall k | 0 <= k < |front| ensures Key(front[k], byIndex) != Key(last, byIndex) {
        var j := FoundIn(front, rest, k);
        assert rest[j] == a[if j < i then j else j + 1];
      }
    }
  }

  // ---------- ties ----------

  lemma {:induction false} CollectedIndexes(p: Payload, day: int, n: nat)
    requires Readable(p) && n <= |p.times.value| && Collected(p, day, n).Ok?
    ensures DistinctKeys(Collected(p, day, n).value, true)
    ensures forall i :: 0 <= i < |Collected(p, day, n).value| ==> Collected(p, day, n).value[i].index < n
  {
    if n == 0 {
    } else {
      CollectedIndexes(p, day, n - 1);
    }
  }

  /** Sorting puts the collected trades in order of time, and trades with the same timestamp stay in
      the order of the payload. */
  lemma TiesKeepPayloadOrder(p: Payload, day: int, i: nat, j: nat)
    requires Readable(p) && Collected(p, day, |p.times.value|).Ok?
    requires i < j < |SortTrades(Collected(p, day, |p.times.value|).value)|
    ensures var s := SortTrades(Collected(p, day, |p.times.value|).value);
            s[i].ts < s[j].ts || (s[i].ts == s[j].ts && s[i].index < s[j].index)
  {
    var accepted := Collected(p, day, |p.times.value|).value;
    var s := SortTrades(accepted);
    SortSorted(accepted);
    CollectedIndexes(p, day, |p.times.value|);
    DistinctPermutation(accepted, s, true);
    assert Before(s[i], s[j]) && Key(s[i], true) != Key(s[j], true);
  }

  // ---------- permuting the payload ----------

  /** One line of the payload, across its columns. */
  datatype Line = Line(time: Option<int>, price: Option<real>, volume: Option<real>, simulated: Option<Option<real>>)

  function LineAt(p: Payload, i: nat): Line
    requires Readable(p) && i < |p.times.value|
  {
    Line(p.times.value[i], p.prices.value[i], p.volumes.value[i],
         if p.simulated.Some? then Some(p.simulated.value[i]) else None)
  }

  function Lines(p: Payload, n: nat): (r: seq<Line>)
    requires Readable(p) && n <= |p.times.value|
    ensures |r| == n
  {
    if n == 0 then [] else Lines(p, n - 1) + [LineAt(p, n - 1)]
  }

  predicate Valid(l: Line) {
    && l.time.Some? && l.price.Some? && l.price.value > 0.0 && l.volume.Some? && l.volume.value >= 0.0
    && (l.simulated.Some? ==> l.simulated.value == Some(0.0) || l.simulated.value == Some(1.0))
  }

  ghost predicate AllValid(lines: seq<Line>) {
    forall l :: l in lines ==> Valid(l)
  }

  /** The trade of a valid line, if it is an accepted one. */
  function TradeOf(l: Line, day: int): seq<Trade> {
    if !Valid(l) then []
    else
      var minute := l.time.value / MINUTE;
      if l.simulated != Some(Some(1.0)) && OPEN <= minute - day * DAY_MINUTES < TAIL_END && l.volume.value > 0.0
      then [Trade(l.time.value, 0, minute, l.price.value, l.volume.value)]
      else []
  }

  function TradesOf(lines: seq<Line>, day: int): seq<Trade> {
    if lines == [] then []
    else TradesOf(lines[..|lines| - 1], day) + TradeOf(lines[|lines| - 1], day)
  }

  lemma LineMeaning(p: Payload, day: int, i: nat)
    requires Readable(p) && i < |p.times.value|
    ensures RowError(p, i).None? <==> Valid(LineAt(p, i))
    ensures RowError(p, i).None? ==>
              TradeOf(LineAt(p, i), day) == if Accepted(p, day, i) then [Anonymous(TradeAt(p, i))] else []
  {
  }

  lemma AnonymousAppend(s: seq<Trade>, t: Trade)
    ensures AnonymousAll(s + [t]) == AnonymousAll(s) + [Anonymous(t)]
  {
    Snoc(s, t);
  }

  lemma {:induction false} CollectedWhenValid(p: Payload, day: int, n: nat)
    requires Readable(p) && n <= |p.times.value|
    ensures Collected(p, day, n).Ok? <==> AllValid(Lines(p, n))
  {
    if n == 0 {
    } else {
      CollectedWhenValid(p, day, n - 1);
      LineMeaning(p, day, n - 1);
      AllValidSnoc(Lines(p, n - 1), LineAt(p, n - 1));
    }
  }

  lemma {:induction false} CollectedTrades(p: Payload, day: int, n: nat)
    requires Readable(p) && n <= |p.times.value| && Collected(p, day, n).Ok?
    ensures AnonymousAll(Collected(p, day, n).value) == TradesOf(Lines(p, n), day)
  {
    if n == 0 {
    } else {
      CollectedTrades(p, day, n - 1);
      LineMeaning(p, day, n - 1);
      AnonymousAppend(Collected(p, day, n - 1).value, TradeAt(p, n - 1));
      Snoc(Lines(p, n - 1), LineAt(p, n - 1));
    }
  }

  /** Collecting fails exactly when some line is invalid, and otherwise yields the trades of the
      lines, up to their positions. */
  lemma CollectedLines(p: Payload, day: int, n: nat)
    requires Readable(p) && n <= |p.times.value|
    ensures Collected(p, day, n).Ok? <==> AllValid(Lines(p, n))
    ensures Collected(p, day, n).Ok? ==> AnonymousAll(Collected(p, day, n).value) == TradesOf(Lines(p, n), day)
  {
    CollectedWhenValid(p, day, n);
    if Collected(p, day, n).Ok? { CollectedTrades(p, day, n); }
  }

  lemma AllValidSnoc(front: seq<Line>, l: Line)
    ensures AllValid(front + [l]) <==> AllValid(front) && Valid(l)
  {
    assert l in front + [l];
    assert forall m :: m in front ==> m in front + [l];
  }

  /** The trades of the lines without any order. */
  function TradeBag(lines: seq<Line>, day: int): multiset<Trade> {
    if lines == [] then multiset{}
    else TradeBag(lines[..|lines| - 1], day) + multiset(TradeOf(lines[|lines| - 1], day))
  }

  lemma BagConcat(s: seq<Trade>, t: seq<Trade>)
    ensures multiset(s + t) == multiset(s) + multiset(t)
  {
  }

  lemma {:induction false} BagOfTrades(lines: seq<Line>, day: int)
    ensures multiset(TradesOf(lines, day)) == TradeBag(lines, day)
  {
    if lines == [] {
    } else {
      BagOfTrades(lines[..|lines| - 1], day);
      BagConcat(TradesOf(lines[..|lines| - 1], day), TradeOf(lines[|lines| - 1], day));
    }
  }

  lemma SwapBags(all: multiset<Trade>, less: multiset<Trade>, a: multiset<Trade>, x: multiset<Trade>,
                 y: multiset<Trade>)
    requires all == (a + x) + y && less == a + y
    ensures all == less + x
  {
  }

  lemma BagEnds(s: seq<Line>, day: int, front: seq<Line>, last: Line)
    requires s != [] && s[..|s| - 1] == front && s[|s| - 1] == last
    ensures TradeBag(s, day) == TradeBag(front, day) + multiset(TradeOf(last, day))
  {
  }

  lemma {:induction false} BagRemove(lines: seq<Line>, day: int, i: nat)
    requires i < |lines|
    ensures TradeBag(lines, day) == TradeBag(RemoveAt(lines, i), day) + multiset(TradeOf(lines[i], day))
  {
    var front, last := lines[..|lines| - 1], lines[|lines| - 1];
    if i == |front| {
      assert RemoveAt(lines, i) == front;
    } else {
      RemoveBeforeLast(lines, i);
      BagRemove(front, day, i);
      BagEnds(lines, day, front, last);
      BagEnds(RemoveAt(lines, i), day, RemoveAt(front, i), last);
      SwapBags(TradeBag(lines, day), TradeBag(RemoveAt(lines, i), day), TradeBag(RemoveAt(front, i), day),
               multiset(TradeOf(lines[i], day)), multiset(TradeOf(last, day)));
    }
  }

  lemma {:induction false} BagPermutation(a: seq<Line>, b: seq<Line>, day: int)
    requires multiset(a) == multiset(b)
    ensures TradeBag(a, day) == TradeBag(b, day)
  {
    assert |multiset(a)| == |a| && |multiset(b)| == |b|;
    if a == [] {
    } else {
      var i := MatchLast(a, b);
      BagRemove(b, day, i);
      BagPermutation(a[..|a| - 1], RemoveAt(b, i), day);
    }
  }

  lemma TradesPermutation(a: seq<Line>, b: seq<Line>, day: int)
    requires multiset(a) == multiset(b)
    ensures multiset(TradesOf(a, day)) == multiset(TradesOf(b, day))
  {
    BagPermutation(a, b, day);
    BagOfTrades(a, day);
    BagOfTrades(b, day);
  }

  lemma SameLines(a: seq<Line>, b: seq<Line>)
    requires multiset(a) == multiset(b)
    ensures AllValid(a) <==> AllValid(b)
  {
    assert forall l :: l in a <==> l in multiset(a);
    assert forall l :: l in b <==> l in multiset(b);
  }

  lemma {:induction false} DistinctByAnonymous(a: seq<Trade>, b: seq<Trade>)
    requires multiset(AnonymousAll(a)) == multiset(AnonymousAll(b)) && DistinctKeys(a, false)
    ensures DistinctKeys(b, false)
  {
    AnonymousAt(a);
    AnonymousAt(b);
    DistinctPermutation(AnonymousAll(a), AnonymousAll(b), false);
    forall i, j | 0 <= i < j < |b| ensures Key(b[i], false) != Key(b[j], false) {
      assert Key(AnonymousAll(b)[i], false) != Key(AnonymousAll(b)[j], false);
    }
  }

  /** The lines of a payload may come in any order. A permuted payload is refused for an invalid
      line exactly when the original is; otherwise it yields the same accepted trades up to their
      positions, and, when no two accepted trades share a timestamp, the very same result. */
  lemma OrderDoesNotMatter(p: Payload, q: Payload, day: int)
    requires Readable(p) && Readable(q)
    requires multiset(Lines(p, |p.times.value|)) == multiset(Lines(q, |q.times.value|))
    ensures var a, b := Collected(p, day, |p.times.value|), Collected(q, day, |q.times.value|);
            && (a.Ok? <==> b.Ok?)
            && (a.Ok? ==> multiset(AnonymousAll(a.value)) == multiset(AnonymousAll(b.value)))
            && (a.Ok? && DistinctKeys(a.value, false) ==> WarmupOf(p, day) == WarmupOf(q, day))
            && (a.Err? ==> WarmupOf(p, day).Err? && WarmupOf(q, day).Err?)
  {
    var n, m := |p.times.value|, |q.times.value|;
    CollectedLines(p, day, n);
    CollectedLines(q, day, m);
    SameLines(Lines(p, n), Lines(q, m));
    var a, b := Collected(p, day, n), Collected(q, day, m);
    if a.Ok? {
      TradesPermutation(Lines(p, n), Lines(q, m), day);
      if DistinctKeys(a.value, false) {
        DistinctByAnonymous(a.value, b.value);
        SameRows(a.value, b.value, day, TAIL_MINUTES);
      }
    }
  }
}
