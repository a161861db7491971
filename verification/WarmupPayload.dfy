/** shioaji-research/main.py: what `warmup_bars_from_ticks` returns, said of the lines of its payload:
    which lines count in which minute, which of them comes first and last, and what they sum to. */
module WarmupPayload {
  import opened Common
  import opened Warmup

  /** Line j counts in minute m: a real trade with a volume, between 09:00 and 13:25 of the day. */
  predicate CountsIn(p: Payload, day: int, j: nat, m: int)
    requires Readable(p) && j < |p.times.value|
  {
    && p.times.value[j].Some? && 60_000 * m <= p.times.value[j].value < 60_000 * (m + 1)
    && 9 * 60 <= m - 24 * 60 * day < 13 * 60 + 25
    && p.prices.value[j].Some? && p.prices.value[j].value > 0.0
    && p.volumes.value[j].Some? && p.volumes.value[j].value > 0.0
    && (p.simulated.Some? ==> p.simulated.value[j] == Some(0.0))
  }

  /** Line j is readable: a time, a positive price, a volume that is not negative. */
  predicate TradeReadable(p: Payload, j: nat)
    requires Readable(p) && j < |p.times.value|
  {
    && p.times.value[j].Some? && p.prices.value[j].Some? && p.volumes.value[j].Some?
    && p.prices.value[j].value > 0.0 && p.volumes.value[j].value >= 0.0
  }

  predicate FlagReadable(p: Payload, j: nat)
    requires Readable(p) && j < |p.times.value|
  {
    p.simulated.Some? ==> p.simulated.value[j] == Some(0.0) || p.simulated.value[j] == Some(1.0)
  }

  predicate LineReadable(p: Payload, j: nat)
    requires Readable(p) && j < |p.times.value|
  {
    TradeReadable(p, j) && FlagReadable(p, j)
  }

  /** Collecting succeeds exactly when every line is readable ... */
  lemma {:induction false} CollectedReadable(p: Payload, day: int, n: nat)
    requires Readable(p) && n <= |p.times.value|
    ensures Collected(p, day, n).Ok? <==> forall j :: 0 <= j < n ==> LineReadable(p, j)
  {
    if n == 0 {
    } else {
      CollectedReadable(p, day, n - 1);
      LineError(p, n - 1);
      assert (forall j :: 0 <= j < n ==> LineReadable(p, j))
        <==> (forall j :: 0 <= j < n - 1 ==> LineReadable(p, j)) && LineReadable(p, n - 1);
    }
  }

  /** ... and otherwise the error is that of the first unreadable line j: its trade, or else its flag. */
  lemma FirstError(p: Payload, day: int, j: nat, n: nat)
    requires Readable(p) && j < n <= |p.times.value| && !LineReadable(p, j)
    requires forall i :: 0 <= i < j ==> LineReadable(p, i)
    ensures Collected(p, day, n) == Err(if TradeReadable(p, j) then InvalidSimtrade else InvalidTrade)
  {
    CollectedReadable(p, day, j);
    LineError(p, j);
    ErrorSticks(p, day, j + 1, n);
  }

  lemma LineError(p: Payload, j: nat)
    requires Readable(p) && j < |p.times.value|
    ensures RowError(p, j)
         == if !TradeReadable(p, j) then Some(InvalidTrade)
            else if !FlagReadable(p, j) then Some(InvalidSimtrade)
            else None
  {
  }

  lemma MinuteOf(ts: int, m: int)
    ensures ts / MINUTE == m <==> 60_000 * m <= ts < 60_000 * (m + 1)
  {
  }

  lemma AcceptedCounts(p: Payload, day: int, j: nat, m: int)
    requires Readable(p) && j < |p.times.value| && RowError(p, j).None?
    ensures CountsIn(p, day, j, m) <==> Accepted(p, day, j) && TradeAt(p, j).minute == m
  {
    MinuteOf(p.times.value[j].value, m);
  }

  /** The accepted trades are the lines that count, each in its minute. */
  lemma {:induction false} CollectedExactly(p: Payload, day: int, n: nat, t: Trade)
    requires Readable(p) && n <= |p.times.value| && Collected(p, day, n).Ok?
    ensures t in Collected(p, day, n).value
       <==> && t.index < n && CountsIn(p, day, t.index, t.minute)
            && t == Trade(p.times.value[t.index].value, t.index, t.minute,
                          p.prices.value[t.index].value, p.volumes.value[t.index].value)
  {
    if n == 0 {
    } else {
      CollectedExactly(p, day, n - 1, t);
      AcceptedCounts(p, day, n - 1, t.minute);
      if Accepted(p, day, n - 1) && t == TradeAt(p, n - 1) { assert t.index == n - 1; }
    }
  }

  // ---------- the trades of a minute ----------

  lemma {:induction false} TradesInExactly(s: seq<Trade>, m: int, t: Trade)
    ensures t in TradesIn(s, m) <==> t in s && t.minute == m
  {
    if s == [] {
    } else {
      TradesInExactly(s[..|s| - 1], m, t);
      assert s == s[..|s| - 1] + [s[|s| - 1]];
    }
  }

  lemma {:induction false} TradesInSorted(s: seq<Trade>, m: int)
    requires Sorted(s)
    ensures Sorted(TradesIn(s, m))
  {
    if s == [] {
    } else {
      var front, last := s[..|s| - 1], s[|s| - 1];
      TradesInSorted(front, m);
      forall i | 0 <= i < |TradesIn(front, m)| ensures Before(TradesIn(front, m)[i], last) {
        TradesInExactly(front, m, TradesIn(front, m)[i]);
        var k :| 0 <= k < |front| && front[k] == TradesIn(front, m)[i];
        assert s[k] == front[k];
      }
    }
  }

  /** A price that bounds the trades from above, or from below, and is one of them. */
  lemma {:induction false} ExtremeTrades(s: seq<Trade>) returns (hi: nat, lo: nat)
    requires s != []
    ensures hi < |s| && s[hi].price == Highest(s) && lo < |s| && s[lo].price == Lowest(s)
    ensures forall i :: 0 <= i < |s| ==> Lowest(s) <= s[i].price <= Highest(s)
  {
    hi, lo := 0, 0;
    if |s| > 1 {
      var front := s[..|s| - 1];
      hi, lo := ExtremeTrades(front);
      if s[|s| - 1].price >= Highest(front) { hi := |s| - 1; }
      if s[|s| - 1].price <= Lowest(front) { lo := |s| - 1; }
      forall i | 0 <= i < |s| ensures Lowest(s) <= s[i].price <= Highest(s) {
        if i < |s| - 1 { assert s[i] == front[i]; }
      }
    }
  }

  /** The latest trade before a minute. */
  lemma {:induction false} LastBeforeExactly(s: seq<Trade>, m: int) returns (k: Option<nat>)
    requires Sorted(s)
    ensures k.None? ==> LastBefore(s, m).None? && forall i :: 0 <= i < |s| ==> s[i].minute >= m
    ensures k.Some? ==> k.value < |s| && LastBefore(s, m) == Some(s[k.value].price) && s[k.value].minute < m
    ensures k.Some? ==> forall i :: 0 <= i < |s| && s[i].minute < m ==> Before(s[i], s[k.value])
  {
    k := None;
    if s == [] {
    } else if s[|s| - 1].minute < m {
      k := Some(|s| - 1);
    } else {
      k := LastBeforeExactly(s[..|s| - 1], m);
    }
  }

  // ---------- a row on the payload ----------

  /** Line i comes no later than line j: by time, and at the same time by position. */
  predicate NoLater(p: Payload, i: nat, j: nat)
    requires Readable(p) && i < |p.times.value| && j < |p.times.value|
    requires p.times.value[i].Some? && p.times.value[j].Some?
  {
    p.times.value[i].value < p.times.value[j].value || (p.times.value[i].value == p.times.value[j].value && i <= j)
  }

  function PriceOf(p: Payload, j: nat): real
    requires Readable(p) && j < |p.times.value| && p.prices.value[j].Some?
  {
    p.prices.value[j].value
  }

  /** Volume of the lines below n that count in minute m. */
  function VolumeIn(p: Payload, day: int, m: int, n: nat): real
    requires Readable(p) && n <= |p.times.value|
  {
    if n == 0 then 0.0
    else VolumeIn(p, day, m, n - 1) + if CountsIn(p, day, n - 1, m) then p.volumes.value[n - 1].value else 0.0
  }

  /** The lines that open, close, top and bottom a bar of a minute with trades. */
  datatype Marks = Marks(first: nat, last: nat, high: nat, low: nat)

  ghost predicate MinuteBar(p: Payload, day: int, m: int, b: Bar, k: Marks)
    requires Readable(p)
  {
    var n := |p.times.value|;
    && k.first < n && k.last < n && k.high < n && k.low < n
    && CountsIn(p, day, k.first, m) && CountsIn(p, day, k.last, m)
    && CountsIn(p, day, k.high, m) && CountsIn(p, day, k.low, m)
    && (forall j: nat :: j < n && CountsIn(p, day, j, m) ==>
          && NoLater(p, k.first, j) && NoLater(p, j, k.last)
          && PriceOf(p, k.low) <= PriceOf(p, j) <= PriceOf(p, k.high))
    && b == Bar(PriceOf(p, k.first), PriceOf(p, k.high), PriceOf(p, k.low), PriceOf(p, k.last), VolumeIn(p, day, m, n))
  }

  /** A flat bar at the price of the latest line that counts in an earlier minute. */
  ghost predicate CarriedBar(p: Payload, day: int, m: int, b: Bar, k: nat, before: int)
    requires Readable(p)
  {
    var n := |p.times.value|;
    && (forall j: nat :: j < n ==> !CountsIn(p, day, j, m))
    && k < n && before < m && CountsIn(p, day, k, before)
    && (forall j: nat, e: int :: j < n && e < m && CountsIn(p, day, j, e) ==> NoLater(p, j, k))
    && b == Bar(PriceOf(p, k), PriceOf(p, k), PriceOf(p, k), PriceOf(p, k), 0.0)
  }

  lemma {:induction false} VolumeOnPayload(p: Payload, day: int, m: int, n: nat)
    requires Readable(p) && n <= |p.times.value| && Collected(p, day, n).Ok?
    ensures VolumeBetween(Collected(p, day, n).value, m, m + 1) == VolumeIn(p, day, m, n)
  {
    if n == 0 {
    } else {
      VolumeOnPayload(p, day, m, n - 1);
      AcceptedCounts(p, day, n - 1, m);
      if Accepted(p, day, n - 1) { Snoc(Collected(p, day, n - 1).value, TradeAt(p, n - 1)); }
    }
  }

  /** The trades of `s` are the lines that count. */
  ghost predicate Reads(p: Payload, day: int, s: seq<Trade>)
    requires Readable(p)
  {
    forall t :: t in s <==>
      && t.index < |p.times.value| && CountsIn(p, day, t.index, t.minute)
      && t == Trade(p.times.value[t.index].value, t.index, t.minute,
                    p.prices.value[t.index].value, p.volumes.value[t.index].value)
  }

  lemma SortedReads(p: Payload, day: int)
    requires Readable(p) && Collected(p, day, |p.times.value|).Ok?
    ensures Reads(p, day, SortTrades(Collected(p, day, |p.times.value|).value))
  {
    var accepted := Collected(p, day, |p.times.value|).value;
    forall t
      ensures t in SortTrades(accepted) <==>
        && t.index < |p.times.value| && CountsIn(p, day, t.index, t.minute)
        && t == Trade(p.times.value[t.index].value, t.index, t.minute,
                      p.prices.value[t.index].value, p.volumes.value[t.index].value)
    {
      CollectedExactly(p, day, |p.times.value|, t);
      assert t in SortTrades(accepted) <==> t in multiset(SortTrades(accepted));
      assert t in accepted <==> t in multiset(accepted);
    }
  }

  /** The trade of a line that counts. */
  lemma LineTrade(p: Payload, day: int, s: seq<Trade>, j: nat, m: int) returns (t: Trade)
    requires Readable(p) && Reads(p, day, s) && j < |p.times.value| && CountsIn(p, day, j, m)
    ensures t in s && t.index == j && t.minute == m && t.ts == p.times.value[j].value && t.price == PriceOf(p, j)
  {
    t := Trade(p.times.value[j].value, j, m, p.prices.value[j].value, p.volumes.value[j].value);
  }

  lemma SummaryOnPayload(p: Payload, day: int, m: int, s: seq<Trade>) returns (k: Marks)
    requires Readable(p) && Reads(p, day, s) && Sorted(s) && TradesIn(s, m) != []
    requires Volume(TradesIn(s, m)) == VolumeIn(p, day, m, |p.times.value|)
    ensures MinuteBar(p, day, m, Summary(TradesIn(s, m)), k)
  {
    var sub := TradesIn(s, m);
    TradesInSorted(s, m);
    var hi, lo := ExtremeTrades(sub);
    TradesInExactly(s, m, sub[0]);
    TradesInExactly(s, m, sub[|sub| - 1]);
    TradesInExactly(s, m, sub[hi]);
    TradesInExactly(s, m, sub[lo]);
    k := Marks(sub[0].index, sub[|sub| - 1].index, sub[hi].index, sub[lo].index);
    forall j: nat | j < |p.times.value| && CountsIn(p, day, j, m)
      ensures NoLater(p, k.first, j) && NoLater(p, j, k.last)
      ensures PriceOf(p, k.low) <= PriceOf(p, j) <= PriceOf(p, k.high)
    {
      var i := LineInMinute(p, day, m, s, j);
    }
  }

  /** The position of a line that counts among the trades of its minute. */
  lemma LineInMinute(p: Payload, day: int, m: int, s: seq<Trade>, j: nat) returns (i: nat)
    requires Readable(p) && Reads(p, day, s) && j < |p.times.value| && CountsIn(p, day, j, m)
    ensures i < |TradesIn(s, m)| && TradesIn(s, m)[i].index == j
    ensures TradesIn(s, m)[i].ts == p.times.value[j].value && TradesIn(s, m)[i].price == PriceOf(p, j)
  {
    var t := LineTrade(p, day, s, j, m);
    TradesInExactly(s, m, t);
    i :| 0 <= i < |TradesIn(s, m)| && TradesIn(s, m)[i] == t;
  }

  lemma CarriedOnPayload(p: Payload, day: int, m: int, s: seq<Trade>) returns (k: nat, before: int)
    requires Readable(p) && Reads(p, day, s) && Sorted(s) && TradesIn(s, m) == [] && LastBefore(s, m).Some?
    ensures CarriedBar(p, day, m, Flat(LastBefore(s, m).value), k, before)
  {
    var i := LastBeforeExactly(s, m);
    var t := s[i.value];
    assert t in s;
    k, before := t.index, t.minute;
    forall j: nat | j < |p.times.value| ensures !CountsIn(p, day, j, m) {
      if CountsIn(p, day, j, m) {
        var u := LineTrade(p, day, s, j, m);
        TradesInExactly(s, m, u);
      }
    }
    forall j: nat, e: int | j < |p.times.value| && e < m && CountsIn(p, day, j, e) ensures NoLater(p, j, k) {
      var u := LineTrade(p, day, s, j, e);
      var x :| 0 <= x < |s| && s[x] == u;
    }
  }

  /** A row of minute m is the bar of the lines that count in it, or is carried over from the last one before. */
  ghost predicate RowOnPayload(p: Payload, day: int, m: int, row: Row)
    requires Readable(p)
  {
    && row.endMinute == m + 1
    && ((exists k :: MinuteBar(p, day, m, row.bar, k))
        || (exists k, before :: CarriedBar(p, day, m, row.bar, k, before)))
  }

  lemma BarOnPayload(p: Payload, day: int, m: int, row: Row, accepted: seq<Trade>)
    requires Readable(p) && Collected(p, day, |p.times.value|) == Ok(accepted)
    requires RowOf(row, SortTrades(accepted), accepted, m)
    ensures RowOnPayload(p, day, m, row)
  {
    var s := SortTrades(accepted);
    SortedReads(p, day);
    SortSorted(accepted);
    if TradesIn(s, m) != [] {
      VolumeOnPayload(p, day, m, |p.times.value|);
      var k := SummaryOnPayload(p, day, m, s);
    } else {
      var k, before := CarriedOnPayload(p, day, m, s);
    }
  }

  /** From payload to rows: a readable payload whose lines are all readable yields the six rows of the minutes
      13:19 .. 13:24, stamped with their ends, exactly when some line counts up to the end of 13:19, and the
      seed error otherwise. */
  lemma RowsOnPayload(p: Payload, day: int)
    requires Readable(p) && forall j :: 0 <= j < |p.times.value| ==> LineReadable(p, j)
    ensures var start := 24 * 60 * day + 13 * 60 + 19;
            if exists j: nat, m: int :: j < |p.times.value| && m <= start && CountsIn(p, day, j, m) then
              && WarmupOf(p, day).Ok? && |WarmupOf(p, day).value| == 6
              && forall i :: 0 <= i < 6 ==> RowOnPayload(p, day, start + i, WarmupOf(p, day).value[i])
            else WarmupOf(p, day) == Err(SeedMissing)
  {
    CollectedReadable(p, day, |p.times.value|);
    WarmupPromise(p, day);
    var accepted := Collected(p, day, |p.times.value|).value;
    SeededOnPayload(p, day, accepted);
    if SeededBy(accepted, day) { RowsRead(p, day, WarmupOf(p, day).value, accepted, TAIL_MINUTES); }
  }

  lemma RowOfIndex(rows: seq<Row>, trades: seq<Trade>, accepted: seq<Trade>, day: int, k: nat, i: nat, m: int)
    requires RowsOf(rows, trades, accepted, day, k) && i < k && m == 24 * 60 * day + 13 * 60 + 19 + i
    ensures |rows| == k && RowOf(rows[i], trades, accepted, m)
  {
    assert RowAt(rows, trades, accepted, day, i);
  }

  lemma RowRead(p: Payload, day: int, rows: seq<Row>, accepted: seq<Trade>, k: nat, i: nat, m: int)
    requires Readable(p) && Collected(p, day, |p.times.value|) == Ok(accepted)
    requires RowsOf(rows, SortTrades(accepted), accepted, day, k) && i < k && m == 24 * 60 * day + 13 * 60 + 19 + i
    ensures |rows| == k && RowOnPayload(p, day, m, rows[i])
  {
    RowOfIndex(rows, SortTrades(accepted), accepted, day, k, i, m);
    BarOnPayload(p, day, m, rows[i], accepted);
  }

  lemma RowsRead(p: Payload, day: int, rows: seq<Row>, accepted: seq<Trade>, k: nat)
    requires Readable(p) && Collected(p, day, |p.times.value|) == Ok(accepted)
    requires RowsOf(rows, SortTrades(accepted), accepted, day, k)
    ensures |rows| == k
    ensures forall i :: 0 <= i < k ==> RowOnPayload(p, day, 24 * 60 * day + 13 * 60 + 19 + i, rows[i])
  {
    forall i | 0 <= i < k ensures RowOnPayload(p, day, 24 * 60 * day + 13 * 60 + 19 + i, rows[i]) {
      RowRead(p, day, rows, accepted, k, i, 24 * 60 * day + 13 * 60 + 19 + i);
    }
  }

  lemma SeededOnPayload(p: Payload, day: int, accepted: seq<Trade>)
    requires Readable(p) && Collected(p, day, |p.times.value|) == Ok(accepted)
    ensures SeededBy(accepted, day)
       <==> exists j: nat, m: int :: j < |p.times.value| && m <= 24 * 60 * day + 13 * 60 + 19 && CountsIn(p, day, j, m)
  {
    if SeededBy(accepted, day) {
      var i :| 0 <= i < |accepted| && accepted[i].minute <= day * DAY_MINUTES + TAIL_START;
      CollectedExactly(p, day, |p.times.value|, accepted[i]);
    }
    if j: nat, m: int :| j < |p.times.value| && m <= 24 * 60 * day + 13 * 60 + 19 && CountsIn(p, day, j, m) {
      var t := Trade(p.times.value[j].value, j, m, p.prices.value[j].value, p.volumes.value[j].value);
      CollectedExactly(p, day, |p.times.value|, t);
      var i :| 0 <= i < |accepted| && accepted[i] == t;
    }
  }
}
