/** shioaji-proxy/main.py: position stops evaluated inside the tick callback.

    `register_stop_watches` overwrites the watch of a symbol, `_active_stop_watch` drops an
    expired watch when a tick happens to look at it, `_latch_stop_breach` records the first
    breach per intent key. The theorem is about whole runs: the latch holds exactly the keys
    for which an accepted tick at or below the stop arrived while the watch was active, and
    each with the data of the first such tick, for ever. */
module StopLatch {
  import opened Common
  import opened ProxyEvents

  datatype StopWatch = StopWatch(key: string, stop: real, shares: int, version: string, expires: int)

  datatype Breach = Breach(symbol: Symbol, stop: real, shares: int, version: string,
                           price: real, source: Option<int>, received: int, epoch: nat)

  datatype Stops = Stops(watches: map<Symbol, StopWatch>, breaches: map<string, Breach>)

  function ClampTtl(seconds: int): int { MaxInt(30, MinInt(seconds, 900)) }

  predicate Registrable(item: StopItem) {
    item.symbol.code != "" && item.key != "" && item.stop > 0.0 && item.shares > 0
  }

  function WatchFor(item: StopItem, ttlSeconds: int, now: int): StopWatch {
    StopWatch(item.key, item.stop, item.shares, item.version, now + 1000 * ClampTtl(ttlSeconds))
  }

  /** A later valid registration for a symbol replaces the earlier one. */
  function Register(watches: map<Symbol, StopWatch>, item: StopItem, ttlSeconds: int, now: int)
    : map<Symbol, StopWatch>
  {
    if Registrable(item) then watches[item.symbol := WatchFor(item, ttlSeconds, now)] else watches
  }

  /** The tick part of `_active_stop_watch`: an expired watch is dropped. */
  function DropExpired(watches: map<Symbol, StopWatch>, symbol: Symbol, now: int): map<Symbol, StopWatch> {
    if symbol in watches && watches[symbol].expires <= now then watches - {symbol} else watches
  }

  /** Does this price breach this watch? */
  predicate Breaches(w: StopWatch, price: Option<real>) {
    price.Some? && price.value > 0.0 && w.stop > 0.0 && price.value <= w.stop && w.key != ""
  }

  function BreachOf(w: StopWatch, e: Event): Breach
    requires e.TickArrived? && e.price.Some?
  {
    Breach(e.symbol, w.stop, w.shares, w.version, e.price.value, e.source, e.now, e.epoch)
  }

  function OnTick(s: Stops, e: Event): Stops
    requires e.TickArrived?
  {
    var watches := DropExpired(s.watches, e.symbol, e.now);
    if e.symbol !in watches || !Breaches(watches[e.symbol], e.price) || watches[e.symbol].key in s.breaches
    then Stops(watches, s.breaches)
    else Stops(watches, s.breaches[watches[e.symbol].key := BreachOf(watches[e.symbol], e)])
  }

  function StopStep(c: Control, s: Stops, e: Event): Stops {
    match e
    case TickArrived(_, _, _, _, epoch, _) => if Hears(c, epoch) then OnTick(s, e) else s
    case StopRegistered(item, ttl, now) => Stops(Register(s.watches, item, ttl, now), s.breaches)
    case _ => s
  }

  function StopsOf(cfg: Config, log: Log): Stops {
    if log == [] then Stops(map[], map[])
    else
      var before := log[..|log| - 1];
      StopStep(ControlOf(cfg, before), StopsOf(cfg, before), log[|log| - 1])
  }

  // ---------- the specification: last registration, first breach ----------

  /** The most recent valid registration for the symbol, expired or not. */
  function LastWatch(log: Log, symbol: Symbol): Option<StopWatch> {
    if log == [] then None
    else
      var e := log[|log| - 1];
      if e.StopRegistered? && Registrable(e.item) && e.item.symbol == symbol
      then Some(WatchFor(e.item, e.ttlSeconds, e.now))
      else LastWatch(log[..|log| - 1], symbol)
  }

  /** At event i an accepted tick breaches the stop that is active for its symbol. */
  predicate Triggers(cfg: Config, log: Log, i: nat, key: string)
    requires i < |log|
  {
    var e, w := log[i], LastWatch(log[..i], if log[i].TickArrived? then log[i].symbol else Symbol(""));
    && e.TickArrived? && Hears(ControlOf(cfg, log[..i]), e.epoch)
    && w.Some? && w.value.expires > e.now
    && Breaches(w.value, e.price) && w.value.key == key
  }

  ghost predicate FirstTrigger(cfg: Config, log: Log, i: nat, key: string) {
    i < |log| && Triggers(cfg, log, i, key) && forall j :: 0 <= j < i ==> !Triggers(cfg, log, j, key)
  }

  // ---------- dropping expired watches lazily is the same as looking at the last one ----------

  function Active(w: Option<StopWatch>, now: int): Option<StopWatch> {
    if w.Some? && w.value.expires > now then w else None
  }

  function Get(watches: map<Symbol, StopWatch>, symbol: Symbol): Option<StopWatch> {
    if symbol in watches then Some(watches[symbol]) else None
  }

  /** What a tick at `now` sees in the watch map is the last registration, if still active. */
  lemma {:induction false} LazyExpiry(cfg: Config, log: Log, symbol: Symbol, now: int)
    requires TicksNotAfter(log, now)
    ensures Active(Get(StopsOf(cfg, log).watches, symbol), now) == Active(LastWatch(log, symbol), now)
  {
    if log == [] {
    } else {
      var before := log[..|log| - 1];
      assert TicksNotAfter(before, now);
      LazyExpiry(cfg, before, symbol, now);
    }
  }

  /** The latch after one event: it gains exactly the key this event triggers, if it is new. */
  lemma LatchStep(cfg: Config, log: Log, key: string)
    requires log != [] && TicksInOrder(log)
    ensures var before, last := StopsOf(cfg, log[..|log| - 1]).breaches, |log| - 1;
            && (key in before ==> key in StopsOf(cfg, log).breaches && StopsOf(cfg, log).breaches[key] == before[key])
            && (key !in before ==>
                 (key in StopsOf(cfg, log).breaches <==> Triggers(cfg, log, last, key))
                 && (Triggers(cfg, log, last, key) ==>
                      StopsOf(cfg, log).breaches[key]
                      == BreachOf(LastWatch(log[..last], log[last].symbol).value, log[last])))
  {
    var last := |log| - 1;
    var before, e := log[..last], log[last];
    if e.TickArrived? {
      LazyExpiry(cfg, before, e.symbol, e.now);
    }
  }

  lemma TriggersPrefix(cfg: Config, log: Log, n: nat, i: nat, key: string)
    requires i < n <= |log|
    ensures Triggers(cfg, log[..n], i, key) == Triggers(cfg, log, i, key)
  {
    assert log[..n][..i] == log[..i];
  }

  /** Sound and complete: latched exactly when some accepted tick breached the active watch. */
  lemma {:induction false} LatchExact(cfg: Config, log: Log, key: string)
    requires TicksInOrder(log)
    ensures key in StopsOf(cfg, log).breaches <==> exists i: nat :: i < |log| && Triggers(cfg, log, i, key)
  {
    if log == [] {
    } else {
      var n := |log| - 1;
      assert TicksInOrder(log[..n]);
      LatchExact(cfg, log[..n], key);
      LatchStep(cfg, log, key);
      forall i: nat | i < n ensures Triggers(cfg, log[..n], i, key) == Triggers(cfg, log, i, key) {
        TriggersPrefix(cfg, log, n, i, key);
      }
    }
  }

  /** What is recorded is the first trigger: its price, stop and epoch. */
  lemma {:induction false} FirstTriggerRecorded(cfg: Config, log: Log, i: nat, key: string)
    requires TicksInOrder(log) && FirstTrigger(cfg, log, i, key)
    ensures key in StopsOf(cfg, log).breaches
    ensures StopsOf(cfg, log).breaches[key] == BreachOf(LastWatch(log[..i], log[i].symbol).value, log[i])
  {
    var n := |log| - 1;
    assert TicksInOrder(log[..n]);
    LatchStep(cfg, log, key);
    forall j: nat | j < n ensures Triggers(cfg, log[..n], j, key) == Triggers(cfg, log, j, key) {
      TriggersPrefix(cfg, log, n, j, key);
    }
    if i < n {
      FirstTriggerRecorded(cfg, log[..n], i, key);
      assert log[..n][..i] == log[..i];
    } else {
      LatchExact(cfg, log[..n], key);
    }
  }

  /** Sticky: nothing that happens later removes or changes a latched breach. */
  lemma {:induction false} LatchSticky(cfg: Config, log: Log, n: nat, key: string)
    requires n <= |log| && key in StopsOf(cfg, log[..n]).breaches
    ensures key in StopsOf(cfg, log).breaches
    ensures StopsOf(cfg, log).breaches[key] == StopsOf(cfg, log[..n]).breaches[key]
  {
    if n < |log| {
      var before := log[..|log| - 1];
      assert before[..n] == log[..n];
      LatchSticky(cfg, before, n, key);
    } else {
      assert log[..n] == log;
    }
  }

  /** Nothing is latched once the process is poisoned. */
  lemma {:induction false} NoLatchAfterPoison(cfg: Config, log: Log, n: nat)
    requires n <= |log| && ControlOf(cfg, log[..n]).poisoned
    ensures StopsOf(cfg, log).breaches == StopsOf(cfg, log[..n]).breaches
  {
    if n < |log| {
      var before := log[..|log| - 1];
      assert before[..n] == log[..n];
      NoLatchAfterPoison(cfg, before, n);
      EpochCountsLogins(cfg, before, n);
    } else {
      assert log[..n] == log;
    }
  }

  // ---------- the latch on events ----------

  /** Event r is a registration that takes effect for the symbol: nothing blank, stop and shares positive. */
  ghost predicate RegistersAt(log: Log, r: nat, symbol: Symbol)
    requires r < |log|
  {
    var e := log[r];
    && e.StopRegistered? && e.item.symbol == symbol && e.item.symbol.code != "" && e.item.key != ""
    && e.item.stop > 0.0 && e.item.shares > 0
  }

  ghost predicate LastRegistration(log: Log, n: nat, symbol: Symbol, r: nat)
    requires n <= |log|
  {
    r < n && RegistersAt(log, r, symbol) && forall j :: r < j < n ==> !RegistersAt(log, j, symbol)
  }

  /** A registration lives for the seconds it asks for, at least thirty and at most fifteen minutes. */
  function LivesUntil(e: Event): int
    requires e.StopRegistered?
  {
    e.now + (if e.ttlSeconds < 30 then 30_000 else if e.ttlSeconds > 900 then 900_000 else 1000 * e.ttlSeconds)
  }

  lemma {:induction false} LastWatchExactly(log: Log, n: nat, symbol: Symbol) returns (r: Option<nat>)
    requires n <= |log|
    ensures r.Some? ==> LastRegistration(log, n, symbol, r.value)
    ensures r.None? ==> forall k: nat :: !LastRegistration(log, n, symbol, k)
    ensures LastWatch(log[..n], symbol)
         == if r.None? then None
            else
              var e := log[r.value];
              Some(StopWatch(e.item.key, e.item.stop, e.item.shares, e.item.version, LivesUntil(e)))
  {
    r := None;
    if n == 0 {
      assert log[..0] == [];
    } else {
      var k := LastWatchExactly(log, n - 1, symbol);
      assert log[..n][..n - 1] == log[..n - 1];
      r := if RegistersAt(log, n - 1, symbol) then Some(n - 1) else k;
      forall m: nat | r.None? ensures !LastRegistration(log, n, symbol, m) {
        assert !LastRegistration(log, n - 1, symbol, m);
      }
    }
  }

  /** Tick i is heard, priced at or below the stop of the registration r that is then the last one for its
      symbol, and comes before that one runs out. */
  ghost predicate Hits(log: Log, i: nat, r: nat, key: string)
    requires i < |log|
  {
    var e := log[i];
    && e.TickArrived? && Heard(log, i, e.epoch) && LastRegistration(log, i, e.symbol, r)
    && log[r].item.key == key && e.now < LivesUntil(log[r])
    && e.price.Some? && 0.0 < e.price.value <= log[r].item.stop
  }

  lemma LastRegistrationUnique(log: Log, n: nat, symbol: Symbol, r: nat, k: nat)
    requires n <= |log| && LastRegistration(log, n, symbol, r) && LastRegistration(log, n, symbol, k)
    ensures r == k
  {
  }

  lemma TriggersExactly(cfg: Config, log: Log, i: nat, key: string) returns (r: nat)
    requires i < |log|
    ensures Triggers(cfg, log, i, key) <==> Hits(log, i, r, key)
    ensures forall k: nat :: Hits(log, i, k, key) ==> k == r
    ensures Hits(log, i, r, key) ==>
              var e, item := log[i], log[r].item;
              BreachOf(LastWatch(log[..i], e.symbol).value, e)
              == Breach(e.symbol, item.stop, item.shares, item.version, e.price.value, e.source, e.now, e.epoch)
  {
    r := 0;
    if log[i].TickArrived? {
      HeardExactly(cfg, log, i, log[i].epoch);
      var k := LastWatchExactly(log, i, log[i].symbol);
      if k.Some? {
        r := k.value;
        forall m: nat | Hits(log, i, m, key) ensures m == r { LastRegistrationUnique(log, i, log[i].symbol, r, m); }
      }
    }
  }

  /** Latched exactly when some heard tick hit an active stop ... */
  lemma LatchOnEvents(cfg: Config, log: Log, key: string)
    requires TicksInOrder(log)
    ensures key in StopsOf(cfg, log).breaches <==> exists i: nat, r: nat :: i < |log| && Hits(log, i, r, key)
  {
    LatchExact(cfg, log, key);
    if key in StopsOf(cfg, log).breaches {
      var i: nat :| i < |log| && Triggers(cfg, log, i, key);
      var r := TriggersExactly(cfg, log, i, key);
    }
    if i: nat, r: nat :| i < |log| && Hits(log, i, r, key) { var k := TriggersExactly(cfg, log, i, key); }
  }

  /** ... and what is recorded is the first such tick with the registration it hit. */
  lemma RecordedOnEvents(cfg: Config, log: Log, i: nat, r: nat, key: string)
    requires TicksInOrder(log) && i < |log| && Hits(log, i, r, key)
    requires forall j: nat, k: nat :: j < i ==> !Hits(log, j, k, key)
    ensures key in StopsOf(cfg, log).breaches
    ensures var e, item := log[i], log[r].item;
            StopsOf(cfg, log).breaches[key]
            == Breach(e.symbol, item.stop, item.shares, item.version, e.price.value, e.source, e.now, e.epoch)
  {
    var k := TriggersExactly(cfg, log, i, key);
    forall j: nat | j < i ensures !Triggers(cfg, log, j, key) { var m := TriggersExactly(cfg, log, j, key); }
    FirstTriggerRecorded(cfg, log, i, key);
  }
}
