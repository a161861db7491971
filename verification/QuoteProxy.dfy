/** shioaji-proxy/main.py: the proxy's mutable state and the methods that change it.

    Each method is one region under `_state_lock`, and its contract says what the whole state
    becomes. `Replay` lets the regions run in any order, with callbacks of any session: after
    any list of events the fields are what the functions of the list say, so what the modules
    ProxyEvents, OrderBook, MinuteBars, StopLatch, WatchStore and RecoveryBackoff prove about
    all runs holds of the object. */
module QuoteProxies {
  import opened Common
  import opened ProxyEvents
  import Book = OrderBook
  import Bars = MinuteBars
  import Latch = StopLatch
  import Watch = WatchStore
  import Backoff = RecoveryBackoff

  datatype State = State(control: Control, quotes: Book.Quotes, bars: Bars.BarStore, stops: Latch.Stops,
                         boardWatches: Watch.Store, oddWatches: Watch.Store, recoveries: Backoff.Recoveries)

  const INITIAL := State(START, Book.EMPTY, map[], Latch.Stops(map[], map[]), map[], map[], map[])

  function StateStep(cfg: Config, s: State, e: Event): State {
    State(
      ControlStep(cfg, s.control, e),
      Book.QuotesStep(cfg, s.control, s.quotes, e),
      Bars.BarsStep(s.control, s.bars, e),
      Latch.StopStep(s.control, s.stops, e),
      Watch.StoreStep(cfg, Board, s.boardWatches, e),
      Watch.StoreStep(cfg, Odd, s.oddWatches, e),
      Backoff.RecoveryStep(cfg, s.control, s.recoveries, e,
                           if Backoff.LotOf(e) == Odd then s.oddWatches else s.boardWatches))
  }

  /** The state after a run, by the functions the other modules reason about. */
  function StateOf(cfg: Config, log: Log): State {
    State(ControlOf(cfg, log), Book.QuotesOf(cfg, log), Bars.BarsOf(cfg, log), Latch.StopsOf(cfg, log),
          Watch.StoreOf(cfg, log, Board), Watch.StoreOf(cfg, log, Odd), Backoff.RecoveriesOf(cfg, log))
  }

  lemma StateAfter(cfg: Config, log: Log, n: nat)
    requires n < |log|
    ensures StateOf(cfg, log[..n + 1]) == StateStep(cfg, StateOf(cfg, log[..n]), log[n])
  {
    assert log[..n + 1][..n] == log[..n];
  }

  lemma OneMoreRegion(before: Log, log: Log, i: nat)
    requires i < |log|
    ensures before + log[..i] + [log[i]] == before + log[..i + 1]
  {
  }

  lemma StateSnoc(cfg: Config, log: Log, e: Event)
    ensures StateOf(cfg, log + [e]) == StateStep(cfg, StateOf(cfg, log), e)
  {
    StateAfter(cfg, log + [e], |log|);
    assert (log + [e])[..|log|] == log && (log + [e])[..|log| + 1] == log + [e];
  }

  // ---------- the moments of a request ----------

  /** The run after the first k groups of regions that other threads put between the reads. */
  function After(before: Log, others: seq<Log>, k: nat): Log
    requires k <= |others|
  {
    if k == 0 then before else After(before, others, k - 1) + others[k - 1]
  }

  lemma {:induction false} AfterPrefix(before: Log, others: seq<Log>, j: nat, k: nat)
    requires j <= k <= |others|
    ensures |After(before, others, j)| <= |After(before, others, k)|
    ensures After(before, others, k)[..|After(before, others, j)|] == After(before, others, j)
  {
    if j == k {
    } else {
      AfterPrefix(before, others, j, k - 1);
    }
  }

  /** The run of a whole request: two groups, its watch region, seven groups. */
  function Entered(before: Log, others: seq<Log>, watch: Event): Log
    requires |others| == 9
  {
    After(before, others[..2], 2) + [watch]
  }

  function Whole(before: Log, others: seq<Log>, watch: Event): Log
    requires |others| == 9
  {
    After(Entered(before, others, watch), others[2..], 7)
  }

  function Moment(before: Log, others: seq<Log>, watch: Event, k: nat): Log
    requires |others| == 9 && k <= 7
  {
    After(Entered(before, others, watch), others[2..], k)
  }

  function PointsOf(before: Log, others: seq<Log>, watch: Event): Book.Points
    requires |others| == 9
  {
    Book.Points.Points(
      |After(before, others[..2], 1)|, |After(before, others[..2], 2)|,
      |Moment(before, others, watch, 1)|, |Moment(before, others, watch, 2)|, |Moment(before, others, watch, 3)|,
      |Moment(before, others, watch, 4)|, |Moment(before, others, watch, 5)|, |Moment(before, others, watch, 6)|,
      |Moment(before, others, watch, 7)|)
  }

  lemma MomentPrefix(before: Log, others: seq<Log>, watch: Event, k: nat)
    requires |others| == 9 && k <= 7
    ensures |Moment(before, others, watch, k)| <= |Whole(before, others, watch)|
    ensures Whole(before, others, watch)[..|Moment(before, others, watch, k)|] == Moment(before, others, watch, k)
  {
    AfterPrefix(Entered(before, others, watch), others[2..], k, 7);
  }

  lemma SlicePrefix(whole: Log, entry: Log, watch: Event, part: Log)
    requires |entry| < |whole| && whole[..|entry| + 1] == entry + [watch]
    requires |part| <= |entry| && entry[..|part|] == part
    ensures whole[..|part|] == part && whole[|entry|] == watch
  {
    assert whole[..|part|] == whole[..|entry| + 1][..|part|];
    assert whole[|entry|] == whole[..|entry| + 1][|entry|];
  }

  lemma EntryPrefix(before: Log, others: seq<Log>, watch: Event, k: nat)
    requires |others| == 9 && k <= 2
    ensures |After(before, others[..2], k)| <= |After(before, others[..2], 2)| < |Whole(before, others, watch)|
    ensures Whole(before, others, watch)[..|After(before, others[..2], k)|] == After(before, others[..2], k)
    ensures Whole(before, others, watch)[|After(before, others[..2], 2)|] == watch
  {
    AfterPrefix(before, others[..2], k, 2);
    MomentPrefix(before, others, watch, 0);
    SlicePrefix(Whole(before, others, watch), After(before, others[..2], 2), watch, After(before, others[..2], k));
  }

  lemma MomentsInOrder(before: Log, others: seq<Log>, watch: Event, j: nat, k: nat)
    requires |others| == 9 && j <= k <= 7
    ensures |Moment(before, others, watch, j)| <= |Moment(before, others, watch, k)|
  {
    AfterPrefix(Entered(before, others, watch), others[2..], j, k);
  }

  /** What the reads after the watch region see. */
  ghost function ReadAfter(cfg: Config, q: Book.Request, before: Log, others: seq<Log>): Book.Reads
    requires |others| == 7
  {
    Book.Reads.Reads(
      (q.lot, q.symbol) in Book.QuotesOf(cfg, After(before, others, 2)).subs,
      ControlOf(cfg, After(before, others, 3)).epoch,
      ControlOf(cfg, After(before, others, 4)).up,
      Book.HeartbeatAge(ControlOf(cfg, After(before, others, 5)), Book.QuotesOf(cfg, After(before, others, 5)),
                        q.beatNow),
      Book.TickIn(Book.QuotesOf(cfg, After(before, others, 6)), q.symbol),
      ControlOf(cfg, After(before, others, 7)).epoch,
      q.now, q.later)
  }

  lemma AfterSeven(before: Log, others: seq<Log>)
    requires |others| == 7
    ensures After(before, others, 0) == before
    ensures forall k :: 1 <= k <= 7 ==> After(before, others, k) == After(before, others, k - 1) + others[k - 1]
  {
  }

  lemma RequestTimeline(cfg: Config, q: Book.Request, before: Log, others: seq<Log>, watch: Event)
    requires |others| == 9 && Book.IsWatchRegion(cfg, watch, q)
    ensures Book.Timeline(cfg, Whole(before, others, watch), q, PointsOf(before, others, watch))
  {
    EntryPrefix(before, others, watch, 1);
    MomentsInOrder(before, others, watch, 0, 1);
    MomentsInOrder(before, others, watch, 1, 2);
    MomentsInOrder(before, others, watch, 2, 3);
    MomentsInOrder(before, others, watch, 3, 4);
    MomentsInOrder(before, others, watch, 4, 5);
    MomentsInOrder(before, others, watch, 5, 6);
    MomentsInOrder(before, others, watch, 6, 7);
  }

  lemma RequestReads(cfg: Config, q: Book.Request, before: Log, others: seq<Log>, watch: Event)
    requires |others| == 9 && Book.IsWatchRegion(cfg, watch, q)
    ensures var log, p := Whole(before, others, watch), PointsOf(before, others, watch);
            && Book.Timeline(cfg, log, q, p)
            && Book.ReadsAt(cfg, log, q, p) == ReadAfter(cfg, q, Entered(before, others, watch), others[2..])
            && Book.Picked(cfg, log, q, p)
               == Book.BookIn(Book.QuotesOf(cfg, Moment(before, others, watch, 1)), q.lot, q.symbol)
  {
    RequestTimeline(cfg, q, before, others, watch);
    forall k | 1 <= k <= 7
      ensures |Moment(before, others, watch, k)| <= |Whole(before, others, watch)|
      ensures Whole(before, others, watch)[..|Moment(before, others, watch, k)|] == Moment(before, others, watch, k)
    {
      MomentPrefix(before, others, watch, k);
    }
  }

  /** The answer of a request, by what its reads see. */
  ghost function AnswerBy(cfg: Config, q: Book.Request, before: Log, others: seq<Log>, watch: Event)
    : Result<Book.Book, Book.Refusal>
    requires |others| == 9 && Book.IsWatchRegion(cfg, watch, q)
  {
    var gate, entry := After(before, others[..2], 1), After(before, others[..2], 2);
    if !q.api || !ControlOf(cfg, gate).connected then Err(Book.Disconnected)
    else if !Book.Accepts(cfg, Watch.StoreOf(cfg, entry, q.lot), watch, q.symbol) then Err(Book.WatchCapacity)
    else Book.Decide(cfg, ReadAfter(cfg, q, Entered(before, others, watch), others[2..]),
                     Book.BookIn(Book.QuotesOf(cfg, Moment(before, others, watch, 1)), q.lot, q.symbol), q.lot)
  }

  lemma RequestAnswer(cfg: Config, q: Book.Request, before: Log, others: seq<Log>, watch: Event)
    requires |others| == 9 && Book.IsWatchRegion(cfg, watch, q)
    ensures var log, p := Whole(before, others, watch), PointsOf(before, others, watch);
            Book.Timeline(cfg, log, q, p) && Book.Answer(cfg, log, q, p) == AnswerBy(cfg, q, before, others, watch)
  {
    RequestReads(cfg, q, before, others, watch);
    EntryPrefix(before, others, watch, 1);
    EntryPrefix(before, others, watch, 2);
  }

  class QuoteProxy {
    const cfg: Config

    var sessionEpoch: nat
    var poisoned: bool
    var connected: bool
    var quoteSessionUp: bool
    var lastResetAt: int
    var lastTicks: Book.Ticks
    var books: Book.Books
    var subscribed: Book.Subscriptions
    var minuteBars: Bars.BarStore
    var stopWatches: map<Symbol, Latch.StopWatch>
    var stopBreaches: map<string, Latch.Breach>
    var boardWatches: Watch.Store
    var oddWatches: Watch.Store
    var recoveries: Backoff.Recoveries

    function Control(): Control
      reads this
    {
      ProxyEvents.Control.Control(sessionEpoch, poisoned, connected, quoteSessionUp, lastResetAt)
    }

    function Quotes(): Book.Quotes
      reads this
    {
      Book.Quotes.Quotes(lastTicks, books, subscribed)
    }

    function View(): State
      reads this
    {
      State(Control(), Quotes(), minuteBars, Latch.Stops(stopWatches, stopBreaches), boardWatches, oddWatches,
            recoveries)
    }

    constructor (cfg: Config)
      ensures View() == INITIAL && this.cfg == cfg
    {
      this.cfg := cfg;
      sessionEpoch, poisoned, connected, quoteSessionUp, lastResetAt := 0, false, false, false, 0;
      lastTicks, books, subscribed := map[], map[], {};
      minuteBars := map[];
      stopWatches, stopBreaches := map[], map[];
      boardWatches, oddWatches := map[], map[];
      recoveries := map[];
    }

    // ---------- session ----------

    method LoginSucceeded()
      modifies this
      ensures View() == StateStep(cfg, old(View()), LoggedIn)
    {
      sessionEpoch := sessionEpoch + 1;
      connected := true;
      quoteSessionUp := true;
    }

    method LoginFailed()
      modifies this
      ensures View() == StateStep(cfg, old(View()), LoginLost)
    {
      connected := false;
      quoteSessionUp := false;
    }

    method OnSessionEvent(code: int, epoch: nat)
      modifies this
      ensures View() == StateStep(cfg, old(View()), SessionEvent(code, epoch))
    {
      if epoch != sessionEpoch || poisoned { return; }
      if code in {0, 13} {
        quoteSessionUp := true;
      } else if code in {1, 2, 12} {
        quoteSessionUp := false;
      }
    }

    method ClearCaches()
      modifies this`subscribed, this`lastTicks, this`books, this`recoveries
      ensures Quotes() == Book.EMPTY && recoveries == map[]
    {
      subscribed := {};
      lastTicks := map[];
      books := map[];
      recoveries := map[];
    }

    /** The clearing region of a reconnect; false within the cooldown. */
    method ClearForReset(now: int) returns (cleared: bool)
      modifies this
      ensures View() == StateStep(cfg, old(View()), ResetRequested(now))
      ensures cleared == Clears(cfg, old(Control()), ResetRequested(now))
    {
      cleared := now - lastResetAt >= cfg.reconnectCooldown;
      if cleared {
        lastResetAt := now;
        connected := false;
        quoteSessionUp := false;
        ClearCaches();
      }
    }

    method Poison()
      modifies this
      ensures View() == StateStep(cfg, old(View()), PoisonRequested)
    {
      if poisoned { return; }
      poisoned := true;
      connected := false;
    }

    method SubscriptionAdded(lot: Lot, symbol: Symbol)
      modifies this
      ensures View() == StateStep(cfg, old(View()), Subscribed(lot, symbol))
    {
      subscribed := subscribed + {(lot, symbol)};
    }

    method SubscriptionDiscarded(lot: Lot, symbol: Symbol)
      modifies this
      ensures View() == StateStep(cfg, old(View()), Unsubscribed(lot, symbol))
    {
      subscribed := subscribed - {(lot, symbol)};
    }

    // ---------- callbacks ----------

    method UpdateMinuteBar(symbol: Symbol, t: Bars.Tick)
      modifies this`minuteBars
      ensures minuteBars == if Bars.InSession(t)
                            then old(minuteBars)[symbol := Bars.UpdateBars(Bars.Get(old(minuteBars), symbol), t)]
                            else old(minuteBars)
    {
      if !Bars.InSession(t) { return; }
      var bars := if symbol in minuteBars then minuteBars[symbol] else [];
      if bars != [] && bars[|bars| - 1].minute == t.minute {
        var bar := bars[|bars| - 1];
        bar := bar.(high := Max(bar.high, t.price));
        bar := bar.(low := Min(bar.low, t.price));
        bar := bar.(close := t.price);
        bar := bar.(volume := bar.volume + t.volume);
        bar := bar.(lastEvent := t.received, epoch := t.epoch);
        bars := bars[|bars| - 1 := bar];
      } else {
        bars := bars + [Bars.Open(t)];
        if |bars| > Bars.MAX_BARS { bars := bars[|bars| - Bars.MAX_BARS..]; }
      }
      minuteBars := minuteBars[symbol := bars];
    }

    method UpdateBarsFrom(symbol: Symbol, price: Option<real>, volume: int, source: Option<int>, epoch: nat, now: int)
      requires Hears(Control(), epoch)
      modifies this`minuteBars
      ensures minuteBars
           == Bars.BarsStep(Control(), old(minuteBars), TickArrived(symbol, price, volume, source, epoch, now))
    {
      if price.None? { return; }
      var at := if source.Some? then source.value else now;
      UpdateMinuteBar(symbol, Bars.Tick(price.value, volume, at / Bars.MINUTE, now, epoch));
    }

    method LatchStopBreach(symbol: Symbol, price: Option<real>, volume: int, source: Option<int>, epoch: nat, now: int)
      modifies this`stopWatches, this`stopBreaches
      ensures Latch.Stops(stopWatches, stopBreaches)
           == Latch.OnTick(old(Latch.Stops(stopWatches, stopBreaches)),
                           TickArrived(symbol, price, volume, source, epoch, now))
    {
      if symbol !in stopWatches { return; }
      var watch := stopWatches[symbol];
      if watch.expires <= now {
        stopWatches := stopWatches - {symbol};
        return;
      }
      var trigger := match price case Some(p) => p case None => 0.0;
      if trigger <= 0.0 || watch.stop <= 0.0 || trigger > watch.stop { return; }
      if watch.key == "" || watch.key in stopBreaches { return; }
      stopBreaches := stopBreaches[watch.key :=
        Latch.Breach(symbol, watch.stop, watch.shares, watch.version, trigger, source, now, epoch)];
    }

    method OnTick(symbol: Symbol, price: Option<real>, volume: int, source: Option<int>, epoch: nat, now: int)
      modifies this
      ensures View() == StateStep(cfg, old(View()), TickArrived(symbol, price, volume, source, epoch, now))
    {
      if epoch != sessionEpoch || poisoned { return; }
      lastTicks := lastTicks[symbol := Book.Tick(price, source, now, epoch)];
      UpdateBarsFrom(symbol, price, volume, source, epoch, now);
      LatchStopBreach(symbol, price, volume, source, epoch, now);
    }

    method OnBidAsk(symbol: Symbol, lot: Lot, bids: seq<real>, asks: seq<real>, source: Option<int>, epoch: nat,
                    received: int)
      modifies this
      ensures View() == StateStep(cfg, old(View()), BookArrived(symbol, lot, bids, asks, source, epoch, received))
    {
      if epoch != sessionEpoch || poisoned { return; }
      books := books[(lot, symbol) := Book.Book(bids, asks, source, received, epoch)];
      if bids == [] || asks == [] { return; }
      var state := if (lot, symbol) in recoveries then recoveries[(lot, symbol)] else Backoff.NEW;
      recoveries := recoveries[(lot, symbol) := state.(failures := 0, nextAttempt := 0)];
    }

    // ---------- watches ----------

    method RegisterStopWatch(item: StopItem, ttlSeconds: int, now: int) returns (registered: bool)
      modifies this
      ensures View() == StateStep(cfg, old(View()), StopRegistered(item, ttlSeconds, now))
      ensures registered == Latch.Registrable(item)
    {
      if item.symbol.code == "" || item.key == "" || item.stop <= 0.0 || item.shares <= 0 { return false; }
      stopWatches := stopWatches[item.symbol :=
        Latch.StopWatch(item.key, item.stop, item.shares, item.version, now + 1000 * Latch.ClampTtl(ttlSeconds))];
      return true;
    }

    /** The admission loop over one store. */
    method AdmitAll(store: Watch.Store, symbols: seq<Symbol>, deadline: int, capacity: nat)
      returns (store': Watch.Store, accepted: seq<Symbol>)
      ensures Watch.Admission(store', accepted) == Watch.Admit(store, symbols, deadline, capacity)
    {
      store', accepted := store, [];
      for i := 0 to |symbols|
        invariant Watch.Admission(store', accepted) == Watch.Admit(store, symbols[..i], deadline, capacity)
      {
        assert symbols[..i + 1][..i] == symbols[..i];
        var s := symbols[i];
        if s.code == "" || s in accepted { continue; }
        if s !in store' && |store'| >= capacity { continue; }
        accepted := accepted + [s];
        var current := if s in store' then store'[s] else 0;
        store' := store'[s := if current >= deadline then current else deadline];
      }
      assert symbols[..|symbols|] == symbols;
    }

    method DropRecoveries(lot: Lot, symbols: set<Symbol>)
      modifies this`recoveries
      ensures recoveries == Backoff.DropRecords(old(recoveries), lot, symbols)
    {
      recoveries := map key | key in recoveries && !(key.0 == lot && key.1 in symbols) :: recoveries[key];
    }

    /** Drop what has expired, then admit. */
    method RequestIn(store: Watch.Store, lot: Lot, symbols: seq<Symbol>, ttl: int, now: int)
      returns (r: Watch.Admission, expired: set<Symbol>)
      ensures r == Watch.Request(cfg, store, WatchRequested(lot, symbols, ttl, now))
      ensures expired == Watch.Expired(store, now, [])
    {
      expired := set s | s in store && store[s] < now;
      assert expired == Watch.Expired(store, now, []);
      var store', accepted := AdmitAll(Watch.Without(store, expired), symbols, now + ttl, Watch.Capacity(cfg, lot));
      r := Watch.Admission(store', accepted);
    }

    method WatchOrderbookSymbols(lot: Lot, symbols: seq<Symbol>, ttl: int, now: int) returns (accepted: seq<Symbol>)
      modifies this
      ensures View() == StateStep(cfg, old(View()), WatchRequested(lot, symbols, ttl, now))
      ensures accepted == Watch.Request(cfg, old(if lot == Odd then oddWatches else boardWatches),
                                        WatchRequested(lot, symbols, ttl, now)).accepted
    {
      var r, expired := RequestIn(if lot == Odd then oddWatches else boardWatches, lot, symbols, ttl, now);
      DropRecoveries(lot, expired);
      if lot == Odd { oddWatches := r.store; } else { boardWatches := r.store; }
      accepted := r.accepted;
    }

    method AddStaticSymbols(store: Watch.Store, statics: seq<Symbol>, deadline: int, capacity: nat)
      returns (store': Watch.Store)
      ensures store' == Watch.AddStatics(store, statics, deadline, capacity)
    {
      store' := store;
      for i := 0 to |statics|
        invariant store' == Watch.AddStatics(store, statics[..i], deadline, capacity)
      {
        assert statics[..i + 1][..i] == statics[..i];
        var s := statics[i];
        if s !in store' && |store'| >= capacity { continue; }
        var current := if s in store' then store'[s] else 0;
        store' := store'[s := if current >= deadline then current else deadline];
      }
      assert statics[..|statics|] == statics;
    }

    /** Add the static symbols, then drop what has expired. */
    method ListIn(store: Watch.Store, lot: Lot, now: int) returns (store': Watch.Store, expired: set<Symbol>)
      ensures store' == Watch.ListActive(cfg, store, ActiveListed(lot, now))
      ensures expired == Watch.Expired(Watch.WithStatics(cfg, store, lot, now), now, Watch.Statics(cfg, lot))
    {
      var statics := if lot == Odd then [] else cfg.statics;
      var deadline := now + MaxInt(cfg.watchTtl, Watch.STATIC_TTL);
      var added := AddStaticSymbols(store, statics, deadline, Watch.Capacity(cfg, lot));
      expired := set s | s in added && added[s] < now && s !in statics;
      store' := Watch.Without(added, expired);
    }

    method ActiveWatchSymbols(lot: Lot, now: int) returns (active: set<Symbol>)
      modifies this
      ensures View() == StateStep(cfg, old(View()), ActiveListed(lot, now))
      ensures active == (if lot == Odd then oddWatches else boardWatches).Keys
    {
      var store, expired := ListIn(if lot == Odd then oddWatches else boardWatches, lot, now);
      DropRecoveries(lot, expired);
      if lot == Odd { oddWatches := store; } else { boardWatches := store; }
      active := store.Keys;
    }

    // ---------- recovery ----------

    method MarkRecovery(lot: Lot, symbol: Symbol, now: int) returns (failures: nat, started: bool)
      modifies this
      ensures View() == StateStep(cfg, old(View()), RecoveryRequested(lot, symbol, now))
      ensures started == Backoff.Due(Backoff.Get(old(recoveries), (lot, symbol)), now)
      ensures started ==> failures == Backoff.Get(old(recoveries), (lot, symbol)).failures + 1
      ensures started ==>
        && (lot, symbol) in recoveries
        && recoveries[(lot, symbol)].nextAttempt == now + Backoff.Gap(cfg.recoveryCooldown, failures)
    {
      var state := if (lot, symbol) in recoveries then recoveries[(lot, symbol)] else Backoff.NEW;
      if state.inflight || now < state.nextAttempt {
        recoveries := recoveries[(lot, symbol) := state];
        return state.failures, false;
      }
      failures := state.failures + 1;
      Backoff.BackoffDoubles(cfg, failures);
      recoveries := recoveries[(lot, symbol) := Backoff.Recovery(failures, now + Backoff.Backoff(cfg, failures), true)];
      started := true;
    }

    method FinishRecovery(lot: Lot, symbol: Symbol, marketOpen: bool)
      modifies this
      ensures View() == StateStep(cfg, old(View()), RecoveryFinished(lot, symbol, marketOpen))
    {
      if (lot, symbol) !in recoveries { return; }
      var state := recoveries[(lot, symbol)].(inflight := false);
      if !marketOpen { state := state.(failures := 0, nextAttempt := 0); }
      recoveries := recoveries[(lot, symbol) := state];
    }

    // ---------- what the proxy hands out ----------

    /** Age of the newest market callback of this session. */
    method HeartbeatAgeMs(now: int) returns (age: Option<int>)
      ensures age == Book.HeartbeatAge(Control(), Quotes(), now)
    {
      age := None;
      var ages := (set s | s in lastTicks
                     && Book.Beats(lastTicks[s].source, lastTicks[s].received, lastTicks[s].epoch, sessionEpoch, now)
                   :: now - lastTicks[s].received)
                + (set k | k in books
                     && Book.Beats(books[k].source, books[k].received, books[k].epoch, sessionEpoch, now)
                   :: now - books[k].received);
      ghost var all := ages;
      assert all == Book.HeartbeatAges(Control(), Quotes(), now);
      while ages != {}
        invariant ages <= all
        invariant age.None? <==> ages == all
        invariant age.Some? ==> age.value in all && forall a :: a in all && a !in ages ==> age.value <= a
        decreases ages
      {
        var a :| a in ages;
        ages := ages - {a};
        if age.None? || a < age.value { age := Some(a); }
      }
    }

    /** Completed bars of the days `from`..`to`, at most `limit` of them, the newest kept. */
    method CompletedBars(symbol: Symbol, from: int, to: int, limit: int, now: int) returns (rows: seq<Bars.Bar>)
      ensures rows == Bars.TakeLast(
        Bars.OnDays(Bars.Completed(Bars.Get(minuteBars, symbol), now / Bars.MINUTE), from, to),
        MaxInt(1, MinInt(limit, 5000)))
    {
      var bars := if symbol in minuteBars then minuteBars[symbol] else [];
      rows := [];
      for i := 0 to |bars|
        invariant rows == Bars.OnDays(Bars.Completed(bars[..i], now / Bars.MINUTE), from, to)
      {
        assert bars[..i + 1][..i] == bars[..i];
        ghost var before := Bars.Completed(bars[..i], now / Bars.MINUTE);
        Snoc(before, bars[i]);
        if bars[i].minute >= now / Bars.MINUTE { continue; }
        if from <= bars[i].minute / Bars.DAY_MINUTES <= to { rows := rows + [bars[i]]; }
      }
      assert bars[..|bars|] == bars;
      var keep := MaxInt(1, MinInt(limit, 5000));
      if |rows| > keep { rows := rows[|rows| - keep..]; }
    }

    // ---------- any run ----------

    /** One region, whichever it is. */
    method Apply(e: Event)
      modifies this
      ensures View() == StateStep(cfg, old(View()), e)
    {
      match e
      case LoggedIn => LoginSucceeded();
      case LoginLost => LoginFailed();
      case SessionEvent(code, epoch) => OnSessionEvent(code, epoch);
      case TickArrived(symbol, price, volume, source, epoch, now) => OnTick(symbol, price, volume, source, epoch, now);
      case BookArrived(symbol, lot, bids, asks, source, epoch, received) =>
        OnBidAsk(symbol, lot, bids, asks, source, epoch, received);
      case Subscribed(lot, symbol) => SubscriptionAdded(lot, symbol);
      case Unsubscribed(lot, symbol) => SubscriptionDiscarded(lot, symbol);
      case ResetRequested(now) => var cleared := ClearForReset(now);
      case PoisonRequested => Poison();
      case StopRegistered(item, ttl, now) => var registered := RegisterStopWatch(item, ttl, now);
      case WatchRequested(lot, symbols, ttl, now) => var accepted := WatchOrderbookSymbols(lot, symbols, ttl, now);
      case ActiveListed(lot, now) => var active := ActiveWatchSymbols(lot, now);
      case RecoveryRequested(lot, symbol, now) => var failures, started := MarkRecovery(lot, symbol, now);
      case RecoveryFinished(lot, symbol, open) => FinishRecovery(lot, symbol, open);
    }

    /** One more region of a run. */
    method Advance(e: Event, ghost before: Log) returns (ghost after: Log)
      requires View() == StateOf(cfg, before)
      modifies this
      ensures after == before + [e] && View() == StateOf(cfg, after)
    {
      after := before + [e];
      StateSnoc(cfg, before, e);
      Apply(e);
    }

    /** Other threads' regions, whatever they are. */
    method RunOthers(log: Log, ghost before: Log)
      requires View() == StateOf(cfg, before)
      modifies this
      ensures View() == StateOf(cfg, before + log)
    {
      ghost var done := before;
      for i := 0 to |log|
        invariant done == before + log[..i] && View() == StateOf(cfg, done)
      {
        done := Advance(log[i], done);
        OneMoreRegion(before, log, i);
      }
      assert log[..|log|] == log;
    }

    /** Any interleaving of regions from the start of the process. */
    method Replay(log: Log)
      requires View() == INITIAL
      modifies this
      ensures View() == StateOf(cfg, log)
    {
      RunOthers(log, []);
      assert [] + log == log;
    }

    // ---------- a request among other threads ----------

    /** The gate: is there a connection? */
    method PassGate(q: Book.Request, others: Log, ghost before: Log) returns (open: bool)
      requires View() == StateOf(cfg, before)
      modifies this
      ensures View() == StateOf(cfg, before + others)
      ensures open == (q.api && ControlOf(cfg, before + others).connected)
    {
      RunOthers(others, before);
      open := q.api && connected;
    }

    /** The request's own watch region. */
    method EnterWatch(q: Book.Request, watch: Event, others: Log, ghost before: Log) returns (admitted: bool)
      requires View() == StateOf(cfg, before) && Book.IsWatchRegion(cfg, watch, q)
      modifies this
      ensures View() == StateOf(cfg, before + others + [watch])
      ensures admitted == Book.Accepts(cfg, Watch.StoreOf(cfg, before + others, q.lot), watch, q.symbol)
    {
      RunOthers(others, before);
      StateSnoc(cfg, before + others, watch);
      var accepted := WatchOrderbookSymbols(q.lot, [q.symbol], cfg.watchTtl, watch.now);
      admitted := q.symbol in accepted;
    }

    method PickBook(q: Book.Request, others: Log, ghost before: Log) returns (book: Option<Book.Book>)
      requires View() == StateOf(cfg, before)
      modifies this
      ensures View() == StateOf(cfg, before + others)
      ensures book == Book.BookIn(Book.QuotesOf(cfg, before + others), q.lot, q.symbol)
    {
      RunOthers(others, before);
      book := if (q.lot, q.symbol) in books then Some(books[(q.lot, q.symbol)]) else None;
    }

    method ReadSubscription(q: Book.Request, others: Log, ghost before: Log) returns (live: bool)
      requires View() == StateOf(cfg, before)
      modifies this
      ensures View() == StateOf(cfg, before + others)
      ensures live == ((q.lot, q.symbol) in Book.QuotesOf(cfg, before + others).subs)
    {
      RunOthers(others, before);
      live := (q.lot, q.symbol) in subscribed;
    }

    method ReadEpoch(others: Log, ghost before: Log) returns (epoch: nat)
      requires View() == StateOf(cfg, before)
      modifies this
      ensures View() == StateOf(cfg, before + others) && epoch == ControlOf(cfg, before + others).epoch
    {
      RunOthers(others, before);
      epoch := sessionEpoch;
    }

    method ReadSessionUp(others: Log, ghost before: Log) returns (up: bool)
      requires View() == StateOf(cfg, before)
      modifies this
      ensures View() == StateOf(cfg, before + others) && up == ControlOf(cfg, before + others).up
    {
      RunOthers(others, before);
      up := quoteSessionUp;
    }

    method ReadHeartbeat(q: Book.Request, others: Log, ghost before: Log) returns (beat: Option<int>)
      requires View() == StateOf(cfg, before)
      modifies this
      ensures View() == StateOf(cfg, before + others)
      ensures beat == Book.HeartbeatAge(ControlOf(cfg, before + others), Book.QuotesOf(cfg, before + others), q.beatNow)
    {
      RunOthers(others, before);
      beat := HeartbeatAgeMs(q.beatNow);
    }

    method ReadTick(q: Book.Request, others: Log, ghost before: Log) returns (tick: Option<Book.Tick>)
      requires View() == StateOf(cfg, before)
      modifies this
      ensures View() == StateOf(cfg, before + others)
      ensures tick == Book.TickIn(Book.QuotesOf(cfg, before + others), q.symbol)
    {
      RunOthers(others, before);
      tick := if q.symbol in lastTicks then Some(lastTicks[q.symbol]) else None;
    }

    /** The seven reads after the watch region. */
    method ReadAll(q: Book.Request, others: seq<Log>, ghost before: Log)
      returns (book: Option<Book.Book>, seen: Book.Reads)
      requires |others| == 7 && View() == StateOf(cfg, before)
      modifies this
      ensures View() == StateOf(cfg, After(before, others, 7))
      ensures book == Book.BookIn(Book.QuotesOf(cfg, After(before, others, 1)), q.lot, q.symbol)
      ensures seen == ReadAfter(cfg, q, before, others)
    {
      ghost var b1, b2 := before + others[0], before + others[0] + others[1];
      ghost var b3 := b2 + others[2];
      ghost var b4 := b3 + others[3];
      ghost var b5 := b4 + others[4];
      ghost var b6 := b5 + others[5];
      book := PickBook(q, others[0], before);
      var live := ReadSubscription(q, others[1], b1);
      var epoch := ReadEpoch(others[2], b2);
      var up := ReadSessionUp(others[3], b3);
      var beat := ReadHeartbeat(q, others[4], b4);
      var tick := ReadTick(q, others[5], b5);
      var tickEpoch := ReadEpoch(others[6], b6);
      AfterSeven(before, others);
      seen := Book.Reads.Reads(live, epoch, up, beat, tick, tickEpoch, q.now, q.later);
    }

    /** A request up to its watch region: the refusal, if it already has its answer. */
    method EnterRequest(q: Book.Request, watch: Event, others: seq<Log>, ghost before: Log)
      returns (refusal: Option<Book.Refusal>)
      requires |others| == 2 && View() == StateOf(cfg, before) && Book.IsWatchRegion(cfg, watch, q)
      modifies this
      ensures var gate, entry := After(before, others, 1), After(before, others, 2);
              if !q.api || !ControlOf(cfg, gate).connected
              then refusal == Some(Book.Disconnected) && View() == StateOf(cfg, gate)
              else && View() == StateOf(cfg, entry + [watch])
                   && refusal == if Book.Accepts(cfg, Watch.StoreOf(cfg, entry, q.lot), watch, q.symbol) then None
                                 else Some(Book.WatchCapacity)
    {
      var open := PassGate(q, others[0], before);
      if !open { return Some(Book.Disconnected); }
      var admitted := EnterWatch(q, watch, others[1], before + others[0]);
      refusal := if admitted then None else Some(Book.WatchCapacity);
    }

    /** One request, with arbitrary regions of other threads before each of its nine reads: the
        answer is the one `OrderBook.Answer` gives for the run and the moments of the reads. */
    method AnswerOrderbook(q: Book.Request, watch: Event, others: seq<Log>, ghost before: Log)
      returns (answer: Result<Book.Book, Book.Refusal>)
      requires |others| == 9 && View() == StateOf(cfg, before) && Book.IsWatchRegion(cfg, watch, q)
      modifies this
      ensures View() == StateOf(cfg, if answer == Err(Book.Disconnected) then After(before, others[..2], 1)
                                     else if answer == Err(Book.WatchCapacity) then Entered(before, others, watch)
                                     else Whole(before, others, watch))
      ensures var log, p := Whole(before, others, watch), PointsOf(before, others, watch);
              Book.Timeline(cfg, log, q, p) && answer == Book.Answer(cfg, log, q, p)
    {
      RequestAnswer(cfg, q, before, others, watch);
      var refusal := EnterRequest(q, watch, others[..2], before);
      if refusal.Some? { return Err(refusal.value); }
      var book, seen := ReadAll(q, others[2..], Entered(before, others, watch));
      answer := Book.Decide(cfg, seen, book, q.lot);
    }
  }
}
