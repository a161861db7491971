/** shioaji-proxy/main.py: what the caches of `OrderBook` hold and when a request is answered with a
    book, said of the events of the run alone: which callback is the last one heard, how many logins
    came before, what was lowered, cleared or unsubscribed since. */
module ServedBook {
  import opened Common
  import opened ProxyEvents
  import opened OrderBook
  import Watch = WatchStore

  // ---------- the caches ----------

  /** Event i is a book callback for the key that is heard. */
  ghost predicate BookHeard(log: Log, i: nat, lot: Lot, symbol: Symbol)
    requires i < |log|
  {
    var e := log[i];
    e.BookArrived? && e.lot == lot && e.symbol == symbol && Heard(log, i, e.epoch)
  }

  ghost predicate TickHeard(log: Log, i: nat, symbol: Symbol)
    requires i < |log|
  {
    log[i].TickArrived? && log[i].symbol == symbol && Heard(log, i, log[i].epoch)
  }

  /** Event i is the last one heard for the key before n, and no reset cleared the caches since. */
  ghost predicate LastBook(cfg: Config, log: Log, n: nat, lot: Lot, symbol: Symbol, i: nat)
    requires n <= |log|
  {
    && i < n && BookHeard(log, i, lot, symbol)
    && forall j :: i < j < n ==> !BookHeard(log, j, lot, symbol) && !ClearedAt(cfg, log, j)
  }

  ghost predicate LastTick(cfg: Config, log: Log, n: nat, symbol: Symbol, i: nat)
    requires n <= |log|
  {
    && i < n && TickHeard(log, i, symbol)
    && forall j :: i < j < n ==> !TickHeard(log, j, symbol) && !ClearedAt(cfg, log, j)
  }

  /** Event i subscribed the key, and nothing unsubscribed it or cleared the caches since. */
  ghost predicate SubscribedSince(cfg: Config, log: Log, n: nat, lot: Lot, symbol: Symbol, i: nat)
    requires n <= |log|
  {
    && i < n && log[i] == Subscribed(lot, symbol)
    && forall j :: i < j < n ==> log[j] != Unsubscribed(lot, symbol) && !ClearedAt(cfg, log, j)
  }

  lemma BookStep(cfg: Config, log: Log, n: nat, lot: Lot, symbol: Symbol)
    requires n < |log|
    ensures BookIn(QuotesOf(cfg, log[..n + 1]), lot, symbol)
         == if BookHeard(log, n, lot, symbol)
            then Some(Book(log[n].bids, log[n].asks, log[n].source, log[n].received, log[n].epoch))
            else if ClearedAt(cfg, log, n) then None
            else BookIn(QuotesOf(cfg, log[..n]), lot, symbol)
  {
    assert log[..n + 1][..n] == log[..n];
    if log[n].BookArrived? { HeardExactly(cfg, log, n, log[n].epoch); }
  }

  lemma TickStep(cfg: Config, log: Log, n: nat, symbol: Symbol)
    requires n < |log|
    ensures TickIn(QuotesOf(cfg, log[..n + 1]), symbol)
         == if TickHeard(log, n, symbol)
            then Some(Tick(log[n].price, log[n].source, log[n].now, log[n].epoch))
            else if ClearedAt(cfg, log, n) then None
            else TickIn(QuotesOf(cfg, log[..n]), symbol)
  {
    assert log[..n + 1][..n] == log[..n];
    if log[n].TickArrived? { HeardExactly(cfg, log, n, log[n].epoch); }
  }

  lemma SubscriptionStep(cfg: Config, log: Log, n: nat, lot: Lot, symbol: Symbol)
    requires n < |log|
    ensures (lot, symbol) in QuotesOf(cfg, log[..n + 1]).subs
       <==> || log[n] == Subscribed(lot, symbol)
            || ((lot, symbol) in QuotesOf(cfg, log[..n]).subs
                && log[n] != Unsubscribed(lot, symbol) && !ClearedAt(cfg, log, n))
  {
    assert log[..n + 1][..n] == log[..n];
  }

  /** A cached book is that of the last callback heard for its key since the last clear. */
  lemma {:induction false} CachedBookExactly(cfg: Config, log: Log, n: nat, lot: Lot, symbol: Symbol)
      returns (i: Option<nat>)
    requires n <= |log|
    ensures i.Some? ==> LastBook(cfg, log, n, lot, symbol, i.value)
    ensures i.None? ==> forall k: nat :: !LastBook(cfg, log, n, lot, symbol, k)
    ensures BookIn(QuotesOf(cfg, log[..n]), lot, symbol)
         == if i.None? then None
            else var e := log[i.value]; Some(Book(e.bids, e.asks, e.source, e.received, e.epoch))
  {
    i := None;
    if n == 0 {
      assert log[..0] == [];
    } else {
      var k := CachedBookExactly(cfg, log, n - 1, lot, symbol);
      BookStep(cfg, log, n - 1, lot, symbol);
      if BookHeard(log, n - 1, lot, symbol) {
        i := Some(n - 1);
      } else if !ClearedAt(cfg, log, n - 1) {
        i := k;
      }
      forall m: nat | i.None? ensures !LastBook(cfg, log, n, lot, symbol, m) {
        if k.None? { assert !LastBook(cfg, log, n - 1, lot, symbol, m); }
      }
    }
  }

  /** The same for ticks. */
  lemma {:induction false} CachedTickExactly(cfg: Config, log: Log, n: nat, symbol: Symbol) returns (i: Option<nat>)
    requires n <= |log|
    ensures i.Some? ==> LastTick(cfg, log, n, symbol, i.value)
    ensures i.None? ==> forall k: nat :: !LastTick(cfg, log, n, symbol, k)
    ensures TickIn(QuotesOf(cfg, log[..n]), symbol)
         == if i.None? then None else var e := log[i.value]; Some(Tick(e.price, e.source, e.now, e.epoch))
  {
    i := None;
    if n == 0 {
      assert log[..0] == [];
    } else {
      var k := CachedTickExactly(cfg, log, n - 1, symbol);
      TickStep(cfg, log, n - 1, symbol);
      if TickHeard(log, n - 1, symbol) {
        i := Some(n - 1);
      } else if !ClearedAt(cfg, log, n - 1) {
        i := k;
      }
      forall m: nat | i.None? ensures !LastTick(cfg, log, n, symbol, m) {
        if k.None? { assert !LastTick(cfg, log, n - 1, symbol, m); }
      }
    }
  }

  lemma SubscribedLater(cfg: Config, log: Log, n: nat, lot: Lot, symbol: Symbol, i: nat)
    requires n < |log| && log[n] != Subscribed(lot, symbol)
    ensures SubscribedSince(cfg, log, n + 1, lot, symbol, i)
       <==> SubscribedSince(cfg, log, n, lot, symbol, i)
            && log[n] != Unsubscribed(lot, symbol) && !ClearedAt(cfg, log, n)
  {
  }

  /** A key is subscribed exactly when some subscription has not been undone. */
  lemma {:induction false} SubscribedExactly(cfg: Config, log: Log, n: nat, lot: Lot, symbol: Symbol)
    requires n <= |log|
    ensures (lot, symbol) in QuotesOf(cfg, log[..n]).subs
       <==> exists i: nat :: SubscribedSince(cfg, log, n, lot, symbol, i)
  {
    if n == 0 {
      assert log[..0] == [];
    } else {
      SubscriptionStep(cfg, log, n - 1, lot, symbol);
      SubscribedExactly(cfg, log, n - 1, lot, symbol);
      if log[n - 1] == Subscribed(lot, symbol) {
        assert SubscribedSince(cfg, log, n, lot, symbol, n - 1);
      } else {
        if i: nat :| SubscribedSince(cfg, log, n, lot, symbol, i) {
          SubscribedLater(cfg, log, n - 1, lot, symbol, i);
        }
        if (lot, symbol) in QuotesOf(cfg, log[..n - 1]).subs {
          var i: nat :| SubscribedSince(cfg, log, n - 1, lot, symbol, i);
          SubscribedLater(cfg, log, n - 1, lot, symbol, i);
        }
      }
    }
  }

  // ---------- the stream ----------

  /** A callback whose exchange time is plausible, at most ten seconds before `now`. */
  predicate BeatsAt(source: Option<int>, at: int, now: int) {
    && source.Some? && -5_000 <= at - source.value <= 10_000
    && 0 <= now - at <= 10_000
  }

  /** Event j is the cached tick or book of its key, of the session current at n, and beats. */
  ghost predicate Heartbeat(cfg: Config, log: Log, n: nat, j: nat, now: int)
    requires n <= |log|
  {
    && j < n
    && (if log[j].TickArrived? then
          LastTick(cfg, log, n, log[j].symbol, j) && BeatsAt(log[j].source, log[j].now, now)
          && log[j].epoch == Logins(log[..n])
        else
          log[j].BookArrived? && LastBook(cfg, log, n, log[j].lot, log[j].symbol, j)
          && BeatsAt(log[j].source, log[j].received, now) && log[j].epoch == Logins(log[..n]))
  }

  lemma TickBeats(cfg: Config, log: Log, n: nat, now: int, s: Symbol) returns (j: nat)
    requires n <= |log|
    requires var c, q := ControlOf(cfg, log[..n]), QuotesOf(cfg, log[..n]);
             s in q.ticks && Beats(q.ticks[s].source, q.ticks[s].received, q.ticks[s].epoch, c.epoch, now)
             && now - q.ticks[s].received <= HEARTBEAT_MAX
    ensures Heartbeat(cfg, log, n, j, now)
  {
    EpochAndPoison(cfg, log, n);
    var i := CachedTickExactly(cfg, log, n, s);
    j := i.value;
  }

  lemma BookBeats(cfg: Config, log: Log, n: nat, now: int, k: (Lot, Symbol)) returns (j: nat)
    requires n <= |log|
    requires var c, q := ControlOf(cfg, log[..n]), QuotesOf(cfg, log[..n]);
             k in q.books && Beats(q.books[k].source, q.books[k].received, q.books[k].epoch, c.epoch, now)
             && now - q.books[k].received <= HEARTBEAT_MAX
    ensures Heartbeat(cfg, log, n, j, now)
  {
    EpochAndPoison(cfg, log, n);
    var i := CachedBookExactly(cfg, log, n, k.0, k.1);
    assert BookIn(QuotesOf(cfg, log[..n]), k.0, k.1) == Some(QuotesOf(cfg, log[..n]).books[k]);
    j := i.value;
  }

  lemma LastTickUnique(cfg: Config, log: Log, n: nat, symbol: Symbol, i: nat, j: nat)
    requires n <= |log| && LastTick(cfg, log, n, symbol, i) && LastTick(cfg, log, n, symbol, j)
    ensures i == j
  {
  }

  lemma LastBookUnique(cfg: Config, log: Log, n: nat, lot: Lot, symbol: Symbol, i: nat, j: nat)
    requires n <= |log| && LastBook(cfg, log, n, lot, symbol, i) && LastBook(cfg, log, n, lot, symbol, j)
    ensures i == j
  {
  }

  lemma HeartbeatCached(cfg: Config, log: Log, n: nat, j: nat, now: int)
    requires n <= |log| && Heartbeat(cfg, log, n, j, now)
    ensures StreamAlive(ControlOf(cfg, log[..n]), QuotesOf(cfg, log[..n]), now)
  {
    EpochAndPoison(cfg, log, n);
    var q, e := QuotesOf(cfg, log[..n]), log[j];
    if e.TickArrived? {
      var i := CachedTickExactly(cfg, log, n, e.symbol);
      LastTickUnique(cfg, log, n, e.symbol, i.value, j);
      assert e.symbol in q.ticks && now - q.ticks[e.symbol].received <= HEARTBEAT_MAX;
    } else {
      var i := CachedBookExactly(cfg, log, n, e.lot, e.symbol);
      LastBookUnique(cfg, log, n, e.lot, e.symbol, i.value, j);
      assert (e.lot, e.symbol) in q.books && now - q.books[(e.lot, e.symbol)].received <= HEARTBEAT_MAX;
    }
  }

  /** The stream is alive exactly when some last callback of the current session beats. */
  lemma AliveExactly(cfg: Config, log: Log, n: nat, now: int)
    requires n <= |log|
    ensures StreamAlive(ControlOf(cfg, log[..n]), QuotesOf(cfg, log[..n]), now)
       <==> exists j: nat :: Heartbeat(cfg, log, n, j, now)
  {
    var c, q := ControlOf(cfg, log[..n]), QuotesOf(cfg, log[..n]);
    if StreamAlive(c, q, now) {
      if s :| s in q.ticks && Beats(q.ticks[s].source, q.ticks[s].received, q.ticks[s].epoch, c.epoch, now)
              && now - q.ticks[s].received <= HEARTBEAT_MAX {
        var j := TickBeats(cfg, log, n, now, s);
      } else {
        var k :| k in q.books && Beats(q.books[k].source, q.books[k].received, q.books[k].epoch, c.epoch, now)
                 && now - q.books[k].received <= HEARTBEAT_MAX;
        var j := BookBeats(cfg, log, n, now, k);
      }
    }
    if j: nat :| Heartbeat(cfg, log, n, j, now) { HeartbeatCached(cfg, log, n, j, now); }
  }

  // ---------- the answer ----------

  /** The last tick before n, of the session current at m, is newer than the book event b, at most ten
      seconds old, and trades outside its spread. */
  ghost predicate Contradicted(cfg: Config, log: Log, n: nat, m: nat, symbol: Symbol, b: Event, now: int)
    requires n <= |log| && m <= |log| && b.BookArrived? && b.bids != [] && b.asks != []
  {
    exists j: nat :: LastTick(cfg, log, n, symbol, j) && Outside(log[j], Logins(log[..m]), b, now)
  }

  predicate Outside(t: Event, epoch: nat, b: Event, now: int)
    requires t.TickArrived? && b.BookArrived? && b.bids != [] && b.asks != []
  {
    && t.epoch == epoch && t.now > b.received && 0 <= now - t.now <= 10_000
    && t.price.Some? && t.price.value > 0.0 && (t.price.value < b.bids[0] || t.price.value > b.asks[0])
  }

  lemma DisagreesExactly(cfg: Config, log: Log, n: nat, m: nat, symbol: Symbol, b: Event, now: int)
    requires n <= |log| && m <= |log| && b.BookArrived? && b.bids != [] && b.asks != []
    ensures Disagrees(TickIn(QuotesOf(cfg, log[..n]), symbol), ControlOf(cfg, log[..m]).epoch,
                      Book(b.bids, b.asks, b.source, b.received, b.epoch), now)
       <==> Contradicted(cfg, log, n, m, symbol, b, now)
  {
    EpochAndPoison(cfg, log, m);
    var i := CachedTickExactly(cfg, log, n, symbol);
    forall j: nat | i.Some? && LastTick(cfg, log, n, symbol, j) ensures j == i.value {
      LastTickUnique(cfg, log, n, symbol, i.value, j);
    }
  }

  function ExchangeTime(b: Event): int
    requires b.BookArrived?
  {
    if b.source.Some? then b.source.value else b.received
  }

  /** Received and stamped recently enough; the exchange time of an odd-lot book may be ten seconds old,
      that of a board-lot book three. */
  predicate Recent(cfg: Config, b: Event, lot: Lot, now: int)
    requires b.BookArrived?
  {
    now - b.received <= cfg.bookMaxAge && now - ExchangeTime(b) <= if lot == Odd then 10_000 else 3_000
  }

  /** The book event b counts as confirmed: of the session current when the epoch is read, not from the
      future, stamped on the day of the request, and received recently enough; a two-sided book that is
      not recent may instead be backed by a live stream that does not contradict it. */
  ghost predicate Confirmed(cfg: Config, log: Log, q: Request, p: Points, b: Event)
    requires Timeline(cfg, log, q, p)
  {
    && b.BookArrived? && b.epoch == Logins(log[..p.session])
    && b.received <= q.now && ExchangeTime(b) <= q.now && ExchangeTime(b) / 86_400_000 == q.now / 86_400_000
    && (if Recent(cfg, b, q.lot, q.now) || b.bids == [] || b.asks == [] then q.later - b.received <= cfg.bookMaxAge
        else && (exists j: nat :: Heartbeat(cfg, log, p.beat, j, q.beatNow))
             && !Contradicted(cfg, log, p.tick, p.tickEpoch, q.symbol, b, q.now)
             && q.later - q.now <= cfg.bookMaxAge)
  }

  /** Some login was not followed by a loss before the gate. */
  ghost predicate Open(cfg: Config, log: Log, q: Request, p: Points)
    requires Timeline(cfg, log, q, p)
  {
    q.api && exists l: nat :: OpenSince(cfg, log, p.gate, l)
  }

  /** A subscription not undone, and a login or reconnection not followed by a disconnection. */
  ghost predicate Live(cfg: Config, log: Log, q: Request, p: Points)
    requires Timeline(cfg, log, q, p)
  {
    && (exists i: nat :: SubscribedSince(cfg, log, p.sub, q.lot, q.symbol, i))
    && (exists r: nat :: UpSince(cfg, log, p.up, r))
  }

  /** The book a callback leaves in the cache. */
  function Left(b: Event): Book
    requires b.BookArrived?
  {
    Book(b.bids, b.asks, b.source, b.received, b.epoch)
  }

  /** What a picked book is answered with. */
  ghost function Verdict(cfg: Config, log: Log, q: Request, p: Points, b: Event): Result<Book, Refusal>
    requires Timeline(cfg, log, q, p) && b.BookArrived?
  {
    if !Live(cfg, log, q, p) || !Confirmed(cfg, log, q, p, b) then Err(StaleDepth)
    else if b.bids == [] && b.asks == [] then Err(EmptyDepth)
    else if b.bids == [] || b.asks == [] then Err(NoDepth)
    else Ok(Left(b))
  }

  lemma FreshExactly(cfg: Config, r: Reads, b: Book, lot: Lot)
    ensures Fresh(cfg, r, b, lot)
       <==> && r.subscribed && r.up && b.epoch == r.epoch
            && b.received <= r.now && SourceTime(b) <= r.now && SourceTime(b) / DAY == r.now / DAY
            && (if RecentlyConfirmed(cfg, b, lot, r.now) || b.bids == [] || b.asks == []
                then r.later - b.received <= cfg.bookMaxAge
                else r.beat.Some? && r.beat.value <= HEARTBEAT_MAX
                     && !Disagrees(r.tick, r.tickEpoch, b, r.now) && r.later - r.now <= cfg.bookMaxAge)
  {
  }

  lemma LiveExactly(cfg: Config, log: Log, q: Request, p: Points)
    requires Timeline(cfg, log, q, p)
    ensures Live(cfg, log, q, p)
       <==> (q.lot, q.symbol) in QuotesOf(cfg, log[..p.sub]).subs && ControlOf(cfg, log[..p.up]).up
  {
    SubscribedExactly(cfg, log, p.sub, q.lot, q.symbol);
    UpExactly(cfg, log, p.up);
  }

  lemma ConfirmedExactly(cfg: Config, log: Log, q: Request, p: Points, b: Event)
    requires Timeline(cfg, log, q, p) && b.BookArrived?
    ensures Fresh(cfg, ReadsAt(cfg, log, q, p), Left(b), q.lot)
       <==> Live(cfg, log, q, p) && Confirmed(cfg, log, q, p, b)
  {
    FreshExactly(cfg, ReadsAt(cfg, log, q, p), Left(b), q.lot);
    LiveExactly(cfg, log, q, p);
    EpochAndPoison(cfg, log, p.session);
    HeartbeatWithin(ControlOf(cfg, log[..p.beat]), QuotesOf(cfg, log[..p.beat]), q.beatNow);
    AliveExactly(cfg, log, p.beat, q.beatNow);
    if b.bids != [] && b.asks != [] { DisagreesExactly(cfg, log, p.tick, p.tickEpoch, q.symbol, b, q.now); }
  }

  /** The whole answer on the events of the run. Without an open connection and an accepted watch the
      request is refused for that reason; without a book heard for its key since the last clear it
      waits; otherwise the last such book decides. */
  lemma AnswerOnEvents(cfg: Config, log: Log, q: Request, p: Points)
    requires Timeline(cfg, log, q, p)
    ensures var accepted := Accepts(cfg, Watch.StoreOf(cfg, log[..p.watch], q.lot), log[p.watch], q.symbol);
            && (!Open(cfg, log, q, p) ==> Answer(cfg, log, q, p) == Err(Disconnected))
            && (Open(cfg, log, q, p) && !accepted ==> Answer(cfg, log, q, p) == Err(WatchCapacity))
            && (Open(cfg, log, q, p) && accepted
                && (forall i: nat :: !LastBook(cfg, log, p.pick, q.lot, q.symbol, i)) ==>
                  Answer(cfg, log, q, p) == Err(WaitingCallback))
            && (forall i: nat :: Open(cfg, log, q, p) && accepted && LastBook(cfg, log, p.pick, q.lot, q.symbol, i) ==>
                  Answer(cfg, log, q, p) == Verdict(cfg, log, q, p, log[i]))
  {
    ConnectedExactly(cfg, log, p.gate);
    var i := CachedBookExactly(cfg, log, p.pick, q.lot, q.symbol);
    if i.Some? {
      ConfirmedExactly(cfg, log, q, p, log[i.value]);
      forall k: nat | LastBook(cfg, log, p.pick, q.lot, q.symbol, k) ensures k == i.value {
        LastBookUnique(cfg, log, p.pick, q.lot, q.symbol, i.value, k);
      }
    }
  }

  /** While the quote session is down, after a disconnection code for instance, nothing is served: no
      request that reads the flag before the next login or reconnection. */
  lemma RefusedWhileSessionDown(cfg: Config, log: Log, q: Request, p: Points, j: nat)
    requires Timeline(cfg, log, q, p) && j < p.up && Lowers(cfg, log, j)
    requires forall k :: j < k < p.up ==> !Raises(log, k)
    ensures Answer(cfg, log, q, p).Err?
  {
    DownUntilRaised(cfg, log, j, p.up);
    ServedExactly(cfg, log, q, p);
  }
}
