/** shioaji-proxy/main.py: which cached order book may be served (`orderbook_effective_confirmation`,
    `quote_stream_heartbeat_age_ms`, `_orderbook_payload`) and what the caches can hold while
    callbacks of old and new sessions, resets and subscriptions interleave.

    A request is not one region: it reads the connection, its watch, the book, the subscription,
    the epoch, the session flag, the heartbeat and the last tick at nine moments, and any regions
    of other threads may run between them. */
module OrderBook {
  import opened Common
  import opened ProxyEvents
  import Watch = WatchStore

  const DAY := 86_400_000
  const HEARTBEAT_MAX := 10_000

  /** A cached tick or book; `received` is `updated_at`, `source` the exchange timestamp. */
  datatype Tick = Tick(price: Option<real>, source: Option<int>, received: int, epoch: nat)
  datatype Book = Book(bids: seq<real>, asks: seq<real>, source: Option<int>, received: int, epoch: nat)

  type Ticks = map<Symbol, Tick>
  type Books = map<(Lot, Symbol), Book>
  type Subscriptions = set<(Lot, Symbol)>

  /** The quote caches. */
  datatype Quotes = Quotes(ticks: Ticks, books: Books, subs: Subscriptions)

  const EMPTY := Quotes(map[], map[], {})

  function TickOf(e: Event): Tick
    requires e.TickArrived?
  {
    Tick(e.price, e.source, e.now, e.epoch)
  }

  function BookOf(e: Event): Book
    requires e.BookArrived?
  {
    Book(e.bids, e.asks, e.source, e.received, e.epoch)
  }

  function QuotesStep(cfg: Config, c: Control, q: Quotes, e: Event): Quotes {
    match e
    case TickArrived(symbol, _, _, _, epoch, _) =>
      if Hears(c, epoch) then q.(ticks := q.ticks[symbol := TickOf(e)]) else q
    case BookArrived(symbol, lot, _, _, _, epoch, _) =>
      if Hears(c, epoch) then q.(books := q.books[(lot, symbol) := BookOf(e)]) else q
    case Subscribed(lot, symbol) => q.(subs := q.subs + {(lot, symbol)})
    case Unsubscribed(lot, symbol) => q.(subs := q.subs - {(lot, symbol)})
    case ResetRequested(_) => if Clears(cfg, c, e) then EMPTY else q
    case _ => q
  }

  function QuotesOf(cfg: Config, log: Log): Quotes {
    if log == [] then EMPTY
    else
      var before := log[..|log| - 1];
      QuotesStep(cfg, ControlOf(cfg, before), QuotesOf(cfg, before), log[|log| - 1])
  }

  // ---------- the freshness decision ----------

  datatype Mode = SymbolEvent | StaticBook | StaleSymbolEvent | Unconfirmed | HeartbeatStale | PriceDisagrees

  datatype Confirmation = Confirmation(at: Option<int>, mode: Mode)

  /** Age limit of the exchange timestamp of a recently confirmed book. */
  function MaxSourceAge(lot: Lot): int {
    if lot == Odd then 10_000 else 3_000
  }

  /** The exchange time of a book; the receive time when the callback had none. */
  function SourceTime(b: Book): int {
    if b.source.Some? then b.source.value else b.received
  }

  /** A callback of the current session that counts as a market heartbeat. */
  predicate Beats(source: Option<int>, received: int, epoch: nat, current: nat, now: int) {
    epoch == current && source.Some? && -5_000 <= received - source.value <= 10_000 && now - received >= 0
  }

  /** Ages of all heartbeats in the caches. */
  function HeartbeatAges(c: Control, q: Quotes, now: int): set<int> {
    (set s | s in q.ticks && Beats(q.ticks[s].source, q.ticks[s].received, q.ticks[s].epoch, c.epoch, now)
       :: now - q.ticks[s].received)
    + (set k | k in q.books && Beats(q.books[k].source, q.books[k].received, q.books[k].epoch, c.epoch, now)
         :: now - q.books[k].received)
  }

  lemma Pick<T>(s: set<T>) returns (x: T)
    requires s != {}
    ensures x in s
  {
    x :| x in s;
  }

  ghost predicate IsLeast(ages: set<int>, m: int) {
    m in ages && forall a :: a in ages ==> m <= a
  }

  lemma {:induction false} LeastOf(ages: set<int>) returns (m: int)
    requires ages != {}
    ensures IsLeast(ages, m)
  {
    var x := Pick(ages);
    if ages == {x} {
      m := x;
    } else {
      var rest := LeastOf(ages - {x});
      m := MinInt(x, rest);
      forall a | a in ages ensures m <= a {
        if a != x { assert a in ages - {x}; }
      }
    }
  }

  lemma LeastExists(ages: set<int>)
    requires ages != {}
    ensures exists m :: m in ages && forall a :: a in ages ==> m <= a
  {
    var m := LeastOf(ages);
    assert IsLeast(ages, m);
  }

  /** Age of the newest market callback. */
  ghost function HeartbeatAge(c: Control, q: Quotes, now: int): Option<int> {
    var ages := HeartbeatAges(c, q, now);
    if ages == {} then None
    else
      LeastExists(ages);
      var m :| m in ages && forall a :: a in ages ==> m <= a;
      Some(m)
  }

  /** What the freshness decision reads: subscription, epoch and session flag, the age of the
      heartbeat, the last tick with the epoch it is compared to, and the clock before and after. */
  datatype Reads = Reads(subscribed: bool, epoch: nat, up: bool, beat: Option<int>,
                         tick: Option<Tick>, tickEpoch: nat, now: int, later: int)

  /** A newer tick of the session, at most ten seconds old, trades outside the spread. */
  predicate Disagrees(tick: Option<Tick>, epoch: nat, b: Book, now: int)
    requires b.bids != [] && b.asks != []
  {
    tick.Some? &&
    var t := tick.value;
    && t.epoch == epoch && t.received > b.received && 0 <= now - t.received <= 10_000
    && t.price.Some? && t.price.value > 0.0 && (t.price.value < b.bids[0] || t.price.value > b.asks[0])
  }

  function EffectiveConfirmation(cfg: Config, r: Reads, b: Book, lot: Lot): Confirmation {
    if !r.subscribed || b.epoch != r.epoch || !r.up then Confirmation(None, StaleSymbolEvent)
    else
      var age, sourceAge := r.now - b.received, r.now - SourceTime(b);
      if age < 0 || sourceAge < 0 || SourceTime(b) / DAY != r.now / DAY then Confirmation(None, StaleSymbolEvent)
      else if age <= cfg.bookMaxAge && sourceAge <= MaxSourceAge(lot) then Confirmation(Some(b.received), SymbolEvent)
      else if b.bids == [] || b.asks == [] then Confirmation(Some(b.received), StaleSymbolEvent)
      else if r.beat.None? || r.beat.value > HEARTBEAT_MAX then Confirmation(None, HeartbeatStale)
      else if Disagrees(r.tick, r.tickEpoch, b, r.now) then Confirmation(None, PriceDisagrees)
      else Confirmation(Some(r.now), StaticBook)
  }

  predicate Fresh(cfg: Config, r: Reads, b: Book, lot: Lot) {
    var at := EffectiveConfirmation(cfg, r, b, lot).at;
    at.Some? && MaxInt(0, r.later - at.value) <= cfg.bookMaxAge
  }

  datatype Refusal = Disconnected | WatchCapacity | WaitingCallback | StaleDepth | EmptyDepth | NoDepth

  /** The decision of `_orderbook_payload` once it has picked a book out of the cache. */
  function Decide(cfg: Config, r: Reads, book: Option<Book>, lot: Lot): Result<Book, Refusal> {
    if book.None? then Err(WaitingCallback)
    else if !Fresh(cfg, r, book.value, lot) then Err(StaleDepth)
    else if book.value.bids == [] && book.value.asks == [] then Err(EmptyDepth)
    else if book.value.bids == [] || book.value.asks == [] then Err(NoDepth)
    else Ok(book.value)
  }

  // ---------- a request over a run ----------

  /** What the caller asks for; `api` says whether the SDK object is there when the gate looks,
      and the three clocks are those of the freshness test, the heartbeat and the final age. */
  datatype Request = Request(symbol: Symbol, lot: Lot, api: bool, now: int, beatNow: int, later: int)

  /** Moments of one request, as numbers of regions that came before. */
  datatype Points = Points(gate: nat, watch: nat, pick: nat, sub: nat, session: nat, up: nat,
                           beat: nat, tick: nat, tickEpoch: nat)

  /** The moments come in this order, and the request's own watch region is event `watch`. */
  ghost predicate Timeline(cfg: Config, log: Log, q: Request, p: Points) {
    && p.gate <= p.watch < p.pick <= p.sub <= p.session <= p.up <= p.beat <= p.tick <= p.tickEpoch <= |log|
    && IsWatchRegion(cfg, log[p.watch], q)
  }

  predicate IsWatchRegion(cfg: Config, e: Event, q: Request) {
    e.WatchRequested? && e.lot == q.lot && e.symbols == [q.symbol] && e.ttl == cfg.watchTtl
  }

  function BookIn(q: Quotes, lot: Lot, symbol: Symbol): Option<Book> {
    if (lot, symbol) in q.books then Some(q.books[(lot, symbol)]) else None
  }

  function TickIn(q: Quotes, symbol: Symbol): Option<Tick> {
    if symbol in q.ticks then Some(q.ticks[symbol]) else None
  }

  ghost function ReadsAt(cfg: Config, log: Log, q: Request, p: Points): Reads
    requires Timeline(cfg, log, q, p)
  {
    Reads((q.lot, q.symbol) in QuotesOf(cfg, log[..p.sub]).subs,
          ControlOf(cfg, log[..p.session]).epoch,
          ControlOf(cfg, log[..p.up]).up,
          HeartbeatAge(ControlOf(cfg, log[..p.beat]), QuotesOf(cfg, log[..p.beat]), q.beatNow),
          TickIn(QuotesOf(cfg, log[..p.tick]), q.symbol),
          ControlOf(cfg, log[..p.tickEpoch]).epoch,
          q.now, q.later)
  }

  ghost function Picked(cfg: Config, log: Log, q: Request, p: Points): Option<Book>
    requires p.pick <= |log|
  {
    BookIn(QuotesOf(cfg, log[..p.pick]), q.lot, q.symbol)
  }

  /** The watch region accepted the symbol. */
  predicate Accepts(cfg: Config, store: Watch.Store, e: Event, symbol: Symbol)
    requires e.WatchRequested?
  {
    symbol in Watch.Request(cfg, store, e).accepted
  }

  /** `_orderbook_payload`: 503 without a connection, 429 without a watch, else the decision. */
  ghost function Answer(cfg: Config, log: Log, q: Request, p: Points): Result<Book, Refusal>
    requires Timeline(cfg, log, q, p)
  {
    if !q.api || !ControlOf(cfg, log[..p.gate]).connected then Err(Disconnected)
    else if !Accepts(cfg, Watch.StoreOf(cfg, log[..p.watch], q.lot), log[p.watch], q.symbol) then Err(WatchCapacity)
    else Decide(cfg, ReadsAt(cfg, log, q, p), Picked(cfg, log, q, p), q.lot)
  }

  // ---------- what a served book guarantees ----------

  /** Seen within both age limits. */
  predicate RecentlyConfirmed(cfg: Config, b: Book, lot: Lot, now: int) {
    now - b.received <= cfg.bookMaxAge && now - SourceTime(b) <= MaxSourceAge(lot)
  }

  /** Some market callback of this session arrived within the last ten seconds. */
  ghost predicate StreamAlive(c: Control, q: Quotes, now: int) {
    || (exists s :: s in q.ticks && Beats(q.ticks[s].source, q.ticks[s].received, q.ticks[s].epoch, c.epoch, now)
                    && now - q.ticks[s].received <= HEARTBEAT_MAX)
    || (exists k :: k in q.books && Beats(q.books[k].source, q.books[k].received, q.books[k].epoch, c.epoch, now)
                    && now - q.books[k].received <= HEARTBEAT_MAX)
  }

  lemma HeartbeatWithin(c: Control, q: Quotes, now: int)
    ensures var beat := HeartbeatAge(c, q, now);
            StreamAlive(c, q, now) <==> beat.Some? && beat.value <= HEARTBEAT_MAX
  {
    var ages := HeartbeatAges(c, q, now);
    if ages != {} {
      LeastExists(ages);
    }
    if StreamAlive(c, q, now) {
      if s :| s in q.ticks && Beats(q.ticks[s].source, q.ticks[s].received, q.ticks[s].epoch, c.epoch, now)
              && now - q.ticks[s].received <= HEARTBEAT_MAX {
        assert now - q.ticks[s].received in ages;
      } else {
        var k :| k in q.books && Beats(q.books[k].source, q.books[k].received, q.books[k].epoch, c.epoch, now)
                 && now - q.books[k].received <= HEARTBEAT_MAX;
        assert now - q.books[k].received in ages;
      }
    }
  }

  lemma DecidedExactly(cfg: Config, r: Reads, book: Option<Book>, lot: Lot)
    ensures Decide(cfg, r, book, lot).Ok?
       <==> && book.Some? && book.value.bids != [] && book.value.asks != []
            && r.subscribed && r.up && book.value.epoch == r.epoch
            && book.value.received <= r.now && SourceTime(book.value) <= r.now
            && SourceTime(book.value) / DAY == r.now / DAY
            && (if RecentlyConfirmed(cfg, book.value, lot, r.now) then r.later - book.value.received <= cfg.bookMaxAge
                else r.beat.Some? && r.beat.value <= HEARTBEAT_MAX
                     && !Disagrees(r.tick, r.tickEpoch, book.value, r.now) && r.later - r.now <= cfg.bookMaxAge)
  {
  }

  /** A single symbol is accepted exactly when it is not blank and either still watched or the
      store has room once expired entries are gone. */
  lemma AcceptsExactly(cfg: Config, store: Watch.Store, e: Event, symbol: Symbol)
    requires e.WatchRequested? && e.symbols == [symbol]
    ensures Accepts(cfg, store, e, symbol)
       <==> && symbol.code != ""
            && ((symbol in store && store[symbol] >= e.now)
                || |Watch.Without(store, Watch.Expired(store, e.now, []))| < Watch.Capacity(cfg, e.lot))
  {
    Watch.KeptExactly(store, e.now, symbol);
    var kept := Watch.Without(store, Watch.Expired(store, e.now, []));
    Watch.AdmitOne(kept, symbol, e.now + e.ttl, Watch.Capacity(cfg, e.lot));
  }

  /** Exactly when a request is answered with a book, each condition at the moment it is read:
      connected at the gate, admitted by its watch region, a two-sided book at the pick, a live
      subscription, the book's own epoch and a session that is up, a source of the same day, and
      either a recent confirmation or a static book backed by a stream that is alive at the
      heartbeat and not contradicted by the last tick. */
  lemma ServedExactly(cfg: Config, log: Log, q: Request, p: Points)
    requires Timeline(cfg, log, q, p)
    ensures Answer(cfg, log, q, p).Ok?
       <==> && q.api && ControlOf(cfg, log[..p.gate]).connected
            && Accepts(cfg, Watch.StoreOf(cfg, log[..p.watch], q.lot), log[p.watch], q.symbol)
            && var book := Picked(cfg, log, q, p);
            && book.Some? && book.value.bids != [] && book.value.asks != []
            && (q.lot, q.symbol) in QuotesOf(cfg, log[..p.sub]).subs
            && book.value.epoch == ControlOf(cfg, log[..p.session]).epoch
            && ControlOf(cfg, log[..p.up]).up
            && book.value.received <= q.now && SourceTime(book.value) <= q.now
            && SourceTime(book.value) / DAY == q.now / DAY
            && (if RecentlyConfirmed(cfg, book.value, q.lot, q.now) then q.later - book.value.received <= cfg.bookMaxAge
                else && StreamAlive(ControlOf(cfg, log[..p.beat]), QuotesOf(cfg, log[..p.beat]), q.beatNow)
                     && !Disagrees(TickIn(QuotesOf(cfg, log[..p.tick]), q.symbol),
                                   ControlOf(cfg, log[..p.tickEpoch]).epoch, book.value, q.now)
                     && q.later - q.now <= cfg.bookMaxAge)
  {
    DecidedExactly(cfg, ReadsAt(cfg, log, q, p), Picked(cfg, log, q, p), q.lot);
    HeartbeatWithin(ControlOf(cfg, log[..p.beat]), QuotesOf(cfg, log[..p.beat]), q.beatNow);
  }

  // ---------- where served books come from ----------

  /** Event i put this book into the cache. */
  predicate Writes(cfg: Config, log: Log, i: nat, lot: Lot, symbol: Symbol, b: Book)
    requires i < |log|
  {
    var e := log[i];
    e.BookArrived? && e.lot == lot && e.symbol == symbol && BookOf(e) == b && Hears(ControlOf(cfg, log[..i]), e.epoch)
  }

  /** Every cached book was written by an accepted callback after the last effective reset. */
  lemma {:induction false} CachedBookWritten(cfg: Config, log: Log, lot: Lot, symbol: Symbol) returns (i: nat)
    requires (lot, symbol) in QuotesOf(cfg, log).books
    ensures i < |log| && Writes(cfg, log, i, lot, symbol, QuotesOf(cfg, log).books[(lot, symbol)])
    ensures forall j :: i < j < |log| ==> !Clears(cfg, ControlOf(cfg, log[..j]), log[j])
  {
    var last := |log| - 1;
    var before, e := log[..last], log[last];
    if e.BookArrived? && e.lot == lot && e.symbol == symbol && Hears(ControlOf(cfg, before), e.epoch) {
      i := last;
    } else {
      i := CachedBookWritten(cfg, before, lot, symbol);
      assert before[..i] == log[..i] && before[i] == log[i];
      forall j | i < j < |log| ensures !Clears(cfg, ControlOf(cfg, log[..j]), log[j]) {
        if j < last {
          assert before[..j] == log[..j] && before[j] == log[j];
        }
      }
    }
  }

  /** Event j takes the connection down: a lost login, an effective reset, the first poisoning. */
  predicate Disconnects(cfg: Config, log: Log, j: nat)
    requires j < |log|
  {
    || log[j].LoginLost? || Clears(cfg, ControlOf(cfg, log[..j]), log[j])
    || (log[j].PoisonRequested? && !ControlOf(cfg, log[..j]).poisoned)
  }

  /** Event l is a login, and nothing took the connection down between it and event n. */
  ghost predicate OpenSince(cfg: Config, log: Log, n: nat, l: nat)
    requires n <= |log|
  {
    l < n && log[l].LoggedIn? && forall j :: l < j < n ==> !Disconnects(cfg, log, j)
  }

  lemma ConnectedStep(cfg: Config, log: Log, n: nat)
    requires n < |log|
    ensures ControlOf(cfg, log[..n + 1]).connected
         == (log[n].LoggedIn? || (ControlOf(cfg, log[..n]).connected && !Disconnects(cfg, log, n)))
  {
    assert log[..n + 1][..n] == log[..n];
  }

  /** The proxy is connected exactly when some login has not been followed by a loss; then the
      last login is such a one. */
  lemma {:induction false} ConnectedExactly(cfg: Config, log: Log, n: nat)
    requires n <= |log|
    ensures ControlOf(cfg, log[..n]).connected <==> exists l: nat :: OpenSince(cfg, log, n, l)
  {
    if n == 0 {
      assert log[..0] == [];
    } else {
      ConnectedStep(cfg, log, n - 1);
      ConnectedExactly(cfg, log, n - 1);
      forall l: nat | l < n - 1 && OpenSince(cfg, log, n, l) ensures OpenSince(cfg, log, n - 1, l) {}
      if log[n - 1].LoggedIn? {
        assert OpenSince(cfg, log, n, n - 1);
      } else if ControlOf(cfg, log[..n]).connected {
        var l: nat :| OpenSince(cfg, log, n - 1, l);
        assert OpenSince(cfg, log, n, l);
      }
    }
  }

  /** The last login before event n, if the epoch says there was one. */
  lemma {:induction false} LastLogin(cfg: Config, log: Log, n: nat) returns (l: nat)
    requires n <= |log| && ControlOf(cfg, log[..n]).epoch > 0
    ensures l < n && log[l].LoggedIn? && forall j :: l < j < n ==> !log[j].LoggedIn?
  {
    assert log[..n][..n - 1] == log[..n - 1];
    if log[n - 1].LoggedIn? {
      l := n - 1;
    } else {
      l := LastLogin(cfg, log, n - 1);
    }
  }

  lemma {:induction false} EpochPositive(cfg: Config, log: Log, l: nat, n: nat)
    requires l < n <= |log| && log[l].LoggedIn?
    ensures ControlOf(cfg, log[..n]).epoch > 0
  {
    assert log[..n][..n - 1] == log[..n - 1];
    if l < n - 1 { EpochPositive(cfg, log, l, n - 1); }
  }

  /** Between two moments the epoch is the same exactly when no login came in between. */
  lemma SameEpoch(cfg: Config, log: Log, m: nat, n: nat)
    requires m <= n <= |log|
    ensures ControlOf(cfg, log[..m]).epoch == ControlOf(cfg, log[..n]).epoch <==> NoLogin(log, m, n)
  {
    assert log[..n][..m] == log[..m];
    EpochCountsLogins(cfg, log[..n], m);
  }

  ghost predicate NoLogin(log: Log, m: nat, n: nat)
    requires n <= |log|
  {
    forall j :: m <= j < n ==> !log[j].LoggedIn?
  }

  lemma PickedWrite(cfg: Config, log: Log, q: Request, p: Points) returns (i: nat)
    requires p.pick <= |log| && Picked(cfg, log, q, p).Some?
    ensures i < p.pick && Writes(cfg, log, i, q.lot, q.symbol, Picked(cfg, log, q, p).value)
    ensures forall j :: i < j < p.pick ==> !Clears(cfg, ControlOf(cfg, log[..j]), log[j])
  {
    i := CachedBookWritten(cfg, log[..p.pick], q.lot, q.symbol);
    assert forall j :: 0 <= j < p.pick ==> log[..p.pick][..j] == log[..j] && log[..p.pick][j] == log[j];
  }

  lemma ServedFacts(cfg: Config, log: Log, q: Request, p: Points)
    requires Timeline(cfg, log, q, p) && Answer(cfg, log, q, p).Ok?
    ensures ControlOf(cfg, log[..p.gate]).connected
    ensures Picked(cfg, log, q, p) == Some(Answer(cfg, log, q, p).value)
    ensures Answer(cfg, log, q, p).value.epoch == ControlOf(cfg, log[..p.session]).epoch
  {
    DecidedExactly(cfg, ReadsAt(cfg, log, q, p), Picked(cfg, log, q, p), q.lot);
  }

  /** With a connection at the gate and no login between i and n, the last login before n came
      before i, and if it came before the gate it was not followed by a loss there. */
  lemma LoginBefore(cfg: Config, log: Log, gate: nat, i: nat, n: nat) returns (l: nat)
    requires gate <= n <= |log| && i <= n && ControlOf(cfg, log[..gate]).connected && NoLogin(log, i, n)
    ensures l < i && log[l].LoggedIn? && NoLogin(log, l + 1, n)
    ensures forall j :: l < j < gate ==> !Disconnects(cfg, log, j)
  {
    ConnectedExactly(cfg, log, gate);
    var open: nat :| OpenSince(cfg, log, gate, open);
    EpochPositive(cfg, log, open, n);
    l := LastLogin(cfg, log, n);
    assert open <= l;
  }

  /** Where a served book comes from. Event i wrote it, with no cache clear between the write and
      the pick; it belongs to the session that is current when the epoch is read, so it was
      written after the last login l before that moment. If that login came before the gate,
      nothing took the connection down between the login and the gate. */
  lemma ServedBookOrigin(cfg: Config, log: Log, q: Request, p: Points) returns (l: nat, i: nat)
    requires Timeline(cfg, log, q, p) && Answer(cfg, log, q, p).Ok?
    ensures l < i < p.pick && log[l].LoggedIn? && NoLogin(log, l + 1, p.session)
    ensures Writes(cfg, log, i, q.lot, q.symbol, Answer(cfg, log, q, p).value)
    ensures forall j :: i < j < p.pick ==> !Clears(cfg, ControlOf(cfg, log[..j]), log[j])
    ensures forall j :: l < j < p.gate ==> !Disconnects(cfg, log, j)
  {
    ServedFacts(cfg, log, q, p);
    i := PickedWrite(cfg, log, q, p);
    SameEpoch(cfg, log, i, p.session);
    l := LoginBefore(cfg, log, p.gate, i, p.session);
  }

  /** How long a served book stays of the current session: at any later moment n it is of the
      session current then exactly when no login came after its epoch was compared. In
      particular this decides whether the heartbeat and the tick that back it are of its own
      session, and whether it is current at the end of the request. */
  lemma CurrentExactly(cfg: Config, log: Log, q: Request, p: Points, n: nat)
    requires Timeline(cfg, log, q, p) && Answer(cfg, log, q, p).Ok? && p.session <= n <= |log|
    ensures Answer(cfg, log, q, p).value.epoch == ControlOf(cfg, log[..n]).epoch <==> NoLogin(log, p.session, n)
  {
    ServedFacts(cfg, log, q, p);
    SameEpoch(cfg, log, p.session, n);
  }

  /** After a loss of the connection, and until the next login, every new request is refused. */
  lemma RefusedWhileDown(cfg: Config, log: Log, q: Request, p: Points, j: nat)
    requires Timeline(cfg, log, q, p) && j < p.gate && Disconnects(cfg, log, j) && NoLogin(log, j + 1, p.gate)
    ensures Answer(cfg, log, q, p) == Err(Disconnected)
  {
    ConnectedExactly(cfg, log, p.gate);
    forall l: nat ensures !OpenSince(cfg, log, p.gate, l) {}
  }

  // ---------- a login between two reads ----------

  lemma Grow(cfg: Config, log: Log, e: Event)
    ensures ControlOf(cfg, log + [e]) == ControlStep(cfg, ControlOf(cfg, log), e)
    ensures QuotesOf(cfg, log + [e]) == QuotesStep(cfg, ControlOf(cfg, log), QuotesOf(cfg, log), e)
    ensures Watch.StoreOf(cfg, log + [e], Board) == Watch.StoreStep(cfg, Board, Watch.StoreOf(cfg, log, Board), e)
  {
    Snoc(log, e);
  }

  /** Session one is up, its book of s arrived at time 0, and the request's watch is in. */
  function OldSession(cfg: Config, s: Symbol, t: int): Log {
    [] + [LoggedIn] + [Subscribed(Board, s)] + [BookArrived(s, Board, [1.0], [1.0], Some(0), 1, 0)]
    + [WatchRequested(Board, [s], cfg.watchTtl, t)]
  }

  /** A reset, a login and one tick of another symbol in the new session. */
  function NewSession(cfg: Config, s: Symbol, other: Symbol, t: int): Log {
    OldSession(cfg, s, t) + [ResetRequested(t)] + [LoggedIn] + [TickArrived(other, Some(1.0), 1, Some(t), 2, t)]
  }

  lemma OldSessionState(cfg: Config, s: Symbol, t: int)
    ensures var log := OldSession(cfg, s, t);
            && |log| == 4
            && ControlOf(cfg, log) == ControlOf(cfg, log[..3]) == Control(1, false, true, true, 0)
            && Watch.StoreOf(cfg, log[..3], Board) == map[]
            && QuotesOf(cfg, log).books == map[(Board, s) := Book([1.0], [1.0], Some(0), 0, 1)]
            && QuotesOf(cfg, log).subs == {(Board, s)} && QuotesOf(cfg, log).ticks == map[]
  {
    var l0: Log := [];
    var e0, e1, e2, e3 := LoggedIn, Subscribed(Board, s), BookArrived(s, Board, [1.0], [1.0], Some(0), 1, 0),
                          WatchRequested(Board, [s], cfg.watchTtl, t);
    Grow(cfg, l0, e0);
    Grow(cfg, l0 + [e0], e1);
    Grow(cfg, l0 + [e0] + [e1], e2);
    Grow(cfg, l0 + [e0] + [e1] + [e2], e3);
    assert OldSession(cfg, s, t)[..3] == l0 + [e0] + [e1] + [e2];
  }

  lemma NewSessionState(cfg: Config, s: Symbol, other: Symbol, t: int)
    requires t >= cfg.reconnectCooldown
    ensures var log := NewSession(cfg, s, other, t);
            && |log| == 7 && log[..4] == OldSession(cfg, s, t)
            && ControlOf(cfg, log).epoch == 2
            && QuotesOf(cfg, log).ticks == map[other := Tick(Some(1.0), Some(t), t, 2)]
  {
    OldSessionState(cfg, s, t);
    var l4 := OldSession(cfg, s, t);
    var e4, e5, e6 := ResetRequested(t), LoggedIn, TickArrived(other, Some(1.0), 1, Some(t), 2, t);
    Grow(cfg, l4, e4);
    Grow(cfg, l4 + [e4], e5);
    Grow(cfg, l4 + [e4] + [e5], e6);
  }

  lemma RunShape(cfg: Config, s: Symbol, other: Symbol, t: int)
    ensures var log, first := NewSession(cfg, s, other, t), OldSession(cfg, s, t);
            && |log| == 7 && |first| == 4 && log[..3] == first[..3] && log[..4] == first && log[..7] == log
            && log[3] == WatchRequested(Board, [s], cfg.watchTtl, t)
  {
  }

  lemma NewSessionBeats(cfg: Config, s: Symbol, other: Symbol, t: int)
    requires t >= cfg.reconnectCooldown
    ensures var log := NewSession(cfg, s, other, t);
            StreamAlive(ControlOf(cfg, log), QuotesOf(cfg, log), t)
  {
    NewSessionState(cfg, s, other, t);
    var ticks := QuotesOf(cfg, NewSession(cfg, s, other, t)).ticks;
    assert other in ticks && Beats(ticks[other].source, ticks[other].received, ticks[other].epoch, 2, t);
  }

  /** A run in which a request is answered with a book of session one although session two is
      current from the heartbeat on, and it is session two's heartbeat that backs the book: reset,
      login and first tick fall between the comparison of the epoch and the heartbeat. */
  lemma OlderSessionServed(cfg: Config, s: Symbol, other: Symbol, t: int)
    requires cfg.bookMaxAge < t < DAY && cfg.reconnectCooldown <= t && cfg.boardCapacity > 0
    requires s.code != "" && s != other
    ensures var log, q := NewSession(cfg, s, other, t), Request(s, Board, true, t, t, t);
            var p := Points(3, 3, 4, 4, 4, 4, 7, 7, 7);
            && Timeline(cfg, log, q, p) && Answer(cfg, log, q, p).Ok?
            && Answer(cfg, log, q, p).value.epoch == 1 && ControlOf(cfg, log[..p.beat]).epoch == 2
  {
    RunShape(cfg, s, other, t);
    OldSessionState(cfg, s, t);
    NewSessionState(cfg, s, other, t);
    NewSessionBeats(cfg, s, other, t);
    AcceptsExactly(cfg, map[], WatchRequested(Board, [s], cfg.watchTtl, t), s);
    ServedExactly(cfg, NewSession(cfg, s, other, t), Request(s, Board, true, t, t, t),
                  Points(3, 3, 4, 4, 4, 4, 7, 7, 7));
  }

  /** Poisoning freezes the tick and book caches; only a reset can still empty them. */
  lemma {:induction false} NoQuotesAfterPoison(cfg: Config, log: Log, n: nat)
    requires n <= |log| && ControlOf(cfg, log[..n]).poisoned
    ensures QuotesOf(cfg, log).ticks == QuotesOf(cfg, log[..n]).ticks || QuotesOf(cfg, log).ticks == map[]
    ensures QuotesOf(cfg, log).books == QuotesOf(cfg, log[..n]).books || QuotesOf(cfg, log).books == map[]
  {
    if n < |log| {
      var before := log[..|log| - 1];
      assert before[..n] == log[..n];
      NoQuotesAfterPoison(cfg, before, n);
      EpochCountsLogins(cfg, before, n);
    } else {
      assert log[..n] == log;
    }
  }
}
