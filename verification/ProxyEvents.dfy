/** shioaji-proxy/main.py: the atomic steps of the quote proxy.

    Every region under `_state_lock` is one event; callbacks of any session may arrive at any
    point between any two regions, so a run is an arbitrary list of events. Times are integer
    milliseconds on the Taiwan wall clock. The state of the proxy is defined as functions of
    the list of events so far; this module holds the part all others depend on: the session
    epoch, the poison flag and the connection flags. */
module ProxyEvents {
  import opened Common

  datatype Symbol = Symbol(code: string)

  datatype Lot = Board | Odd

  /** Environment settings, in milliseconds where they are times. */
  datatype Config = Config(
    bookMaxAge: nat, boardCapacity: nat, oddCapacity: nat, statics: seq<Symbol>,
    watchTtl: nat, recoveryCooldown: nat, reconnectCooldown: nat)

  /** One item of a stop-watch request, keys and symbols already stripped. */
  datatype StopItem = StopItem(key: string, symbol: Symbol, stop: real, shares: int, version: string)

  datatype Event =
    | LoggedIn                                     // init_shioaji after a successful login
    | LoginLost                                    // failed login, shutdown
    | SessionEvent(code: int, epoch: nat)
    | TickArrived(symbol: Symbol, price: Option<real>, volume: int, source: Option<int>, epoch: nat, now: int)
    | BookArrived(symbol: Symbol, lot: Lot, bids: seq<real>, asks: seq<real>, source: Option<int>, epoch: nat,
                  received: int)
    | Subscribed(lot: Lot, symbol: Symbol)
    | Unsubscribed(lot: Lot, symbol: Symbol)
    | ResetRequested(now: int)                     // the clearing region of reset_shioaji_connection
    | PoisonRequested
    | StopRegistered(item: StopItem, ttlSeconds: int, now: int)
    | WatchRequested(lot: Lot, symbols: seq<Symbol>, ttl: int, now: int)
    | ActiveListed(lot: Lot, now: int)             // active_orderbook_watch_symbols
    | RecoveryRequested(lot: Lot, symbol: Symbol, now: int)
    | RecoveryFinished(lot: Lot, symbol: Symbol, marketOpen: bool)

  type Log = seq<Event>

  /** The clock value an event works with, if it looks at the clock. */
  function Clock(e: Event): Option<int> {
    match e
    case TickArrived(_, _, _, _, _, now) => Some(now)
    case ResetRequested(now) => Some(now)
    case StopRegistered(_, _, now) => Some(now)
    case WatchRequested(_, _, _, now) => Some(now)
    case ActiveListed(_, now) => Some(now)
    case RecoveryRequested(_, _, now) => Some(now)
    case _ => None
  }

  /** The tick callback reads the clock inside its lock region, so ticks see a clock that
      never runs backwards. Nothing is assumed about the other regions' clocks. */
  ghost predicate TicksInOrder(log: Log) {
    forall i, j :: 0 <= i < j < |log| && log[i].TickArrived? && log[j].TickArrived? ==> log[i].now <= log[j].now
  }

  /** No tick of the log is later than `now`. */
  ghost predicate TicksNotAfter(log: Log, now: int) {
    forall i :: 0 <= i < |log| && log[i].TickArrived? ==> log[i].now <= now
  }

  // ---------- session, connection, poison ----------

  datatype Control = Control(epoch: nat, poisoned: bool, connected: bool, up: bool, lastReset: int)

  const START := Control(0, false, false, false, 0)

  /** A reset request outside the cooldown really clears the caches. */
  predicate Clears(cfg: Config, c: Control, e: Event) {
    e.ResetRequested? && e.now - c.lastReset >= cfg.reconnectCooldown
  }

  /** Callbacks are heard only in their own session and before poisoning. */
  predicate Hears(c: Control, epoch: nat) {
    epoch == c.epoch && !c.poisoned
  }

  function ControlStep(cfg: Config, c: Control, e: Event): Control {
    match e
    case LoggedIn => c.(epoch := c.epoch + 1, connected := true, up := true)
    case LoginLost => c.(connected := false, up := false)
    case SessionEvent(code, epoch) =>
      if !Hears(c, epoch) then c
      else if code in {0, 13} then c.(up := true)
      else if code in {1, 2, 12} then c.(up := false)
      else c
    case ResetRequested(now) =>
      if Clears(cfg, c, e) then c.(connected := false, up := false, lastReset := now) else c
    case PoisonRequested => if c.poisoned then c else c.(poisoned := true, connected := false)
    case _ => c
  }

  function ControlOf(cfg: Config, log: Log): Control {
    if log == [] then START else ControlStep(cfg, ControlOf(cfg, log[..|log| - 1]), log[|log| - 1])
  }

  lemma {:induction false} EpochCountsLogins(cfg: Config, log: Log, n: nat)
    requires n <= |log|
    ensures ControlOf(cfg, log[..n]).epoch <= ControlOf(cfg, log).epoch
    ensures ControlOf(cfg, log[..n]).epoch == ControlOf(cfg, log).epoch
       <==> forall i :: n <= i < |log| ==> !log[i].LoggedIn?
    ensures ControlOf(cfg, log[..n]).poisoned ==> ControlOf(cfg, log).poisoned
  {
    if n < |log| {
      var before := log[..|log| - 1];
      assert before[..n] == log[..n];
      EpochCountsLogins(cfg, before, n);
    } else {
      assert log[..n] == log;
    }
  }

  // ---------- the same on events ----------

  /** Number of logins. */
  function Logins(log: Log): nat {
    if log == [] then 0 else Logins(log[..|log| - 1]) + if log[|log| - 1].LoggedIn? then 1 else 0
  }

  /** Event i comes after a poisoning. */
  ghost predicate AfterPoison(log: Log, i: nat)
    requires i <= |log|
  {
    exists j :: 0 <= j < i && log[j].PoisonRequested?
  }

  lemma PoisonStep(log: Log, i: nat)
    requires i < |log|
    ensures AfterPoison(log, i + 1) <==> AfterPoison(log, i) || log[i].PoisonRequested?
  {
  }

  /** The epoch is the number of logins, and the poison flag says whether a poisoning came. */
  lemma {:induction false} EpochAndPoison(cfg: Config, log: Log, n: nat)
    requires n <= |log|
    ensures ControlOf(cfg, log[..n]).epoch == Logins(log[..n])
    ensures ControlOf(cfg, log[..n]).poisoned <==> AfterPoison(log, n)
  {
    if n == 0 {
      assert log[..0] == [];
    } else {
      EpochAndPoison(cfg, log, n - 1);
      assert log[..n][..n - 1] == log[..n - 1];
      PoisonStep(log, n - 1);
    }
  }

  /** A callback with this epoch, delivered as event i, is of the session then current and comes before
      any poisoning. */
  ghost predicate Heard(log: Log, i: nat, epoch: nat)
    requires i <= |log|
  {
    epoch == Logins(log[..i]) && !AfterPoison(log, i)
  }

  lemma HeardExactly(cfg: Config, log: Log, i: nat, epoch: nat)
    requires i <= |log|
    ensures Hears(ControlOf(cfg, log[..i]), epoch) <==> Heard(log, i, epoch)
  {
    EpochAndPoison(cfg, log, i);
  }

  /** Event i is a reset that really clears. */
  predicate ClearedAt(cfg: Config, log: Log, i: nat)
    requires i < |log|
  {
    Clears(cfg, ControlOf(cfg, log[..i]), log[i])
  }

  /** Event j is the last reset before n that cleared. */
  ghost predicate LastClear(cfg: Config, log: Log, n: nat, j: nat)
    requires n <= |log|
  {
    j < n && ClearedAt(cfg, log, j) && forall k :: j < k < n ==> !ClearedAt(cfg, log, k)
  }

  ghost predicate NoClear(cfg: Config, log: Log, n: nat)
    requires n <= |log|
  {
    forall k :: 0 <= k < n ==> !ClearedAt(cfg, log, k)
  }

  lemma ResetStep(cfg: Config, log: Log, n: nat)
    requires n < |log|
    ensures ControlOf(cfg, log[..n + 1]).lastReset
         == if ClearedAt(cfg, log, n) then log[n].now else ControlOf(cfg, log[..n]).lastReset
  {
    assert log[..n + 1][..n] == log[..n];
  }

  lemma {:induction false} NoResetYet(cfg: Config, log: Log, n: nat)
    requires n <= |log| && NoClear(cfg, log, n)
    ensures ControlOf(cfg, log[..n]).lastReset == 0
  {
    if n == 0 {
      assert log[..0] == [];
    } else {
      NoResetYet(cfg, log, n - 1);
      ResetStep(cfg, log, n - 1);
    }
  }

  lemma {:induction false} LastResetTime(cfg: Config, log: Log, n: nat, j: nat)
    requires n <= |log| && LastClear(cfg, log, n, j)
    ensures ControlOf(cfg, log[..n]).lastReset == log[j].now
  {
    ResetStep(cfg, log, n - 1);
    if j < n - 1 { LastResetTime(cfg, log, n - 1, j); }
  }

  /** Which resets clear: those that come at least the cooldown after the last one that did, or after
      time zero when none did. */
  lemma ClearsExactly(cfg: Config, log: Log, n: nat)
    requires n < |log| && log[n].ResetRequested?
    ensures NoClear(cfg, log, n) ==> (ClearedAt(cfg, log, n) <==> log[n].now >= cfg.reconnectCooldown)
    ensures forall j: nat :: LastClear(cfg, log, n, j) ==>
              (ClearedAt(cfg, log, n) <==> log[n].now - log[j].now >= cfg.reconnectCooldown)
  {
    if NoClear(cfg, log, n) { NoResetYet(cfg, log, n); }
    forall j: nat | LastClear(cfg, log, n, j)
      ensures ClearedAt(cfg, log, n) <==> log[n].now - log[j].now >= cfg.reconnectCooldown
    {
      LastResetTime(cfg, log, n, j);
    }
  }

  /** Event i raises the session flag: a login, or a reconnection code of the current session. */
  ghost predicate Raises(log: Log, i: nat)
    requires i < |log|
  {
    var e := log[i];
    e.LoggedIn? || (e.SessionEvent? && Heard(log, i, e.epoch) && (e.code == 0 || e.code == 13))
  }

  /** Event i lowers it: a lost login, an effective reset, or a disconnection code of the session. */
  ghost predicate Lowers(cfg: Config, log: Log, i: nat)
    requires i < |log|
  {
    var e := log[i];
    || e.LoginLost? || ClearedAt(cfg, log, i)
    || (e.SessionEvent? && Heard(log, i, e.epoch) && (e.code == 1 || e.code == 2 || e.code == 12))
  }

  /** Event r raised the flag and nothing lowered it before n. */
  ghost predicate UpSince(cfg: Config, log: Log, n: nat, r: nat)
    requires n <= |log|
  {
    r < n && Raises(log, r) && forall j :: r < j < n ==> !Lowers(cfg, log, j)
  }

  lemma UpStep(cfg: Config, log: Log, n: nat)
    requires n < |log|
    ensures ControlOf(cfg, log[..n + 1]).up
         == (Raises(log, n) || (ControlOf(cfg, log[..n]).up && !Lowers(cfg, log, n)))
  {
    assert log[..n + 1][..n] == log[..n];
    if log[n].SessionEvent? { HeardExactly(cfg, log, n, log[n].epoch); }
  }

  /** The quote session is up exactly when some login or reconnection has not been followed by a lost
      login, an effective reset or a disconnection. */
  lemma {:induction false} UpExactly(cfg: Config, log: Log, n: nat)
    requires n <= |log|
    ensures ControlOf(cfg, log[..n]).up <==> exists r: nat :: UpSince(cfg, log, n, r)
  {
    if n == 0 {
      assert log[..0] == [];
    } else {
      UpStep(cfg, log, n - 1);
      UpExactly(cfg, log, n - 1);
      forall r: nat | r < n - 1 && UpSince(cfg, log, n, r) ensures UpSince(cfg, log, n - 1, r) {}
      if Raises(log, n - 1) {
        assert UpSince(cfg, log, n, n - 1);
      } else if ControlOf(cfg, log[..n]).up {
        var r: nat :| UpSince(cfg, log, n - 1, r);
        assert UpSince(cfg, log, n, r);
      }
    }
  }

  /** After a lowering event the flag stays down until something raises it. */
  lemma DownUntilRaised(cfg: Config, log: Log, j: nat, n: nat)
    requires j < n <= |log| && Lowers(cfg, log, j) && forall k :: j < k < n ==> !Raises(log, k)
    ensures !ControlOf(cfg, log[..n]).up
  {
    UpExactly(cfg, log, n);
    forall r: nat ensures !UpSince(cfg, log, n, r) {}
  }
}
