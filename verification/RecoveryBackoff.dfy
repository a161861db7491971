/** shioaji-proxy/main.py: re-subscribing a stale order book, with exponential backoff and one
    attempt at a time per (lot, symbol) (`_mark_orderbook_recovery`,
    `_finish_orderbook_recovery`, `_confirm_orderbook_recovery`). */
module RecoveryBackoff {
  import opened Common
  import opened ProxyEvents
  import opened WatchStore

  type Key = (Lot, Symbol)

  datatype Recovery = Recovery(failures: nat, nextAttempt: int, inflight: bool)

  type Recoveries = map<Key, Recovery>

  const NEW := Recovery(0, 0, false)
  const MAX_BACKOFF := 120_000

  function Pow2(n: nat): nat {
    if n == 0 then 1 else 2 * Pow2(n - 1)
  }

  /** Delay after the f-th consecutive failure. */
  function Backoff(cfg: Config, failures: nat): nat {
    var delay := cfg.recoveryCooldown * Pow2(if failures > 1 then failures - 1 else 0);
    if delay < MAX_BACKOFF then delay else MAX_BACKOFF
  }

  function Get(recs: Recoveries, key: Key): Recovery {
    if key in recs then recs[key] else NEW
  }

  /** May a new attempt start now? */
  predicate Due(r: Recovery, now: int) {
    !r.inflight && now >= r.nextAttempt
  }

  function Mark(cfg: Config, r: Recovery, now: int): Recovery {
    if !Due(r, now) then r
    else Recovery(r.failures + 1, now + Backoff(cfg, r.failures + 1), true)
  }

  function Finish(r: Recovery, marketOpen: bool): Recovery {
    if marketOpen then r.(inflight := false) else Recovery(0, 0, false)
  }

  /** An accepted two-sided book ends the failure count; a running attempt stays marked. */
  predicate Confirms(c: Control, e: Event, key: Key) {
    && e.BookArrived? && Hears(c, e.epoch) && e.bids != [] && e.asks != [] && key == (e.lot, e.symbol)
  }

  /** Records that expire together with their watch. */
  function Unwatched(cfg: Config, e: Event, store: Store): set<Symbol> {
    if e.WatchRequested? then Expired(store, e.now, [])
    else if e.ActiveListed? then
      Expired(WithStatics(cfg, store, e.lot, e.now), e.now, Statics(cfg, e.lot))
    else {}
  }

  function DropRecords(recs: Recoveries, lot: Lot, symbols: set<Symbol>): Recoveries {
    map key | key in recs && !(key.0 == lot && key.1 in symbols) :: recs[key]
  }

  function RecoveryStep(cfg: Config, c: Control, recs: Recoveries, e: Event, store: Store): Recoveries {
    match e
    case WatchRequested(lot, _, _, _) => DropRecords(recs, lot, Unwatched(cfg, e, store))
    case ActiveListed(lot, _) => DropRecords(recs, lot, Unwatched(cfg, e, store))
    case ResetRequested(_) => if Clears(cfg, c, e) then map[] else recs
    case BookArrived(symbol, lot, _, _, _, _, _) =>
      if Confirms(c, e, (lot, symbol))
      then recs[(lot, symbol) := Get(recs, (lot, symbol)).(failures := 0, nextAttempt := 0)]
      else recs
    case RecoveryRequested(lot, symbol, now) => recs[(lot, symbol) := Mark(cfg, Get(recs, (lot, symbol)), now)]
    case RecoveryFinished(lot, symbol, open) =>
      if (lot, symbol) in recs then recs[(lot, symbol) := Finish(recs[(lot, symbol)], open)] else recs
    case _ => recs
  }

  /** The store an event works on, when it works on one. */
  function LotOf(e: Event): Lot {
    if e.WatchRequested? || e.ActiveListed? then e.lot else Board
  }

  function RecoveriesOf(cfg: Config, log: Log): Recoveries {
    if log == [] then map[]
    else
      var before, e := log[..|log| - 1], log[|log| - 1];
      RecoveryStep(cfg, ControlOf(cfg, before), RecoveriesOf(cfg, before), e, StoreOf(cfg, before, LotOf(e)))
  }

  // ---------- what happens to one key ----------

  /** Event i starts an attempt for the key. */
  predicate Attempts(cfg: Config, log: Log, i: nat, key: Key)
    requires i < |log|
  {
    var e := log[i];
    e.RecoveryRequested? && key == (e.lot, e.symbol) && Due(Get(RecoveriesOf(cfg, log[..i]), key), e.now)
  }

  /** Event i removes the record of the key: its watch expired, or the session was reset. */
  predicate Drops(cfg: Config, log: Log, i: nat, key: Key)
    requires i < |log|
  {
    var e := log[i];
    || Clears(cfg, ControlOf(cfg, log[..i]), e)
    || ((e.WatchRequested? || e.ActiveListed?) && e.lot == key.0
        && key.1 in Unwatched(cfg, e, StoreOf(cfg, log[..i], e.lot)))
  }

  predicate Finishes(log: Log, i: nat, key: Key)
    requires i < |log|
  {
    log[i].RecoveryFinished? && key == (log[i].lot, log[i].symbol)
  }

  /** Confirmation, expiry, reset, or a finish after market close: the failure count restarts. */
  predicate Restarts(cfg: Config, log: Log, i: nat, key: Key)
    requires i < |log|
  {
    || Confirms(ControlOf(cfg, log[..i]), log[i], key)
    || Drops(cfg, log, i, key)
    || (Finishes(log, i, key) && !log[i].marketOpen)
  }

  /** Event n confirms the key: a two-sided book for it, heard by the session then current. */
  lemma ConfirmsExactly(cfg: Config, log: Log, n: nat, key: Key)
    requires n < |log|
    ensures var e := log[n];
            Confirms(ControlOf(cfg, log[..n]), e, key)
            <==> e.BookArrived? && (e.lot, e.symbol) == key && |e.bids| > 0 && |e.asks| > 0 && Heard(log, n, e.epoch)
  {
    if log[n].BookArrived? { HeardExactly(cfg, log, n, log[n].epoch); }
  }

  /** Event n drops the record of the key: an effective reset, or a watch request or listing of the lot
      that finds the deadline of its watch in the past; a listing spares the static symbols. */
  lemma DropsExactly(cfg: Config, log: Log, n: nat, key: Key)
    requires n < |log|
    ensures var e, store := log[n], StoreOf(cfg, log[..n], key.0);
            Drops(cfg, log, n, key)
            <==> || ClearedAt(cfg, log, n)
                 || (e.WatchRequested? && e.lot == key.0 && key.1 in store && store[key.1] < e.now)
                 || (e.ActiveListed? && e.lot == key.0 && key.1 in store && store[key.1] < e.now
                     && (key.0 == Odd || key.1 !in cfg.statics))
  {
    var e := log[n];
    if e.ActiveListed? && e.lot == key.0 { ListExpires(cfg, StoreOf(cfg, log[..n], key.0), e, key.1); }
  }

  /** The gap after attempt number f of a cooldown c: the cooldown first, then twice the gap before,
      never above two minutes. */
  function Gap(c: nat, f: nat): nat {
    if f <= 1 then MinInt(120_000, c) else MinInt(120_000, 2 * Gap(c, f - 1))
  }

  lemma {:induction false} BackoffDoubles(cfg: Config, f: nat)
    ensures Backoff(cfg, f) == Gap(cfg.recoveryCooldown, f)
  {
    if f <= 1 {
      assert Pow2(0) == 1;
    } else {
      BackoffDoubles(cfg, f - 1);
      TwiceAsLong(cfg.recoveryCooldown, Pow2(f - 2), Pow2(f - 1));
    }
  }

  lemma TwiceAsLong(c: nat, p: nat, q: nat)
    requires q == 2 * p
    ensures c * q == 2 * (c * p)
  {
  }

  /** The record of the key after event n, by what the event was: gone, confirmed, started, finished (and
      forgotten when the market is closed), or unchanged. */
  lemma KeyStep(cfg: Config, log: Log, n: nat, key: Key)
    requires n < |log|
    ensures var before, now := RecoveriesOf(cfg, log[..n]), RecoveriesOf(cfg, log[..n + 1]);
            var r := Get(before, key);
            if Drops(cfg, log, n, key) then key !in now
            else if Confirms(ControlOf(cfg, log[..n]), log[n], key) then
              key in now && now[key] == Recovery(0, 0, r.inflight)
            else if Attempts(cfg, log, n, key) then
              key in now && now[key]
                            == Recovery(r.failures + 1, log[n].now + Gap(cfg.recoveryCooldown, r.failures + 1), true)
            else if Finishes(log, n, key) && key in before then
              key in now && now[key] == (if log[n].marketOpen then Recovery(r.failures, r.nextAttempt, false)
                                         else Recovery(0, 0, false))
            else Get(now, key) == r
  {
    BackoffDoubles(cfg, Get(RecoveriesOf(cfg, log[..n]), key).failures + 1);
    var l := log[..n + 1];
    assert l[..n] == log[..n] && l[n] == log[n];
  }

  // ---------- geometric backoff ----------

  /** Strictly between events i and j the key sees no attempt and no restart. */
  ghost predicate Calm(cfg: Config, log: Log, i: nat, j: nat, key: Key) {
    j <= |log| && forall m :: i < m < j ==> !Attempts(cfg, log, m, key) && !Restarts(cfg, log, m, key)
  }

  /** After an attempt, and until the next attempt or restart, the record only loses its flag. */
  lemma {:induction false} RecordBetween(cfg: Config, log: Log, i: nat, n: nat, key: Key)
    requires i < n <= |log| && Attempts(cfg, log, i, key) && Calm(cfg, log, i, n, key)
    ensures var r := Get(RecoveriesOf(cfg, log[..n]), key);
            && key in RecoveriesOf(cfg, log[..n])
            && r.failures == Failures(cfg, log, i, key)
                  && r.nextAttempt == log[i].now + Gap(cfg.recoveryCooldown, r.failures)
  {
    var m := n - 1;
    KeyStep(cfg, log, m, key);
    if i == m {
    } else {
      RecordBetween(cfg, log, i, m, key);
      assert !Restarts(cfg, log, m, key) && !Attempts(cfg, log, m, key);
      KeyIn(cfg, log, m, key);
    }
  }

  lemma KeyIn(cfg: Config, log: Log, n: nat, key: Key)
    requires n < |log| && key in RecoveriesOf(cfg, log[..n]) && !Drops(cfg, log, n, key)
    ensures key in RecoveriesOf(cfg, log[..n + 1])
  {
    var l := log[..n + 1];
    assert l[..n] == log[..n] && l[n] == log[n];
  }

  /** A request starts an attempt exactly when no attempt is marked as running and the time set by the
      last one has come; attempt number f + 1 comes at least the gap of f after attempt number f. */
  lemma AttemptGap(cfg: Config, log: Log, i: nat, j: nat, key: Key)
    requires i < j < |log| && Attempts(cfg, log, i, key) && Attempts(cfg, log, j, key)
    requires Calm(cfg, log, i, j, key)
    ensures Failures(cfg, log, j, key) == Failures(cfg, log, i, key) + 1
    ensures log[j].now >= log[i].now + Gap(cfg.recoveryCooldown, Failures(cfg, log, i, key))
  {
    RecordBetween(cfg, log, i, j, key);
  }

  /** As long as nothing restarts the count, the next request at or after the end of the gap starts the next
      attempt once the last one has finished, and no earlier one does. */
  lemma NextAttemptExactly(cfg: Config, log: Log, i: nat, j: nat, key: Key)
    requires i < j < |log| && Attempts(cfg, log, i, key) && Calm(cfg, log, i, j, key)
    requires log[j].RecoveryRequested? && key == (log[j].lot, log[j].symbol)
    ensures Attempts(cfg, log, j, key)
       <==> && (exists m :: i < m < j && Finishes(log, m, key))
            && log[j].now >= log[i].now + Gap(cfg.recoveryCooldown, Failures(cfg, log, i, key))
  {
    RecordBetween(cfg, log, i, j, key);
    FlagBetween(cfg, log, i, j, key);
  }

  lemma {:induction false} FlagBetween(cfg: Config, log: Log, i: nat, n: nat, key: Key)
    requires i < n <= |log| && Attempts(cfg, log, i, key) && Calm(cfg, log, i, n, key)
    ensures Get(RecoveriesOf(cfg, log[..n]), key).inflight <==> forall m :: i < m < n ==> !Finishes(log, m, key)
  {
    var m := n - 1;
    KeyStep(cfg, log, m, key);
    if i < m {
      FlagBetween(cfg, log, i, m, key);
      RecordBetween(cfg, log, i, m, key);
      assert !Restarts(cfg, log, m, key) && !Attempts(cfg, log, m, key);
    }
  }

  /** The number of the attempt that event i starts, counted since the last restart. */
  function Failures(cfg: Config, log: Log, i: nat, key: Key): nat
    requires i < |log|
  {
    Get(RecoveriesOf(cfg, log[..i]), key).failures + 1
  }

  /** Attempts for the key among the first n events, counted since its last restart. */
  function Counted(cfg: Config, log: Log, n: nat, key: Key): nat
    requires n <= |log|
  {
    if n == 0 || Restarts(cfg, log, n - 1, key) then 0
    else Counted(cfg, log, n - 1, key) + if Attempts(cfg, log, n - 1, key) then 1 else 0
  }

  /** The record counts exactly these, and while there are none an attempt is due at any time. */
  lemma {:induction false} CountedExactly(cfg: Config, log: Log, n: nat, key: Key)
    requires n <= |log|
    ensures var r := Get(RecoveriesOf(cfg, log[..n]), key);
            r.failures == Counted(cfg, log, n, key) && (r.failures == 0 ==> r.nextAttempt == 0)
  {
    if n == 0 {
      assert log[..0] == [];
    } else {
      CountedExactly(cfg, log, n - 1, key);
      KeyStep(cfg, log, n - 1, key);
    }
  }

  function GapSum(c: nat, failures: nat, n: nat): nat {
    if n == 0 then 0 else GapSum(c, failures, n - 1) + Gap(c, failures + n - 1)
  }

  /** `at` lists consecutive attempts for the key with no restart in between. */
  ghost predicate ConsecutiveAttempts(cfg: Config, log: Log, at: seq<nat>, key: Key) {
    && (forall k :: 0 <= k < |at| ==> at[k] < |log| && Attempts(cfg, log, at[k], key))
    && (forall j, k :: 0 <= j && k == j + 1 && k < |at| ==> at[j] < at[k] && Calm(cfg, log, at[j], at[k], key))
  }

  /** n + 1 attempts in a row take at least the sum of the first n gaps of the geometric scale. */
  lemma {:induction false} BackoffIsGeometric(cfg: Config, log: Log, at: seq<nat>, key: Key, n: nat)
    requires ConsecutiveAttempts(cfg, log, at, key) && n < |at|
    ensures Failures(cfg, log, at[n], key) == Failures(cfg, log, at[0], key) + n
    ensures log[at[n]].now >= log[at[0]].now + GapSum(cfg.recoveryCooldown, Failures(cfg, log, at[0], key), n)
  {
    if n == 0 {
    } else {
      BackoffIsGeometric(cfg, log, at, key, n - 1);
      AttemptGap(cfg, log, at[n - 1], at[n], key);
    }
  }

  /** Below the cap the gaps are the cooldown times the powers of two ... */
  lemma {:induction false} GapIsPower(c: nat, f: nat)
    requires f >= 1 && forall g :: 1 <= g <= f ==> Gap(c, g) < 120_000
    ensures Gap(c, f) == c * Pow2(f - 1)
  {
    assert Gap(c, f) < 120_000;
    if f == 1 {
      assert Pow2(0) == 1;
    } else {
      GapIsPower(c, f - 1);
      TwiceAsLong(c, Pow2(f - 2), Pow2(f - 1));
    }
  }

  /** ... and the first n of them add up to c (2^n - 1). */
  lemma {:induction false} GapsAddUp(c: nat, n: nat)
    requires forall f :: 1 <= f <= n ==> Gap(c, f) < 120_000
    ensures GapSum(c, 1, n) == c * Pow2(n) - c
  {
    if n == 0 {
      assert Pow2(0) == 1;
    } else {
      GapsAddUp(c, n - 1);
      GapIsPower(c, n);
      TwiceAsLong(c, Pow2(n - 1), Pow2(n));
    }
  }

  /** So n + 1 attempts from number 1 on, none of whose gaps reaches two minutes, take at least
      c (2^n - 1). */
  lemma UncappedRun(cfg: Config, log: Log, at: seq<nat>, key: Key, n: nat)
    requires ConsecutiveAttempts(cfg, log, at, key) && n < |at| && Failures(cfg, log, at[0], key) == 1
    requires forall f :: 1 <= f <= n ==> Gap(cfg.recoveryCooldown, f) < 120_000
    ensures var c := cfg.recoveryCooldown;
            log[at[n]].now >= log[at[0]].now + c * Pow2(n) - c
  {
    BackoffIsGeometric(cfg, log, at, key, n);
    GapsAddUp(cfg.recoveryCooldown, n);
  }

  // ---------- single flight ----------

  /** Attempts of the key that have started and not yet finished. */
  function Running(cfg: Config, log: Log, key: Key): int {
    if log == [] then 0
    else
      var n := |log| - 1;
      Running(cfg, log[..n], key)
      + (if Attempts(cfg, log, n, key) then 1 else 0)
      - (if Finishes(log, n, key) then 1 else 0)
  }

  /** Only running attempts finish. */
  ghost predicate FinishesMatch(cfg: Config, log: Log, key: Key) {
    forall i :: 0 <= i < |log| && Finishes(log, i, key) ==> Running(cfg, log[..i], key) >= 1
  }

  /** No record is dropped, by expiry or reset, while an attempt for it is running. */
  ghost predicate NoDropInFlight(cfg: Config, log: Log, key: Key) {
    forall i :: 0 <= i < |log| && Drops(cfg, log, i, key) ==> Running(cfg, log[..i], key) == 0
  }

  lemma RunningStep(cfg: Config, log: Log, n: nat, key: Key)
    requires n < |log|
    ensures Running(cfg, log[..n + 1], key)
         == Running(cfg, log[..n], key)
            + (if Attempts(cfg, log, n, key) then 1 else 0) - (if Finishes(log, n, key) then 1 else 0)
  {
    var l := log[..n + 1];
    assert l[..n] == log[..n] && l[n] == log[n];
  }

  lemma {:induction false} FlagCountsRunning(cfg: Config, log: Log, key: Key, n: nat)
    requires FinishesMatch(cfg, log, key) && NoDropInFlight(cfg, log, key) && n <= |log|
    ensures Running(cfg, log[..n], key) == if Get(RecoveriesOf(cfg, log[..n]), key).inflight then 1 else 0
  {
    if n == 0 {
    } else {
      FlagCountsRunning(cfg, log, key, n - 1);
      RunningStep(cfg, log, n - 1, key);
      KeyStep(cfg, log, n - 1, key);
    }
  }

  /** A recovery request right after the first n events. */
  function Retry(log: Log, n: nat, key: Key, now: int): Log
    requires n <= |log|
  {
    log[..n] + [RecoveryRequested(key.0, key.1, now)]
  }

  lemma RetryRunning(cfg: Config, log: Log, n: nat, key: Key, now: int)
    requires n <= |log|
    ensures Running(cfg, Retry(log, n, key, now), key)
         == Running(cfg, log[..n], key) + (if Due(Get(RecoveriesOf(cfg, log[..n]), key), now) then 1 else 0)
  {
  }

  /** The singleton promise and its exact limit. No recovery request can ever start a second
      attempt beside a running one if and only if no expiry or reset dropped the record while
      an attempt for it was running. */
  lemma SingleFlightExactly(cfg: Config, log: Log, key: Key)
    requires FinishesMatch(cfg, log, key)
    ensures (forall n: nat, now: int :: n <= |log| && now >= 0 ==> Running(cfg, Retry(log, n, key, now), key) <= 1)
       <==> NoDropInFlight(cfg, log, key)
  {
    if NoDropInFlight(cfg, log, key) {
      forall n: nat, now: int | n <= |log| && now >= 0 ensures Running(cfg, Retry(log, n, key, now), key) <= 1 {
        FlagCountsRunning(cfg, log, key, n);
        RetryRunning(cfg, log, n, key, now);
      }
    } else {
      var i :| 0 <= i < |log| && Drops(cfg, log, i, key) && Running(cfg, log[..i], key) != 0;
      RunningNonNegative(cfg, log, key, i);
      RunningStep(cfg, log, i, key);
      KeyStep(cfg, log, i, key);
      RetryRunning(cfg, log, i + 1, key, 0);
      assert Running(cfg, Retry(log, i + 1, key, 0), key) >= 2;
    }
  }

  lemma {:induction false} RunningNonNegative(cfg: Config, log: Log, key: Key, n: nat)
    requires FinishesMatch(cfg, log, key) && n <= |log|
    ensures Running(cfg, log[..n], key) >= 0
  {
    if n == 0 {
    } else {
      RunningNonNegative(cfg, log, key, n - 1);
      RunningStep(cfg, log, n - 1, key);
    }
  }

  lemma RunningAfter(cfg: Config, log: Log, e: Event, key: Key)
    ensures RecoveriesOf(cfg, log + [e])
         == RecoveryStep(cfg, ControlOf(cfg, log), RecoveriesOf(cfg, log), e, StoreOf(cfg, log, LotOf(e)))
    ensures ControlOf(cfg, log + [e]) == ControlStep(cfg, ControlOf(cfg, log), e)
    ensures !e.RecoveryRequested? && !e.RecoveryFinished? ==> Running(cfg, log + [e], key) == Running(cfg, log, key)
    ensures e.RecoveryRequested? && key == (e.lot, e.symbol)
            ==> (Running(cfg, log + [e], key)
                 == Running(cfg, log, key) + (if Due(Get(RecoveriesOf(cfg, log), key), e.now) then 1 else 0))
  {
  }

  /** A run in which two attempts for one symbol are in flight: a reset comes between them. */
  lemma ResetAllowsSecondAttempt(cfg: Config, s: Symbol, t: int)
    requires t >= cfg.reconnectCooldown
    ensures var log := [] + [LoggedIn] + [RecoveryRequested(Board, s, t)] + [ResetRequested(t)] + [LoggedIn]
                     + [RecoveryRequested(Board, s, t)];
            Running(cfg, log, (Board, s)) == 2
  {
    var key, request: Event := (Board, s), RecoveryRequested(Board, s, t);
    var l1: Log := [] + [LoggedIn];
    RunningAfter(cfg, [], LoggedIn, key);
    var l2 := l1 + [request];
    RunningAfter(cfg, l1, request, key);
    var l3 := l2 + [ResetRequested(t)];
    RunningAfter(cfg, l2, ResetRequested(t), key);
    var l4 := l3 + [LoggedIn];
    RunningAfter(cfg, l3, LoggedIn, key);
    RunningAfter(cfg, l4, request, key);
  }
}
