/** shioaji-proxy/main.py: the order-book watch stores, one per lot type, each with a hard
    capacity and a deadline per symbol (`watch_orderbook_symbols`,
    `active_orderbook_watch_symbols`). */
module WatchStore {
  import opened Common
  import opened ProxyEvents

  type Store = map<Symbol, int>

  /** What one request leaves: the store, and the symbols it accepted. */
  datatype Admission = Admission(store: Store, accepted: seq<Symbol>)

  const STATIC_TTL := 3_600_000

  function Capacity(cfg: Config, lot: Lot): nat {
    if lot == Odd then cfg.oddCapacity else cfg.boardCapacity
  }

  /** Only the board-lot store has statically configured symbols. */
  function Statics(cfg: Config, lot: Lot): seq<Symbol> {
    if lot == Odd then [] else cfg.statics
  }

  /** Entries past their deadline, except the protected ones. */
  function Expired(store: Store, now: int, protected: seq<Symbol>): set<Symbol> {
    set s | s in store && store[s] < now && s !in protected
  }

  function Without(store: Store, gone: set<Symbol>): Store {
    store - gone
  }

  function Deadline(store: Store, s: Symbol): int {
    if s in store then store[s] else 0
  }

  function Admit(store: Store, symbols: seq<Symbol>, deadline: int, capacity: nat): Admission {
    if symbols == [] then Admission(store, [])
    else
      var r := Admit(store, symbols[..|symbols| - 1], deadline, capacity);
      var s := symbols[|symbols| - 1];
      if s.code == "" || s in r.accepted then r
      else if s !in r.store && |r.store| >= capacity then r
      else Admission(r.store[s := MaxInt(Deadline(r.store, s), deadline)], r.accepted + [s])
  }

  function Request(cfg: Config, store: Store, e: Event): Admission
    requires e.WatchRequested?
  {
    Admit(Without(store, Expired(store, e.now, [])), e.symbols, e.now + e.ttl, Capacity(cfg, e.lot))
  }

  function AddStatics(store: Store, statics: seq<Symbol>, deadline: int, capacity: nat): Store {
    if statics == [] then store
    else
      var r := AddStatics(store, statics[..|statics| - 1], deadline, capacity);
      var s := statics[|statics| - 1];
      if s !in r && |r| >= capacity then r
      else r[s := MaxInt(Deadline(r, s), deadline)]
  }

  function WithStatics(cfg: Config, store: Store, lot: Lot, now: int): Store {
    AddStatics(store, Statics(cfg, lot), now + MaxInt(cfg.watchTtl, STATIC_TTL), Capacity(cfg, lot))
  }

  function ListActive(cfg: Config, store: Store, e: Event): Store
    requires e.ActiveListed?
  {
    var added := WithStatics(cfg, store, e.lot, e.now);
    Without(added, Expired(added, e.now, Statics(cfg, e.lot)))
  }

  function StoreStep(cfg: Config, lot: Lot, store: Store, e: Event): Store {
    if e.WatchRequested? && e.lot == lot then Request(cfg, store, e).store
    else if e.ActiveListed? && e.lot == lot then ListActive(cfg, store, e)
    else store
  }

  function StoreOf(cfg: Config, log: Log, lot: Lot): Store {
    if log == [] then map[]
    else StoreStep(cfg, lot, StoreOf(cfg, log[..|log| - 1], lot), log[|log| - 1])
  }

  // ---------- capacity ----------

  lemma RemovalSize(store: Store, gone: set<Symbol>)
    ensures |Without(store, gone)| <= |store|
  {
  }

  lemma {:induction false} AdmitWithinCapacity(store: Store, symbols: seq<Symbol>, deadline: int, capacity: nat)
    requires |store| <= capacity
    ensures |Admit(store, symbols, deadline, capacity).store| <= capacity
  {
    if symbols == [] {
    } else {
      AdmitWithinCapacity(store, symbols[..|symbols| - 1], deadline, capacity);
    }
  }

  lemma {:induction false} StaticsWithinCapacity(store: Store, statics: seq<Symbol>, deadline: int, capacity: nat)
    requires |store| <= capacity
    ensures |AddStatics(store, statics, deadline, capacity)| <= capacity
  {
    if statics == [] {
    } else {
      StaticsWithinCapacity(store, statics[..|statics| - 1], deadline, capacity);
    }
  }

  lemma RequestWithinCapacity(cfg: Config, store: Store, e: Event)
    requires e.WatchRequested? && |store| <= Capacity(cfg, e.lot)
    ensures |Request(cfg, store, e).store| <= Capacity(cfg, e.lot)
  {
    var gone := Expired(store, e.now, []);
    RemovalSize(store, gone);
    AdmitWithinCapacity(Without(store, gone), e.symbols, e.now + e.ttl, Capacity(cfg, e.lot));
  }

  lemma ListWithinCapacity(cfg: Config, store: Store, e: Event)
    requires e.ActiveListed? && |store| <= Capacity(cfg, e.lot)
    ensures |ListActive(cfg, store, e)| <= Capacity(cfg, e.lot)
  {
    var added := WithStatics(cfg, store, e.lot, e.now);
    WithStaticsWithinCapacity(cfg, store, e.lot, e.now);
    var gone := Expired(added, e.now, Statics(cfg, e.lot));
    RemovalSize(added, gone);
    assert ListActive(cfg, store, e) == Without(added, gone);
  }

  lemma WithStaticsWithinCapacity(cfg: Config, store: Store, lot: Lot, now: int)
    requires |store| <= Capacity(cfg, lot)
    ensures |WithStatics(cfg, store, lot, now)| <= Capacity(cfg, lot)
  {
    StaticsWithinCapacity(store, Statics(cfg, lot), now + MaxInt(cfg.watchTtl, STATIC_TTL), Capacity(cfg, lot));
  }

  /** In every run each store stays within its capacity. */
  lemma {:induction false} WithinCapacity(cfg: Config, log: Log, lot: Lot)
    ensures |StoreOf(cfg, log, lot)| <= Capacity(cfg, lot)
  {
    if log == [] {
    } else {
      var before, e := log[..|log| - 1], log[|log| - 1];
      WithinCapacity(cfg, before, lot);
      if e.WatchRequested? && e.lot == lot {
        RequestWithinCapacity(cfg, StoreOf(cfg, before, lot), e);
      } else if e.ActiveListed? && e.lot == lot {
        ListWithinCapacity(cfg, StoreOf(cfg, before, lot), e);
      }
    }
  }

  // ---------- an accepted symbol stays watched until its time is up ----------

  lemma {:induction false} AdmitKeeps(store: Store, symbols: seq<Symbol>, deadline: int, capacity: nat, s: Symbol)
    ensures var r := Admit(store, symbols, deadline, capacity);
            && (s in store ==> s in r.store && r.store[s] >= store[s])
            && (s in r.accepted ==> s in r.store && r.store[s] >= deadline && s in symbols && s.code != "")
  {
    if symbols == [] {
    } else {
      AdmitKeeps(store, symbols[..|symbols| - 1], deadline, capacity, s);
    }
  }

  lemma {:induction false} StaticsKeep(store: Store, statics: seq<Symbol>, deadline: int, capacity: nat, s: Symbol)
    ensures var r := AddStatics(store, statics, deadline, capacity);
            s in store ==> s in r && r[s] >= store[s]
  {
    if statics == [] {
    } else {
      StaticsKeep(store, statics[..|statics| - 1], deadline, capacity, s);
    }
  }

  lemma RequestKeeps(cfg: Config, store: Store, e: Event, s: Symbol)
    requires e.WatchRequested? && s in store && e.now <= store[s]
    ensures s in Request(cfg, store, e).store && Request(cfg, store, e).store[s] >= store[s]
  {
    AdmitKeeps(Without(store, Expired(store, e.now, [])), e.symbols, e.now + e.ttl, Capacity(cfg, e.lot), s);
  }

  lemma RequestAccepts(cfg: Config, store: Store, e: Event, s: Symbol)
    requires e.WatchRequested? && s in Request(cfg, store, e).accepted
    ensures s in Request(cfg, store, e).store && Request(cfg, store, e).store[s] >= e.now + e.ttl
  {
    AdmitKeeps(Without(store, Expired(store, e.now, [])), e.symbols, e.now + e.ttl, Capacity(cfg, e.lot), s);
  }

  lemma ListKeeps(cfg: Config, store: Store, e: Event, s: Symbol)
    requires e.ActiveListed? && s in store && e.now <= store[s]
    ensures s in ListActive(cfg, store, e) && ListActive(cfg, store, e)[s] >= store[s]
  {
    StaticsKeep(store, Statics(cfg, e.lot), e.now + MaxInt(cfg.watchTtl, STATIC_TTL), Capacity(cfg, e.lot), s);
  }

  lemma {:induction false} StaysUntil(cfg: Config, log: Log, n: nat, lot: Lot, s: Symbol, deadline: int)
    requires n <= |log|
    requires s in StoreOf(cfg, log[..n], lot) && StoreOf(cfg, log[..n], lot)[s] >= deadline
    requires forall i :: n <= i < |log| && Clock(log[i]).Some? ==> Clock(log[i]).value <= deadline
    ensures s in StoreOf(cfg, log, lot) && StoreOf(cfg, log, lot)[s] >= deadline
  {
    if n == |log| {
      assert log[..n] == log;
    } else {
      var before, e := log[..|log| - 1], log[|log| - 1];
      assert before[..n] == log[..n];
      StaysUntil(cfg, before, n, lot, s, deadline);
      if e.WatchRequested? && e.lot == lot {
        RequestKeeps(cfg, StoreOf(cfg, before, lot), e, s);
      } else if e.ActiveListed? && e.lot == lot {
        ListKeeps(cfg, StoreOf(cfg, before, lot), e, s);
      }
    }
  }

  lemma AfterRequest(cfg: Config, log: Log, n: nat)
    requires n < |log| && log[n].WatchRequested?
    ensures StoreOf(cfg, log[..n + 1], log[n].lot) == Request(cfg, StoreOf(cfg, log[..n], log[n].lot), log[n]).store
  {
    assert log[..n + 1][..n] == log[..n];
  }

  /** A symbol accepted with deadline d is in the store, with a deadline no earlier than d, in
      every later state in which no region has read a clock later than d. Requests, listings,
      resets and logins in between can only extend the deadline. */
  lemma AcceptedStaysWatched(cfg: Config, log: Log, n: nat, s: Symbol)
    requires n < |log| && log[n].WatchRequested?
    requires s in Request(cfg, StoreOf(cfg, log[..n], log[n].lot), log[n]).accepted
    requires forall i :: n < i < |log| && Clock(log[i]).Some? ==> Clock(log[i]).value <= log[n].now + log[n].ttl
    ensures s in StoreOf(cfg, log, log[n].lot)
    ensures StoreOf(cfg, log, log[n].lot)[s] >= log[n].now + log[n].ttl
  {
    RequestAccepts(cfg, StoreOf(cfg, log[..n], log[n].lot), log[n], s);
    AfterRequest(cfg, log, n);
    StaysUntil(cfg, log, n + 1, log[n].lot, s, log[n].now + log[n].ttl);
  }

  /** A symbol that is turned away is not watched, and the store is full afterwards. */
  lemma {:induction false} TurnedAwayOnlyWhenFull(store: Store, symbols: seq<Symbol>, deadline: int, capacity: nat,
                                                  s: Symbol)
    requires s in symbols && s.code != "" && |store| <= capacity
    requires s !in Admit(store, symbols, deadline, capacity).accepted
    ensures s !in store && |Admit(store, symbols, deadline, capacity).store| == capacity
    ensures s !in Admit(store, symbols, deadline, capacity).store
  {
    var front := symbols[..|symbols| - 1];
    AdmitWithinCapacity(store, front, deadline, capacity);
    AdmitKeeps(store, front, deadline, capacity, s);
    if s in front {
      TurnedAwayOnlyWhenFull(store, front, deadline, capacity, s);
      AdmitWithinCapacity(store, symbols, deadline, capacity);
    }
  }

  /** The symbols of a request that need a place: not blank and not yet watched. */
  function Newcomers(store: Store, symbols: seq<Symbol>): set<Symbol> {
    set s | s in symbols && s.code != "" && s !in store
  }

  lemma NewcomersStep(store: Store, front: seq<Symbol>, s: Symbol)
    ensures Newcomers(store, front + [s])
         == if s.code != "" && s !in store then Newcomers(store, front) + {s} else Newcomers(store, front)
  {
  }

  lemma {:induction false} AdmitKeys(store: Store, symbols: seq<Symbol>, deadline: int, capacity: nat, s: Symbol)
    ensures var r := Admit(store, symbols, deadline, capacity);
            && (s in r.store <==> s in store || s in r.accepted)
            && (s in r.accepted ==> s in symbols && s.code != "")
  {
    if symbols == [] {
    } else {
      AdmitKeys(store, symbols[..|symbols| - 1], deadline, capacity, s);
    }
  }

  lemma SizeAfter(store: Store, s: Symbol, d: int)
    ensures |store[s := d]| == |store| + (if s in store then 0 else 1)
  {
    assert store[s := d].Keys == store.Keys + {s};
  }

  lemma NewcomersSize(store: Store, front: seq<Symbol>, s: Symbol)
    ensures |Newcomers(store, front + [s])|
         == |Newcomers(store, front)| + (if s.code == "" || s in store || s in front then 0 else 1)
  {
    NewcomersStep(store, front, s);
    if s.code != "" && s !in store && s in front {
      assert s in Newcomers(store, front);
      assert Newcomers(store, front) + {s} == Newcomers(store, front);
    }
  }

  /** Size of the store after one more symbol, by whether it finds a place. */
  lemma AdmitStep(store: Store, front: seq<Symbol>, s: Symbol, deadline: int, capacity: nat)
    ensures var r := Admit(store, front, deadline, capacity).store;
            |Admit(store, front + [s], deadline, capacity).store|
            == |r| + (if s.code == "" || s in r || |r| >= capacity then 0 else 1)
  {
    Snoc(front, s);
    var r := Admit(store, front, deadline, capacity);
    AdmitKeys(store, front, deadline, capacity, s);
    SizeAfter(r.store, s, MaxInt(Deadline(r.store, s), deadline));
  }

  /** Newcomers get places until the capacity is reached. */
  lemma {:induction false} AdmitSize(store: Store, symbols: seq<Symbol>, deadline: int, capacity: nat)
    requires |store| <= capacity
    ensures |Admit(store, symbols, deadline, capacity).store| == MinInt(capacity, |store| + |Newcomers(store, symbols)|)
  {
    if symbols == [] {
      assert Newcomers(store, symbols) == {};
    } else {
      var front, s := symbols[..|symbols| - 1], symbols[|symbols| - 1];
      assert symbols == front + [s];
      AdmitSize(store, front, deadline, capacity);
      NewcomersSize(store, front, s);
      AdmitStep(store, front, s, deadline, capacity);
      AdmitKeys(store, front, deadline, capacity, s);
      if s in front && s.code != "" && s !in Admit(store, front, deadline, capacity).accepted {
        TurnedAwayOnlyWhenFull(store, front, deadline, capacity, s);
      }
    }
  }

  /** What expiry leaves behind. */
  lemma KeptExactly(store: Store, now: int, s: Symbol)
    ensures s in Without(store, Expired(store, now, [])) <==> s in store && store[s] >= now
  {
  }

  lemma AdmitOne(store: Store, s: Symbol, deadline: int, capacity: nat)
    ensures s in Admit(store, [s], deadline, capacity).accepted <==> s.code != "" && (s in store || |store| < capacity)
  {
    assert [s][..0] == [];
    assert Admit(store, [s][..0], deadline, capacity) == Admission(store, []);
  }

  lemma {:induction false} AcceptedStaysAccepted(store: Store, symbols: seq<Symbol>, n: nat, deadline: int,
                                                 capacity: nat, s: Symbol)
    requires n <= |symbols| && s in Admit(store, symbols[..n], deadline, capacity).accepted
    ensures s in Admit(store, symbols, deadline, capacity).accepted
  {
    if n == |symbols| {
      assert symbols[..n] == symbols;
    } else {
      var front := symbols[..|symbols| - 1];
      assert front[..n] == symbols[..n];
      AcceptedStaysAccepted(store, front, n, deadline, capacity, s);
    }
  }

  lemma {:induction false} FullStaysFull(store: Store, symbols: seq<Symbol>, n: nat, deadline: int,
                                         capacity: nat, s: Symbol)
    requires n <= |symbols| && |store| <= capacity && s !in Admit(store, symbols[..n], deadline, capacity).store
    requires |Admit(store, symbols[..n], deadline, capacity).store| == capacity
    ensures |Admit(store, symbols, deadline, capacity).store| == capacity
    ensures s !in Admit(store, symbols, deadline, capacity).store
  {
    if n == |symbols| {
      assert symbols[..n] == symbols;
    } else {
      var front := symbols[..|symbols| - 1];
      assert front[..n] == symbols[..n];
      FullStaysFull(store, front, n, deadline, capacity, s);
    }
  }

  /** A symbol that is first asked for at position i is turned away exactly when it is not watched
      and the watched symbols and the newcomers before it already take all places. */
  lemma TurnedAwayExactly(store: Store, symbols: seq<Symbol>, i: nat, deadline: int, capacity: nat)
    requires i < |symbols| && symbols[i] !in symbols[..i] && symbols[i].code != "" && |store| <= capacity
    ensures symbols[i] !in Admit(store, symbols, deadline, capacity).accepted
       <==> symbols[i] !in store && |store| + |Newcomers(store, symbols[..i])| >= capacity
  {
    var s := symbols[i];
    PlaceAt(store, symbols, i, deadline, capacity);
    if s in store || |store| + |Newcomers(store, symbols[..i])| < capacity {
      AcceptedStaysAccepted(store, symbols, i + 1, deadline, capacity, s);
    } else {
      FullStaysFull(store, symbols, i + 1, deadline, capacity, s);
      AdmitKeys(store, symbols, deadline, capacity, s);
    }
  }

  /** The symbol's own turn. */
  lemma PlaceAt(store: Store, symbols: seq<Symbol>, i: nat, deadline: int, capacity: nat)
    requires i < |symbols| && symbols[i] !in symbols[..i] && symbols[i].code != "" && |store| <= capacity
    ensures var s, r := symbols[i], Admit(store, symbols[..i + 1], deadline, capacity);
            if s in store || |store| + |Newcomers(store, symbols[..i])| < capacity then s in r.accepted
            else s !in r.store && |r.store| == capacity
  {
    AdmitSize(store, symbols[..i], deadline, capacity);
    AdmitKeys(store, symbols[..i], deadline, capacity, symbols[i]);
    assert symbols[..i + 1][..i] == symbols[..i];
  }

  // ---------- what a request and a listing leave, symbol by symbol ----------

  /** The watch of s after a request: kept when its deadline has not passed, and extended to the time to
      live of the request when s is accepted. */
  lemma RequestExactly(cfg: Config, store: Store, e: Event, s: Symbol)
    requires e.WatchRequested?
    ensures var r := Request(cfg, store, e);
            var kept := s in store && store[s] >= e.now;
            && (s in r.store <==> kept || s in r.accepted)
            && (s in r.store ==>
                  r.store[s] == (if s !in r.accepted then store[s]
                                 else MaxInt(if kept then store[s] else 0, e.now + e.ttl)))
  {
    var left := Without(store, Expired(store, e.now, []));
    KeptExactly(store, e.now, s);
    AdmitDeadline(left, e.symbols, e.now + e.ttl, Capacity(cfg, e.lot), s);
    AdmitKeys(left, e.symbols, e.now + e.ttl, Capacity(cfg, e.lot), s);
  }

  lemma {:induction false} AdmitDeadline(store: Store, symbols: seq<Symbol>, deadline: int, capacity: nat, s: Symbol)
    ensures var r := Admit(store, symbols, deadline, capacity);
            s in r.store ==> (s in r.accepted || s in store)
                             && r.store[s] == (if s !in r.accepted then store[s]
                                               else MaxInt(if s in store then store[s] else 0, deadline))
  {
    if symbols == [] {
    } else {
      AdmitDeadline(store, symbols[..|symbols| - 1], deadline, capacity, s);
      AdmitKeys(store, symbols[..|symbols| - 1], deadline, capacity, s);
    }
  }

  /** A symbol that finds a place at the end of a request was not named before. */
  lemma NotYetNamed(store: Store, front: seq<Symbol>, deadline: int, capacity: nat, s: Symbol)
    requires |store| <= capacity && s.code != ""
    requires var r := Admit(store, front, deadline, capacity);
             s !in r.accepted && (s in r.store || |r.store| < capacity)
    ensures s !in front
  {
    if s in front { TurnedAwayOnlyWhenFull(store, front, deadline, capacity, s); }
  }

  /** Position k of the request names its i-th accepted symbol for the first time, after the ones before. */
  ghost predicate NamedAt(symbols: seq<Symbol>, accepted: seq<Symbol>, i: nat, k: nat) {
    && i < |accepted| && k < |symbols| && symbols[k] == accepted[i] && accepted[i] !in symbols[..k]
    && forall j :: 0 <= j < i ==> accepted[j] in symbols[..k]
  }

  /** The accepted symbols are listed once each, in the order in which the request first names them. */
  lemma {:induction false} AcceptedInOrder(store: Store, symbols: seq<Symbol>, deadline: int, capacity: nat, i: nat)
      returns (k: nat)
    requires |store| <= capacity && i < |Admit(store, symbols, deadline, capacity).accepted|
    ensures NamedAt(symbols, Admit(store, symbols, deadline, capacity).accepted, i, k)
  {
    var last := |symbols| - 1;
    var front, s := symbols[..last], symbols[last];
    var r := Admit(store, front, deadline, capacity).accepted;
    if i < |r| {
      k := AcceptedInOrder(store, front, deadline, capacity, i);
      assert front[..k] == symbols[..k] && symbols[k] == front[k];
    } else {
      k := last;
      NotYetNamed(store, front, deadline, capacity, s);
      forall j | 0 <= j < i ensures r[j] in front { AdmitKeys(store, front, deadline, capacity, r[j]); }
    }
  }

  /** Adding the static symbols is a request for them. */
  lemma {:induction false} StaticsAsRequest(store: Store, statics: seq<Symbol>, deadline: int, capacity: nat)
    requires forall k :: 0 <= k < |statics| ==> statics[k].code != ""
    ensures AddStatics(store, statics, deadline, capacity) == Admit(store, statics, deadline, capacity).store
  {
    if statics == [] {
    } else {
      var front, s := statics[..|statics| - 1], statics[|statics| - 1];
      StaticsAsRequest(store, front, deadline, capacity);
      AdmitDeadline(store, front, deadline, capacity, s);
      var r := Admit(store, front, deadline, capacity);
      if s in r.accepted {
        AdmitKeys(store, front, deadline, capacity, s);
        assert r.store[s := MaxInt(Deadline(r.store, s), deadline)] == r.store;
      }
    }
  }

  lemma {:induction false} StaticsOnly(store: Store, statics: seq<Symbol>, deadline: int, capacity: nat, s: Symbol)
    requires s !in statics
    ensures var r := AddStatics(store, statics, deadline, capacity);
            (s in r <==> s in store) && (s in r ==> r[s] == store[s])
  {
    if statics == [] {
    } else {
      StaticsOnly(store, statics[..|statics| - 1], deadline, capacity, s);
    }
  }

  /** A listing expires the watches that are not static and whose deadline has passed. */
  lemma ListExpires(cfg: Config, store: Store, e: Event, s: Symbol)
    requires e.ActiveListed?
    ensures var statics := if e.lot == Odd then [] else cfg.statics;
            s in Expired(WithStatics(cfg, store, e.lot, e.now), e.now, Statics(cfg, e.lot))
            <==> s in store && store[s] < e.now && s !in statics
  {
    if s !in Statics(cfg, e.lot) {
      StaticsOnly(store, Statics(cfg, e.lot), e.now + MaxInt(cfg.watchTtl, STATIC_TTL), Capacity(cfg, e.lot), s);
    }
  }

  /** The watch of s after a listing. A symbol that is not static is kept when its deadline has not passed.
      A static one is watched exactly when it was watched, or the watches and the static symbols before
      it that needed a place leave one; then for another hour, or the watch time to live if that is more. */
  lemma ListExactly(cfg: Config, store: Store, e: Event, s: Symbol, i: nat)
    requires e.ActiveListed? && |store| <= Capacity(cfg, e.lot)
    requires var statics := if e.lot == Odd then [] else cfg.statics;
             && (forall k :: 0 <= k < |statics| ==> statics[k].code != "")
             && (s in statics ==> i < |statics| && statics[i] == s && s !in statics[..i])
    ensures var statics := if e.lot == Odd then [] else cfg.statics;
            var capacity := if e.lot == Odd then cfg.oddCapacity else cfg.boardCapacity;
            var r := ListActive(cfg, store, e);
            if s !in statics then
              (s in r <==> s in store && store[s] >= e.now) && (s in r ==> r[s] == store[s])
            else
              && (s in r <==> s in store || |store| + |Newcomers(store, statics[..i])| < capacity)
              && (s in r ==>
                    r[s] == MaxInt(if s in store then store[s] else 0, e.now + MaxInt(cfg.watchTtl, 3_600_000)))
  {
    var statics, capacity := Statics(cfg, e.lot), Capacity(cfg, e.lot);
    var deadline := e.now + MaxInt(cfg.watchTtl, STATIC_TTL);
    if s !in statics {
      StaticsOnly(store, statics, deadline, capacity, s);
    } else {
      StaticsAsRequest(store, statics, deadline, capacity);
      TurnedAwayExactly(store, statics, i, deadline, capacity);
      AdmitKeys(store, statics, deadline, capacity, s);
      AdmitDeadline(store, statics, deadline, capacity, s);
    }
  }
}
