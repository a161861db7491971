# StockVision: verified models of five cores

This project models the parts of StockVision whose correctness is hard to see from one function
body, and proves what those parts promise, for all inputs and over all runs.

**CI shard packing and the failure gate.** `ShardPacking` is the longest-first packing of the
controller tests onto CI runners, with the bound of Graham against every other assignment, and
`PackingTightness` the family of file lists that attains it for every number of runners. `CiGate` is
the gate over several scripts and several runs: merge, rerun, compare, cache.

**The realtime quote proxy.** The state of the proxy changes only inside regions under one lock, so
a run is an arbitrary list of regions (`ProxyEvents`), in which callbacks of old and new sessions may
come at any point. `StopLatch`, `MinuteBars`, `WatchStore`, `RecoveryBackoff` and `OrderBook` each
define one part of the state as a function of the run and prove what holds after every run.
`QuoteProxy` is the mutable object: each method is one region and its contract gives the whole new
state, `Replay` shows that any interleaving leaves the fields at what those functions say, and
`AnswerOrderbook` is a request whose nine reads are separated by arbitrary regions of other threads.
`ServedBook` states the whole answer of a request on the events of the run alone. `SdkLanes` is the
finer protocol of the two single-permit lanes in front of the broker SDK.

**The local backtest.** `Backtest` is the trade simulator, `EquityRisk` equity curves and drawdown,
`TailRisk` the lower-tail mean, the cohort join and the tail gates of the promotion report, `Pbo` the
combinatorial overfitting count. Prices and returns are reals.

**Warm-up bars.** `Warmup` rebuilds the last six one-minute bars of a session from ticks,
`WarmupPayload` says what each of them is in terms of the payload lines, and `QueryPermit` is the
release-exactly-once protocol of the query that supplies them.

**Indicators and the OOF job.** `Indicators` is the indicator backfill, whose per-prefix loop is
shown equal to a one-pass computation. `OofJob` is the decision tree of the OOF job, its lifecycle
functions and the chain of continuations the Worker builds from its callbacks, through a queue that
may delay, renumber or lose them.

For the main operations a law states the result on the inputs themselves, with the numbers
written out and none of the functions that compute it: when a session is up, which book is cached,
how long a backoff is, where a simulated trade enters and exits, which lines make a bar, when a
coverage is fresh.

`Common` holds results, sums and facts about permutations. `dafny verify dfyconfig.toml` checks the
project.

Modelling conventions: times are integer milliseconds (minutes where the code works in minutes) on
the Taiwan clock, configuration values are constants of a run, and everything that comes from
outside (files, clocks, the SDK, pytest, unseen services) is a parameter that may take any value.
Loops and objects that the source changes in place are methods and a class; a method is tied to a
function of its inputs or of the old state, and the lemmas speak about that function.

Where the code does not meet a property it might be expected to meet, the model keeps the code:

- A recovery record may have two attempts in flight when a reset or an expiry drops the record while
  an attempt runs (`ResetAllowsSecondAttempt`); `SingleFlightExactly` gives the exact condition.
- A request may be answered with a book of an older session when a login falls between its comparison
  of the epoch and its heartbeat (`OlderSessionServed`); `CurrentExactly` gives the exact condition.
- A late tick splits a minute in two bars (`LateTickSplitsAMinute`); `BarsAreGroupedTicks` shows that
  ticks going back to an earlier minute are the only cause.
- A time stop of zero exits one bar before it enters (`ZeroTimeStopBreaksBand`); `BandExactly` shows
  that every larger time stop is safe.
- Better returns may deepen a drawdown when a date loses more than everything (`OverdraftDeepens`), so
  a positive delta may fail the drawdown gate of the promotion report (`PositiveDeltaFailsGate` gives
  the cohort); `DrawdownMonotoneExactly` and `DrawdownGateExactly` show that a floor of -1 is exactly
  what is needed.
- A NAV that never recovers may end later than attempt 12, because a message that meets a busy job is
  enqueued again with the next number (`CollisionPassesTwelve` is a run that goes from attempt 11 to
  13); `UnrecoveredNavEnds` gives the exact condition. A chain of continuations has no bound on its
  length when messages may be parked any number of times, because a parked message comes back with
  number 1 (`ParkingUnbounds`); `ChainBounded` bounds it by the number of parkings.
- In the OOF job the statuses pending and spawned of the skipped branch are never reported as skipped
  (contract of `DecideLifecycle`), and the id comparison of the cohort join can never fail
  (`JoinKeepsIds`).

## Model

| member | source | states |
|---|---|---|
| ShardPacking.WeightTable | ci/shard_controller.py:20-24 | every listed file gets a weight and nothing else does |
| ShardPacking.WeightsExactly | ci/shard_controller.py:20-24 | a recorded file weighs its record, whatever it is; the others weigh the mean of the positive records, or one second when there are none |
| ShardPacking.DefaultWeightPositive | ci/shard_controller.py:22-23 | the weight of an unrecorded file is strictly positive for every durations table |
| ShardPacking.WeightsOfNewFiles | ci/shard_controller.py:22-24 | non-negative records give non-negative weights, and unrecorded files always weigh something, so new tests spread out |
| ShardPacking.SortFilesSorted | ci/shard_controller.py:29 | the processing order is heaviest first, ties by path |
| ShardPacking.StringLeExactly | ci/shard_controller.py:29 | the path order is lexicographic: a prefix, or smaller at the first place where the two differ |
| ShardPacking.PackingOrderUnique | ci/shard_controller.py:28-29 | that order is determined by the set of files alone |
| ShardPacking.LightestShard | ci/shard_controller.py:30 | the chosen shard has the least load, and the least index among those |
| ShardPacking.PackInOrder | ci/shard_controller.py:26-32 | after the in-place loop, each file sits on the shard that was lightest (first on ties) when its turn came, and `loads` are the resulting sums |
| ShardPacking.PackShards | ci/shard_controller.py:26-32 | the same for the sorted file list |
| ShardPacking.ShardFiles | ci/shard_controller.py:15-33 | usage error exactly outside 1..N; otherwise the printed list is what the packing assigns to this shard, in file order |
| ShardPacking.PackingLoads | ci/shard_controller.py:26-32 | `owner` covers exactly the files with shards 1..N, and `loads[k]` is the weight owned by shard k + 1 |
| ShardPacking.LargeLastItem | ci/shard_controller.py:29-32 | if the last file weighs more than a third of a bound M met by some assignment, greedy stays within M itself (files N + r and N - r + 1 must fit together) |
| ShardPacking.SmallLastItem | ci/shard_controller.py:29-32 | if it weighs at most a third, the average argument gives the 4/3 - 1/(3N) factor |
| ShardPacking.LptSequence | ci/shard_controller.py:29-32 | bound of Graham (1969) for every list of weights in descending order, every greedy assignment and every competing assignment |
| ShardPacking.LongestFirstBound | ci/shard_controller.py:24-32 | for every file list, non-negative weights, N >= 1 and any other assignment A of the files: 3 N max(loads) <= (4 N - 1) makespan(A) |
| PackingTightness.FactorAttained | ci/shard_controller.py:24-32 | for every N the factor is attained: there are 2N + 1 files and weights on which what the loop leaves behind has makespan 4N - 1, while another assignment of the same files has makespan 3N |
| ShardPacking.RunnersAgree | ci/shard_controller.py:28-32 | runners that list the same files in different orders compute the same partition and loads |
| ShardPacking.ShardsPartition | ci/shard_controller.py:33 | each file is printed by exactly one of the runners 1..N, and the lists together have the length of the file list |
| CiGate.InShardUnion | ci/merge_shards.py:19 | an id is in the merged list exactly when some shard reported it |
| CiGate.MergeUndoesSharding | ci/merge_shards.py:13-22 | running each shard and merging yields exactly the failure list of the unsharded suite, for any partition |
| CiGate.MissingShardBlocks | ci/merge_shards.py:15-18 | one missing head shard leaves the head list absent, and the gate is then not clean |
| CiGate.Rerun | ci/rerun_new_failures.py:54-68 | flaky is exactly the set of listed ids that passed the first or the second rerun; ids without a test node are never flaky when pytest reports only what it ran |
| CiGate.PassedExactly | ci/rerun_new_failures.py:54-68 | a listed id passed a rerun exactly when the run of all listed nodes reports it, or the second run, of the nodes of the ids the first did not report |
| CiGate.RowPartitionsHead | ci/compare_failures.py:36-38 | pre-existing, new and flaky partition the head failures: pre-existing are those of the base, the others are not in the base, flaky are listed as flaky and new are not; fixed are the base failures that the head lacks; new is empty exactly when the suite is clean |
| CiGate.Compare | ci/compare_failures.py:28-42 | not blocked exactly when every suite reported and every head failure is known or flaky; the rows are those of the suites in order |
| CiGate.PackBase | ci/base_cache.py:21-38 | something is written exactly when all head lists exist without infrastructure failures, and then it is each head list minus the flaky ids |
| CiGate.InfrastructureExactly | ci/base_cache.py:14 | an id is an infrastructure failure exactly when it ends in one of three messages after a colon, or has a colon and a space and later ends in the missing report |
| CiGate.PushToMain | ci/base_cache.py:1-8 | a push gates and, when green, packs the head lists minus the flaky ids of this very run |
| CiGate.GateRun | ci/compare_failures.py:28-42 | merge, list, rerun and compare as one run: what green means in terms of the merged lists and the reruns |
| CiGate.GreenGate | ci/compare_failures.py:30-39 | the gate over sharded artifacts is green if and only if every suite reported, every other-suite failure is in the base, and every controller failure of the unsharded head is in the base or is a controller id that passed one of two reruns; the base is that of the unsharded run when all its shards reported, and otherwise the list of an unsharded base, empty when absent |
| CiGate.CachedBaseKeepsRegressionsVisible | ci/base_cache.py:25-37 | over two runs, the later base restored from what packing wrote in the earlier one: a failure is new exactly when it was not a steady failure of the earlier head and passes no rerun now; an id dropped as flaky blocks once it fails on head and on both reruns |
| ProxyEvents.EpochCountsLogins | shioaji-proxy/main.py:872-876 | the epoch never decreases, stays equal exactly while no login happens, and poisoning is permanent |
| ProxyEvents.EpochAndPoison | shioaji-proxy/main.py:872-876 | after every run the epoch is the number of logins, and the process is poisoned exactly when the run has a poisoning |
| ProxyEvents.UpExactly | shioaji-proxy/main.py:828-845 | over every run the quote session is up exactly when some login, or some heard event with code 0 or 13, has none of these after it: a lost login, an effective reset, a heard event with code 1, 2 or 12 |
| ProxyEvents.ClearsExactly | shioaji-proxy/main.py:1114-1118 | a reset clears exactly when it comes at least the cooldown after the last clearing reset, or after time zero when there was none |
| StopLatch.LazyExpiry | shioaji-proxy/main.py:747-755 | what a tick finds in the watch map is the last valid registration of the symbol, if it has not expired: lazy deletion never changes the answer |
| StopLatch.LatchExact | shioaji-proxy/main.py:788-825 | over every run an intent key is latched if and only if some accepted tick with a positive price at or below the stop arrived while its watch was the active one |
| StopLatch.FirstTriggerRecorded | shioaji-proxy/main.py:793-813 | the latched price, stop, version and epoch are those of the first such tick |
| StopLatch.LatchOnEvents | shioaji-proxy/main.py:747-825 | the same on the events of the run: a key is latched exactly when a heard tick with a positive price at or below the stop found a valid registration of its symbol that was the last one before it and had not run out |
| StopLatch.RecordedOnEvents | shioaji-proxy/main.py:800-813 | the record holds price, source time, arrival and epoch of the first such tick and stop, shares and version of that registration |
| StopLatch.LatchSticky | shioaji-proxy/main.py:797-799 | nothing later removes or changes a latched breach |
| StopLatch.NoLatchAfterPoison | shioaji-proxy/main.py:891-892 | no breach is recorded after poisoning |
| MinuteBars.DequeIsTail | shioaji-proxy/main.py:348-377 | the deque is the last 360 of the bars an unbounded list would hold, whatever order ticks arrive in |
| MinuteBars.SessionTickExactly | shioaji-proxy/main.py:348-357 | a heard, priced tick of the symbol counts exactly from 09:00 to before 13:30 of its exchange time, or of its arrival without one, in the minute that contains that time; nothing else counts |
| MinuteBars.SummaryMeaning | shioaji-proxy/main.py:358-376 | high and low of a bar are bounds of its prices and are attained |
| MinuteBars.BarsAreGroupedTicks | shioaji-proxy/main.py:348-377 | for every run, the bars are the group-by-minute of the in-session ticks (first, max, min, last, summed volume) if and only if no tick goes back to an earlier minute |
| MinuteBars.LateTickSplitsAMinute | shioaji-proxy/main.py:358-367 | a concrete run, its clock never running backwards, whose deque ends with two bars of one minute around a bar of the minute before |
| MinuteBars.CompletedNeverChange | shioaji-proxy/main.py:380-392 | bars returned as completed never change while retained, provided later ticks are not stamped before the current minute |
| MinuteBars.CompletedExactly | shioaji-proxy/main.py:380-392 | the completed bars are, in order, exactly the bars of the deque before the current minute and on the requested days |
| MinuteBars.NoBarsAfterPoison | shioaji-proxy/main.py:891-895 | no bar changes after poisoning |
| WatchStore.WithinCapacity | shioaji-proxy/main.py:578-643 | in every run each watch store stays within its capacity |
| WatchStore.RequestExactly | shioaji-proxy/main.py:589-619 | after a request the store holds exactly the unexpired entries and the accepted symbols, each accepted one until the later of its old deadline and now plus the TTL |
| WatchStore.AcceptedInOrder | shioaji-proxy/main.py:594-619 | every accepted symbol is named by the request, and the list keeps the order of the first mentions |
| WatchStore.ListExactly | shioaji-proxy/main.py:627-643 | a listing drops exactly the expired entries that are not static, and watches a static symbol exactly when it was watched or there was room at its turn, for at least an hour |
| WatchStore.AcceptedStaysWatched | shioaji-proxy/main.py:611-618 | an accepted symbol stays watched until its accept time plus TTL: requests, listings, resets and logins in between can only extend the deadline |
| WatchStore.TurnedAwayExactly | shioaji-proxy/main.py:598-618 | a symbol is turned away exactly when it is not watched and the watched symbols and the newcomers asked for before it already take all places |
| RecoveryBackoff.KeyStep | shioaji-proxy/main.py:1048-1097 | how each region changes one recovery record, with the next attempt written out, and which regions leave it alone |
| RecoveryBackoff.ConfirmsExactly | shioaji-proxy/main.py:940-949 | a count is ended exactly by a heard two-sided book of the same lot and symbol |
| RecoveryBackoff.DropsExactly | shioaji-proxy/main.py:590-593 | a record is dropped exactly by an effective reset or when its watch has expired at a request, or at a listing that does not hold it as static |
| RecoveryBackoff.CountedExactly | shioaji-proxy/main.py:1059-1097 | the failure count of a record is the number of attempts since the last confirmation, drop or market close, and at zero an attempt is due at any time |
| RecoveryBackoff.AttemptGap | shioaji-proxy/main.py:1059-1070 | consecutive attempts f and f + 1 of a key are at least the gap of f apart: the first gap is the cooldown, each next one twice the one before, none above 120 s |
| RecoveryBackoff.NextAttemptExactly | shioaji-proxy/main.py:1059-1070 | after attempt f, and until its record is restarted, a request starts the next attempt exactly when the running one has finished and the gap of f is over |
| RecoveryBackoff.BackoffIsGeometric | shioaji-proxy/main.py:1062-1068 | n + 1 consecutive attempts without restart take at least the sum of the first n gaps |
| RecoveryBackoff.GapIsPower | shioaji-proxy/main.py:1064-1068 | below the cap the gap of attempt f is c 2^(f-1) |
| RecoveryBackoff.UncappedRun | shioaji-proxy/main.py:1062-1068 | n + 1 attempts from the first, with all n gaps below the cap, take at least c (2^n - 1) |
| RecoveryBackoff.SingleFlightExactly | shioaji-proxy/main.py:1059-1069 | no request can ever start a second attempt beside a running one if and only if no expiry or reset drops the record while an attempt runs |
| RecoveryBackoff.ResetAllowsSecondAttempt | shioaji-proxy/main.py:1115-1116 | a concrete run with two attempts of one symbol in flight, a reset between them |
| OrderBook.HeartbeatWithin | shioaji-proxy/main.py:200-211 | the heartbeat age is at most ten seconds exactly when some market callback of this session arrived within ten seconds with a plausible source time |
| OrderBook.AcceptsExactly | shioaji-proxy/main.py:578-619 | the watch region of a request accepts its symbol exactly when it is not blank and either still watched or there is room once expired entries are gone |
| OrderBook.ServedExactly | shioaji-proxy/main.py:1801-1852 | the exact conditions of a 200 order book, each at the moment it is read: connected, watch accepted, both sides, live subscription, the book's own epoch, session up, same-day source, and either recently confirmed or a static book with a live stream and no contradicting tick |
| OrderBook.ConnectedExactly | shioaji-proxy/main.py:872-876 | connected exactly while some login has not been followed by a lost login, an effective reset or the first poisoning |
| OrderBook.RefusedWhileDown | shioaji-proxy/main.py:1801-1802 | after such a loss every new request is refused until the next login |
| OrderBook.CachedBookWritten | shioaji-proxy/main.py:903-950 | every cached book was written by a callback of the then current session after the last cache clear |
| OrderBook.ServedBookOrigin | shioaji-proxy/main.py:903-950 | over every interleaving of regions between the reads, a served book was written before the pick with no cache clear in between, by a callback of the session whose epoch the request compared, after the last login before that comparison; nothing took the connection down between that login and the gate |
| OrderBook.CurrentExactly | shioaji-proxy/main.py:232-246 | at any later moment, the heartbeat, the tick and the end of the request included, the served book is of the current session if and only if no login came after the epoch was compared |
| OrderBook.OlderSessionServed | shioaji-proxy/main.py:232-258 | a concrete run in which a login between the epoch comparison and the heartbeat makes the new session's heartbeat back the old session's book |
| OrderBook.NoQuotesAfterPoison | shioaji-proxy/main.py:906-907 | tick and book caches are frozen after poisoning, except that a reset may still empty them |
| ServedBook.CachedBookExactly | shioaji-proxy/main.py:903-950 | the cached book of a key is that of the last book callback heard for it with no cache clear since, and there is none exactly when there is no such callback |
| ServedBook.CachedTickExactly | shioaji-proxy/main.py:888-895 | the same for ticks |
| ServedBook.SubscribedExactly | shioaji-proxy/main.py:1024-1036 | a key is subscribed exactly when some subscription has neither been undone nor cleared since |
| ServedBook.AnswerOnEvents | shioaji-proxy/main.py:1790-1852 | the whole answer on the events of the run: refused without an open connection or an accepted watch, waiting without a book heard since the last clear, and otherwise decided by the last such book, by sides, subscription, session, day, age, heartbeat and the last tick, each at the moment it is read |
| ServedBook.RefusedWhileSessionDown | shioaji-proxy/main.py:842-845 | from a lost login, an effective reset or a heard event 1, 2 or 12 until the next login or heard event 0 or 13, no request that reads the flag there is answered with a book |
| QuoteProxies.StateAfter | shioaji-proxy/main.py:858-956 | the per-topic functions of the run together are the state after it, one region at a time |
| QuoteProxies.QuoteProxy.constructor | shioaji-proxy/main.py:855-880 | a fresh process is in the initial state |
| QuoteProxies.QuoteProxy.LoginSucceeded | shioaji-proxy/main.py:872-877 | new epoch, connected, session up; everything else unchanged |
| QuoteProxies.QuoteProxy.LoginFailed | shioaji-proxy/main.py:952-955 | connected and session up are cleared; everything else unchanged |
| QuoteProxies.QuoteProxy.OnSessionEvent | shioaji-proxy/main.py:828-848 | codes 0 and 13 raise, 1, 2 and 12 lower the session flag, only for the current epoch and before poisoning, as `ProxyEvents.UpExactly` says over whole runs |
| QuoteProxies.QuoteProxy.ClearForReset | shioaji-proxy/main.py:1107-1125 | outside the cooldown the caches, subscriptions and recovery records are emptied and the flags lowered, nothing else; within it nothing changes |
| QuoteProxies.QuoteProxy.Poison | shioaji-proxy/main.py:403-419 | the first poisoning disconnects, later ones change nothing |
| QuoteProxies.QuoteProxy.SubscriptionAdded | shioaji-proxy/main.py:1035-1036 | one subscription is added |
| QuoteProxies.QuoteProxy.SubscriptionDiscarded | shioaji-proxy/main.py:1024-1025 | one subscription is removed |
| QuoteProxies.QuoteProxy.UpdateMinuteBar | shioaji-proxy/main.py:348-377 | the deque of the symbol is updated in place as the specification function says, for in-session ticks only |
| QuoteProxies.QuoteProxy.LatchStopBreach | shioaji-proxy/main.py:788-825 | watches and breaches after one tick |
| QuoteProxies.QuoteProxy.OnTick | shioaji-proxy/main.py:888-901 | the whole state after a tick callback: cache, bars and latch move together or not at all |
| QuoteProxies.QuoteProxy.OnBidAsk | shioaji-proxy/main.py:904-950 | the whole state after a book callback, including the recovery confirmation |
| QuoteProxies.QuoteProxy.RegisterStopWatch | shioaji-proxy/main.py:1543-1559 | a valid item replaces the watch of its symbol, an invalid one changes nothing |
| QuoteProxies.QuoteProxy.WatchOrderbookSymbols | shioaji-proxy/main.py:578-619 | store, recovery records and accepted list after a watch request |
| QuoteProxies.QuoteProxy.ActiveWatchSymbols | shioaji-proxy/main.py:622-643 | store and recovery records after a listing, and the symbols listed |
| QuoteProxies.QuoteProxy.MarkRecovery | shioaji-proxy/main.py:1048-1071 | an attempt starts exactly when the record is due, with the next failure count f and the next attempt one gap of f later, where gaps double from the cooldown up to 120 s |
| QuoteProxies.QuoteProxy.FinishRecovery | shioaji-proxy/main.py:1074-1083 | the flag is lowered, and outside market hours the count restarts |
| QuoteProxies.QuoteProxy.HeartbeatAgeMs | shioaji-proxy/main.py:200-211 | the loop over the three caches finds the age of the newest valid callback |
| QuoteProxies.QuoteProxy.EnterRequest | shioaji-proxy/main.py:1801-1811 | gate and watch region of a request among other threads: 503 without a connection, 429 without a watch |
| QuoteProxies.QuoteProxy.ReadAll | shioaji-proxy/main.py:1812-1822 | the pick and the six reads of the freshness test, each after arbitrary regions of other threads, see the state of their own moment |
| QuoteProxies.QuoteProxy.AnswerOrderbook | shioaji-proxy/main.py:1790-1852 | a request with arbitrary regions of other threads before each of its nine reads answers what `OrderBook.Answer` gives for that run, so the theorems above hold of the object, `ServedBook.AnswerOnEvents` included |
| QuoteProxies.QuoteProxy.CompletedBars | shioaji-proxy/main.py:380-392 | the completed bars of the requested days, at most the limit, the newest kept |
| QuoteProxies.QuoteProxy.Apply | shioaji-proxy/main.py:858-956 | any one region |
| QuoteProxies.QuoteProxy.RunOthers | shioaji-proxy/main.py:858-956 | any list of regions, from any reachable state |
| QuoteProxies.QuoteProxy.Replay | shioaji-proxy/main.py:858-956 | any interleaving of regions leaves the fields at what the functions of the run say, so all run theorems hold of the object |
| SdkLanes.StepShape | shioaji-proxy/main.py:428-506 | each action changes at most one call, its permit, the session lock and the in-flight flag in step |
| SdkLanes.RunInvariant | shioaji-proxy/main.py:428-506 | every reachable state of the two lanes, for any number of callers, satisfies the lane invariant |
| SdkLanes.PermitsBalance | shioaji-proxy/main.py:434-446 | free permits plus outstanding calls equal one per lane, acquires equal releases plus the outstanding call, and the in-flight flag implies the permit is held |
| SdkLanes.OneClosureAtATime | shioaji-proxy/main.py:438-443 | at most one SDK closure runs at any time over both lanes |
| SdkLanes.OnlyTheCallbackFrees | shioaji-proxy/main.py:490-506 | once a closure was picked up only its own done callback frees the lane; a timeout never does |
| SdkLanes.ReleasedIsFinal | shioaji-proxy/main.py:446-447 | a released call stays released: its closure never runs again |
| SdkLanes.ReturnedExactlyOnce | shioaji-proxy/main.py:446-447 | over every run the permit of a call is given back once if the call is released, and not at all before |
| SdkLanes.NoPermitLeaks | shioaji-proxy/main.py:438-506 | from every reachable state at most seven further operations of the owner alone give a held permit back |
| SdkLanes.Served | shioaji-proxy/main.py:428-506 | a new call that finds its permit and the session lock free, in a process that is not poisoned, gets its closure run by its own operations and gives the permit back |
| SdkLanes.TurnedAway | shioaji-proxy/main.py:432-437 | a new call is turned away when the permit is taken or the process is poisoned |
| SdkLanes.RejectedIsFinal | shioaji-proxy/main.py:432-437 | a call that was turned away never runs |
| SdkLanes.PoisonedExactly | shioaji-proxy/main.py:449-465 | the process is poisoned exactly when it was poisoned outright or the caller of a submitted broker call gave up waiting; a streaming timeout never poisons |
| Warmup.CollectTrades | shioaji-research/main.py:205-221 | accepted trades in payload order, or an error exactly when some row is invalid |
| Warmup.FillBuckets | shioaji-research/main.py:223-234 | one bucket per tail minute with trades, each the summary of its trades, and the last price before the tail |
| Warmup.CarryForward | shioaji-research/main.py:237-243 | carrying the close forward is the same as taking the last trade before the minute |
| Warmup.BuildRows | shioaji-research/main.py:235-246 | the row loop yields the bar of each of its minutes or the seed error |
| Warmup.WarmupBars | shioaji-research/main.py:189-246 | missing and unequal columns are reported, otherwise sort, bucket and carry forward |
| Warmup.SeedMissingExactly | shioaji-research/main.py:240-241 | seed-missing is raised if and only if no accepted trade precedes 13:20 |
| Warmup.RowsWellFormed | shioaji-research/main.py:235-245 | exactly the consecutive minutes ending 13:20 .. 13:25, each well formed, each its trades summarized or flat at the last earlier trade |
| Warmup.VolumeConserved | shioaji-research/main.py:223-245 | the rows carry the volume of all accepted tail trades |
| Warmup.WarmupPromise | shioaji-research/main.py:189-246 | from payload to rows: six consecutive minutes, each row the well-formed bar of its minute over the sorted trades and with exactly the volume the accepted trades of the payload have in that minute, all together the volume of the tail; or the seed error exactly when no accepted trade precedes 13:20 |
| WarmupPayload.FirstError | shioaji-research/main.py:209-218 | the first line that cannot be read decides the error: no time, no positive price or no non-negative volume, otherwise a flag that is neither 0 nor 1 |
| WarmupPayload.CollectedExactly | shioaji-research/main.py:209-220 | the accepted trades are exactly the lines without the simulation flag, with a positive volume, from 09:00 to before 13:25 of the day |
| WarmupPayload.RowsOnPayload | shioaji-research/main.py:200-246 | each of the six rows on the payload: the bar of the lines that count in its minute (first, highest, lowest, last, volume), or flat at the price of the last line that counts before it, when some line counts before 13:20; otherwise the seed error |
| Warmup.TiesKeepPayloadOrder | shioaji-research/main.py:221 | trades are sorted by time, and trades with equal timestamps stay in payload order |
| Warmup.CollectedLines | shioaji-research/main.py:209-221 | collecting fails exactly when some line of the payload is invalid, and otherwise yields the trades of its lines |
| Warmup.OrderDoesNotMatter | shioaji-research/main.py:209-246 | permuting the lines of a payload: both are refused or neither, the accepted trades agree up to position, and with distinct accepted timestamps the result is the same |
| QueryPermit.AtMostOneQueryAlive | shioaji-research/main.py:253-266 | at most one warm-up query is alive, and while it is every new request is turned away, even after its caller timed out |
| QueryPermit.ReleasedExactlyOnce | shioaji-research/main.py:255-271 | each admitted call gives the permit back exactly once, by the caller or by the done callback |
| QueryPermit.PermitNeverLeaks | shioaji-research/main.py:258-271 | from every reachable state at most four further operations of the owner give a held permit back |
| QueryPermit.EveryCourseEnds | shioaji-research/main.py:253-271 | each of the five courses of a new call (answered, given up before or after the query started or just as it ended, never submitted) ends with the permit back, given back once |
| QueryPermit.LateQueryHolds | shioaji-research/main.py:258-266 | after its caller left on a timeout a running query still holds the permit |
| Backtest.RollingMeanIsWindowMean | scripts/run_backtest_local.py:31-37 | the difference of prefix sums is the mean of the window |
| Backtest.RollingMeanStable | scripts/run_backtest_local.py:31-37 | appending values does not change earlier means |
| Common.TrueRangeIsSpan | scripts/run_backtest_local.py:80-83 | the true range is the span of low, high and previous close |
| Backtest.FindExit | scripts/run_backtest_local.py:102-125 | the inner loop returns the first triggered exit or the time stop |
| Backtest.Round | scripts/run_backtest_local.py:92-139 | one round of the outer loop advances and yields the next trade of the specification |
| Backtest.SimulateSymbol | scripts/run_backtest_local.py:71-141 | the nested loops terminate and return the specified trades with their net returns, 0.00585 below the relative price change |
| Backtest.HistoryIsNeverRewritten | scripts/run_backtest_local.py:71-141 | the trades of a history are a prefix of the trades of any longer history |
| Backtest.SimulatorMeetsSpec | scripts/run_backtest_local.py:71-141 | the trade list satisfies a description on the bars alone: every entry is the next bar from index 30 on whose close is above the mean of the last 20 closes and whose volume is at least 1.2 times its mean; with A the mean of the last 14 true ranges, every trade ends at the first bar that touches 0.88 of the entry, entry - A slMult or entry + A tpMult, in that order and at that price, or at the time stop; entries are at least five bars after the previous exit |
| Backtest.SimulatorExactly | scripts/run_backtest_local.py:71-141 | and it is the only such list; below 60 bars there are no trades |
| Backtest.TradeExitsFirst | scripts/run_backtest_local.py:107-125 | each trade exits at the first bar that touches 0.88 of the entry, the stop entry - A slMult or the target entry + A tpMult, in that order and at that price, or at the close of the time stop; every bar before it touches none of the three |
| Backtest.ExitPriceBand | scripts/run_backtest_local.py:97-127 | on sound bars every exit price, time stops included, lies between 0.88 of the entry and the target, and the net return is at least -0.12585 |
| Backtest.EveryTradeInBand | scripts/run_backtest_local.py:90-139 | the band and the five-bar distance hold for all trades of a run |
| Backtest.ZeroTimeStopBreaksBand | scripts/run_backtest_local.py:102-105 | a sound frame on which a time stop of zero exits one bar before its entry and loses half |
| Backtest.BandExactly | scripts/run_backtest_local.py:90-139 | for non-negative multipliers the band holds on all sound frames if and only if the time stop is at least one bar |
| Pbo.CombinationsComplete | scripts/run_backtest_local.py:226-227 | the enumeration contains exactly the choices of k out of n |
| Pbo.CombinationsDistinct | scripts/run_backtest_local.py:226-227 | no choice is listed twice |
| Pbo.ComplementReverses | scripts/run_backtest_local.py:226-229 | complementing maps the enumeration of k onto that of n - k, backwards |
| Pbo.PartitionsLoseNothing | scripts/run_backtest_local.py:221-224 | the partitions put together are the list of returns again |
| Pbo.PartitionExactly | scripts/run_backtest_local.py:217-224 | partition i starts at i times the floored size and has that size, the last one takes the rest |
| Pbo.SampleOfComplement | scripts/run_backtest_local.py:229-231 | complementing a choice swaps in-sample and out-of-sample |
| Pbo.RunPbo | scripts/run_backtest_local.py:215-240 | insufficient data below five returns per partition; otherwise the count of losses over all choices and the verdict |
| Pbo.OverfitsExactly | scripts/run_backtest_local.py:229-234 | a choice counts exactly when the chosen partitions sum to a profit and the others to a loss |
| Pbo.ReportedCounts | scripts/run_backtest_local.py:226-234 | the reported numbers are the number of sets of half of the partitions, and the number of those that count |
| Pbo.AtMostHalf | scripts/run_backtest_local.py:227-234 | for an even number of partitions at most half of the choices count, and exactly half do if and only if every complementary pair flips sign |
| Pbo.VerdictMeaning | scripts/run_backtest_local.py:234-239 | pbo never exceeds 1/2, and the verdict fails exactly when every complementary pair flips sign |
| EquityRisk.PeakIsMaximum | scripts/run_backtest_local.py:162 | the running peak is the largest point so far and is one of them |
| EquityRisk.EquityMultiplies | scripts/run_backtest_local.py:161 | one return x multiplies the wealth by 1 + x, and the wealth of two runs of returns put together is the product of theirs |
| EquityRisk.DrawdownOfPoint | scripts/run_backtest_local.py:161-163 | the two forms of drawdown agree, bound every pair ending there and are attained by one; they lie in [-1, 0], and in (-1, 0] without a total loss |
| EquityRisk.DrawdownIsWorstPair | scripts/run_backtest_local.py:161-164 | the maximum drawdown is the worst growth over all pairs i <= j and is attained; for returns above -1 it lies in (-1, 0] |
| EquityRisk.GrowthIsRatio | tools/analyze_s12_profit_continuation_promotion.py:57-59 | the growth of a pair is the ratio of the equity curve |
| EquityRisk.DrawdownMonotone | tools/analyze_s12_profit_continuation_promotion.py:56-59 | better returns on every date never deepen the drawdown, for returns of at least -1 of which the first is above -1 |
| EquityRisk.DrawdownMonotoneExactly | tools/analyze_s12_profit_continuation_promotion.py:56-59 | a floor under the returns guarantees this wherever the drawdown is defined if and only if the floor is at least -1 |
| EquityRisk.PermutationKeepsFinalEquity | scripts/run_backtest_local.py:200-201 | every permutation of the returns ends at the same wealth |
| EquityRisk.RunMonteCarlo | scripts/run_backtest_local.py:197-203 | one drawdown per shuffle, each the worst pair of its own curve and in (-1, 0], with the final wealth unchanged |
| EquityRisk.SimulatedReturnsSolvent | scripts/run_backtest_local.py:161-164 | returns of the simulator on sound bars are above -1, so the drawdown results apply to them |
| TailRisk.SortedAscending | tools/analyze_s12_profit_continuation_promotion.py:51 | sorting yields an ascending permutation |
| TailRisk.LowerTailMeanIsLeast | tools/analyze_s12_profit_continuation_promotion.py:50-53 | lower_tail_mean is at most the mean of every non-empty selection of at least that fraction of the values |
| TailRisk.LowerTailMeanAttained | tools/analyze_s12_profit_continuation_promotion.py:50-53 | and is the mean of one of them, of a single value or of fewer than one value more than the fraction |
| TailRisk.LowerTailMeanBelowMean | tools/analyze_s12_profit_continuation_promotion.py:50-53 | it is at most the overall mean |
| TailRisk.LowerTailMeanMonotone | tools/analyze_s12_profit_continuation_promotion.py:50-53 | raising values never lowers it |
| TailRisk.JoinAcceptedExactly | tools/analyze_s12_profit_continuation_promotion.py:162-169 | the join keeps the height of the cohort if and only if no id of the cohort occurs in two deltas |
| TailRisk.JoinedRow | tools/analyze_s12_profit_continuation_promotion.py:162-167 | then row i is cohort row i with the delta recorded for its id, or zero when there is none, and the candidate is the incumbent plus that delta |
| TailRisk.JoinKeepsIds | tools/analyze_s12_profit_continuation_promotion.py:168-169 | the set of ids never changes, so the second half of the identity check can never fire |
| TailRisk.DateMeanIsMean | tools/analyze_s12_profit_continuation_promotion.py:75-80 | each date mean is the mean over exactly the joined rows of that date |
| TailRisk.NonNegativeDeltasPassTailGates | tools/analyze_s12_profit_continuation_promotion.py:193-201 | non-negative deltas pass the trade-CVaR and the date-CVaR gate on every cohort, and the drawdown gate on every cohort whose incumbent date means are at least -1 with the first above -1 |
| TailRisk.PositiveDeltaFailsGate | tools/analyze_s12_profit_continuation_promotion.py:199-201 | a joined cohort of two dates on which a positive delta fails the drawdown gate, for every first date mean below -1; at exactly -1 the drawdown of the incumbent is undefined |
| TailRisk.DrawdownGateExactly | tools/analyze_s12_profit_continuation_promotion.py:199-201 | a floor under the incumbent date means guarantees the drawdown gate for non-negative deltas, wherever both drawdowns are defined, if and only if the floor is at least -1 |
| Indicators.SmaIsRange | scripts/backfill.ts:167-170 | the slice mean is the mean of the last n days, none when there are fewer |
| Indicators.EmaList | scripts/backfill.ts:172-179 | the pushed list holds the exponential average at every index |
| Indicators.EmaPrefixStable | scripts/backfill.ts:172-179 | each value depends only on the inputs up to its index |
| Indicators.EmaWithin | scripts/backfill.ts:172-179 | the average stays within any bounds of its inputs |
| Indicators.EmaExactly | scripts/backfill.ts:172-179 | the average starts at the first value and then moves 2/(n+1) of the way to each next value |
| Indicators.RsiLoop | scripts/backfill.ts:199-206 | the loop sums gains and losses of the last fourteen days |
| Indicators.RsiMeaning | scripts/backfill.ts:204-206 | RSI is the gains' share of all movement, in [0, 100], 100 exactly without losses and 0 exactly with losses and no gains |
| Indicators.RsiExactly | scripts/backfill.ts:199-206 | RSI is 50 (1 + d/w) with d the change of price and w the way it went over fourteen days, and 100 without losses |
| Indicators.MacdLoop | scripts/backfill.ts:209-217 | the signal over the sliced line is the nine-day average started on day 25 |
| Indicators.MacdExactly | scripts/backfill.ts:209-217 | from 35 days on: the 12-day average less the 26-day average, its 9-day average started on day 25, and the difference of the two |
| Indicators.BandsExactly | scripts/backfill.ts:220-225 | middle and variance of the last twenty closes |
| Indicators.AtrLoop | scripts/backfill.ts:228-239 | mean of the last fourteen true ranges |
| Indicators.AtrExactly | scripts/backfill.ts:228-239 | from 15 days on, the mean of the last fourteen true ranges |
| Indicators.ComputeIndicators | scripts/backfill.ts:189-243 | all indicators of one history |
| Indicators.RowExactly | scripts/backfill.ts:302-327 | whatever is written for day k is, on the days themselves: its date, the means of the last 5, 10, 20 and 60 closes, RSI, MACD and bands of its closes as above, and ATR of its highs, lows and closes, each present exactly from its first day on |
| Indicators.RowsAreNeverRewritten | scripts/backfill.ts:307-325 | later days never change a row |
| Indicators.OnePassRow | scripts/backfill.ts:307-325 | state of constant size carried from day to day (sliding sums, sum of squares, two averages, signal) yields exactly the row recomputed from the first day |
| Indicators.BackfillRows | scripts/backfill.ts:302-327 | the per-prefix loop writes rows 20 .. n, each equal to the row of the whole history and to the one-pass row; nothing below 20 days |
| Indicators.SignalWithin | scripts/backfill.ts:211-215 | the signal stays within the bounds of the line since day 25 |
| Indicators.WrittenRow | scripts/backfill.ts:199-240 | which values a written row contains and their ranges: RSI in [0, 100], ATR and variance not negative, middle band equal to the twenty-day average |
| OofJob.ContinuationLimit | ml-controller/services/oof_continuation.py:9-22 | 64 exactly when the NAV need not be retried and an external computation is known to run (flagged pending, a full fit still running, or one newly dispatched), otherwise 12 |
| OofJob.ExecuteAccountLifecycle | ml-controller/oof_materialize_job_main.py:91-167 | the result of the account lifecycle for all answers of its services |
| OofJob.ExecuteLifecycle | ml-controller/oof_materialize_job_main.py:55-88 | the result with the forward data refresh attached |
| OofJob.DecideLifecycle | ml-controller/oof_materialize_job_main.py:771-854 | when a lifecycle result triggers, succeeds or is skipped, freshness stated on the dates of the result; an error is set exactly otherwise, with a reason that holds of the result; skipped stands for the status skipped alone, although the branch also lists pending and spawned |
| OofJob.FreshExactly | ml-controller/oof_materialize_job_main.py:610-656 | a result is fresh exactly when the first calendar present has a mature date, the first coverage present a last date, and that is not before the mature date; otherwise the reason names the first of these that fails |
| OofJob.RunJob | ml-controller/oof_materialize_job_main.py:658-919 | no callback exactly when the attempt number is out of range; otherwise the callback reports the decision and a reason for every error, and the exit code is 0 exactly when no error is set |
| OofJob.FreshnessDecides | ml-controller/oof_materialize_job_main.py:829-836 | a run that reaches the freshness test reports success exactly when its result is fresh, and otherwise a stale error with that reason |
| OofJob.CoverageAdvances | ml-controller/oof_materialize_job_main.py:610-656 | advancing the coverage alone never loses a success |
| OofJob.TriggeredIsContinued | ml-controller/oof_materialize_job_main.py:22-24 | triggered implies a status the Worker continues and an attempt below the limit, and the Worker then continues exactly when it knows the run date and, off the daily cadence, the cohort |
| OofJob.FailedNavNeverCloses | ml-controller/oof_materialize_job_main.py:150-167 | on the daily NAV+OOF path a failed NAV never yields success or skipped; it is triggered exactly while the attempt number is below 12 and the OOF branch did not fail |
| OofJob.PlanSuccessExactly | ml-controller/oof_materialize_job_main.py:55-149 | with the new distribution, a daily run succeeds exactly when the data refresh is settled, the arm replay answered, and either the single daily closure does, or the plan closure is recorded and NAV closed or the paper closure verified without it |
| OofJob.PlanTriggersExactly | ml-controller/oof_materialize_job_main.py:55-149 | and it is triggered exactly when nothing failed, the plan or the data refresh is pending, and the attempt is below 12, or below 64 when only an external computation is pending |
| OofJob.LegacySuccessExactly | ml-controller/oof_materialize_job_main.py:91-167 | without it, exactly when the single daily closure succeeds, or NAV closed and the OOF branch succeeds |
| OofJob.ArrivalNumber | worker/src/lib/updateOrchestrator.ts:105-127 | for every journey of a message that ends in a run, through collisions, failed deliveries and parkings in any order, the step-by-step renumbering adds up to its start (1 once parked) plus the collisions since the last parking, cut at 64 |
| OofJob.LinkNumber | worker/src/lib/updateOrchestrator.ts:3659-3755 | the number of the next run of a chain: the number enqueued, or 1 after a parking, plus the collisions since, at most 64 |
| OofJob.ChainBounded | worker/src/routes/adminControlRoutes.ts:829-886 | from attempt a a chain has at most 65 - a attempts and 63 more for each parking; off the daily cadence there are no parkings, and the cadence never changes |
| OofJob.ParkingUnbounds | worker/src/lib/controllerResearchWorkflows.ts:462-480 | without a bound on parkings there are chains of every length, all their attempts numbered 1 |
| OofJob.ChainEnds | worker/src/routes/adminControlRoutes.ts:829-886 | every maximal chain is bounded like that and ends in success that stands, success found unready with no attempt left, skipped, an error with its reason, a triggered callback without the run date or cohort the Worker needs, or a message that never became a run |
| OofJob.FailedNavChainIsShort | ml-controller/oof_materialize_job_main.py:150-167 | a NAV that never recovers is continued below attempt 12 only: from attempt a its chain has one attempt or at most 13 - a, and 11 more for each parking |
| OofJob.UnrecoveredNavEnds | ml-controller/oof_materialize_job_main.py:150-167 | with a known run date such a chain ends with a lost message or in an error: the failure of the OOF branch exactly when that branch failed, otherwise the exhausted dependency, at attempt 12 or later, and exactly at 12 if and only if neither its start nor the collisions of its last message carried the number past 12 |
| OofJob.OnlyCollisionsCarry | worker/src/lib/updateOrchestrator.ts:105-127 | the last number of a continued chain of failed NAVs exceeds 12 by at most the collisions of its last message |
| OofJob.CollisionPassesTwelve | worker/src/lib/updateOrchestrator.ts:3733-3741 | a maximal run of two failed NAVs, numbered 11 and 13, with one collision between them |

## Left out

- ShardPacking.ShardFiles: the file list and the durations table are parameters; globbing and JSON reading are not modelled, and the list is taken as free of duplicates, as a directory listing is.
- CiGate.Rerun: what pytest reports is an arbitrary function of attempt and nodes; parsing of junit files, the mapping from ids to test nodes and a junit file left over from an earlier job are not modelled.
- CiGate.CachedBaseKeepsRegressionsVisible: the cache is taken per shard suite, as `.github/workflows/ci.yml` packs it; cache keys, eviction and the lists of the other suites are not part of the statement.
- MinuteBars.BarsAreGroupedTicks: parsing and time-zone repair of timestamps are not modelled; a tick without an exchange time counts as happening at the clock value read inside its lock region, and only the clocks of ticks are assumed never to run backwards where a theorem says so.
- OrderBook.ServedExactly: a read that falls inside a region of another thread counts as before or after the whole region; the refresh and wait loop before the last pick, which repeats pick and freshness test, and the second look at the book for the response fields are not modelled.
- OrderBook.NoQuotesAfterPoison: a reset that passed its unlocked poison check before the poisoning may still empty the caches, so emptiness is allowed.
- QuoteProxies.QuoteProxy.ClearForReset: the unlocked checks for poison and a busy streaming lane before the region are not modelled, so the region may happen at any time; nothing is claimed about a reset excluding a subscribe.
- QuoteProxies.QuoteProxy.LoginSucceeded: may happen after poisoning, because the poison check lies outside the lock.
- QuoteProxies.QuoteProxy.WatchOrderbookSymbols: the rejection diagnostics, upper-casing and stripping of symbols are not modelled.
- QuoteProxies.QuoteProxy.OnBidAsk: volumes, the mid price and the event statistics are not modelled.
- QuoteProxies.QuoteProxy.RegisterStopWatch: one item at a time; the batch and its watch requests are consecutive regions, so other regions may come between them in the model although one lock spans them in the code.
- RecoveryBackoff.AttemptGap: speaks about attempts between two restarts; a confirmation, expiry, reset or market close restarts the count, as in the code.
- SdkLanes.RunInvariant: a protocol of many threads, modelled as a state machine over single operations rather than as a class; an executor that refuses a submission and the wait of the session lock as a duration are not modelled.
- QueryPermit.ReleasedExactlyOnce: a state machine for the same reason; `get_kbars`, which releases its permit on timeout, is not covered and must not be mixed into the single-query claim.
- Warmup.WarmupBars: parsing of timestamps and numbers happens before the model; an unreadable value is a missing one.
- Backtest.SimulateSymbol: the rounding of prices and returns for display is not modelled, the bars of a symbol are given in date order, a close of zero (a division by zero in the source) and a negative time stop are excluded.
- Pbo.RunPbo: fewer than two partitions make the source average an empty list and are excluded; the bound of one half is stated for an even number of partitions.
- EquityRisk.RunMonteCarlo: the permutations are parameters; percentiles and the verdict text are not modelled.
- EquityRisk.DrawdownMonotone: needs returns of at least -1 with the first above -1; `DrawdownMonotoneExactly` gives a curve for every lower floor on which better returns deepen the drawdown.
- TailRisk.NonNegativeDeltasPassTailGates: the drawdown gate is not promised for incumbent date means below -1, where it can fail; the bootstrap, confidence-bound and parity gates are not modelled.
- Indicators.BackfillRows: the rows are given in date order without missing prices; the bands are represented by their middle and their variance, because the square root is foreign code, and the SQL statements by their parameters.
- OofJob.RunJob: summaries, durations, identifiers and the payload fields that do not take part in the decision are not modelled; statuses are lower-cased once when a result is read.
- OofJob.ChainBounded: the Worker is modelled from the readiness check to the dispatch of the next run; its own re-verification of a success, which can only turn success into error, and the ticket settlement are not. Failures of a delivery (the failure fence of the day, identity checks, HTTP errors, a collision at number 64) are repeated deliveries of the same number, as often as one likes; closed and blocked tickets, a reused receipt and the dead-letter queue are lost messages. A run counts as continued by one run, although a message delivered twice may become two; each of them is then a chain of its own.
- OofJob.ParkingUnbounds: how often a day may be reopened after it was ready is decided by the pipeline, which is not part of this model.
- Floating-point rounding everywhere: all arithmetic is over the reals.
- HTTP endpoints, authentication, environment parsing, logging, notifications, D1, KV and GCS access, subprocess and cloud calls: plumbing.
- `get_snapshot` freshness: the code checks only the age of the tick there, and nothing more is claimed.
- The price buffer, stop-breach delivery by webhook, health summaries and the watchdog loop of the proxy: bookkeeping around the modelled state.
- `ml-service/modal_app.py`, `tools/activate_l4_policy.py`, `ml-controller/pipeline_job_main.py` and `ml-controller/dataset_snapshot_job_main.py`: wiring around modules that are not part of this model.
- The remaining backfill scripts, retry loops, ledger writes, Optuna reporting and the user interface: they copy values from one store to another without a state or an invariant of their own.
