/** ci/merge_shards.py, ci/rerun_new_failures.py, ci/compare_failures.py, ci/base_cache.py:
    the CI gate "fail only on failures the head has and the base does not".

    A downloaded artifact directory is a map from (suite, side) to the set of failure ids in
    its list; a missing file is a missing key. What pytest does on a rerun is a parameter. */
module CiGate {
  import opened Common
  import Packing = ShardPacking

  type Id = string
  type Node = string

  datatype Suite = Worker | Controller | Frontend | Hygiene | ControllerShard(k: nat)
  datatype Side = Head | Base
  type Artifacts = map<(Suite, Side), set<Id>>

  const PREFIX := "controller: "
  const RERUNS := 2
  const SUITES := [Worker, Controller, Frontend, Hygiene]

  function Read(arts: Artifacts, suite: Suite, side: Side): set<Id> {
    if (suite, side) in arts then arts[(suite, side)] else {}
  }

  // ---------- merge_shards.py ----------

  predicate AllReported(arts: Artifacts, shards: nat, side: Side) {
    forall k :: 1 <= k <= shards ==> (ControllerShard(k), side) in arts
  }

  function ShardUnion(arts: Artifacts, shards: nat, side: Side): set<Id> {
    if shards == 0 then {} else ShardUnion(arts, shards - 1, side) + Read(arts, ControllerShard(shards), side)
  }

  /** A side is merged only when every shard reported; otherwise it is left as it was. */
  function MergeSide(arts: Artifacts, shards: nat, side: Side): Artifacts {
    if AllReported(arts, shards, side)
    then arts[(Controller, side) := ShardUnion(arts, shards, side)]
    else arts
  }

  function Merge(arts: Artifacts, shards: nat): Artifacts {
    MergeSide(MergeSide(arts, shards, Head), shards, Base)
  }

  lemma {:induction false} InShardUnion(arts: Artifacts, shards: nat, side: Side, id: Id)
    ensures id in ShardUnion(arts, shards, side)
       <==> exists k :: 1 <= k <= shards && id in Read(arts, ControllerShard(k), side)
  {
    if shards == 0 {
    } else {
      InShardUnion(arts, shards - 1, side, id);
    }
  }

  // ---------- rerun_new_failures.py ----------

  /** The `list` mode: head-only ids that belong to the controller suite. */
  function HeadOnly(arts: Artifacts): set<Id> {
    set i | i in Read(arts, Controller, Head) - Read(arts, Controller, Base) && PREFIX <= i
  }

  /** What attempt `n` of pytest on these nodes reports as passed; None when no junit is written. */
  type Pytest = (nat, set<Node>) -> Option<set<Id>>

  function Runnable(ids: set<Id>, node: map<Id, Option<Node>>, flaky: set<Id>): set<Node>
    requires ids <= node.Keys
  {
    set i | i in ids && i !in flaky && node[i].Some? :: node[i].value
  }

  /** Ids reported as passed by one attempt; nothing runs when nothing is runnable. */
  function Passed(pytest: Pytest, attempt: nat, runnable: set<Node>): set<Id> {
    if runnable == {} then {}
    else match pytest(attempt, runnable) case Some(ok) => ok case None => {}
  }

  /** Flaky ids after the first and after the second attempt. */
  function FlakyOnce(ids: set<Id>, node: map<Id, Option<Node>>, pytest: Pytest): set<Id>
    requires ids <= node.Keys
  {
    Passed(pytest, 0, Runnable(ids, node, {})) * ids
  }

  function SecondPass(ids: set<Id>, node: map<Id, Option<Node>>, pytest: Pytest): set<Id>
    requires ids <= node.Keys
  {
    Passed(pytest, 1, Runnable(ids, node, FlakyOnce(ids, node, pytest))) * ids
  }

  /** `id` passed at least one of the two reruns. */
  predicate PassedARerun(id: Id, ids: set<Id>, node: map<Id, Option<Node>>, pytest: Pytest)
    requires ids <= node.Keys
  {
    id in FlakyOnce(ids, node, pytest) || id in SecondPass(ids, node, pytest)
  }

  /** When a listed id counts as passed: the first run of all listed tests reports it, or the second run, of the
      tests that the first did not report. */
  lemma PassedExactly(id: Id, ids: set<Id>, node: map<Id, Option<Node>>, pytest: Pytest)
    requires ids <= node.Keys && id in ids
    ensures var first := set i | i in ids && node[i].Some? :: node[i].value;
            var passed := if first != {} && pytest(0, first).Some? then pytest(0, first).value else {};
            var second := set i | i in ids && i !in passed && node[i].Some? :: node[i].value;
            PassedARerun(id, ids, node, pytest)
            <==> id in passed || (second != {} && pytest(1, second).Some? && id in pytest(1, second).value)
  {
    var first := set i | i in ids && node[i].Some? :: node[i].value;
    assert Runnable(ids, node, {}) == first;
    var passed := if first != {} && pytest(0, first).Some? then pytest(0, first).value else {};
    var second := set i | i in ids && i !in passed && node[i].Some? :: node[i].value;
    assert Runnable(ids, node, FlakyOnce(ids, node, pytest)) == second;
  }

  /** pytest reports only tests it was asked to run. */
  ghost predicate Honest(node: map<Id, Option<Node>>, pytest: Pytest) {
    forall n, asked: set<Node>, i ::
      pytest(n, asked).Some? && i in pytest(n, asked).value && i in node
      ==> node[i].Some? && node[i].value in asked
  }

  /** The `rerun` mode. An id is flaky when it passed one of the attempts; an id without a
      test node cannot be rerun and stays new. */
  method Rerun(ids: set<Id>, node: map<Id, Option<Node>>, pytest: Pytest) returns (flaky: set<Id>)
    requires ids <= node.Keys
    ensures flaky <= ids
    ensures forall i :: i in flaky <==> i in ids && PassedARerun(i, ids, node, pytest)
    ensures Honest(node, pytest) ==> forall i :: i in flaky ==> node[i].Some?
  {
    flaky := {};
    var runnable := Runnable(ids, node, {});
    var attempt := 0;
    while attempt < RERUNS && runnable != {}
      invariant 0 <= attempt <= RERUNS
      invariant runnable == Runnable(ids, node, flaky)
      invariant flaky == if attempt == 0 then {}
                         else if attempt == 1 then FlakyOnce(ids, node, pytest)
                         else FlakyOnce(ids, node, pytest) + SecondPass(ids, node, pytest)
      invariant Honest(node, pytest) ==> forall i :: i in flaky ==> node[i].Some?
      decreases RERUNS - attempt
    {
      match pytest(attempt, runnable) {
        case Some(ok) => flaky := flaky + (ok * ids);
        case None =>
      }
      runnable := Runnable(ids, node, flaky);
      attempt := attempt + 1;
    }
  }

  // ---------- compare_failures.py ----------

  /** One row of the report. */
  datatype Row = DidNotRun | Row(preExisting: set<Id>, newIds: set<Id>, flaky: set<Id>, fixed: set<Id>)

  function ReportRow(arts: Artifacts, flakyOf: map<Suite, set<Id>>, suite: Suite): Row {
    if (suite, Head) !in arts then DidNotRun
    else
      var head, base := arts[(suite, Head)], Read(arts, suite, Base);
      var flaky := (head - base) * (if suite in flakyOf then flakyOf[suite] else {});
      Row(head * base, head - base - flaky, flaky, base - head)
  }

  /** A suite is clean when it reported and every head failure is known or flaky. */
  predicate Clean(arts: Artifacts, flakyOf: map<Suite, set<Id>>, suite: Suite) {
    && (suite, Head) in arts
    && forall i :: i in arts[(suite, Head)] ==>
         i in Read(arts, suite, Base) || (suite in flakyOf && i in flakyOf[suite])
  }

  /** Each head failure is in exactly one of the three columns. */
  lemma RowPartitionsHead(arts: Artifacts, flakyOf: map<Suite, set<Id>>, suite: Suite)
    requires (suite, Head) in arts
    ensures var r, head := ReportRow(arts, flakyOf, suite), arts[(suite, Head)];
            && r.Row?
            && r.preExisting + r.newIds + r.flaky == head
            && r.preExisting !! r.newIds && r.preExisting !! r.flaky && r.newIds !! r.flaky
            && r.preExisting <= Read(arts, suite, Base) && r.newIds !! Read(arts, suite, Base)
            && r.flaky !! Read(arts, suite, Base)
            && (forall i :: i in r.flaky ==> suite in flakyOf && i in flakyOf[suite])
            && (forall i :: i in r.newIds ==> suite !in flakyOf || i !in flakyOf[suite])
            && (forall i :: i in r.fixed <==> i in Read(arts, suite, Base) && i !in head)
            && (r.newIds == {} <==> Clean(arts, flakyOf, suite))
  {
  }

  method Compare(arts: Artifacts, flakyOf: map<Suite, set<Id>>) returns (blocked: bool, rows: seq<Row>)
    ensures !blocked <==> forall s :: s in SUITES ==> Clean(arts, flakyOf, s)
    ensures |rows| == |SUITES| && forall i :: 0 <= i < |SUITES| ==> rows[i] == ReportRow(arts, flakyOf, SUITES[i])
  {
    blocked, rows := false, [];
    for i := 0 to |SUITES|
      invariant |rows| == i && forall j :: 0 <= j < i ==> rows[j] == ReportRow(arts, flakyOf, SUITES[j])
      invariant !blocked <==> forall j :: 0 <= j < i ==> Clean(arts, flakyOf, SUITES[j])
    {
      var row := ReportRow(arts, flakyOf, SUITES[i]);
      rows := rows + [row];
      if row.DidNotRun? {
        blocked := true;
      } else {
        RowPartitionsHead(arts, flakyOf, SUITES[i]);
        blocked := blocked || row.newIds != {};
      }
    }
  }

  // ---------- base_cache.py ----------

  predicate EndsWith(s: string, t: string) {
    |t| <= |s| && s[|s| - |t|..] == t
  }

  const NO_REPORT := "produced no report"

  /** The infrastructure pattern: `: (npm ci|dependency install|shard assignment|.*produced no report)$`. */
  predicate Infrastructure(id: Id) {
    || EndsWith(id, ": npm ci") || EndsWith(id, ": dependency install") || EndsWith(id, ": shard assignment")
    || (EndsWith(id, NO_REPORT)
        && exists i :: 0 <= i <= |id| - |NO_REPORT| - 2 && id[i] == ':' && id[i + 1] == ' ')
  }

  /** Some text before, then this. */
  ghost predicate Ends(id: Id, t: string) { exists before: string :: id == before + t }

  lemma EndsExactly(id: Id, t: string)
    ensures EndsWith(id, t) <==> Ends(id, t)
  {
    if EndsWith(id, t) { assert id == id[..|id| - |t|] + t; }
  }

  /** A colon and a space, later the fourth message, which ends it. */
  ghost predicate Reportless(id: Id) { exists a: string, b: string :: id == Spelled(a, b) }

  function Spelled(a: string, b: string): string { a + ": " + b + "produced no report" }

  lemma SpelledAt(a: string, b: string)
    ensures var id := Spelled(a, b);
            EndsWith(id, NO_REPORT) && |a| <= |id| - |NO_REPORT| - 2 && id[|a|] == ':' && id[|a| + 1] == ' '
  {
    var id := Spelled(a, b);
    assert id[|id| - |NO_REPORT|..] == NO_REPORT;
  }

  lemma ColonSplits(id: Id, i: nat)
    requires EndsWith(id, NO_REPORT) && i <= |id| - |NO_REPORT| - 2 && id[i] == ':' && id[i + 1] == ' '
    ensures Reportless(id)
  {
    var a, b := id[..i], id[i + 2..|id| - |NO_REPORT|];
    assert id == Spelled(a, b);
  }

  /** An infrastructure failure ends in one of three messages after a colon, or has a colon somewhere and ends in
      the fourth. */
  lemma InfrastructureExactly(id: Id)
    ensures Infrastructure(id)
       <==> || Ends(id, ": npm ci") || Ends(id, ": dependency install") || Ends(id, ": shard assignment")
            || Reportless(id)
  {
    EndsExactly(id, ": npm ci");
    EndsExactly(id, ": dependency install");
    EndsExactly(id, ": shard assignment");
    ReportlessExactly(id);
  }

  lemma ReportlessExactly(id: Id)
    ensures Reportless(id)
       <==> EndsWith(id, NO_REPORT)
            && exists i :: 0 <= i <= |id| - |NO_REPORT| - 2 && id[i] == ':' && id[i + 1] == ' '
  {
    if Reportless(id) {
      var a: string, b: string :| id == Spelled(a, b);
      SpelledAt(a, b);
    } else if EndsWith(id, NO_REPORT) {
      forall i: nat | i <= |id| - |NO_REPORT| - 2 && id[i] == ':' && id[i + 1] == ' ' ensures false {
        ColonSplits(id, i);
      }
    }
  }

  predicate Cacheable(arts: Artifacts, suite: Suite) {
    (suite, Head) in arts && forall i :: i in arts[(suite, Head)] ==> !Infrastructure(i)
  }

  type Cache = map<Suite, set<Id>>

  /** What may come out of packing: head lists minus flaky ids, or nothing at all. */
  ghost predicate Packs(arts: Artifacts, flaky: set<Id>, suites: seq<Suite>, cache: Option<Cache>) {
    && (cache.Some? <==> forall s :: s in suites ==> Cacheable(arts, s))
    && (cache.Some? ==>
          && cache.value.Keys == (set s | s in suites)
          && forall s :: s in suites ==> (s, Head) in arts && cache.value[s] == arts[(s, Head)] - flaky)
  }

  /** Head lists minus flaky ids, or nothing at all when a list is missing or infrastructural. */
  method PackBase(arts: Artifacts, flaky: set<Id>, suites: seq<Suite>) returns (cache: Option<Cache>)
    ensures Packs(arts, flaky, suites, cache)
  {
    var lists: map<Suite, set<Id>> := map[];
    for j := 0 to |suites|
      invariant forall s :: s in suites[..j] <==> s in lists
      invariant forall s :: s in suites[..j] ==> Cacheable(arts, s) && lists[s] == arts[(s, Head)] - flaky
    {
      var suite := suites[j];
      if (suite, Head) !in arts {
        assert !Cacheable(arts, suite);
        return None;
      }
      if exists i :: i in arts[(suite, Head)] && Infrastructure(i) {
        assert !Cacheable(arts, suite);
        return None;
      }
      lists := lists[suite := arts[(suite, Head)] - flaky];
    }
    assert suites[..|suites|] == suites;
    cache := Some(lists);
  }

  // ---------- the gate as a whole ----------

  /** `artifacts` are what runners 1..n upload for one side when `failing` is everything that
      fails there, each test running on the shard that owns its file. */
  ghost predicate ShardedReport(arts: Artifacts, n: nat, side: Side, failing: set<Id>,
                                file: map<Id, Packing.Path>, owner: Packing.Owners)
  {
    && failing <= file.Keys
    && (forall i :: i in failing ==> file[i] in owner && 1 <= owner[file[i]] <= n)
    && (forall k :: 1 <= k <= n ==> (ControllerShard(k), side) in arts)
    && forall k, i :: 1 <= k <= n ==>
         (i in Read(arts, ControllerShard(k), side) <==> i in failing && owner[file[i]] == k)
  }

  /** Running the suite in shards and merging is the same as running it in one piece, for
      whatever partition the packing produced. */
  lemma MergeUndoesSharding(arts: Artifacts, n: nat, side: Side, failing: set<Id>,
                            file: map<Id, Packing.Path>, owner: Packing.Owners)
    requires ShardedReport(arts, n, side, failing, file, owner)
    ensures MergeSide(arts, n, side) == arts[(Controller, side) := failing]
  {
    forall i ensures i in ShardUnion(arts, n, side) <==> i in failing {
      InShardUnion(arts, n, side, i);
      if i in failing {
        assert i in Read(arts, ControllerShard(owner[file[i]]), side);
      }
    }
    assert ShardUnion(arts, n, side) == failing;
  }

  /** One shard that did not report keeps the whole head list away, and that blocks. */
  lemma MissingShardBlocks(arts: Artifacts, n: nat, k: nat, flakyOf: map<Suite, set<Id>>)
    requires (Controller, Head) !in arts && 1 <= k <= n && (ControllerShard(k), Head) !in arts
    ensures !Clean(Merge(arts, n), flakyOf, Controller)
  {
  }

  /** merge, list, rerun, compare: the jobs `confirm` and `gate` of one CI run. */
  method GateRun(arts: Artifacts, n: nat, node: map<Id, Option<Node>>, pytest: Pytest)
    returns (blocked: bool, flaky: set<Id>)
    requires HeadOnly(Merge(arts, n)) <= node.Keys
    ensures !blocked <==> forall s :: s in SUITES ==> Clean(Merge(arts, n), map[Controller := flaky], s)
    ensures forall i :: i in flaky <==>
              i in HeadOnly(Merge(arts, n)) && PassedARerun(i, HeadOnly(Merge(arts, n)), node, pytest)
  {
    var merged := Merge(arts, n);
    flaky := Rerun(HeadOnly(merged), node, pytest);
    var rows;
    blocked, rows := Compare(merged, map[Controller := flaky]);
  }

  /** Outside the controller suite: the suite reported and brought no failure the base lacks. */
  predicate OtherSuitesKnown(arts: Artifacts) {
    forall s :: s in [Worker, Frontend, Hygiene] ==> (s, Head) in arts && arts[(s, Head)] <= Read(arts, s, Base)
  }

  /** Controller failures the base lacks are controller ids that passed one of two reruns. */
  predicate NewOnesPassedARerun(head: set<Id>, base: set<Id>, listed: set<Id>,
                                node: map<Id, Option<Node>>, pytest: Pytest)
    requires listed <= node.Keys
  {
    forall i :: i in head - base ==> "controller: " <= i && PassedARerun(i, listed, node, pytest)
  }

  /** `base` is what the gate takes for the controller failures of the base: those of the unsharded
      run when every base shard reported, else the list of an unsharded base, empty when absent. */
  ghost predicate BaseReport(arts: Artifacts, n: nat, base: set<Id>,
                             file: map<Id, Packing.Path>, owner: Packing.Owners)
  {
    if forall k :: 1 <= k <= n ==> (ControllerShard(k), Base) in arts
    then ShardedReport(arts, n, Base, base, file, owner)
    else base == Read(arts, Controller, Base)
  }

  /** What a green gate promises, and exactly when it is green: every suite reported, every
      failure outside the controller suite is in the base, and every controller failure is in
      the base or is a head-only controller id that passed one of two reruns. The base and the
      head may have been sharded differently. Without a base every controller failure counts. */
  lemma GreenGate(arts: Artifacts, n: nat, node: map<Id, Option<Node>>, pytest: Pytest, flaky: set<Id>,
                  head: set<Id>, headFile: map<Id, Packing.Path>, headOwner: Packing.Owners,
                  base: set<Id>, baseFile: map<Id, Packing.Path>, baseOwner: Packing.Owners)
    requires ShardedReport(arts, n, Head, head, headFile, headOwner)
    requires BaseReport(arts, n, base, baseFile, baseOwner)
    requires HeadOnly(Merge(arts, n)) <= node.Keys
    requires forall i :: i in flaky <==>
               i in HeadOnly(Merge(arts, n)) && PassedARerun(i, HeadOnly(Merge(arts, n)), node, pytest)
    ensures (forall s :: s in SUITES ==> Clean(Merge(arts, n), map[Controller := flaky], s))
       <==> OtherSuitesKnown(arts) && NewOnesPassedARerun(head, base, HeadOnly(Merge(arts, n)), node, pytest)
    ensures HeadOnly(Merge(arts, n)) == set i | i in head - base && "controller: " <= i
    ensures (exists k :: 1 <= k <= n && (ControllerShard(k), Base) !in arts) && (Controller, Base) !in arts ==>
      (Clean(Merge(arts, n), map[Controller := flaky], Controller)
       <==> NewOnesPassedARerun(head, {}, HeadOnly(Merge(arts, n)), node, pytest))
  {
    MergedSides(arts, n, head, headFile, headOwner, base, baseFile, baseOwner);
    var m := Merge(arts, n);
    ControllerClean(m, node, pytest, flaky);
    assert Controller in SUITES by { assert SUITES[1] == Controller; }
    forall s | s in SUITES && s != Controller
      ensures Clean(m, map[Controller := flaky], s) <==> (s, Head) in arts && arts[(s, Head)] <= Read(arts, s, Base)
    {
      OtherClean(arts, m, flaky, s);
    }
  }

  lemma OtherClean(arts: Artifacts, m: Artifacts, flaky: set<Id>, s: Suite)
    requires s != Controller
    requires (s, Head) in arts <==> (s, Head) in m
    requires (s, Head) in arts ==> arts[(s, Head)] == m[(s, Head)]
    requires Read(m, s, Base) == Read(arts, s, Base)
    ensures Clean(m, map[Controller := flaky], s) <==> (s, Head) in arts && arts[(s, Head)] <= Read(arts, s, Base)
  {
  }

  lemma ControllerClean(m: Artifacts, node: map<Id, Option<Node>>, pytest: Pytest, flaky: set<Id>)
    requires (Controller, Head) in m && HeadOnly(m) <= node.Keys
    requires forall i :: i in flaky <==> i in HeadOnly(m) && PassedARerun(i, HeadOnly(m), node, pytest)
    ensures Clean(m, map[Controller := flaky], Controller)
       <==> NewOnesPassedARerun(m[(Controller, Head)], Read(m, Controller, Base), HeadOnly(m), node, pytest)
  {
    var head, base := m[(Controller, Head)], Read(m, Controller, Base);
    assert HeadOnly(m) == set i | i in head - base && PREFIX <= i;
    forall i | i in head && i !in base
      ensures i in flaky <==> PREFIX <= i && PassedARerun(i, HeadOnly(m), node, pytest)
    {
      assert i in head - base;
    }
    var flakyOf := map[Controller := flaky];
    assert Clean(m, flakyOf, Controller) <==> forall i :: i in head ==> i in base || i in flaky;
    if Clean(m, flakyOf, Controller) {
      forall i | i in head - base ensures PREFIX <= i && PassedARerun(i, HeadOnly(m), node, pytest) {}
    } else {
      var i :| i in head && i !in base && i !in flaky;
      assert i in head - base;
    }
  }

  lemma MergedSides(arts: Artifacts, n: nat,
                    head: set<Id>, headFile: map<Id, Packing.Path>, headOwner: Packing.Owners,
                    base: set<Id>, baseFile: map<Id, Packing.Path>, baseOwner: Packing.Owners)
    requires ShardedReport(arts, n, Head, head, headFile, headOwner)
    requires BaseReport(arts, n, base, baseFile, baseOwner)
    ensures var m := arts[(Controller, Head) := head];
            Merge(arts, n) == if AllReported(arts, n, Base) then m[(Controller, Base) := base] else m
  {
    MergeUndoesSharding(arts, n, Head, head, headFile, headOwner);
    var m := arts[(Controller, Head) := head];
    forall k | 1 <= k <= n
      ensures (ControllerShard(k), Base) in m <==> (ControllerShard(k), Base) in arts
      ensures Read(m, ControllerShard(k), Base) == Read(arts, ControllerShard(k), Base)
    {
    }
    if AllReported(arts, n, Base) { MergeUndoesSharding(m, n, Base, base, baseFile, baseOwner); }
  }

  /** The suites a green push packs: the shards 1..n beside the three others. */
  function PackedSuites(n: nat): seq<Suite> {
    [Worker] + Shards(n) + [Frontend, Hygiene]
  }

  function Shards(n: nat): seq<Suite> {
    if n == 0 then [] else Shards(n - 1) + [ControllerShard(n)]
  }

  lemma {:induction false} ShardIsPacked(n: nat, k: nat)
    requires 1 <= k <= n
    ensures ControllerShard(k) in Shards(n)
  {
    if k == n {
    } else {
      ShardIsPacked(n - 1, k);
    }
  }

  /** The base job of a later run restored its shard lists from this cache. */
  ghost predicate Restored(later: Artifacts, n: nat, cache: Cache) {
    forall k :: 1 <= k <= n ==>
      && ControllerShard(k) in cache && (ControllerShard(k), Base) in later
      && later[(ControllerShard(k), Base)] == cache[ControllerShard(k)]
  }

  /** Two runs. The earlier run packs its head lists; a later run takes its base from that cache.
      Then a controller failure of the later head is new exactly when it was not a steady failure
      of the earlier head and does not pass a rerun now. In particular a test that was merely
      flaky at the base blocks as soon as it fails on head and on both reruns. */
  lemma CachedBaseKeepsRegressionsVisible(
      earlier: Artifacts, flaky: set<Id>, cache: Option<Cache>, later: Artifacts, n: nat,
      node: map<Id, Option<Node>>, pytest: Pytest, laterFlaky: set<Id>, id: Id)
    requires Packs(earlier, flaky, PackedSuites(n), cache) && cache.Some? && Restored(later, n, cache.value)
    requires AllReported(later, n, Head)
    requires HeadOnly(Merge(later, n)) <= node.Keys
    requires forall i :: i in laterFlaky <==>
               i in HeadOnly(Merge(later, n)) && PassedARerun(i, HeadOnly(Merge(later, n)), node, pytest)
    requires id in ShardUnion(later, n, Head)
    ensures var row := ReportRow(Merge(later, n), map[Controller := laterFlaky], Controller);
            row.Row? &&
            (id in row.newIds <==>
              !(id in ShardUnion(earlier, n, Head) && id !in flaky)
              && !(PREFIX <= id && PassedARerun(id, HeadOnly(Merge(later, n)), node, pytest)))
    ensures id in flaky && !PassedARerun(id, HeadOnly(Merge(later, n)), node, pytest)
            ==> !Clean(Merge(later, n), map[Controller := laterFlaky], Controller)
  {
    var m := Merge(later, n);
    var h := later[(Controller, Head) := ShardUnion(later, n, Head)];
    assert MergeSide(later, n, Head) == h;
    forall k | 1 <= k <= n ensures (ControllerShard(k), Base) in h {}
    CachedUnion(h, n, n, earlier, flaky, cache.value, id);
    assert m == h[(Controller, Base) := ShardUnion(h, n, Base)];
    assert id in m[(Controller, Head)];
    assert HeadOnly(m) == set i | i in ShardUnion(later, n, Head) - ShardUnion(h, n, Base) && PREFIX <= i;
  }

  lemma {:induction false} CachedUnion(later: Artifacts, n: nat, k: nat, earlier: Artifacts, flaky: set<Id>,
                                       cache: Cache, id: Id)
    requires Packs(earlier, flaky, PackedSuites(n), Some(cache)) && Restored(later, n, cache) && k <= n
    ensures id in ShardUnion(later, k, Base) <==> id in ShardUnion(earlier, k, Head) && id !in flaky
  {
    if k == 0 {
    } else {
      CachedUnion(later, n, k - 1, earlier, flaky, cache, id);
      CachedShard(later, n, k, earlier, flaky, cache);
    }
  }

  lemma CachedShard(later: Artifacts, n: nat, k: nat, earlier: Artifacts, flaky: set<Id>, cache: Cache)
    requires Packs(earlier, flaky, PackedSuites(n), Some(cache)) && Restored(later, n, cache) && 1 <= k <= n
    ensures Read(later, ControllerShard(k), Base) == Read(earlier, ControllerShard(k), Head) - flaky
  {
    ShardIsPacked(n, k);
    assert ControllerShard(k) in PackedSuites(n);
  }

  /** A push to main: gate, and pack the head lists when it is green. What is packed is what
      `CachedBaseKeepsRegressionsVisible` asks of a cache, with the flaky ids of this very run. */
  method PushToMain(earlier: Artifacts, n: nat, node: map<Id, Option<Node>>, pytest: Pytest)
    returns (blocked: bool, flaky: set<Id>, cache: Option<Cache>)
    requires HeadOnly(Merge(earlier, n)) <= node.Keys
    ensures !blocked <==> forall s :: s in SUITES ==> Clean(Merge(earlier, n), map[Controller := flaky], s)
    ensures forall i :: i in flaky <==>
              i in HeadOnly(Merge(earlier, n)) && PassedARerun(i, HeadOnly(Merge(earlier, n)), node, pytest)
    ensures blocked ==> cache.None?
    ensures !blocked ==> Packs(earlier, flaky, PackedSuites(n), cache)
  {
    blocked, flaky := GateRun(earlier, n, node, pytest);
    cache := None;
    if !blocked { cache := PackBase(earlier, flaky, PackedSuites(n)); }
  }
}
