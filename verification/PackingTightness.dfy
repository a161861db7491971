/** The bound of ShardPacking is attained for every number of shards: the family of 2n + 1 files
    that weigh 2n-1, 2n-1, 2n-2, 2n-2, ..., n+1, n+1, n, n, n. Longest first puts 4n - 1 on the
    first shard, while 3n on every shard is possible. */
module PackingTightness {
  import opened Common
  import opened ShardPacking

  function Weight(n: nat, i: nat): nat
    requires n >= 1 && i <= 2 * n
  {
    if i == 2 * n then n else 2 * n - 1 - i / 2
  }

  /** Swaps the two shards of equal first files; the last one of an odd number has no partner. */
  function Partner(n: nat, k: nat): nat
    requires k < n
  {
    if k % 2 == 1 then k - 1 else if k + 1 < n then k + 1 else k
  }

  lemma PartnerFacts(n: nat, k: nat)
    requires k < n
    ensures Partner(n, k) < n && Partner(n, Partner(n, k)) == k
    ensures Weight(n, Partner(n, k)) == Weight(n, k)
  {
  }

  /** The second file of shard k. */
  function Second(n: nat, k: nat): nat
    requires k < n
  {
    PartnerFacts(n, k);
    2 * n - 1 - Partner(n, k)
  }

  /** Where longest first puts file i. */
  function GreedyShard(n: nat, i: nat): (k: nat)
    requires n >= 1 && i <= 2 * n
    ensures k < n
  {
    if i < n then i
    else if i < 2 * n then PartnerFacts(n, 2 * n - 1 - i); Partner(n, 2 * n - 1 - i)
    else 0
  }

  /** Load of shard k after the first m files. */
  function GreedyLoad(n: nat, k: nat, m: nat): nat
    requires k < n && m <= 2 * n
  {
    (if k < m then Weight(n, k) else 0) + (if Second(n, k) < m then Weight(n, Second(n, k)) else 0)
  }

  lemma PairWeight(n: nat, k: nat)
    requires k < n
    ensures n <= Second(n, k) < 2 * n && Weight(n, k) + Weight(n, Second(n, k)) == 3 * n - 1
  {
    PartnerFacts(n, k);
    var s := Partner(n, k);
    assert s / 2 + (2 * n - 1 - s) / 2 == n - 1;
  }

  lemma SecondOnShard(n: nat, k: nat, i: nat)
    requires k < n <= i < 2 * n
    ensures GreedyShard(n, i) == k <==> i == Second(n, k)
  {
    PartnerFacts(n, k);
    PartnerFacts(n, 2 * n - 1 - i);
  }

  /** Adding file m to the load of every shard. */
  lemma GreedyLoadStep(n: nat, k: nat, m: nat)
    requires k < n && m < 2 * n
    ensures GreedyLoad(n, k, m + 1) == GreedyLoad(n, k, m) + (if GreedyShard(n, m) == k then Weight(n, m) else 0)
  {
    PairWeight(n, k);
    if m >= n { SecondOnShard(n, k, m); }
  }

  /** File j goes to a shard with the least load, the first such one. */
  lemma GreedyLightest(n: nat, j: nat, i: nat)
    requires j < 2 * n && i < n
    ensures GreedyLoad(n, GreedyShard(n, j), j) <= GreedyLoad(n, i, j)
    ensures i < GreedyShard(n, j) ==> GreedyLoad(n, GreedyShard(n, j), j) < GreedyLoad(n, i, j)
  {
    var k := GreedyShard(n, j);
    PairWeight(n, i);
    PairWeight(n, k);
    if j >= n {
      SecondOnShard(n, k, j);
      PartnerFacts(n, i);
      PartnerFacts(n, k);
      if Second(n, i) >= j { StillSingle(n, i, k); }
    }
  }

  lemma StillSingle(n: nat, i: nat, k: nat)
    requires i < n && k < n && Partner(n, i) <= Partner(n, k)
    ensures Weight(n, i) >= Weight(n, k) && (i < k ==> Weight(n, i) > Weight(n, k))
  {
  }

  // ---------- a better assignment ----------

  function BestShard(n: nat, i: nat): (k: nat)
    requires n >= 1 && i <= 2 * n
    ensures k < n
  {
    if i + 1 < n then i else if i + 2 < 2 * n then 2 * n - 3 - i else n - 1
  }

  function BestLoad(n: nat, k: nat, m: nat): nat
    requires k < n && m <= 2 * n + 1
  {
    if k == n - 1 then (if m <= 2 * n - 2 then 0 else n * (m - (2 * n - 2)))
    else (if k < m then Weight(n, k) else 0) + (if 2 * n - 3 - k < m then Weight(n, 2 * n - 3 - k) else 0)
  }

  lemma BestLoadStep(n: nat, k: nat, m: nat)
    requires k < n && m <= 2 * n
    ensures BestLoad(n, k, m + 1) == BestLoad(n, k, m) + (if BestShard(n, m) == k then Weight(n, m) else 0)
  {
    if k == n - 1 && m >= 2 * n - 2 {
      var c := m - (2 * n - 2);
      assert n * (c + 1) == n * c + n;
    }
  }

  lemma BestLoadEven(n: nat, k: nat)
    requires k < n
    ensures BestLoad(n, k, 2 * n + 1) == 3 * n
  {
    if k < n - 1 { assert k / 2 + (2 * n - 3 - k) / 2 == n - 2; }
  }

  // ---------- the family as lists ----------

  function FamilyWeights(n: nat): (p: seq<real>)
    requires n >= 1
    ensures |p| == 2 * n + 1
  {
    seq(2 * n + 1, i requires 0 <= i < 2 * n + 1 => Weight(n, i) as real)
  }

  function GreedyShards(n: nat): (g: seq<nat>)
    requires n >= 1
    ensures |g| == 2 * n + 1
  {
    seq(2 * n + 1, i requires 0 <= i < 2 * n + 1 => GreedyShard(n, i))
  }

  function BestShards(n: nat): (a: seq<nat>)
    requires n >= 1
    ensures |a| == 2 * n + 1
  {
    seq(2 * n + 1, i requires 0 <= i < 2 * n + 1 => BestShard(n, i))
  }

  lemma {:induction false} GreedyLoads(n: nat, k: nat, m: nat)
    requires k < n && m <= 2 * n
    ensures Load(FamilyWeights(n), GreedyShards(n), k, m) == GreedyLoad(n, k, m) as real
  {
    if m == 0 {
    } else {
      GreedyLoads(n, k, m - 1);
      GreedyLoadStep(n, k, m - 1);
    }
  }

  lemma {:induction false} BestLoads(n: nat, k: nat, m: nat)
    requires k < n && m <= 2 * n + 1
    ensures Load(FamilyWeights(n), BestShards(n), k, m) == BestLoad(n, k, m) as real
  {
    if m == 0 {
    } else {
      BestLoads(n, k, m - 1);
      BestLoadStep(n, k, m - 1);
    }
  }

  lemma GreedyFull(n: nat, k: nat)
    requires k < n
    ensures GreedyLoad(n, k, 2 * n) == 3 * n - 1
  {
    PairWeight(n, k);
  }

  lemma FamilyLightest(n: nat, j: nat)
    requires n >= 1 && j <= 2 * n
    ensures LightestAt(FamilyWeights(n), GreedyShards(n), n, j)
  {
    var p, g := FamilyWeights(n), GreedyShards(n);
    forall i | 0 <= i < n
      ensures Load(p, g, g[j], j) <= Load(p, g, i, j)
      ensures i < g[j] ==> Load(p, g, g[j], j) < Load(p, g, i, j)
    {
      GreedyLoads(n, i, j);
      GreedyLoads(n, g[j], j);
      if j < 2 * n {
        GreedyLightest(n, j, i);
      } else {
        GreedyFull(n, i);
        GreedyFull(n, 0);
      }
    }
  }

  lemma FamilyGreedy(n: nat)
    requires n >= 1
    ensures Greedy(FamilyWeights(n), GreedyShards(n), n)
  {
    forall j | 0 <= j < 2 * n + 1 ensures LightestAt(FamilyWeights(n), GreedyShards(n), n, j) { FamilyLightest(n, j); }
  }

  lemma FamilyEven(n: nat, k: nat)
    requires k < n
    ensures Load(FamilyWeights(n), BestShards(n), k, 2 * n + 1) == 3.0 * n as real
  {
    BestLoads(n, k, 2 * n + 1);
    BestLoadEven(n, k);
  }

  lemma FamilyHeaviest(n: nat, k: nat)
    requires k < n
    ensures Load(FamilyWeights(n), GreedyShards(n), k, 2 * n + 1)
         == if k == 0 then 4.0 * n as real - 1.0 else 3.0 * n as real - 1.0
  {
    GreedyLoads(n, k, 2 * n);
    GreedyFull(n, k);
  }

  // ---------- the family as files ----------

  /** Test file number i: i times the letter t, so that the path order is the order of numbers. */
  function Named(i: nat): (s: string)
    ensures |s| == i
  {
    if i == 0 then "" else "t" + Named(i - 1)
  }

  lemma {:induction false} NamedInOrder(i: nat, j: nat)
    requires i <= j
    ensures StringLe(Named(i), Named(j))
  {
    if i == 0 {
    } else {
      NamedInOrder(i - 1, j - 1);
      assert Named(i)[1..] == Named(i - 1) && Named(j)[1..] == Named(j - 1);
    }
  }

  function TestFiles(n: nat): (files: seq<Path>)
    ensures |files| == 2 * n + 1
  {
    seq(2 * n + 1, i requires 0 <= i < 2 * n + 1 => Path(Named(i)))
  }

  function TestWeights(n: nat): Weights
    requires n >= 1
  {
    map f | f in TestFiles(n) && |f.name| <= 2 * n :: Weight(n, |f.name|) as real
  }

  function GreedyOwners(n: nat): Owners
    requires n >= 1
  {
    map f | f in TestFiles(n) && |f.name| <= 2 * n :: GreedyShard(n, |f.name|) + 1
  }

  function BestOwners(n: nat): Owners
    requires n >= 1
  {
    map f | f in TestFiles(n) && |f.name| <= 2 * n :: BestShard(n, |f.name|) + 1
  }

  /** The files and weights of the family, and the assignments g and a of the lists as owners. */
  ghost predicate Family(n: nat, w: Weights, files: seq<Path>, owner: Owners, other: Owners) {
    && n >= 1 && |files| == 2 * n + 1 && Covers(w, files) && WeightsIn(w, files) == FamilyWeights(n)
    && Assigns(owner, files, n) && ShardsIn(owner, files, n) == GreedyShards(n)
    && Assigns(other, files, n) && ShardsIn(other, files, n) == BestShards(n)
    && forall f :: f in owner ==> f in files
  }

  /** File i with its name, weight and owners. */
  predicate FileAt(n: nat, w: Weights, files: seq<Path>, owner: Owners, other: Owners, i: nat)
    requires n >= 1 && i <= 2 * n && i < |files|
  {
    var f := files[i];
    && f == Path(Named(i)) && f in w && w[f] == Weight(n, i) as real
    && f in owner && owner[f] == GreedyShard(n, i) + 1 && f in other && other[f] == BestShard(n, i) + 1
  }

  lemma TestFileAt(n: nat, i: nat)
    requires n >= 1 && i <= 2 * n
    ensures FileAt(n, TestWeights(n), TestFiles(n), GreedyOwners(n), BestOwners(n), i)
  {
    assert TestFiles(n)[i] in TestFiles(n);
  }

  ghost predicate AllFiles(n: nat, w: Weights, files: seq<Path>, owner: Owners, other: Owners) {
    && n >= 1 && |files| == 2 * n + 1 && (forall f :: f in owner ==> f in files)
    && forall i :: 0 <= i <= 2 * n ==> FileAt(n, w, files, owner, other, i)
  }

  lemma FileOf(n: nat, w: Weights, files: seq<Path>, owner: Owners, other: Owners, f: Path)
    requires AllFiles(n, w, files, owner, other) && f in files
    ensures f in w && f in owner && f in other && 1 <= owner[f] <= n && 1 <= other[f] <= n
  {
    var i :| 0 <= i < |files| && files[i] == f;
    assert FileAt(n, w, files, owner, other, i);
  }

  lemma FamilyAssigns(n: nat, w: Weights, files: seq<Path>, owner: Owners, other: Owners)
    requires AllFiles(n, w, files, owner, other)
    ensures Covers(w, files) && Assigns(owner, files, n) && Assigns(other, files, n)
  {
    forall f | f in files
      ensures f in w && f in owner && f in other && 1 <= owner[f] <= n && 1 <= other[f] <= n
    {
      FileOf(n, w, files, owner, other, f);
    }
  }

  lemma FamilyCovers(n: nat, w: Weights, files: seq<Path>, owner: Owners, other: Owners)
    requires AllFiles(n, w, files, owner, other)
    ensures Family(n, w, files, owner, other)
  {
    FamilyAssigns(n, w, files, owner, other);
    forall i | 0 <= i < |files|
      ensures WeightsIn(w, files)[i] == FamilyWeights(n)[i]
      ensures ShardsIn(owner, files, n)[i] == GreedyShards(n)[i] && ShardsIn(other, files, n)[i] == BestShards(n)[i]
    {
      assert FileAt(n, w, files, owner, other, i);
    }
  }

  lemma InOrder(n: nat, w: Weights, files: seq<Path>, owner: Owners, other: Owners, i: nat, j: nat)
    requires AllFiles(n, w, files, owner, other) && i < j <= 2 * n
    ensures files[i] in w && files[j] in w && Before(w, files[i], files[j]) && files[i] != files[j]
  {
    assert FileAt(n, w, files, owner, other, i) && FileAt(n, w, files, owner, other, j);
    assert |files[i].name| == i && |files[j].name| == j;
    NamedInOrder(i, j);
  }

  lemma FamilyOrder(n: nat, w: Weights, files: seq<Path>, owner: Owners, other: Owners)
    requires AllFiles(n, w, files, owner, other) && Covers(w, files)
    ensures Distinct(files) && PackingOrder(w, files, files)
  {
    forall i, j | 0 <= i < j < |files| ensures Before(w, files[i], files[j]) && files[i] != files[j] {
      InOrder(n, w, files, owner, other, i, j);
    }
  }

  lemma FamilyOf(n: nat) returns (w: Weights, files: seq<Path>, owner: Owners, other: Owners)
    requires n >= 1
    ensures AllFiles(n, w, files, owner, other)
  {
    w, files, owner, other := TestWeights(n), TestFiles(n), GreedyOwners(n), BestOwners(n);
    forall i | 0 <= i <= 2 * n ensures FileAt(n, w, files, owner, other, i) { TestFileAt(n, i); }
  }

  lemma FamilyNonNegative(n: nat, w: Weights, files: seq<Path>, owner: Owners, other: Owners)
    requires Family(n, w, files, owner, other)
    ensures forall f :: f in files ==> w[f] >= 0.0
  {
    forall f | f in files ensures w[f] >= 0.0 {
      var i :| 0 <= i < |files| && files[i] == f;
      assert WeightsIn(w, files)[i] == FamilyWeights(n)[i];
    }
  }

  lemma FamilyPacking(n: nat, w: Weights, files: seq<Path>, owner: Owners, other: Owners) returns (loads: seq<real>)
    requires Family(n, w, files, owner, other)
    ensures IsPacking(w, files, n, owner, loads)
  {
    FamilyGreedy(n);
    loads := seq(n, k requires 0 <= k < n => Load(WeightsIn(w, files), ShardsIn(owner, files, n), k, |files|));
  }

  /** A makespan is `top` when shard s reaches it and no shard exceeds it. */
  lemma MakespanIs(w: Weights, files: seq<Path>, o: Owners, n: nat, s: nat, top: real)
    requires Covers(w, files) && (forall f :: f in files ==> f in o)
    requires 1 <= s <= n && ShardLoad(w, files, o, s) == top > 0.0
    requires forall k :: 1 <= k <= n ==> ShardLoad(w, files, o, k) <= top
    ensures Makespan(w, files, o, n) == top
  {
    MakespanBounds(w, files, o, n, s);
    var t := MakespanAttained(w, files, o, n);
  }

  lemma FamilyLoad(n: nat, w: Weights, files: seq<Path>, owner: Owners, other: Owners, s: nat)
    requires Family(n, w, files, owner, other) && 1 <= s <= n
    ensures ShardLoad(w, files, owner, s) == if s == 1 then 4.0 * n as real - 1.0 else 3.0 * n as real - 1.0
    ensures ShardLoad(w, files, other, s) == 3.0 * n as real
  {
    LoadInOrder(w, files, files, owner, n, s - 1);
    LoadInOrder(w, files, files, other, n, s - 1);
    FamilyHeaviest(n, s - 1);
    FamilyEven(n, s - 1);
  }

  lemma FamilyMakespans(n: nat, w: Weights, files: seq<Path>, owner: Owners, other: Owners)
    requires Family(n, w, files, owner, other)
    ensures Makespan(w, files, owner, n) == 4.0 * n as real - 1.0
    ensures Makespan(w, files, other, n) == 3.0 * n as real
  {
    forall s | 1 <= s <= n
      ensures ShardLoad(w, files, owner, s) <= 4.0 * n as real - 1.0
      ensures ShardLoad(w, files, other, s) <= 3.0 * n as real
    {
      FamilyLoad(n, w, files, owner, other, s);
    }
    FamilyLoad(n, w, files, owner, other, 1);
    MakespanIs(w, files, owner, n, 1, 4.0 * n as real - 1.0);
    MakespanIs(w, files, other, n, 1, 3.0 * n as real);
  }

  lemma Cross(x: real, greedy: real, best: real)
    requires greedy == 4.0 * x - 1.0 && best == 3.0 * x
    ensures 3.0 * x * greedy == (4.0 * x - 1.0) * best
  {
  }

  /** For every number of shards the bound of `LongestFirstBound` is attained: there are 2n + 1 files
      on which what the loop leaves behind needs 4n - 1, while another assignment of the same files
      needs 3n. */
  lemma FactorAttained(n: nat)
      returns (w: Weights, files: seq<Path>, owner: Owners, loads: seq<real>, other: Owners)
    requires n >= 1
    ensures |files| == 2 * n + 1 && Distinct(files) && Covers(w, files) && (forall f :: f in files ==> w[f] >= 0.0)
    ensures PackingOrder(w, files, files) && IsPacking(w, files, n, owner, loads) && Assigns(other, files, n)
    ensures Makespan(w, files, owner, n) == 4.0 * n as real - 1.0 && Makespan(w, files, other, n) == 3.0 * n as real
    ensures 3.0 * n as real * Makespan(w, files, owner, n) == (4.0 * n as real - 1.0) * Makespan(w, files, other, n)
  {
    w, files, owner, other := FamilyOf(n);
    FamilyCovers(n, w, files, owner, other);
    FamilyOrder(n, w, files, owner, other);
    FamilyNonNegative(n, w, files, owner, other);
    loads := FamilyPacking(n, w, files, owner, other);
    FamilyMakespans(n, w, files, owner, other);
    Cross(n as real, Makespan(w, files, owner, n), Makespan(w, files, other, n));
  }
}
