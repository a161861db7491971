/** ci/shard_controller.py: longest-first greedy packing of test files onto CI shards.

    Each runner computes the whole partition and prints its own shard. The two promises
    are that all runners compute the same partition, whatever order the file system
    lists the files in, and that no shard is much heavier than necessary: Graham's
    bound 4/3 - 1/(3N) on the heaviest shard against every other assignment. */
module ShardPacking {
  import opened Common

  datatype Path = Path(name: string)

  // ---------- the order of the packing loop: sorted by (-weight, path) ----------

  /** Lexicographic order on strings, as Python compares them. */
  predicate StringLe(a: string, b: string) {
    if a == [] then true
    else if b == [] then false
    else if a[0] != b[0] then a[0] < b[0]
    else StringLe(a[1..], b[1..])
  }

  lemma {:induction false} StringLeTotal(a: string, b: string)
    ensures StringLe(a, b) || StringLe(b, a)
    ensures StringLe(a, b) && StringLe(b, a) ==> a == b
  {
    if a != [] && b != [] && a[0] == b[0] {
      StringLeTotal(a[1..], b[1..]);
      assert a == [a[0]] + a[1..] && b == [b[0]] + b[1..];
    }
  }

  lemma {:induction false} StringLeTransitive(a: string, b: string, c: string)
    requires StringLe(a, b) && StringLe(b, c)
    ensures StringLe(a, c)
  {
    if a != [] && b != [] && c != [] && a[0] == b[0] && b[0] == c[0] {
      StringLeTransitive(a[1..], b[1..], c[1..]);
    }
  }

  ghost predicate SmallerAt(a: string, b: string, i: nat) {
    i < |a| && i < |b| && a[i] < b[i] && forall j :: 0 <= j < i ==> a[j] == b[j]
  }

  lemma SmallerOnTails(a: string, b: string, i: nat)
    requires a != [] && b != [] && a[0] == b[0]
    ensures SmallerAt(a, b, i + 1) <==> SmallerAt(a[1..], b[1..], i)
  {
    if SmallerAt(a[1..], b[1..], i) {
      forall j | 0 <= j < i + 1 ensures a[j] == b[j] {
        if j > 0 { assert a[1..][j - 1] == b[1..][j - 1]; }
      }
    }
  }

  /** It is the lexicographic order: a is a prefix of b, or smaller at the first place where they differ. */
  lemma {:induction false} StringLeExactly(a: string, b: string)
    ensures StringLe(a, b) <==> a <= b || exists i: nat :: SmallerAt(a, b, i)
  {
    if a == [] || b == [] {
    } else if a[0] == b[0] {
      StringLeExactly(a[1..], b[1..]);
      assert a == [a[0]] + a[1..] && b == [b[0]] + b[1..];
      if i: nat :| SmallerAt(a[1..], b[1..], i) { SmallerOnTails(a, b, i); }
      if i: nat :| SmallerAt(a, b, i) { SmallerOnTails(a, b, i - 1); }
    } else {
      assert SmallerAt(a, b, 0) <==> a[0] < b[0];
    }
  }

  type Weights = map<Path, real>

  ghost predicate Covers(w: Weights, files: seq<Path>) {
    forall f :: f in files ==> f in w
  }

  /** `a` may precede `b` in the packing order. */
  predicate Before(w: Weights, a: Path, b: Path)
    requires a in w && b in w
  {
    w[a] > w[b] || (w[a] == w[b] && StringLe(a.name, b.name))
  }

  lemma BeforeTotal(w: Weights, a: Path, b: Path)
    requires a in w && b in w
    ensures Before(w, a, b) || Before(w, b, a)
    ensures Before(w, a, b) && Before(w, b, a) ==> a == b
  {
    StringLeTotal(a.name, b.name);
  }

  lemma BeforeTransitive(w: Weights, a: Path, b: Path, c: Path)
    requires a in w && b in w && c in w && Before(w, a, b) && Before(w, b, c)
    ensures Before(w, a, c)
  {
    if w[a] == w[b] == w[c] {
      StringLeTransitive(a.name, b.name, c.name);
    }
  }

  ghost predicate InPackingOrder(w: Weights, s: seq<Path>)
    requires Covers(w, s)
  {
    forall i, j :: 0 <= i < j < |s| ==> Before(w, s[i], s[j])
  }

  function Insert(w: Weights, f: Path, s: seq<Path>): (r: seq<Path>)
    requires f in w && Covers(w, s)
    ensures multiset(r) == multiset([f] + s)
    ensures Covers(w, r)
  {
    if s == [] then [f]
    else if Before(w, f, s[0]) then [f] + s
    else
      assert s == [s[0]] + s[1..];
      var r := [s[0]] + Insert(w, f, s[1..]);
      assert multiset(r) == multiset([f] + s);
      assert forall x :: x in r ==> x in multiset(r);
      r
  }

  function SortFiles(w: Weights, files: seq<Path>): (r: seq<Path>)
    requires Covers(w, files)
    ensures multiset(r) == multiset(files)
    ensures Covers(w, r)
  {
    if files == [] then []
    else
      assert files == [files[0]] + files[1..];
      Insert(w, files[0], SortFiles(w, files[1..]))
  }

  lemma {:induction false} InsertSorted(w: Weights, f: Path, s: seq<Path>)
    requires f in w && Covers(w, s) && InPackingOrder(w, s)
    ensures InPackingOrder(w, Insert(w, f, s))
  {
    if s == [] {
    } else if Before(w, f, s[0]) {
      forall j | 0 <= j < |s| ensures Before(w, f, s[j]) {
        if j > 0 { BeforeTransitive(w, f, s[0], s[j]); }
      }
    } else {
      BeforeTotal(w, f, s[0]);
      InsertSorted(w, f, s[1..]);
      var r := Insert(w, f, s[1..]);
      forall j | 0 <= j < |r| ensures Before(w, s[0], r[j]) {
        assert r[j] in multiset(r);
        assert r[j] in multiset([f] + s[1..]);
        assert r[j] == f || r[j] in s[1..];
      }
    }
  }

  lemma {:induction false} SortFilesSorted(w: Weights, files: seq<Path>)
    requires Covers(w, files)
    ensures InPackingOrder(w, SortFiles(w, files))
  {
    if files == [] {
    } else {
      SortFilesSorted(w, files[1..]);
      InsertSorted(w, files[0], SortFiles(w, files[1..]));
    }
  }

  /** The packing order is determined by the set of files alone. */
  lemma {:induction false} PackingOrderUnique(w: Weights, s: seq<Path>, t: seq<Path>)
    requires Covers(w, s) && Covers(w, t) && InPackingOrder(w, s) && InPackingOrder(w, t)
    requires multiset(s) == multiset(t)
    ensures s == t
  {
    assert |multiset(s)| == |s| && |multiset(t)| == |t|;
    if s == [] {
    } else {
      SameHeads(w, s, t);
      SameTails(s, t);
      PackingOrderUnique(w, s[1..], t[1..]);
      assert s == [s[0]] + s[1..] && t == [t[0]] + t[1..];
    }
  }

  lemma SameHeads(w: Weights, s: seq<Path>, t: seq<Path>)
    requires Covers(w, s) && Covers(w, t) && InPackingOrder(w, s) && InPackingOrder(w, t)
    requires multiset(s) == multiset(t) && s != [] && t != []
    ensures s[0] == t[0]
  {
    if s[0] != t[0] {
      assert s[0] in multiset(t) && t[0] in multiset(s);
      var i :| 0 <= i < |t| && t[i] == s[0];
      var j :| 0 <= j < |s| && s[j] == t[0];
      assert Before(w, s[0], s[j]) && Before(w, t[0], t[i]);
      BeforeTotal(w, s[0], t[0]);
    }
  }

  // ---------- loads, and what the greedy loop guarantees ----------

  /** Weight of the first `m` items that assignment `a` puts on shard `k`. */
  function Load(p: seq<real>, a: seq<nat>, k: nat, m: nat): real
    requires m <= |p| && m <= |a|
  {
    if m == 0 then 0.0
    else Load(p, a, k, m - 1) + (if a[m - 1] == k then p[m - 1] else 0.0)
  }

  function Total(p: seq<real>, m: nat): real
    requires m <= |p|
  {
    if m == 0 then 0.0 else Total(p, m - 1) + p[m - 1]
  }

  ghost predicate NonNegative(p: seq<real>) {
    forall i :: 0 <= i < |p| ==> p[i] >= 0.0
  }

  ghost predicate Descending(p: seq<real>) {
    forall i, j :: 0 <= i < j < |p| ==> p[i] >= p[j]
  }

  ghost predicate Assignment(a: seq<nat>, n: nat) {
    forall i :: 0 <= i < |a| ==> a[i] < n
  }

  /** Item `j` went to the first of the shards that were lightest at that moment. */
  ghost predicate LightestAt(p: seq<real>, g: seq<nat>, n: nat, j: nat)
    requires j < |p| && j < |g|
  {
    && g[j] < n
    && (forall i :: 0 <= i < n ==> Load(p, g, g[j], j) <= Load(p, g, i, j))
    && (forall i :: 0 <= i < g[j] ==> Load(p, g, g[j], j) < Load(p, g, i, j))
  }

  ghost predicate Greedy(p: seq<real>, g: seq<nat>, n: nat) {
    && |g| == |p|
    && forall j :: 0 <= j < |p| ==> LightestAt(p, g, n, j)
  }

  lemma {:induction false} LoadPrefix(p: seq<real>, a: seq<nat>, b: seq<nat>, k: nat, m: nat)
    requires m <= |p| && m <= |a| && m <= |b| && a[..m] == b[..m]
    ensures Load(p, a, k, m) == Load(p, b, k, m)
  {
    if m == 0 {
    } else {
      assert a[..m - 1] == a[..m][..m - 1] && b[..m - 1] == b[..m][..m - 1];
      assert a[m - 1] == a[..m][m - 1] && b[m - 1] == b[..m][m - 1];
      LoadPrefix(p, a, b, k, m - 1);
    }
  }

  lemma {:induction false} LoadMonotone(p: seq<real>, a: seq<nat>, k: nat, m: nat, m': nat)
    requires m <= m' <= |p| && m' <= |a| && NonNegative(p)
    ensures 0.0 <= Load(p, a, k, m) <= Load(p, a, k, m')
    decreases m'
  {
    if m' == 0 {
    } else {
      if m < m' {
        LoadMonotone(p, a, k, m, m' - 1);
      } else {
        LoadMonotone(p, a, k, m - 1, m' - 1);
      }
    }
  }

  /** A shard weighs at least as much as any single item on it. */
  lemma LoadAtLeastItem(p: seq<real>, a: seq<nat>, i: nat, m: nat)
    requires i < m <= |p| && m <= |a| && NonNegative(p)
    ensures Load(p, a, a[i], m) >= p[i]
  {
    LoadMonotone(p, a, a[i], 0, i);
    LoadMonotone(p, a, a[i], i + 1, m);
  }

  /** Every one of the n shards carries at most `hi` of the first m items. */
  ghost predicate Within(p: seq<real>, a: seq<nat>, n: nat, m: nat, hi: real)
    requires m <= |p| && m <= |a|
  {
    forall k :: 0 <= k < n ==> Load(p, a, k, m) <= hi
  }

  /** Every one of the n shards carries at least `lo` of the first m items. */
  ghost predicate AtLeast(p: seq<real>, a: seq<nat>, n: nat, m: nat, lo: real)
    requires m <= |p| && m <= |a|
  {
    forall k :: 0 <= k < n ==> Load(p, a, k, m) >= lo
  }

  function SumLoads(p: seq<real>, a: seq<nat>, m: nat, n: nat): real
    requires m <= |p| && m <= |a|
  {
    if n == 0 then 0.0 else SumLoads(p, a, m, n - 1) + Load(p, a, n - 1, m)
  }

  lemma {:induction false} SumLoadsStep(p: seq<real>, a: seq<nat>, m: nat, n: nat)
    requires 0 < m <= |p| && m <= |a|
    ensures SumLoads(p, a, m, n) == SumLoads(p, a, m - 1, n) + (if a[m - 1] < n then p[m - 1] else 0.0)
  {
    if n == 0 {
    } else {
      SumLoadsStep(p, a, m, n - 1);
    }
  }

  /** Every item is on exactly one shard: the loads add up to the total. */
  lemma {:induction false} LoadsAddUp(p: seq<real>, a: seq<nat>, m: nat, n: nat)
    requires m <= |p| && m <= |a| && Assignment(a, n)
    ensures SumLoads(p, a, m, n) == Total(p, m)
  {
    if m == 0 {
      var i := 0;
      while i < n
        invariant i <= n && SumLoads(p, a, 0, i) == 0.0
      {
        i := i + 1;
      }
    } else {
      SumLoadsStep(p, a, m, n);
      LoadsAddUp(p, a, m - 1, n);
    }
  }

  /** The average argument: the lightest shard carries at most one n-th of the total ... */
  lemma LightestBelowAverage(p: seq<real>, a: seq<nat>, m: nat, n: nat, lo: real)
    requires m <= |p| && m <= |a| && Assignment(a, n) && AtLeast(p, a, n, m, lo)
    ensures n as real * lo <= Total(p, m)
  {
    SumLoadsAbove(p, a, m, n, lo);
    LoadsAddUp(p, a, m, n);
  }

  lemma {:induction false} SumLoadsAbove(p: seq<real>, a: seq<nat>, m: nat, n: nat, lo: real)
    requires m <= |p| && m <= |a| && AtLeast(p, a, n, m, lo)
    ensures n as real * lo <= SumLoads(p, a, m, n)
  {
    if n == 0 {
    } else {
      SumLoadsAbove(p, a, m, n - 1, lo);
      assert n as real * lo == (n - 1) as real * lo + lo;
    }
  }

  /** ... and the heaviest at least one n-th. */
  lemma HeaviestAboveAverage(p: seq<real>, a: seq<nat>, m: nat, n: nat, hi: real)
    requires m <= |p| && m <= |a| && Assignment(a, n) && Within(p, a, n, m, hi)
    ensures Total(p, m) <= n as real * hi
  {
    SumLoadsBelow(p, a, m, n, hi);
    LoadsAddUp(p, a, m, n);
  }

  lemma {:induction false} SumLoadsBelow(p: seq<real>, a: seq<nat>, m: nat, n: nat, hi: real)
    requires m <= |p| && m <= |a| && Within(p, a, n, m, hi)
    ensures SumLoads(p, a, m, n) <= n as real * hi
  {
    if n == 0 {
    } else {
      SumLoadsBelow(p, a, m, n - 1, hi);
      assert n as real * hi == (n - 1) as real * hi + hi;
    }
  }

  // ---------- pigeonholes, by counting with 0/1/2-valued weights ----------

  /** Counts items before `t` twice and the others once. */
  function Doubled(len: nat, t: nat): (r: seq<real>)
    ensures |r| == len
  {
    seq(len, i => if i < t then 2.0 else 1.0)
  }

  lemma {:induction false} TotalDoubled(len: nat, t: nat, m: nat)
    requires m <= len
    ensures Total(Doubled(len, t), m) == (if m <= t then m + m else m + t) as real
  {
    if m == 0 {
    } else {
      TotalDoubled(len, t, m - 1);
    }
  }

  /** Counts items outside [lo, hi) once. */
  function Outside(len: nat, lo: nat, hi: nat): (r: seq<real>)
    ensures |r| == len
  {
    seq(len, i => if lo <= i < hi then 0.0 else 1.0)
  }

  lemma {:induction false} TotalOutside(len: nat, lo: nat, hi: nat, m: nat)
    requires m <= len && lo <= hi
    ensures Total(Outside(len, lo, hi), m) == (if m <= lo then m else if m <= hi then lo else m - (hi - lo)) as real
  {
    if m == 0 {
    } else {
      TotalOutside(len, lo, hi, m - 1);
    }
  }

  /** Fewer than n marked items leave some shard without a marked item. */
  lemma ShardWithoutMark(c: seq<real>, a: seq<nat>, m: nat, n: nat) returns (k: nat)
    requires m <= |c| && m <= |a| && Assignment(a, n) && n > 0
    requires forall i :: 0 <= i < |c| ==> c[i] == 0.0 || c[i] == 1.0
    requires Total(c, m) < n as real
    ensures k < n && forall i :: 0 <= i < m && a[i] == k ==> c[i] == 0.0
  {
    if AtLeast(c, a, n, m, 1.0) {
      LightestBelowAverage(c, a, m, n, 1.0);
      assert false;
    }
    k :| 0 <= k < n && Load(c, a, k, m) < 1.0;
    forall i | 0 <= i < m && a[i] == k ensures c[i] == 0.0 {
      LoadAtLeastItem(c, a, i, m);
    }
  }

  /** Items before `t` count twice, the others once. When every item exceeds a third of M
      and no item before `t` fits beside the last item j, a shard within M counts at most 2. */
  lemma {:induction false} CountAtMostTwo(p: seq<real>, a: seq<nat>, k: nat, M: real, t: nat, j: nat, m: nat)
    requires |a| == |p| && t <= j < |p| && m <= j + 1 && NonNegative(p) && Descending(p)
    requires 3.0 * p[j] > M >= 0.0
    requires t > 0 ==> p[t - 1] + p[j] > M
    requires Load(p, a, k, m) <= M
    ensures var c := Load(Doubled(|p|, t), a, k, m);
            var l := Load(p, a, k, m);
            || (c == 0.0 && l >= 0.0)
            || (c == 1.0 && l >= p[j])
            || (c == 2.0 && l + p[j] > M)
  {
    if m == 0 {
    } else {
      LoadMonotone(p, a, k, m - 1, m);
      CountAtMostTwo(p, a, k, M, t, j, m - 1);
      assert p[m - 1] >= p[j];
      if m <= t { assert p[m - 1] >= p[t - 1]; }
    }
  }

  /** So an assignment within M of items 0..j counts at most 2n in all. */
  lemma TotalCountAtMost(p: seq<real>, a: seq<nat>, n: nat, M: real, t: nat, j: nat)
    requires |a| == |p| && t <= j < |p| && NonNegative(p) && Descending(p) && Assignment(a, n)
    requires 3.0 * p[j] > M >= 0.0
    requires t > 0 ==> p[t - 1] + p[j] > M
    requires Within(p, a, n, j + 1, M)
    ensures j + 1 + t <= 2 * n
  {
    var c, m := Doubled(|p|, t), j + 1;
    forall k | 0 <= k < n ensures Load(c, a, k, m) <= 2.0 {
      CountAtMostTwo(p, a, k, M, t, j, m);
    }
    HeaviestAboveAverage(c, a, m, n, 2.0);
    TotalDoubled(|p|, t, m);
  }

  // ---------- how greedy places items that are all positive ----------

  lemma GreedyIsAssignment(p: seq<real>, g: seq<nat>, n: nat)
    requires Greedy(p, g, n)
    ensures Assignment(g, n)
  {
    forall i | 0 <= i < |g| ensures g[i] < n {
      assert LightestAt(p, g, n, i);
    }
  }

  lemma GreedyPicksLightest(p: seq<real>, g: seq<nat>, n: nat, j: nat, k: nat)
    requires Greedy(p, g, n) && j < |p| && k < n
    ensures Load(p, g, g[j], j) <= Load(p, g, k, j)
  {
    assert LightestAt(p, g, n, j);
  }

  lemma {:induction false} LoadZero(p: seq<real>, a: seq<nat>, k: nat, m: nat)
    requires m <= |p| && m <= |a|
    requires forall i :: 0 <= i < m ==> a[i] != k
    ensures Load(p, a, k, m) == 0.0
  {
    if m == 0 {
    } else {
      LoadZero(p, a, k, m - 1);
    }
  }

  /** While fewer than n items are placed, some shard is still empty. */
  lemma EmptyShard(p: seq<real>, g: seq<nat>, n: nat, j: nat) returns (k: nat)
    requires |g| == |p| && Assignment(g, n) && j <= |p| && j < n
    ensures k < n && Load(p, g, k, j) == 0.0
  {
    var ones := Outside(|p|, 0, 0);
    TotalOutside(|p|, 0, 0, j);
    k := ShardWithoutMark(ones, g, j, n);
    LoadZero(p, g, k, j);
  }

  /** The first n items go to n different shards. */
  lemma GreedyOpensEmpty(p: seq<real>, g: seq<nat>, n: nat, j: nat)
    requires Greedy(p, g, n) && NonNegative(p) && j < |p| && j < n
    requires forall i :: 0 <= i < j ==> p[i] > 0.0
    ensures Load(p, g, g[j], j) == 0.0
  {
    GreedyIsAssignment(p, g, n);
    var k := EmptyShard(p, g, n, j);
    GreedyPicksLightest(p, g, n, j, k);
    LoadMonotone(p, g, g[j], 0, j);
  }

  /** A shard whose items all lie in [lo, n) has just one of them, or none. */
  lemma {:induction false} LoneItemLoad(p: seq<real>, g: seq<nat>, n: nat, k: nat, lo: nat, m: nat)
    requires Greedy(p, g, n) && NonNegative(p) && Descending(p) && lo < n && n <= |p| && m <= |p|
    requires forall i :: 0 <= i < m ==> p[i] > 0.0
    requires forall i :: 0 <= i < m && g[i] == k ==> lo <= i < n
    ensures Load(p, g, k, m) <= p[lo]
  {
    if m == 0 {
    } else {
      LoneItemLoad(p, g, n, k, lo, m - 1);
      if g[m - 1] == k {
        GreedyOpensEmpty(p, g, n, m - 1);
        assert p[lo] >= p[m - 1];
      }
    }
  }

  /** Before item n+r-1 is placed, some shard still carries at most item n-r. */
  lemma LightestAtMost(p: seq<real>, g: seq<nat>, n: nat, r: nat, j: nat)
    requires Greedy(p, g, n) && NonNegative(p) && Descending(p)
    requires 1 <= r <= n && j == n + r - 1 && j < |p|
    requires forall i :: 0 <= i < j ==> p[i] > 0.0
    ensures Load(p, g, g[j], j) <= p[n - r]
  {
    var lo := n - r;
    var c := Outside(|p|, lo, n);
    TotalOutside(|p|, lo, n, j);
    GreedyIsAssignment(p, g, n);
    var k := ShardWithoutMark(c, g, j, n);
    forall i | 0 <= i < j && g[i] == k ensures lo <= i < n {
      assert c[i] == 0.0;
    }
    LoneItemLoad(p, g, n, k, lo, j);
    GreedyPicksLightest(p, g, n, j, k);
  }

  // ---------- Graham's bound ----------

  /** The factor 4/3 - 1/(3n), cleared of fractions. */
  ghost predicate WithinGraham(n: nat, load: real, optimum: real) {
    3.0 * n as real * load <= (4.0 * n as real - 1.0) * optimum
  }

  /** If even the last item exceeds M/3, greedy is as good as the best assignment: with
      n + r items placed, item n-r must fit beside the last one in any assignment within M,
      and greedy has a shard with nothing heavier than item n-r left for it. */
  lemma LargeLastItem(p: seq<real>, g: seq<nat>, a: seq<nat>, n: nat, M: real, j: nat)
    requires Greedy(p, g, n) && |a| == |p| && Assignment(a, n) && n > 0
    requires NonNegative(p) && Descending(p) && j < |p|
    requires M >= 0.0 && 3.0 * p[j] > M
    requires Within(p, a, n, j + 1, M)
    ensures Load(p, g, g[j], j) + p[j] <= M
  {
    assert forall i :: 0 <= i < j ==> p[i] >= p[j] > 0.0;
    if j < n {
      GreedyOpensEmpty(p, g, n, j);
      LoadAtLeastItem(p, a, j, j + 1);
    } else {
      TotalCountAtMost(p, a, n, M, 0, j);
      var r := j + 1 - n;
      if p[n - r] + p[j] > M {
        TotalCountAtMost(p, a, n, M, n - r + 1, j);
        assert false;
      }
      LightestAtMost(p, g, n, r, j);
    }
  }

  /** If the last item is at most M/3, the average argument suffices. */
  lemma SmallLastItem(p: seq<real>, g: seq<nat>, a: seq<nat>, n: nat, M: real, j: nat)
    requires Greedy(p, g, n) && |a| == |p| && Assignment(a, n) && n > 0
    requires j < |p| && 3.0 * p[j] <= M
    requires Within(p, a, n, j + 1, M)
    ensures WithinGraham(n, Load(p, g, g[j], j) + p[j], M)
  {
    var lightest := Load(p, g, g[j], j);
    GreedyIsAssignment(p, g, n);
    forall k | 0 <= k < n ensures Load(p, g, k, j) >= lightest {
      GreedyPicksLightest(p, g, n, j, k);
    }
    LightestBelowAverage(p, g, j, n, lightest);
    HeaviestAboveAverage(p, a, j + 1, n, M);
    LptArithmetic(n, lightest, p[j], Total(p, j), Total(p, j + 1), M);
  }

  lemma LptArithmetic(n: nat, lightest: real, last: real, before: real, after: real, M: real)
    requires n >= 1 && n as real * lightest <= before && after == before + last
    requires after <= n as real * M && 3.0 * last <= M
    ensures WithinGraham(n, lightest + last, M)
  {
  }

  /** Graham 1969, for one list of weights in descending order. M is any bound on the loads
      of the competing assignment, so in particular its makespan. */
  lemma LptSequence(p: seq<real>, g: seq<nat>, a: seq<nat>, n: nat, M: real, k: nat)
    requires Greedy(p, g, n) && |a| == |p| && Assignment(a, n) && k < n
    requires NonNegative(p) && Descending(p)
    requires Within(p, a, n, |p|, M)
    ensures WithinGraham(n, Load(p, g, k, |p|), M)
  {
    LoadMonotone(p, a, 0, 0, |p|);
    if k !in g {
      LoadZero(p, g, k, |p|);
      WithinOptimum(n, 0.0, M);
    } else {
      var j := LastOn(g, k);
      var m := j + 1;
      LoadSkips(p, g, k, m, |p|);
      forall i | 0 <= i < n ensures Load(p, a, i, m) <= M {
        LoadMonotone(p, a, i, m, |p|);
      }
      if 3.0 * p[j] > M {
        LargeLastItem(p, g, a, n, M, j);
        LoadMonotone(p, g, k, 0, m);
        WithinOptimum(n, Load(p, g, k, m), M);
      } else {
        SmallLastItem(p, g, a, n, M, j);
      }
    }
  }

  lemma WithinOptimum(n: nat, load: real, M: real)
    requires n >= 1 && 0.0 <= load <= M
    ensures WithinGraham(n, load, M)
  {
  }

  lemma LastOn(g: seq<nat>, k: nat) returns (j: nat)
    requires k in g
    ensures j < |g| && g[j] == k && forall i :: j < i < |g| ==> g[i] != k
  {
    j := |g| - 1;
    while g[j] != k
      invariant j < |g| && forall i :: j < i < |g| ==> g[i] != k
      decreases j
    {
      j := j - 1;
    }
  }

  lemma {:induction false} LoadSkips(p: seq<real>, g: seq<nat>, k: nat, m: nat, m': nat)
    requires m <= m' <= |p| && m' <= |g|
    requires forall i :: m <= i < m' ==> g[i] != k
    ensures Load(p, g, k, m') == Load(p, g, k, m)
    decreases m'
  {
    if m == m' {
    } else {
      LoadSkips(p, g, k, m, m' - 1);
    }
  }

  // ---------- the script: weights, the packing loop, one shard's output ----------

  /** Durations file: one entry per recorded test file, in file order, keys distinct. */
  type Durations = seq<(Path, real)>

  function Timed(records: Durations): (r: seq<real>)
    ensures forall i :: 0 <= i < |r| ==> r[i] > 0.0
  {
    if records == [] then []
    else
      var rest := Timed(records[..|records| - 1]);
      var v := records[|records| - 1].1;
      if v > 0.0 then rest + [v] else rest
  }

  /** Mean of the files that took time, or one second when nothing is recorded. */
  function DefaultWeight(records: Durations): real {
    var timed := Timed(records);
    if timed == [] then 1.0 else Sum(timed) / |timed| as real
  }

  function Recorded(records: Durations, f: Path): Option<real> {
    if records == [] then None
    else if records[|records| - 1].0 == f then Some(records[|records| - 1].1)
    else Recorded(records[..|records| - 1], f)
  }

  function WeightTable(files: seq<Path>, records: Durations): (w: Weights)
    ensures w.Keys == set f | f in files
  {
    map f | f in files :: match Recorded(records, f)
                          case Some(v) => v
                          case None => DefaultWeight(records)
  }

  lemma {:induction false} SumPositive(s: seq<real>)
    requires s != [] && forall i :: 0 <= i < |s| ==> s[i] > 0.0
    ensures Sum(s) > 0.0
  {
    if |s| > 1 {
      SumPositive(s[..|s| - 1]);
    } else {
      assert s[..0] == [];
    }
  }

  lemma DefaultWeightPositive(records: Durations)
    ensures DefaultWeight(records) > 0.0
  {
    var timed := Timed(records);
    if timed != [] {
      SumPositive(timed);
      QuotientPositive(Sum(timed), |timed| as real);
    }
  }

  lemma QuotientPositive(x: real, y: real)
    requires x > 0.0 && y > 0.0
    ensures x / y > 0.0
  {
  }

  lemma {:induction false} RecordedNonNegative(records: Durations, f: Path)
    requires forall i :: 0 <= i < |records| ==> records[i].1 >= 0.0
    ensures Recorded(records, f).Some? ==> Recorded(records, f).value >= 0.0
  {
    if records == [] {
    } else {
      RecordedNonNegative(records[..|records| - 1], f);
    }
  }

  /** Unrecorded files get a strictly positive weight, so a batch of new tests spreads out
      even when every recorded duration rounds to zero. */
  lemma {:induction false} WeightsOfNewFiles(files: seq<Path>, records: Durations)
    requires forall i :: 0 <= i < |records| ==> records[i].1 >= 0.0
    ensures forall f :: f in files ==> WeightTable(files, records)[f] >= 0.0
    ensures forall f :: f in files && Recorded(records, f).None? ==> WeightTable(files, records)[f] > 0.0
  {
    DefaultWeightPositive(records);
    forall f | f in files ensures WeightTable(files, records)[f] >= 0.0 { RecordedNonNegative(records, f); }
  }

  /** Sum and number of the recorded durations that are positive. */
  function PositiveSum(records: Durations): real {
    if records == [] then 0.0
    else
      var v := records[|records| - 1].1;
      PositiveSum(records[..|records| - 1]) + if v > 0.0 then v else 0.0
  }

  function PositiveCount(records: Durations): nat {
    if records == [] then 0
    else PositiveCount(records[..|records| - 1]) + if records[|records| - 1].1 > 0.0 then 1 else 0
  }

  lemma {:induction false} TimedTotals(records: Durations)
    ensures Sum(Timed(records)) == PositiveSum(records) && |Timed(records)| == PositiveCount(records)
  {
    if records == [] {
    } else {
      var front, v := records[..|records| - 1], records[|records| - 1].1;
      TimedTotals(front);
      Snoc(Timed(front), v);
      assert Timed(records) == if v > 0.0 then Timed(front) + [v] else Timed(front);
    }
  }

  lemma {:induction false} RecordedExactly(records: Durations, f: Path, i: nat)
    requires forall a, b :: 0 <= a < b < |records| ==> records[a].0 != records[b].0
    requires i < |records| && records[i].0 == f
    ensures Recorded(records, f) == Some(records[i].1)
  {
    if i < |records| - 1 { RecordedExactly(records[..|records| - 1], f, i); }
  }

  /** A file weighs what is recorded for it; one without a record weighs the mean of the positive records, or one
      second when there are none. */
  lemma WeightsExactly(files: seq<Path>, records: Durations, f: Path)
    requires f in files && forall a, b :: 0 <= a < b < |records| ==> records[a].0 != records[b].0
    ensures forall i :: 0 <= i < |records| && records[i].0 == f ==> WeightTable(files, records)[f] == records[i].1
    ensures (forall i :: 0 <= i < |records| ==> records[i].0 != f) ==>
              IsDefault(WeightTable(files, records)[f], records)
  {
    forall i | 0 <= i < |records| && records[i].0 == f ensures Recorded(records, f) == Some(records[i].1) {
      RecordedExactly(records, f, i);
    }
    if forall i :: 0 <= i < |records| ==> records[i].0 != f {
      NotRecorded(records, f);
      DefaultExactly(records);
    }
  }

  ghost predicate IsDefault(x: real, records: Durations) {
    if PositiveCount(records) == 0 then x == 1.0 else x * PositiveCount(records) as real == PositiveSum(records)
  }

  lemma DefaultExactly(records: Durations)
    ensures IsDefault(DefaultWeight(records), records)
  {
    TimedTotals(records);
    if Timed(records) != [] { QuotientTimes(Sum(Timed(records)), |Timed(records)| as real); }
  }

  lemma {:induction false} NotRecorded(records: Durations, f: Path)
    requires forall i :: 0 <= i < |records| ==> records[i].0 != f
    ensures Recorded(records, f).None?
  {
    if records == [] {
    } else {
      NotRecorded(records[..|records| - 1], f);
    }
  }

  lemma QuotientTimes(x: real, y: real)
    requires y > 0.0
    ensures (x / y) * y == x
  {
  }

  type Owners = map<Path, nat>

  ghost predicate Distinct(files: seq<Path>) {
    forall i, j :: 0 <= i < j < |files| ==> files[i] != files[j]
  }

  ghost predicate Assigns(o: Owners, files: seq<Path>, n: nat) {
    forall f :: f in files ==> f in o && 1 <= o[f] <= n
  }

  function WeightsIn(w: Weights, order: seq<Path>): (p: seq<real>)
    requires Covers(w, order)
    ensures |p| == |order|
  {
    seq(|order|, i requires 0 <= i < |order| => w[order[i]])
  }

  /** The 0-based shard of each file of `order`. */
  ghost function ShardsIn(o: Owners, order: seq<Path>, n: nat): (a: seq<nat>)
    requires Assigns(o, order, n)
    ensures |a| == |order| && Assignment(a, n)
  {
    seq(|order|, i requires 0 <= i < |order| => o[order[i]] - 1)
  }

  /** Seconds of work that `o` puts on shard `s`. */
  function ShardLoad(w: Weights, files: seq<Path>, o: Owners, s: nat): real
    requires Covers(w, files) && forall f :: f in files ==> f in o
  {
    if files == [] then 0.0
    else
      var f := files[|files| - 1];
      ShardLoad(w, files[..|files| - 1], o, s) + (if o[f] == s then w[f] else 0.0)
  }

  function Makespan(w: Weights, files: seq<Path>, o: Owners, n: nat): real
    requires Covers(w, files) && forall f :: f in files ==> f in o
  {
    if n == 0 then 0.0 else Max(Makespan(w, files, o, n - 1), ShardLoad(w, files, o, n))
  }

  /** `order` lists the same files, heaviest first and by path on ties. */
  ghost predicate PackingOrder(w: Weights, files: seq<Path>, order: seq<Path>)
    requires Covers(w, files) && Covers(w, order)
  {
    multiset(order) == multiset(files) && InPackingOrder(w, order)
  }

  /** What the loop leaves behind after visiting the files in the given order. */
  ghost predicate IsPacking(w: Weights, order: seq<Path>, n: nat, owner: Owners, loads: seq<real>)
    requires Covers(w, order)
  {
    && (forall f :: f in owner ==> f in order)
    && Assigns(owner, order, n)
    && Greedy(WeightsIn(w, order), ShardsIn(owner, order, n), n)
    && |loads| == n
    && forall k :: 0 <= k < n ==> loads[k] == Load(WeightsIn(w, order), ShardsIn(owner, order, n), k, |order|)
  }

  lemma GreedyStep(p: seq<real>, g: seq<nat>, n: nat, k: nat)
    requires |g| < |p| && k < n
    requires forall i :: 0 <= i < |g| ==> LightestAt(p, g, n, i)
    requires forall i :: 0 <= i < n ==> Load(p, g, k, |g|) <= Load(p, g, i, |g|)
    requires forall i :: 0 <= i < k ==> Load(p, g, k, |g|) < Load(p, g, i, |g|)
    ensures forall i :: 0 <= i <= |g| ==> LightestAt(p, g + [k], n, i)
    ensures forall i :: 0 <= i < n ==>
              Load(p, g + [k], i, |g| + 1) == Load(p, g, i, |g|) + (if i == k then p[|g|] else 0.0)
  {
    var g' := g + [k];
    forall j | 0 <= j <= |g| ensures LightestAt(p, g', n, j) {
      if j < |g| {
        LightestSnoc(p, g, n, k, j);
      } else {
        forall i | 0 <= i < n ensures Load(p, g', i, j) == Load(p, g, i, j) { LoadSnoc(p, g, k, i, j); }
      }
    }
    forall i | 0 <= i < n
      ensures Load(p, g', i, |g| + 1) == Load(p, g, i, |g|) + (if i == k then p[|g|] else 0.0)
    {
      LoadSnoc(p, g, k, i, |g|);
    }
  }

  lemma LoadSnoc(p: seq<real>, g: seq<nat>, k: nat, i: nat, m: nat)
    requires m <= |g| < |p|
    ensures Load(p, g + [k], i, m) == Load(p, g, i, m)
  {
    assert (g + [k])[..m] == g[..m];
    LoadPrefix(p, g + [k], g, i, m);
  }

  lemma LightestSnoc(p: seq<real>, g: seq<nat>, n: nat, k: nat, j: nat)
    requires j < |g| < |p| && LightestAt(p, g, n, j)
    ensures LightestAt(p, g + [k], n, j)
  {
    LoadSnoc(p, g, k, g[j], j);
    forall i | 0 <= i < n ensures Load(p, g + [k], i, j) == Load(p, g, i, j) { LoadSnoc(p, g, k, i, j); }
  }

  lemma SameMembers(a: seq<Path>, b: seq<Path>)
    requires multiset(a) == multiset(b)
    ensures forall f :: f in a <==> f in b
  {
    assert forall f :: f in a <==> f in multiset(a);
    assert forall f :: f in b <==> f in multiset(b);
  }

  lemma SortedDistinct(files: seq<Path>, order: seq<Path>)
    requires Distinct(files) && multiset(files) == multiset(order)
    ensures Distinct(order)
  {
    forall i, j | 0 <= i < j < |order| ensures order[i] != order[j] {
      var x := order[i];
      if x == order[j] {
        assert order == order[..i] + [x] + order[i + 1..j] + [x] + order[j + 1..];
        assert multiset(order)[x] >= 2;
        MultiplicityOne(files, x);
        assert false;
      }
    }
  }

  lemma {:induction false} MultiplicityOne(files: seq<Path>, x: Path)
    requires Distinct(files)
    ensures multiset(files)[x] <= 1
  {
    if files == [] {
    } else {
      var front := files[..|files| - 1];
      assert files == front + [files[|files| - 1]];
      MultiplicityOne(front, x);
      if files[|files| - 1] == x { assert x !in front; }
    }
  }

  /** Index of the smallest load, the lowest index on ties. */
  method LightestShard(loads: array<real>) returns (k: nat)
    requires loads.Length > 0
    ensures k < loads.Length
    ensures forall i :: 0 <= i < loads.Length ==> loads[k] <= loads[i]
    ensures forall i :: 0 <= i < k ==> loads[k] < loads[i]
  {
    k := 0;
    for i := 1 to loads.Length
      invariant 0 <= k < i
      invariant forall i' :: 0 <= i' < i ==> loads[k] <= loads[i']
      invariant forall i' :: 0 <= i' < k ==> loads[k] < loads[i']
    {
      if loads[i] < loads[k] { k := i; }
    }
  }

  /** The loop invariant after `j` files: `g` is the 0-based shard of each visited file. */
  ghost predicate Packed(w: Weights, order: seq<Path>, n: nat, g: seq<nat>, owner: Owners, loads: seq<real>, j: nat)
    requires Covers(w, order)
  {
    var p := WeightsIn(w, order);
    && j <= |order| && |g| == j && |loads| == n
    && (forall k :: 0 <= k < n ==> loads[k] == Load(p, g, k, j))
    && (forall f :: f in owner <==> f in order[..j])
    && (forall i :: 0 <= i < j ==> owner[order[i]] == g[i] + 1)
    && (forall i :: 0 <= i < j ==> LightestAt(p, g, n, i))
  }

  lemma PackedStep(w: Weights, order: seq<Path>, n: nat, g: seq<nat>, owner: Owners, loads: seq<real>, j: nat, k: nat)
    requires Covers(w, order) && Distinct(order) && Packed(w, order, n, g, owner, loads, j)
    requires j < |order| && k < n
    requires forall i :: 0 <= i < n ==> loads[k] <= loads[i]
    requires forall i :: 0 <= i < k ==> loads[k] < loads[i]
    ensures Packed(w, order, n, g + [k], owner[order[j] := k + 1], loads[k := loads[k] + w[order[j]]], j + 1)
  {
    var p := WeightsIn(w, order);
    forall i | 0 <= i < n ensures Load(p, g, k, j) <= Load(p, g, i, j)
                          ensures i < k ==> Load(p, g, k, j) < Load(p, g, i, j) {
      assert loads[k] <= loads[i];
    }
    GreedyStep(p, g, n, k);
    assert order[..j + 1] == order[..j] + [order[j]];
  }

  lemma PackedAll(w: Weights, order: seq<Path>, n: nat, g: seq<nat>, owner: Owners, loads: seq<real>)
    requires Covers(w, order) && Packed(w, order, n, g, owner, loads, |order|)
    ensures IsPacking(w, order, n, owner, loads)
  {
    assert order[..|order|] == order;
    GreedyIsAssignment(WeightsIn(w, order), g, n);
    assert Assigns(owner, order, n);
    assert ShardsIn(owner, order, n) == g;
  }

  /** The packing loop: `loads` is updated in place, `owner` collects the partition. */
  method PackInOrder(order: seq<Path>, w: Weights, total: nat) returns (owner: Owners, loads: array<real>)
    requires Covers(w, order) && Distinct(order) && total >= 1
    ensures IsPacking(w, order, total, owner, loads[..])
  {
    loads := new real[total](_ => 0.0);
    owner := map[];
    ghost var g: seq<nat> := [];
    for j := 0 to |order|
      invariant Packed(w, order, total, g, owner, loads[..], j)
    {
      var k := LightestShard(loads);
      PackedStep(w, order, total, g, owner, loads[..], j, k);
      loads[k] := loads[k] + w[order[j]];
      owner := owner[order[j] := k + 1];
      g := g + [k];
    }
    PackedAll(w, order, total, g, owner, loads[..]);
  }

  /** `sorted` first, then the loop. */
  method PackShards(files: seq<Path>, w: Weights, total: nat)
    returns (owner: Owners, loads: array<real>, ghost order: seq<Path>)
    requires Covers(w, files) && Distinct(files) && total >= 1
    ensures Covers(w, order) && PackingOrder(w, files, order)
    ensures IsPacking(w, order, total, owner, loads[..])
  {
    var sorted := SortFiles(w, files);
    order := sorted;
    SortFilesSorted(w, files);
    SortedDistinct(files, order);
    owner, loads := PackInOrder(sorted, w, total);
  }

  function FilesOf(files: seq<Path>, o: Owners, s: nat): seq<Path>
    requires forall f :: f in files ==> f in o
  {
    if files == [] then []
    else
      var f := files[|files| - 1];
      FilesOf(files[..|files| - 1], o, s) + (if o[f] == s then [f] else [])
  }

  lemma {:induction false} FilesOfMembers(files: seq<Path>, o: Owners, s: nat, f: Path)
    requires forall f :: f in files ==> f in o
    ensures f in FilesOf(files, o, s) <==> f in files && o[f] == s
  {
    if files == [] {
    } else {
      FilesOfMembers(files[..|files| - 1], o, s, f);
      assert files == files[..|files| - 1] + [files[|files| - 1]];
    }
  }

  datatype UsageError = ShardOutOfRange(shard: int, total: int)

  /** The whole script for one runner. */
  method ShardFiles(shard: int, total: int, files: seq<Path>, records: Durations)
    returns (r: Result<seq<Path>, UsageError>, ghost owner: Owners, ghost loads: seq<real>, ghost order: seq<Path>)
    requires Distinct(files)
    ensures r.Err? <==> !(1 <= shard <= total)
    ensures r.Ok? ==>
              var w := WeightTable(files, records);
              && Covers(w, order) && PackingOrder(w, files, order) && IsPacking(w, order, total, owner, loads)
              && Assigns(owner, files, total)
              && r.value == FilesOf(files, owner, shard)
  {
    owner, loads, order := map[], [], [];
    if !(1 <= shard <= total) {
      return Err(ShardOutOfRange(shard, total)), owner, loads, order;
    }
    var o, l, sorted := PackShards(files, WeightTable(files, records), total);
    owner, loads, order := o, l[..], sorted;
    SameMembers(files, order);
    r := Ok(FilesOf(files, o, shard));
  }

  // ---------- what the runners may rely on ----------

  /** What one file adds to shard s. */
  function Part(w: Weights, o: Owners, s: nat, f: Path): real {
    if f in o && f in w && o[f] == s then w[f] else 0.0
  }

  function PartSum(w: Weights, o: Owners, s: nat, files: seq<Path>): real {
    if files == [] then 0.0 else PartSum(w, o, s, files[..|files| - 1]) + Part(w, o, s, files[|files| - 1])
  }

  lemma {:induction false} ShardLoadIsPartSum(w: Weights, files: seq<Path>, o: Owners, s: nat)
    requires Covers(w, files) && forall f :: f in files ==> f in o
    ensures ShardLoad(w, files, o, s) == PartSum(w, o, s, files)
  {
    if files == [] {
    } else {
      ShardLoadIsPartSum(w, files[..|files| - 1], o, s);
    }
  }

  lemma {:induction false} PartSumRemove(w: Weights, o: Owners, s: nat, files: seq<Path>, i: nat)
    requires i < |files|
    ensures PartSum(w, o, s, files) == PartSum(w, o, s, RemoveAt(files, i)) + Part(w, o, s, files[i])
  {
    var last := |files| - 1;
    if i == last {
      assert RemoveAt(files, i) == files[..last];
    } else {
      PartSumRemove(w, o, s, files[..last], i);
      RemoveBeforeLast(files, i);
    }
  }

  lemma {:induction false} PartSumPermutation(w: Weights, o: Owners, s: nat, a: seq<Path>, b: seq<Path>)
    requires multiset(a) == multiset(b)
    ensures PartSum(w, o, s, a) == PartSum(w, o, s, b)
  {
    assert |multiset(a)| == |a| && |multiset(b)| == |b|;
    if a == [] {
    } else {
      var i := MatchLast(a, b);
      PartSumPermutation(w, o, s, a[..|a| - 1], RemoveAt(b, i));
      PartSumRemove(w, o, s, b, i);
    }
  }

  lemma ShardLoadPermutation(w: Weights, a: seq<Path>, b: seq<Path>, o: Owners, s: nat)
    requires Covers(w, a) && Covers(w, b) && multiset(a) == multiset(b)
    requires (forall f :: f in a ==> f in o) && (forall f :: f in b ==> f in o)
    ensures ShardLoad(w, a, o, s) == ShardLoad(w, b, o, s)
  {
    ShardLoadIsPartSum(w, a, o, s);
    ShardLoadIsPartSum(w, b, o, s);
    PartSumPermutation(w, o, s, a, b);
  }

  lemma {:induction false} ShardLoadAsLoad(w: Weights, order: seq<Path>, o: Owners, n: nat, k: nat, m: nat)
    requires Covers(w, order) && Assigns(o, order, n) && m <= |order|
    ensures ShardLoad(w, order[..m], o, k + 1) == Load(WeightsIn(w, order), ShardsIn(o, order, n), k, m)
  {
    if m == 0 {
    } else {
      assert order[..m][..m - 1] == order[..m - 1];
      ShardLoadAsLoad(w, order, o, n, k, m - 1);
    }
  }

  /** Loads of any assignment, read off in packing order. */
  lemma LoadInOrder(w: Weights, files: seq<Path>, order: seq<Path>, o: Owners, n: nat, k: nat)
    requires Covers(w, files) && Covers(w, order) && multiset(order) == multiset(files)
    requires Assigns(o, files, n) && Assigns(o, order, n)
    ensures ShardLoad(w, files, o, k + 1) == Load(WeightsIn(w, order), ShardsIn(o, order, n), k, |order|)
  {
    ShardLoadPermutation(w, files, order, o, k + 1);
    assert order[..|order|] == order;
    ShardLoadAsLoad(w, order, o, n, k, |order|);
  }

  /** Every file is owned by one shard, and `loads[k]` is the work owned by shard k + 1. */
  lemma PackingLoads(w: Weights, files: seq<Path>, order: seq<Path>, n: nat, owner: Owners, loads: seq<real>)
    requires Covers(w, files) && Covers(w, order) && PackingOrder(w, files, order)
    requires IsPacking(w, order, n, owner, loads)
    ensures owner.Keys == set f | f in files
    ensures Assigns(owner, files, n)
    ensures forall k :: 0 <= k < n ==> loads[k] == ShardLoad(w, files, owner, k + 1)
  {
    SameMembers(files, order);
    forall k | 0 <= k < n ensures loads[k] == ShardLoad(w, files, owner, k + 1) {
      LoadInOrder(w, files, order, owner, n, k);
    }
  }

  lemma {:induction false} MakespanBounds(w: Weights, files: seq<Path>, o: Owners, n: nat, s: nat)
    requires Covers(w, files) && (forall f :: f in files ==> f in o) && 1 <= s <= n
    ensures ShardLoad(w, files, o, s) <= Makespan(w, files, o, n)
  {
    if s == n {
    } else {
      MakespanBounds(w, files, o, n - 1, s);
    }
  }

  lemma {:induction false} MakespanAttained(w: Weights, files: seq<Path>, o: Owners, n: nat) returns (s: nat)
    requires Covers(w, files) && (forall f :: f in files ==> f in o)
    ensures s <= n
    ensures Makespan(w, files, o, n) == if s == 0 then 0.0 else ShardLoad(w, files, o, s)
  {
    s := 0;
    if n == 0 {
    } else {
      s := MakespanAttained(w, files, o, n - 1);
      if Makespan(w, files, o, n) != Makespan(w, files, o, n - 1) { s := n; }
    }
  }

  lemma {:induction false} MakespanNonNegative(w: Weights, files: seq<Path>, o: Owners, n: nat)
    requires Covers(w, files) && (forall f :: f in files ==> f in o)
    ensures Makespan(w, files, o, n) >= 0.0
  {
    if n == 0 {
    } else {
      MakespanNonNegative(w, files, o, n - 1);
    }
  }

  lemma PackingWeights(w: Weights, files: seq<Path>, order: seq<Path>)
    requires Covers(w, files) && Covers(w, order) && PackingOrder(w, files, order)
    requires forall f :: f in files ==> w[f] >= 0.0
    ensures NonNegative(WeightsIn(w, order)) && Descending(WeightsIn(w, order))
  {
    SameMembers(files, order);
    forall i, j | 0 <= i < j < |order| ensures w[order[i]] >= w[order[j]] {
      assert Before(w, order[i], order[j]);
    }
  }

  /** Graham's bound for one shard of the partition the runners compute. */
  lemma ShardBound(w: Weights, files: seq<Path>, order: seq<Path>, n: nat,
                   owner: Owners, loads: seq<real>, other: Owners, k: nat)
    requires Covers(w, files) && (forall f :: f in files ==> w[f] >= 0.0) && k < n
    requires Covers(w, order) && PackingOrder(w, files, order) && IsPacking(w, order, n, owner, loads)
    requires Assigns(owner, files, n) && Assigns(other, files, n) && Assigns(other, order, n)
    ensures WithinGraham(n, ShardLoad(w, files, owner, k + 1), Makespan(w, files, other, n))
  {
    var p, a := WeightsIn(w, order), ShardsIn(other, order, n);
    PackingWeights(w, files, order);
    OtherWithin(w, files, order, other, n);
    LoadInOrder(w, files, order, owner, n, k);
    LptSequence(p, ShardsIn(owner, order, n), a, n, Makespan(w, files, other, n), k);
  }

  lemma OtherWithin(w: Weights, files: seq<Path>, order: seq<Path>, other: Owners, n: nat)
    requires Covers(w, files) && Covers(w, order) && multiset(order) == multiset(files)
    requires Assigns(other, files, n) && Assigns(other, order, n)
    ensures Within(WeightsIn(w, order), ShardsIn(other, order, n), n, |order|, Makespan(w, files, other, n))
  {
    var p, a, M := WeightsIn(w, order), ShardsIn(other, order, n), Makespan(w, files, other, n);
    forall k | 0 <= k < n ensures Load(p, a, k, |order|) <= M {
      LoadInOrder(w, files, order, other, n, k);
      MakespanBounds(w, files, other, n, k + 1);
    }
  }

  /** Graham's bound for the partition the runners compute: against any other assignment of
      the files to the shards, 3 N max(loads) <= (4 N - 1) makespan. */
  lemma LongestFirstBound(w: Weights, files: seq<Path>, order: seq<Path>, n: nat,
                          owner: Owners, loads: seq<real>, other: Owners)
    requires Covers(w, files) && (forall f :: f in files ==> w[f] >= 0.0) && n >= 1
    requires Covers(w, order) && PackingOrder(w, files, order) && IsPacking(w, order, n, owner, loads)
    requires Assigns(other, files, n)
    ensures Assigns(owner, files, n)
    ensures WithinGraham(n, Makespan(w, files, owner, n), Makespan(w, files, other, n))
  {
    SameMembers(files, order);
    var s := MakespanAttained(w, files, owner, n);
    if s == 0 {
      MakespanNonNegative(w, files, other, n);
      WithinOptimum(n, 0.0, Makespan(w, files, other, n));
    } else {
      ShardBound(w, files, order, n, owner, loads, other, s - 1);
    }
  }

  lemma {:induction false} GreedyUnique(p: seq<real>, g: seq<nat>, h: seq<nat>, n: nat, m: nat)
    requires Greedy(p, g, n) && Greedy(p, h, n) && m <= |p|
    ensures g[..m] == h[..m]
  {
    if m == 0 {
    } else {
      var j := m - 1;
      GreedyUnique(p, g, h, n, j);
      assert LightestAt(p, g, n, j) && LightestAt(p, h, n, j);
      LoadPrefix(p, g, h, g[j], j);
      LoadPrefix(p, g, h, h[j], j);
      assert g[j] == h[j];
      assert g[..m] == g[..j] + [g[j]] && h[..m] == h[..j] + [h[j]];
    }
  }

  /** Ties break on the path, so every runner computes the same partition, in whatever order
      its file system lists the files. */
  lemma RunnersAgree(w: Weights, files: seq<Path>, files': seq<Path>, order: seq<Path>, order': seq<Path>, n: nat,
                     owner: Owners, loads: seq<real>, owner': Owners, loads': seq<real>)
    requires Covers(w, files) && Covers(w, files') && multiset(files) == multiset(files')
    requires Covers(w, order) && PackingOrder(w, files, order) && IsPacking(w, order, n, owner, loads)
    requires Covers(w, order') && PackingOrder(w, files', order') && IsPacking(w, order', n, owner', loads')
    ensures owner == owner' && loads == loads'
  {
    PackingOrderUnique(w, order, order');
    var g, h := ShardsIn(owner, order, n), ShardsIn(owner', order, n);
    GreedyUnique(WeightsIn(w, order), g, h, n, |order|);
    assert g == g[..|order|] && h == h[..|order|];
    forall f | f in order ensures owner[f] == owner'[f] {
      var i :| 0 <= i < |order| && order[i] == f;
      assert g[i] == owner[f] - 1 && h[i] == owner'[f] - 1;
    }
  }

  /** The printed lists of shards 1..n split the file list: each file is printed by exactly
      one runner, and the lists together are as long as the file list. */
  lemma ShardsPartition(files: seq<Path>, owner: Owners, n: nat, f: Path)
    requires Assigns(owner, files, n) && f in files
    ensures forall s :: 1 <= s <= n ==> (f in FilesOf(files, owner, s) <==> s == owner[f])
    ensures PrintedCount(files, owner, n) == |files|
  {
    forall s | 1 <= s <= n ensures f in FilesOf(files, owner, s) <==> s == owner[f] {
      FilesOfMembers(files, owner, s, f);
    }
    PrintedOnce(files, owner, n);
  }

  ghost function PrintedCount(files: seq<Path>, o: Owners, n: nat): nat
    requires forall f :: f in files ==> f in o
  {
    if n == 0 then 0 else PrintedCount(files, o, n - 1) + |FilesOf(files, o, n)|
  }

  lemma FilesOfStep(files: seq<Path>, o: Owners, k: nat)
    requires files != [] && forall f :: f in files ==> f in o
    ensures |FilesOf(files, o, k)|
         == |FilesOf(files[..|files| - 1], o, k)| + (if o[files[|files| - 1]] == k then 1 else 0)
  {
  }

  lemma {:induction false} PrintedStep(files: seq<Path>, o: Owners, n: nat)
    requires files != [] && forall f :: f in files ==> f in o
    ensures PrintedCount(files, o, n)
         == PrintedCount(files[..|files| - 1], o, n) + (if 1 <= o[files[|files| - 1]] <= n then 1 else 0)
  {
    if n == 0 {
    } else {
      PrintedStep(files, o, n - 1);
      FilesOfStep(files, o, n);
    }
  }

  lemma {:induction false} PrintedOnce(files: seq<Path>, o: Owners, n: nat)
    requires Assigns(o, files, n)
    ensures PrintedCount(files, o, n) == |files|
  {
    if files == [] {
      PrintedNone(o, n);
    } else {
      PrintedStep(files, o, n);
      PrintedOnce(files[..|files| - 1], o, n);
    }
  }

  lemma {:induction false} PrintedNone(o: Owners, n: nat)
    ensures PrintedCount([], o, n) == 0
  {
    if n == 0 {
    } else {
      PrintedNone(o, n - 1);
    }
  }
}
