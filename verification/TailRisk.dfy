/** tools/analyze_s12_profit_continuation_promotion.py: the lower-tail mean (CVaR), the join of
    paired deltas onto the full cohort, and the tail gates of the promotion report. */
module TailRisk {
  import opened Common
  import Risk = EquityRisk

  // ---------- sorting ----------

  function Insert(x: real, s: seq<real>): (r: seq<real>)
    ensures multiset(r) == multiset(s + [x])
  {
    if s == [] then [x]
    else
      var front, last := s[..|s| - 1], s[|s| - 1];
      assert s == front + [last];
      if last <= x then s + [x] else Insert(x, front) + [last]
  }

  function Sorted(s: seq<real>): (r: seq<real>)
    ensures multiset(r) == multiset(s) && |r| == |s|
  {
    if s == [] then []
    else
      assert s == s[..|s| - 1] + [s[|s| - 1]];
      var r := Insert(s[|s| - 1], Sorted(s[..|s| - 1]));
      assert |multiset(r)| == |r| && |multiset(s)| == |s|;
      r
  }

  ghost predicate Ascending(s: seq<real>) {
    forall i, j :: 0 <= i < j < |s| ==> s[i] <= s[j]
  }

  ghost predicate Below(s: seq<real>, hi: real) {
    forall i :: 0 <= i < |s| ==> s[i] <= hi
  }

  lemma {:induction false} InsertBelow(x: real, s: seq<real>, hi: real)
    requires x <= hi && Below(s, hi)
    ensures Below(Insert(x, s), hi)
  {
    if s == [] || s[|s| - 1] <= x {
    } else {
      InsertBelow(x, s[..|s| - 1], hi);
    }
  }

  lemma AscendingSnoc(s: seq<real>, x: real)
    requires Ascending(s) && Below(s, x)
    ensures Ascending(s + [x])
  {
  }

  lemma {:induction false} InsertAscending(x: real, s: seq<real>)
    requires Ascending(s)
    ensures Ascending(Insert(x, s))
  {
    if s == [] {
    } else if s[|s| - 1] <= x {
      AscendingSnoc(s, x);
    } else {
      var front, last := s[..|s| - 1], s[|s| - 1];
      InsertAscending(x, front);
      InsertBelow(x, front, last);
      AscendingSnoc(Insert(x, front), last);
    }
  }

  lemma {:induction false} SortedAscending(s: seq<real>)
    ensures Ascending(Sorted(s))
  {
    if s == [] {
    } else {
      SortedAscending(s[..|s| - 1]);
      InsertAscending(s[|s| - 1], Sorted(s[..|s| - 1]));
    }
  }

  // ---------- the k least values ----------

  /** Sum of the k smallest values. */
  function LeastSum(values: seq<real>, k: nat): real
    requires k <= |values|
  {
    PrefixSum(Sorted(values), k)
  }

  /** A selection takes the last value of the list, or lies within the rest of it. */
  lemma TakeLast(s: seq<real>, pick: seq<real>) returns (i: Option<nat>)
    requires s != [] && multiset(pick) <= multiset(s)
    ensures i.None? ==> multiset(pick) <= multiset(s[..|s| - 1])
    ensures i.Some? ==> i.value < |pick| && pick[i.value] == s[|s| - 1]
                        && multiset(RemoveAt(pick, i.value)) <= multiset(s[..|s| - 1])
  {
    var last := s[|s| - 1];
    if last in pick {
      var j :| 0 <= j < |pick| && pick[j] == last;
      WithinFrontRemoved(pick, s, j);
      i := Some(j);
    } else {
      WithinFront(pick, s);
      i := None;
    }
  }

  /** Of all selections from an ascending list, its first values have the least sum. */
  lemma {:induction false} SmallestHaveLeastSum(s: seq<real>, pick: seq<real>)
    requires Ascending(s) && multiset(pick) <= multiset(s)
    ensures |pick| <= |s| && PrefixSum(s, |pick|) <= Sum(pick)
  {
    SelectionSize(pick, s);
    if s == [] {
    } else {
      var i := TakeLast(s, pick);
      match i {
        case Some(j) =>
          SmallestHaveLeastSum(s[..|s| - 1], RemoveAt(pick, j));
          LastPicked(s, pick, j);
        case None =>
          SmallestHaveLeastSum(s[..|s| - 1], pick);
          PrefixSumSame(s, s[..|s| - 1], |pick|);
      }
    }
  }

  lemma LastPicked(s: seq<real>, pick: seq<real>, i: nat)
    requires s != [] && i < |pick| <= |s| && pick[i] == s[|s| - 1] && Ascending(s)
    requires PrefixSum(s[..|s| - 1], |pick| - 1) <= Sum(RemoveAt(pick, i))
    ensures PrefixSum(s, |pick|) <= Sum(pick)
  {
    SumRemove(pick, i);
    PrefixSumSame(s, s[..|s| - 1], |pick| - 1);
  }

  lemma LeastSumIsLeast(values: seq<real>, pick: seq<real>)
    requires multiset(pick) <= multiset(values)
    ensures |pick| <= |values| && LeastSum(values, |pick|) <= Sum(pick)
  {
    SortedAscending(values);
    SmallestHaveLeastSum(Sorted(values), pick);
  }

  lemma LeastSumAttained(values: seq<real>, k: nat) returns (pick: seq<real>)
    requires k <= |values|
    ensures multiset(pick) <= multiset(values) && |pick| == k && Sum(pick) == LeastSum(values, k)
  {
    var s := Sorted(values);
    pick := s[..k];
    PrefixWithin(s, k);
    PrefixSumOfAll(pick);
    PrefixSumSame(s, pick, k);
  }

  // ---------- monotone in every value ----------

  /** A selection from the raised list has a counterpart in the original, of no larger sum. */
  lemma LowerCounterpart(values: seq<real>, i: nat, y: real, pick: seq<real>) returns (lower: seq<real>)
    requires i < |values| && y >= values[i] && multiset(pick) <= multiset(values[i := y])
    ensures multiset(lower) <= multiset(values) && |lower| == |pick| && Sum(lower) <= Sum(pick)
  {
    if y in pick {
      var j :| 0 <= j < |pick| && pick[j] == y;
      var rest := RemoveAt(pick, j);
      lower := rest + [values[i]];
      WithinReplaced(pick, values, i, y, j);
      SumRemove(pick, j);
      Snoc(rest, values[i]);
    } else {
      lower := pick;
      WithinUnreplaced(pick, values, i, y);
    }
  }

  /** Raising one value does not lower the sum of the k least. */
  lemma RaiseOne(values: seq<real>, i: nat, y: real, k: nat)
    requires i < |values| && y >= values[i] && k <= |values|
    ensures LeastSum(values, k) <= LeastSum(values[i := y], k)
  {
    var pick := LeastSumAttained(values[i := y], k);
    var lower := LowerCounterpart(values, i, y, pick);
    LeastSumIsLeast(values, lower);
  }

  /** The first n values raised from v to w. */
  function Mixed(v: seq<real>, w: seq<real>, n: nat): (m: seq<real>)
    requires |v| == |w| && n <= |v|
    ensures |m| == |v|
  {
    w[..n] + v[n..]
  }

  lemma MixedStep(v: seq<real>, w: seq<real>, n: nat)
    requires |v| == |w| && n < |v|
    ensures Mixed(v, w, n)[n] == v[n]
    ensures Mixed(v, w, n + 1) == Mixed(v, w, n)[n := w[n]]
  {
  }

  lemma {:induction false} MixedMonotone(v: seq<real>, w: seq<real>, k: nat, n: nat)
    requires Risk.AtMost(v, w) && k <= |v| && n <= |v|
    ensures LeastSum(Mixed(v, w, 0), k) <= LeastSum(Mixed(v, w, n), k)
  {
    if n == 0 {
    } else {
      MixedMonotone(v, w, k, n - 1);
      MixedStep(v, w, n - 1);
      RaiseOne(Mixed(v, w, n - 1), n - 1, w[n - 1], k);
    }
  }

  lemma LeastSumMonotone(v: seq<real>, w: seq<real>, k: nat)
    requires Risk.AtMost(v, w) && k <= |v|
    ensures LeastSum(v, k) <= LeastSum(w, k)
  {
    MixedMonotone(v, w, k, |v|);
    assert Mixed(v, w, 0) == v && Mixed(v, w, |v|) == w;
  }

  // ---------- never above the overall mean ----------

  lemma {:induction false} SumBelowLast(s: seq<real>, k: nat)
    requires Ascending(s) && 1 <= k <= |s|
    ensures PrefixSum(s, k) <= k as real * s[k - 1]
  {
    if k == 1 {
    } else {
      SumBelowLast(s, k - 1);
      BelowStep(PrefixSum(s, k - 1), (k - 1) as real, s[k - 2], s[k - 1]);
    }
  }

  lemma BelowStep(sum: real, m: real, low: real, high: real)
    requires m >= 0.0 && sum <= m * low && low <= high
    ensures sum + high <= (m + 1.0) * high
  {
  }

  /** Averages of growing prefixes of an ascending list grow. */
  lemma {:induction false} PrefixMeansGrow(s: seq<real>, k: nat, n: nat)
    requires Ascending(s) && 1 <= k <= n <= |s|
    ensures n as real * PrefixSum(s, k) <= k as real * PrefixSum(s, n)
    decreases n
  {
    if k == n {
    } else {
      PrefixMeansGrow(s, k, n - 1);
      SumBelowLast(s, k);
      PrefixStep(k as real, (n - 1) as real, PrefixSum(s, k), PrefixSum(s, n - 1), s[k - 1], s[n - 1]);
    }
  }

  lemma PrefixStep(k: real, m: real, a: real, b: real, low: real, high: real)
    requires k > 0.0 && m * a <= k * b && a <= k * low && low <= high
    ensures (m + 1.0) * a <= k * (b + high)
  {
  }

  // ---------- lower_tail_mean ----------

  /** max(1, ceil(n * fraction)). */
  function TailCount(n: nat, fraction: real): int {
    MaxInt(1, -((-(n as real * fraction)).Floor))
  }

  lemma TailCountInRange(n: nat, fraction: real)
    requires n >= 1 && 0.0 <= fraction <= 1.0
    ensures 1 <= TailCount(n, fraction) <= n
  {
  }

  function MeanOfLeast(values: seq<real>, k: int): real
    requires 1 <= k <= |values|
  {
    LeastSum(values, k) / k as real
  }

  /** Mean of the smallest `TailCount` values. */
  function LowerTailMean(values: seq<real>, fraction: real): real
    requires values != [] && 0.0 <= fraction <= 1.0
  {
    TailCountInRange(|values|, fraction);
    MeanOfLeast(values, TailCount(|values|, fraction))
  }

  lemma DivideMonotone(x: real, y: real, k: real)
    requires x <= y && k > 0.0
    ensures x / k <= y / k
  {
  }

  lemma MeanOfLeastIsLeast(values: seq<real>, pick: seq<real>)
    requires multiset(pick) <= multiset(values) && pick != []
    ensures |pick| <= |values| && MeanOfLeast(values, |pick|) <= Mean(pick)
  {
    LeastSumIsLeast(values, pick);
    DivideMonotone(LeastSum(values, |pick|), Sum(pick), |pick| as real);
  }

  /** The tail size is the fraction of the list rounded up, and at least one. */
  lemma TailCountRounds(n: nat, fraction: real)
    requires n >= 1 && 0.0 <= fraction <= 1.0
    ensures var k := TailCount(n, fraction);
            1 <= k <= n && n as real * fraction <= k as real && (k == 1 || k as real < n as real * fraction + 1.0)
  {
    TailCountInRange(n, fraction);
    var x := n as real * fraction;
    assert (-x).Floor as real <= -x < (-x).Floor as real + 1.0;
  }

  /** lower_tail_mean is at most the mean of every selection of at least that fraction of the values ... */
  lemma LowerTailMeanIsLeast(values: seq<real>, fraction: real, pick: seq<real>)
    requires values != [] && 0.0 <= fraction <= 1.0
    requires multiset(pick) <= multiset(values) && pick != [] && |pick| as real >= |values| as real * fraction
    ensures LowerTailMean(values, fraction) <= Mean(pick)
  {
    TailCountRounds(|values|, fraction);
    var k := TailCount(|values|, fraction);
    assert k <= |pick|;
    SelectionSize(pick, values);
    SortedAscending(values);
    PrefixAveragesGrow(Sorted(values), k, |pick|);
    MeanOfLeastIsLeast(values, pick);
  }

  /** ... and is the mean of one of them: one value, or no more than the fraction rounded up. */
  lemma LowerTailMeanAttained(values: seq<real>, fraction: real) returns (pick: seq<real>)
    requires values != [] && 0.0 <= fraction <= 1.0
    ensures multiset(pick) <= multiset(values) && pick != [] && LowerTailMean(values, fraction) == Mean(pick)
    ensures |values| as real * fraction <= |pick| as real
    ensures |pick| == 1 || |pick| as real < |values| as real * fraction + 1.0
  {
    TailCountRounds(|values|, fraction);
    pick := LeastSumAttained(values, TailCount(|values|, fraction));
  }

  lemma MeanOfLeastMonotone(v: seq<real>, w: seq<real>, k: int)
    requires Risk.AtMost(v, w) && 1 <= k <= |v|
    ensures MeanOfLeast(v, k) <= MeanOfLeast(w, k)
  {
    LeastSumMonotone(v, w, k);
    DivideMonotone(LeastSum(v, k), LeastSum(w, k), k as real);
  }

  /** Raising values never lowers the lower-tail mean. */
  lemma LowerTailMeanMonotone(v: seq<real>, w: seq<real>, fraction: real)
    requires v != [] && Risk.AtMost(v, w) && 0.0 <= fraction <= 1.0
    ensures LowerTailMean(v, fraction) <= LowerTailMean(w, fraction)
  {
    TailCountInRange(|v|, fraction);
    MeanOfLeastMonotone(v, w, TailCount(|v|, fraction));
  }

  /** The averages behind cross-multiplied sums. */
  lemma Averages(a: real, k: int, b: real, n: int)
    requires k > 0 && n > 0 && n as real * a <= k as real * b
    ensures a / k as real <= b / n as real
  {
    CrossDivide(a, k as real, b, n as real);
  }

  lemma PrefixAveragesGrow(s: seq<real>, k: int, n: int)
    requires Ascending(s) && 1 <= k <= n <= |s|
    ensures PrefixSum(s, k) / k as real <= PrefixSum(s, n) / n as real
  {
    PrefixMeansGrow(s, k, n);
    Averages(PrefixSum(s, k), k, PrefixSum(s, n), n);
  }

  lemma MeanOfLeastBelowMean(values: seq<real>, k: int)
    requires 1 <= k <= |values|
    ensures MeanOfLeast(values, k) <= Mean(values)
  {
    SortedAscending(values);
    PrefixAveragesGrow(Sorted(values), k, |values|);
    PrefixSumOfAll(Sorted(values));
    SumPermutation(Sorted(values), values);
  }

  /** The lower-tail mean is at most the mean of all values. */
  lemma LowerTailMeanBelowMean(values: seq<real>, fraction: real)
    requires values != [] && 0.0 <= fraction <= 1.0
    ensures LowerTailMean(values, fraction) <= Mean(values)
  {
    TailCountInRange(|values|, fraction);
    MeanOfLeastBelowMean(values, TailCount(|values|, fraction));
  }

  lemma CrossDivide(a: real, k: real, b: real, n: real)
    requires k > 0.0 && n > 0.0 && n * a <= k * b
    ensures a / k <= b / n
  {
  }

  // ---------- the full-cohort join ----------

  datatype Id = Id(name: string)

  /** A row of the complete cohort, and a paired delta. */
  datatype Outcome = Outcome(id: Id, date: int, pnl: real)
  datatype Delta = Delta(id: Id, delta: real)

  datatype Joined = Joined(id: Id, date: int, incumbent: real, delta: real)

  function Candidate(j: Joined): real { j.incumbent + j.delta }

  /** Deltas recorded for one id, in order. */
  function Matches(changed: seq<Delta>, id: Id): seq<real> {
    if changed == [] then []
    else
      var rest, last := Matches(changed[..|changed| - 1], id), changed[|changed| - 1];
      if last.id == id then rest + [last.delta] else rest
  }

  function JoinRow(o: Outcome, deltas: seq<real>): (rows: seq<Joined>)
    ensures |rows| == if deltas == [] then 1 else |deltas|
  {
    if deltas == [] then [Joined(o.id, o.date, o.pnl, 0.0)]
    else seq(|deltas|, i requires 0 <= i < |deltas| => Joined(o.id, o.date, o.pnl, deltas[i]))
  }

  /** Left join on id; a row without a delta gets zero. */
  function Join(full: seq<Outcome>, changed: seq<Delta>): seq<Joined> {
    if full == [] then []
    else
      var o := full[|full| - 1];
      Join(full[..|full| - 1], changed) + JoinRow(o, Matches(changed, o.id))
  }

  /** The identity check of the script: the join kept the height of the cohort (it also compares
      the number of distinct ids, which `JoinKeepsIds` shows can never differ). */
  predicate JoinAccepted(full: seq<Outcome>, changed: seq<Delta>) {
    |Join(full, changed)| == |full|
  }

  lemma {:induction false} JoinNotShorter(full: seq<Outcome>, changed: seq<Delta>)
    ensures |Join(full, changed)| >= |full|
  {
    if full == [] {
    } else {
      JoinNotShorter(full[..|full| - 1], changed);
    }
  }

  /** No two deltas are recorded for this id. */
  predicate AtMostOnce(changed: seq<Delta>, id: Id) {
    forall a, b :: 0 <= a < b < |changed| ==> changed[a].id != id || changed[b].id != id
  }

  predicate Unrecorded(changed: seq<Delta>, id: Id) {
    forall a :: 0 <= a < |changed| ==> changed[a].id != id
  }

  lemma {:induction false} NoMatches(changed: seq<Delta>, id: Id)
    ensures Matches(changed, id) == [] <==> Unrecorded(changed, id)
  {
    if changed == [] {
    } else {
      var front, last := changed[..|changed| - 1], changed[|changed| - 1];
      NoMatches(front, id);
      assert Unrecorded(changed, id) <==> Unrecorded(front, id) && last.id != id;
    }
  }

  lemma {:induction false} FewMatches(changed: seq<Delta>, id: Id)
    ensures |Matches(changed, id)| <= 1 <==> AtMostOnce(changed, id)
  {
    if changed == [] {
    } else {
      var front, last := changed[..|changed| - 1], changed[|changed| - 1];
      FewMatches(front, id);
      NoMatches(front, id);
      if last.id == id {
        assert AtMostOnce(changed, id) <==> Unrecorded(front, id) by {
          if AtMostOnce(changed, id) {
            forall a | 0 <= a < |front| ensures front[a].id != id { assert changed[a].id != id; }
          }
        }
      } else {
        assert AtMostOnce(changed, id) <==> AtMostOnce(front, id) by {
          if AtMostOnce(changed, id) {
            forall a, b | 0 <= a < b < |front| ensures front[a].id != id || front[b].id != id {
              assert changed[a].id != id || changed[b].id != id;
            }
          }
        }
      }
    }
  }

  lemma {:induction false} OnlyMatch(changed: seq<Delta>, id: Id, a: nat)
    requires a < |changed| && changed[a].id == id && AtMostOnce(changed, id)
    ensures Matches(changed, id) == [changed[a].delta]
  {
    var front := changed[..|changed| - 1];
    if a == |front| {
      NoMatches(front, id);
    } else {
      OnlyMatch(front, id, a);
    }
  }

  ghost predicate NoneTwice(full: seq<Outcome>, changed: seq<Delta>) {
    forall i :: 0 <= i < |full| ==> AtMostOnce(changed, full[i].id)
  }

  lemma NoneTwiceSplits(full: seq<Outcome>, changed: seq<Delta>)
    requires full != []
    ensures NoneTwice(full, changed)
       <==> NoneTwice(full[..|full| - 1], changed) && AtMostOnce(changed, full[|full| - 1].id)
  {
    var front := full[..|full| - 1];
    assert forall i :: 0 <= i < |front| ==> full[i] == front[i];
  }

  lemma JoinSplits(full: seq<Outcome>, changed: seq<Delta>)
    requires full != []
    ensures JoinAccepted(full, changed)
       <==> JoinAccepted(full[..|full| - 1], changed) && |Matches(changed, full[|full| - 1].id)| <= 1
  {
    JoinNotShorter(full[..|full| - 1], changed);
  }

  /** The check accepts exactly when no cohort row is matched twice ... */
  lemma {:induction false} JoinAcceptedExactly(full: seq<Outcome>, changed: seq<Delta>)
    ensures JoinAccepted(full, changed) <==> NoneTwice(full, changed)
  {
    if full == [] {
    } else {
      JoinAcceptedExactly(full[..|full| - 1], changed);
      JoinSplits(full, changed);
      FewMatches(changed, full[|full| - 1].id);
      NoneTwiceSplits(full, changed);
    }
  }

  lemma {:induction false} RowOfJoin(full: seq<Outcome>, changed: seq<Delta>, i: nat)
    requires JoinAccepted(full, changed) && i < |full|
    ensures Join(full, changed)[i] == JoinRow(full[i], Matches(changed, full[i].id))[0]
  {
    var front := full[..|full| - 1];
    JoinNotShorter(front, changed);
    if i == |front| {
    } else {
      RowOfJoin(front, changed, i);
    }
  }

  /** ... and then row i of the join is row i of the cohort with the delta recorded for it, or zero; the candidate is
      the incumbent plus that delta. */
  lemma JoinedRow(full: seq<Outcome>, changed: seq<Delta>, i: nat)
    requires JoinAccepted(full, changed) && i < |full|
    ensures var row := Join(full, changed)[i];
            && row.id == full[i].id && row.date == full[i].date
            && (forall a :: 0 <= a < |changed| && changed[a].id == full[i].id ==> row.delta == changed[a].delta)
            && ((forall a :: 0 <= a < |changed| ==> changed[a].id != full[i].id) ==> row.delta == 0.0)
            && Column(Join(full, changed), false)[i] == full[i].pnl
            && Column(Join(full, changed), true)[i] == full[i].pnl + row.delta
  {
    RowOfJoin(full, changed, i);
    JoinAcceptedExactly(full, changed);
    NoMatches(changed, full[i].id);
    forall a | 0 <= a < |changed| && changed[a].id == full[i].id
      ensures Matches(changed, full[i].id) == [changed[a].delta]
    {
      OnlyMatch(changed, full[i].id, a);
    }
  }

  /** The distinct ids, whose number the second half of the identity check compares. */
  function CohortIds(full: seq<Outcome>): set<Id> {
    if full == [] then {} else CohortIds(full[..|full| - 1]) + {full[|full| - 1].id}
  }

  function JoinedIds(rows: seq<Joined>): set<Id> {
    if rows == [] then {} else JoinedIds(rows[..|rows| - 1]) + {rows[|rows| - 1].id}
  }

  lemma {:induction false} JoinedIdsAppend(a: seq<Joined>, b: seq<Joined>)
    ensures JoinedIds(a + b) == JoinedIds(a) + JoinedIds(b)
  {
    if b == [] {
      assert a + b == a;
    } else {
      JoinedIdsAppend(a, b[..|b| - 1]);
      assert (a + b)[..|a + b| - 1] == a + b[..|b| - 1];
    }
  }

  lemma {:induction false} SingleIdRows(rows: seq<Joined>, id: Id)
    requires rows != [] && forall i :: 0 <= i < |rows| ==> rows[i].id == id
    ensures JoinedIds(rows) == {id}
  {
    if |rows| == 1 {
      assert rows[..0] == [];
    } else {
      SingleIdRows(rows[..|rows| - 1], id);
    }
  }

  /** The join never changes the set of ids, so the height comparison alone decides the check. */
  lemma {:induction false} JoinKeepsIds(full: seq<Outcome>, changed: seq<Delta>)
    ensures JoinedIds(Join(full, changed)) == CohortIds(full)
  {
    if full == [] {
    } else {
      var front, o := full[..|full| - 1], full[|full| - 1];
      JoinKeepsIds(front, changed);
      var rows := JoinRow(o, Matches(changed, o.id));
      SingleIdRows(rows, o.id);
      JoinedIdsAppend(Join(front, changed), rows);
    }
  }

  // ---------- the tail gates ----------

  ghost predicate NonNegativeDeltas(changed: seq<Delta>) {
    forall i :: 0 <= i < |changed| ==> changed[i].delta >= 0.0
  }

  lemma {:induction false} MatchesNonNegative(changed: seq<Delta>, id: Id)
    requires NonNegativeDeltas(changed)
    ensures forall i :: 0 <= i < |Matches(changed, id)| ==> Matches(changed, id)[i] >= 0.0
  {
    if changed == [] {
    } else {
      MatchesNonNegative(changed[..|changed| - 1], id);
    }
  }

  lemma {:induction false} JoinedNonNegative(full: seq<Outcome>, changed: seq<Delta>)
    requires NonNegativeDeltas(changed)
    ensures forall i :: 0 <= i < |Join(full, changed)| ==> Join(full, changed)[i].delta >= 0.0
  {
    if full == [] {
    } else {
      JoinedNonNegative(full[..|full| - 1], changed);
      MatchesNonNegative(changed, full[|full| - 1].id);
    }
  }

  function Column(rows: seq<Joined>, candidate: bool): (r: seq<real>)
    ensures |r| == |rows|
  {
    seq(|rows|, i requires 0 <= i < |rows| => if candidate then Candidate(rows[i]) else rows[i].incumbent)
  }

  /** Sum and number of the rows of one date. */
  function DateSum(rows: seq<Joined>, date: int, candidate: bool): real {
    if rows == [] then 0.0
    else
      var last := rows[|rows| - 1];
      DateSum(rows[..|rows| - 1], date, candidate)
      + (if last.date == date then (if candidate then Candidate(last) else last.incumbent) else 0.0)
  }

  function DateCount(rows: seq<Joined>, date: int): nat {
    if rows == [] then 0
    else DateCount(rows[..|rows| - 1], date) + (if rows[|rows| - 1].date == date then 1 else 0)
  }

  /** The dates of the rows, each once, in order. */
  ghost predicate DatesOf(dates: seq<int>, rows: seq<Joined>) {
    && (forall i, j :: 0 <= i < j < |dates| ==> dates[i] < dates[j])
    && (forall i :: 0 <= i < |dates| ==> DateCount(rows, dates[i]) > 0)
    && (forall i :: 0 <= i < |rows| ==> rows[i].date in dates)
  }

  /** Mean per date, in date order. */
  function DateMeans(rows: seq<Joined>, dates: seq<int>, candidate: bool): (r: seq<real>)
    requires forall i :: 0 <= i < |dates| ==> DateCount(rows, dates[i]) > 0
    ensures |r| == |dates|
  {
    seq(|dates|, i requires 0 <= i < |dates| => DateSum(rows, dates[i], candidate) / DateCount(rows, dates[i]) as real)
  }

  /** The positions of the rows of one date, each once, in order. */
  ghost predicate RowsOn(at: seq<nat>, rows: seq<Joined>, date: int) {
    && (forall n, m :: 0 <= n < m < |at| ==> at[n] < at[m])
    && (forall n :: 0 <= n < |at| ==> at[n] < |rows| && rows[at[n]].date == date)
    && (forall k :: 0 <= k < |rows| && rows[k].date == date ==> k in at)
  }

  /** What a trade at one of these positions earned, with or without its delta. */
  function Earned(rows: seq<Joined>, at: seq<nat>, candidate: bool): (r: seq<real>)
    requires forall n :: 0 <= n < |at| ==> at[n] < |rows|
    ensures |r| == |at|
  {
    seq(|at|, n requires 0 <= n < |at| =>
      rows[at[n]].incumbent + if candidate then rows[at[n]].delta else 0.0)
  }

  lemma LargestIsLast(at: seq<nat>, n: nat)
    requires n < |at| && at[n] >= at[|at| - 1] && forall i, j :: 0 <= i < j < |at| ==> at[i] < at[j]
    ensures n == |at| - 1
  {
  }

  lemma RowsOnFront(at: seq<nat>, rows: seq<Joined>, date: int)
    requires rows != [] && RowsOn(at, rows, date)
    ensures rows[|rows| - 1].date == date ==>
              at != [] && at[|at| - 1] == |rows| - 1 && RowsOn(at[..|at| - 1], rows[..|rows| - 1], date)
    ensures rows[|rows| - 1].date != date ==> RowsOn(at, rows[..|rows| - 1], date)
  {
    var front := rows[..|rows| - 1];
    if rows[|rows| - 1].date == date {
      var n :| 0 <= n < |at| && at[n] == |rows| - 1;
      LargestIsLast(at, n);
      forall k | 0 <= k < |front| && front[k].date == date ensures k in at[..|at| - 1] {
        assert rows[k].date == date && k in at;
      }
    } else {
      forall k | 0 <= k < |front| && front[k].date == date ensures k in at { assert rows[k].date == date; }
    }
  }

  lemma EarnedSnoc(rows: seq<Joined>, before: seq<nat>, candidate: bool)
    requires rows != [] && forall n :: 0 <= n < |before| ==> before[n] < |rows| - 1
    ensures Sum(Earned(rows, before + [|rows| - 1], candidate))
         == Sum(Earned(rows[..|rows| - 1], before, candidate))
            + rows[|rows| - 1].incumbent + (if candidate then rows[|rows| - 1].delta else 0.0)
  {
    var all := Earned(rows, before + [|rows| - 1], candidate);
    assert all[..|before|] == Earned(rows[..|rows| - 1], before, candidate);
  }

  lemma {:induction false} DateTotals(rows: seq<Joined>, date: int, at: seq<nat>, candidate: bool)
    requires RowsOn(at, rows, date)
    ensures DateCount(rows, date) == |at| && DateSum(rows, date, candidate) == Sum(Earned(rows, at, candidate))
  {
    if rows == [] {
      assert at == [];
    } else {
      RowsOnFront(at, rows, date);
      var front := rows[..|rows| - 1];
      if rows[|rows| - 1].date == date {
        var before := at[..|at| - 1];
        DateTotals(front, date, before, candidate);
        EarnedSnoc(rows, before, candidate);
        assert at == before + [|rows| - 1];
      } else {
        DateTotals(front, date, at, candidate);
        assert Earned(rows, at, candidate) == Earned(front, at, candidate);
      }
    }
  }

  /** Each date mean is the mean of what the trades of that date earned. */
  lemma DateMeanIsMean(rows: seq<Joined>, dates: seq<int>, i: nat, at: seq<nat>, candidate: bool)
    requires DatesOf(dates, rows) && i < |dates| && RowsOn(at, rows, dates[i])
    ensures at != [] && DateMeans(rows, dates, candidate)[i] == Mean(Earned(rows, at, candidate))
  {
    DateTotals(rows, dates[i], at, candidate);
  }

  lemma {:induction false} DateSumMonotone(rows: seq<Joined>, date: int)
    requires forall i :: 0 <= i < |rows| ==> rows[i].delta >= 0.0
    ensures DateSum(rows, date, false) <= DateSum(rows, date, true)
  {
    if rows == [] {
    } else {
      DateSumMonotone(rows[..|rows| - 1], date);
    }
  }

  const FRACTION := 0.1

  ghost predicate NonNegativeRows(rows: seq<Joined>) {
    forall i :: 0 <= i < |rows| ==> rows[i].delta >= 0.0
  }

  lemma TradeTailGate(rows: seq<Joined>)
    requires rows != [] && NonNegativeRows(rows)
    ensures LowerTailMean(Column(rows, true), FRACTION) >= LowerTailMean(Column(rows, false), FRACTION)
  {
    LowerTailMeanMonotone(Column(rows, false), Column(rows, true), FRACTION);
  }

  lemma DateMeansRise(rows: seq<Joined>, dates: seq<int>)
    requires NonNegativeRows(rows) && DatesOf(dates, rows)
    ensures Risk.AtMost(DateMeans(rows, dates, false), DateMeans(rows, dates, true))
  {
    forall i | 0 <= i < |dates|
      ensures DateMeans(rows, dates, false)[i] <= DateMeans(rows, dates, true)[i]
    {
      DateSumMonotone(rows, dates[i]);
      DivideMonotone(DateSum(rows, dates[i], false), DateSum(rows, dates[i], true), DateCount(rows, dates[i]) as real);
    }
  }

  lemma DateTailGates(incumbent: seq<real>, candidate: seq<real>)
    requires incumbent != [] && Risk.AtMost(incumbent, candidate)
    ensures LowerTailMean(candidate, FRACTION) >= LowerTailMean(incumbent, FRACTION)
    ensures Risk.Covered(incumbent) ==>
              && Risk.Covered(candidate)
              && Risk.Measured(incumbent, |incumbent|) && Risk.Measured(candidate, |candidate|)
              && Risk.MaxDrawdown(candidate, |candidate|) >= Risk.MaxDrawdown(incumbent, |incumbent|)
  {
    LowerTailMeanMonotone(incumbent, candidate, FRACTION);
    if Risk.Covered(incumbent) { Risk.DrawdownMonotone(incumbent, candidate); }
  }

  /** The three tail gates of the report on a joined cohort. */
  ghost predicate TailGatesPass(rows: seq<Joined>, dates: seq<int>)
    requires rows != [] && dates != [] && DatesOf(dates, rows)
  {
    var incumbent, candidate := DateMeans(rows, dates, false), DateMeans(rows, dates, true);
    && LowerTailMean(Column(rows, true), 0.1) >= LowerTailMean(Column(rows, false), 0.1)
    && LowerTailMean(candidate, 0.1) >= LowerTailMean(incumbent, 0.1)
    && (Risk.Covered(incumbent) ==>
          && Risk.Covered(candidate) && Risk.Measured(incumbent, |dates|) && Risk.Measured(candidate, |dates|)
          && Risk.MaxDrawdown(candidate, |dates|) >= Risk.MaxDrawdown(incumbent, |dates|))
  }

  /** Deltas that never hurt a trade pass all three tail gates, on any cohort: the trade CVaR and
      the date CVaR of the candidate are no worse than the incumbent's, and neither is the
      drawdown, as long as no date loses more than everything and the first does not lose it
      all. `DrawdownGateExactly` shows that this floor cannot be lowered. */
  lemma NonNegativeDeltasPassTailGates(full: seq<Outcome>, changed: seq<Delta>, dates: seq<int>)
    requires full != [] && NonNegativeDeltas(changed) && DatesOf(dates, Join(full, changed))
    ensures Join(full, changed) != [] && dates != [] && TailGatesPass(Join(full, changed), dates)
  {
    var rows := Join(full, changed);
    JoinNotShorter(full, changed);
    JoinedNonNegative(full, changed);
    assert rows[0].date in dates;
    TradeTailGate(rows);
    DateMeansRise(rows, dates);
    DateTailGates(DateMeans(rows, dates, false), DateMeans(rows, dates, true));
  }

  // ---------- below the floor ----------

  /** An accepted join of non-negative deltas whose incumbent date means do not fall below a floor. */
  ghost predicate FlooredCohort(floor: real, full: seq<Outcome>, changed: seq<Delta>, dates: seq<int>) {
    && full != [] && NonNegativeDeltas(changed) && JoinAccepted(full, changed)
    && DatesOf(dates, Join(full, changed)) && dates != []
    && Risk.AtLeast(DateMeans(Join(full, changed), dates, false), floor)
  }

  /** The drawdown gate of a joined cohort, where both drawdowns are defined. */
  ghost predicate DrawdownGate(rows: seq<Joined>, dates: seq<int>)
    requires dates != [] && NonNegativeRows(rows) && DatesOf(dates, rows)
  {
    DateMeansRise(rows, dates);
    Risk.NoDeeper(DateMeans(rows, dates, false), DateMeans(rows, dates, true))
  }

  /** Two trades on two dates, and a delta that lifts the first to zero. */
  function TwoTrades(b: real): seq<Outcome> {
    [Outcome(Id("a"), 1, b), Outcome(Id("b"), 2, -0.5)]
  }

  function LiftFirst(b: real): seq<Delta> {
    [Delta(Id("a"), -b)]
  }

  lemma TwoMatches(b: real)
    ensures Matches(LiftFirst(b), Id("a")) == [-b] && Matches(LiftFirst(b), Id("b")) == []
  {
    assert Id("a").name[0] != Id("b").name[0];
    assert LiftFirst(b)[..0] == [];
    assert Matches([], Id("a")) == [] && Matches([], Id("b")) == [];
  }

  lemma TwoRows(b: real)
    ensures Join(TwoTrades(b), LiftFirst(b)) == [Joined(Id("a"), 1, b, -b), Joined(Id("b"), 2, -0.5, 0.0)]
  {
    var full, changed := TwoTrades(b), LiftFirst(b);
    TwoMatches(b);
    assert full[..1] == [full[0]] && full[..1][..0] == [];
    assert Join(full[..1], changed) == [] + JoinRow(full[0], [-b]);
    assert JoinRow(full[0], [-b]) == [Joined(Id("a"), 1, b, -b)];
    assert Join(full, changed) == Join(full[..1], changed) + JoinRow(full[1], []);
  }

  lemma TwoSums(b: real, rows: seq<Joined>)
    requires rows == [Joined(Id("a"), 1, b, -b), Joined(Id("b"), 2, -0.5, 0.0)]
    ensures DateCount(rows, 1) == 1 && DateCount(rows, 2) == 1
    ensures DateSum(rows, 1, false) == b && DateSum(rows, 2, false) == -0.5
    ensures DateSum(rows, 1, true) == 0.0 && DateSum(rows, 2, true) == -0.5
  {
    var front := rows[..1];
    assert front == [rows[0]] && front[..0] == [];
    assert DateCount(front, 1) == 1 && DateCount(front, 2) == 0;
    assert DateSum(front, 1, false) == b && DateSum(front, 2, false) == 0.0;
    assert DateSum(front, 1, true) == 0.0 && DateSum(front, 2, true) == 0.0;
  }

  lemma TwoMeans(b: real)
    ensures var rows := Join(TwoTrades(b), LiftFirst(b));
            && JoinAccepted(TwoTrades(b), LiftFirst(b)) && DatesOf([1, 2], rows)
            && DateMeans(rows, [1, 2], false) == [b, -0.5] && DateMeans(rows, [1, 2], true) == [0.0, -0.5]
  {
    var rows := Join(TwoTrades(b), LiftFirst(b));
    TwoRows(b);
    TwoSums(b, rows);
    var incumbent, candidate := DateMeans(rows, [1, 2], false), DateMeans(rows, [1, 2], true);
    assert incumbent[0] == b && incumbent[1] == -0.5;
    assert candidate[0] == 0.0 && candidate[1] == -0.5;
  }

  /** A cohort whose drawdown gate fails below the floor -1, and is undefined at the floor. */
  ghost predicate GateFails(b: real, full: seq<Outcome>, changed: seq<Delta>, dates: seq<int>) {
    && FlooredCohort(b, full, changed, dates) && NonNegativeRows(Join(full, changed))
    && (b < -1.0 ==> !DrawdownGate(Join(full, changed), dates))
    && (b == -1.0 ==> !Risk.Measured(DateMeans(Join(full, changed), dates, false), |dates|))
  }

  /** On this cohort, a first date that loses more than everything fails the drawdown gate although
      the delta is positive; one that loses exactly everything leaves the drawdown undefined. */
  lemma PositiveDeltaFailsGate(b: real)
    requires b <= -1.0
    ensures GateFails(b, TwoTrades(b), LiftFirst(b), [1, 2])
  {
    TwoMeans(b);
    JoinedNonNegative(TwoTrades(b), LiftFirst(b));
    if b < -1.0 {
      Risk.OverdraftDeepens(b);
    } else {
      assert Risk.Peak([b, -0.5], 1) == Risk.Equity([b, -0.5], 1) == 1.0 + b;
    }
  }

  /** Exactly when non-negative deltas can be relied on to pass the drawdown gate: a floor under the
      incumbent date means guarantees it if and only if the floor is at least -1. */
  lemma DrawdownGateExactly(floor: real)
    ensures (forall full, changed, dates ::
               FlooredCohort(floor, full, changed, dates)
               ==> NonNegativeRows(Join(full, changed)) && DrawdownGate(Join(full, changed), dates))
            <==> floor >= -1.0
  {
    if floor >= -1.0 {
      forall full, changed, dates | FlooredCohort(floor, full, changed, dates)
        ensures NonNegativeRows(Join(full, changed)) && DrawdownGate(Join(full, changed), dates)
      {
        JoinedNonNegative(full, changed);
        FloorHolds(floor, Join(full, changed), dates);
      }
    } else {
      PositiveDeltaFailsGate(floor);
    }
  }

  lemma FloorHolds(floor: real, rows: seq<Joined>, dates: seq<int>)
    requires floor >= -1.0 && dates != [] && NonNegativeRows(rows) && DatesOf(dates, rows)
    requires Risk.AtLeast(DateMeans(rows, dates, false), floor)
    ensures DrawdownGate(rows, dates)
  {
    DateMeansRise(rows, dates);
    var incumbent, candidate := DateMeans(rows, dates, false), DateMeans(rows, dates, true);
    assert Risk.RaisedFrom(floor, incumbent, candidate);
    Risk.DrawdownMonotoneExactly(floor);
  }
}
