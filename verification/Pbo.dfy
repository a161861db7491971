/** scripts/run_backtest_local.py: the probability of backtest overfitting (`run_pbo`). The
    trades are cut into n consecutive partitions; every choice of half of them is an in-sample
    set, the rest is out of sample; a choice counts when the first has a positive and the
    second a negative mean. A choice is a list of n flags, true for in-sample. */
module Pbo {
  import opened Common

  datatype Mask = End | Flag(head: bool, tail: Mask)

  function Length(m: Mask): nat {
    match m case End => 0 case Flag(_, tail) => 1 + Length(tail)
  }

  function Trues(m: Mask): nat {
    match m case End => 0 case Flag(b, tail) => (if b then 1 else 0) + Trues(tail)
  }

  function Complement(m: Mask): Mask {
    match m case End => End case Flag(b, tail) => Flag(!b, Complement(tail))
  }

  // ---------- itertools.combinations ----------

  function Prepend(b: bool, masks: seq<Mask>): (r: seq<Mask>)
    ensures |r| == |masks|
    ensures forall i :: 0 <= i < |r| ==> r[i] == Flag(b, masks[i])
  {
    seq(|masks|, i requires 0 <= i < |masks| => Flag(b, masks[i]))
  }

  /** All choices of k out of n, in the lexicographic order of their index tuples: those with
      the first index, then those without. */
  function Combinations(n: nat, k: nat): seq<Mask>
    decreases n, 1
  {
    if n == 0 then (if k == 0 then [End] else [])
    else With(n, k) + Without(n, k)
  }

  function With(n: nat, k: nat): seq<Mask>
    requires n > 0
    decreases n, 0
  {
    if k == 0 then [] else Prepend(true, Combinations(n - 1, k - 1))
  }

  function Without(n: nat, k: nat): seq<Mask>
    requires n > 0
    decreases n, 0
  {
    Prepend(false, Combinations(n - 1, k))
  }

  lemma InPrepend(b: bool, masks: seq<Mask>, m: Mask)
    ensures m in Prepend(b, masks) <==> m.Flag? && m.head == b && m.tail in masks
  {
  }

  lemma InCombinations(n: nat, k: nat, m: Mask)
    requires n > 0
    ensures m in Combinations(n, k)
       <==> && m.Flag?
            && if m.head then k > 0 && m.tail in Combinations(n - 1, k - 1) else m.tail in Combinations(n - 1, k)
  {
    InPrepend(false, Combinations(n - 1, k), m);
    if k > 0 { InPrepend(true, Combinations(n - 1, k - 1), m); }
  }

  /** m lists n flags, k of them true, read flag by flag. */
  predicate Chooses(m: Mask, n: nat, k: nat) {
    match m
    case End => n == 0 && k == 0
    case Flag(b, tail) => n > 0 && if b then k > 0 && Chooses(tail, n - 1, k - 1) else Chooses(tail, n - 1, k)
  }

  lemma {:induction false} ChoosesCounts(m: Mask, n: nat, k: nat)
    ensures Chooses(m, n, k) <==> Length(m) == n && Trues(m) == k
  {
    match m
    case End =>
    case Flag(b, tail) =>
      if n > 0 {
        if !b { ChoosesCounts(tail, n - 1, k); } else if k > 0 { ChoosesCounts(tail, n - 1, k - 1); }
      }
  }

  lemma ChoiceOfNone(k: nat, m: Mask)
    ensures m in Combinations(0, k) <==> m.End? && k == 0
  {
  }

  /** m is listed when the flags after its first are. */
  lemma ChoiceStep(n: nat, k: nat, m: Mask)
    requires n > 0
    requires m.Flag? && !m.head ==> (m.tail in Combinations(n - 1, k) <==> Chooses(m.tail, n - 1, k))
    requires m.Flag? && m.head && k > 0 ==>
               (m.tail in Combinations(n - 1, k - 1) <==> Chooses(m.tail, n - 1, k - 1))
    ensures m in Combinations(n, k) <==> Chooses(m, n, k)
  {
    InCombinations(n, k, m);
  }

  lemma {:induction false} CombinationsChoose(n: nat, k: nat, m: Mask)
    ensures m in Combinations(n, k) <==> Chooses(m, n, k)
    decreases n
  {
    if n == 0 {
      ChoiceOfNone(k, m);
    } else {
      if m.Flag? && !m.head { CombinationsChoose(n - 1, k, m.tail); }
      if m.Flag? && m.head && k > 0 { CombinationsChoose(n - 1, k - 1, m.tail); }
      ChoiceStep(n, k, m);
    }
  }

  /** The enumeration is complete and contains only choices of k out of n. */
  lemma CombinationsComplete(n: nat, k: nat, m: Mask)
    ensures m in Combinations(n, k) <==> Length(m) == n && Trues(m) == k
  {
    CombinationsChoose(n, k, m);
    ChoosesCounts(m, n, k);
  }

  /** No choice is listed twice. */
  lemma {:induction false} CombinationsDistinct(n: nat, k: nat, i: nat, j: nat)
    requires i < j < |Combinations(n, k)|
    ensures Combinations(n, k)[i] != Combinations(n, k)[j]
  {
    if n == 0 {
    } else {
      var split := |With(n, k)|;
      if j < split {
        CombinationsDistinct(n - 1, k - 1, i, j);
      } else if i >= split {
        CombinationsDistinct(n - 1, k, i - split, j - split);
      }
    }
  }

  // ---------- complementing a choice ----------

  /** d is c backwards, each choice complemented. */
  ghost predicate Mirrors(c: seq<Mask>, d: seq<Mask>) {
    && |d| == |c|
    && forall i :: 0 <= i < |c| ==> d[|c| - 1 - i] == Complement(c[i])
  }

  lemma MirrorPrepend(b: bool, c: seq<Mask>, d: seq<Mask>)
    requires Mirrors(c, d)
    ensures Mirrors(Prepend(b, c), Prepend(!b, d))
  {
  }

  lemma MirrorConcat(c1: seq<Mask>, c2: seq<Mask>, d1: seq<Mask>, d2: seq<Mask>)
    requires Mirrors(c1, d2) && Mirrors(c2, d1)
    ensures Mirrors(c1 + c2, d1 + d2)
  {
  }

  lemma {:induction false} TooMany(n: nat, k: nat)
    requires k > n
    ensures Combinations(n, k) == []
  {
    if n == 0 {
    } else {
      TooMany(n - 1, k);
      TooMany(n - 1, k - 1);
    }
  }

  /** Complementing maps the enumeration of k out of n onto that of n - k out of n, backwards. */
  lemma {:induction false} ComplementReverses(n: nat, k: nat)
    requires k <= n
    ensures Mirrors(Combinations(n, k), Combinations(n, n - k))
  {
    if n == 0 {
    } else {
      if k > 0 {
        ComplementReverses(n - 1, k - 1);
        MirrorPrepend(true, Combinations(n - 1, k - 1), Combinations(n - 1, n - k));
      } else {
        TooMany(n - 1, n);
      }
      if k < n {
        ComplementReverses(n - 1, k);
        MirrorPrepend(false, Combinations(n - 1, k), Combinations(n - 1, n - 1 - k));
      } else {
        TooMany(n - 1, n);
      }
      MirrorConcat(With(n, k), Without(n, k), With(n, n - k), Without(n, n - k));
    }
  }

  // ---------- partitions and samples ----------

  /** Start of partition i; the last partition takes the remainder. */
  function Cut(len: nat, n: nat, i: nat): nat
    requires i <= n && n > 0
  {
    if i == n then len else i * (len / n)
  }

  lemma MulOrder(a: nat, b: nat, size: nat)
    requires a <= b
    ensures a * size <= b * size
  {
  }

  lemma CutsOrdered(len: nat, n: nat, i: nat)
    requires i < n
    ensures Cut(len, n, i) <= Cut(len, n, i + 1) <= len
  {
    var size := len / n;
    MulOrder(i, i + 1, size);
    MulOrder(i + 1, n, size);
    assert n * size == len - len % n;
  }

  function Partition(profits: seq<real>, n: nat, i: nat): seq<real>
    requires i < n
  {
    CutsOrdered(|profits|, n, i);
    profits[Cut(|profits|, n, i)..Cut(|profits|, n, i + 1)]
  }

  function Partitions(profits: seq<real>, n: nat): (parts: seq<seq<real>>)
    ensures |parts| == n
  {
    seq(n, i requires 0 <= i < n => Partition(profits, n, i))
  }

  function Concat(parts: seq<seq<real>>, k: nat): seq<real>
    requires k <= |parts|
  {
    if k == 0 then [] else Concat(parts, k - 1) + parts[k - 1]
  }

  /** Put together in order the partitions are the list of returns again. */
  lemma {:induction false} PartitionsLoseNothing(profits: seq<real>, n: nat, k: nat)
    requires 0 < n && k <= n
    ensures Cut(|profits|, n, k) <= |profits|
    ensures Concat(Partitions(profits, n), k) == profits[..Cut(|profits|, n, k)]
  {
    if k == 0 {
    } else {
      CutsOrdered(|profits|, n, k - 1);
      PartitionsLoseNothing(profits, n, k - 1);
      LastPartition(profits, n, k);
    }
  }

  lemma LastPartition(profits: seq<real>, n: nat, k: nat)
    requires 0 < k <= n && Cut(|profits|, n, k - 1) <= Cut(|profits|, n, k) <= |profits|
    ensures Concat(Partitions(profits, n), k)
         == Concat(Partitions(profits, n), k - 1) + profits[Cut(|profits|, n, k - 1)..Cut(|profits|, n, k)]
    ensures profits[..Cut(|profits|, n, k - 1)] + profits[Cut(|profits|, n, k - 1)..Cut(|profits|, n, k)]
         == profits[..Cut(|profits|, n, k)]
  {
    JoinSlices(profits, Cut(|profits|, n, k - 1), Cut(|profits|, n, k));
  }

  lemma JoinSlices(s: seq<real>, a: nat, b: nat)
    requires a <= b <= |s|
    ensures s[..a] + s[a..b] == s[..b]
  {
  }

  /** The partitions from index i on whose flag equals `flag`, concatenated in index order. */
  function Sample(parts: seq<seq<real>>, i: nat, m: Mask, flag: bool): seq<real>
    requires i + Length(m) == |parts|
    decreases m
  {
    match m
    case End => []
    case Flag(b, tail) => (if b == flag then parts[i] else []) + Sample(parts, i + 1, tail, flag)
  }

  lemma {:induction false} ComplementLength(m: Mask)
    ensures Length(Complement(m)) == Length(m)
    ensures Trues(Complement(m)) == Length(m) - Trues(m)
  {
    match m
    case End =>
    case Flag(_, tail) => ComplementLength(tail);
  }

  /** Complementing swaps in-sample and out-of-sample. */
  lemma {:induction false} SampleOfComplement(parts: seq<seq<real>>, i: nat, m: Mask, flag: bool)
    requires i + Length(m) == |parts|
    ensures Length(Complement(m)) == Length(m)
    ensures Sample(parts, i, Complement(m), flag) == Sample(parts, i, m, !flag)
    decreases m
  {
    ComplementLength(m);
    match m
    case End =>
    case Flag(_, tail) => SampleOfComplement(parts, i + 1, tail, flag);
  }

  predicate Positive(s: seq<real>) { s != [] && Mean(s) > 0.0 }

  predicate Negative(s: seq<real>) { s != [] && Mean(s) < 0.0 }

  /** In-sample gain that turns into an out-of-sample loss. */
  predicate Overfits(parts: seq<seq<real>>, m: Mask) {
    && Length(m) == |parts|
    && Positive(Sample(parts, 0, m, true)) && Negative(Sample(parts, 0, m, false))
  }

  // ---------- the counting loop ----------

  function Losses(parts: seq<seq<real>>, masks: seq<Mask>, k: nat): nat
    requires k <= |masks|
  {
    if k == 0 then 0 else Losses(parts, masks, k - 1) + (if Overfits(parts, masks[k - 1]) then 1 else 0)
  }

  datatype Verdict = InsufficientData | Verdict(losses: nat, combinations: nat, pass: bool)

  lemma {:induction false} CombinationsExist(n: nat, k: nat)
    requires k <= n
    ensures Combinations(n, k) != []
  {
    if n == 0 {
    } else {
      if k > 0 { CombinationsExist(n - 1, k - 1); } else { CombinationsExist(n - 1, k); }
    }
  }

  /** `run_pbo`: pbo is losses / combinations, and the verdict passes when it is below one half. */
  method RunPbo(profits: seq<real>, n: nat) returns (v: Verdict)
    requires n >= 2
    ensures |profits| / n < 5 ==> v == InsufficientData
    ensures |profits| / n >= 5 ==>
              var masks := Combinations(n, n / 2);
              && v.Verdict? && v.combinations == |masks| > 0
              && v.losses == Losses(Partitions(profits, n), masks, |masks|)
              && (v.pass <==> v.losses as real / v.combinations as real < 0.5)
  {
    if |profits| / n < 5 { return InsufficientData; }
    var parts := Partitions(profits, n);
    var combos := Combinations(n, n / 2);
    CombinationsExist(n, n / 2);
    var losses := 0;
    for i := 0 to |combos|
      invariant losses == Losses(parts, combos, i)
    {
      CombinationsComplete(n, n / 2, combos[i]);
      var inSample, outSample := Sample(parts, 0, combos[i], true), Sample(parts, 0, combos[i], false);
      if Positive(inSample) && Negative(outSample) { losses := losses + 1; }
    }
    v := Verdict(losses, |combos|, losses as real / |combos| as real < 0.5);
  }

  // ---------- at most one of each complementary pair counts ----------

  /** A choice and its complement never both count. */
  lemma ComplementNeverCounts(parts: seq<seq<real>>, m: Mask)
    ensures !(Overfits(parts, m) && Overfits(parts, Complement(m)))
  {
    if Length(m) == |parts| {
      SampleOfComplement(parts, 0, m, true);
    }
  }

  /** Each of the first k choices or its complement counts. */
  ghost predicate PairsFlip(parts: seq<seq<real>>, c: seq<Mask>, k: nat)
    requires k <= |c|
  {
    forall i :: 0 <= i < k ==> Overfits(parts, c[i]) || Overfits(parts, Complement(c[i]))
  }

  lemma PairsFlipStep(parts: seq<seq<real>>, c: seq<Mask>, k: nat)
    requires k < |c|
    ensures PairsFlip(parts, c, k + 1)
       <==> PairsFlip(parts, c, k) && (Overfits(parts, c[k]) || Overfits(parts, Complement(c[k])))
  {
  }

  /** Choices of a suffix, read backwards, counted with the choices of the prefix. */
  lemma {:induction false} PairedLosses(parts: seq<seq<real>>, c: seq<Mask>, d: seq<Mask>, k: nat)
    requires Mirrors(c, d) && k <= |c|
    ensures Losses(parts, c, k) + (Losses(parts, d, |d|) - Losses(parts, d, |d| - k)) <= k
    ensures Losses(parts, c, k) + (Losses(parts, d, |d|) - Losses(parts, d, |d| - k)) == k
       <==> PairsFlip(parts, c, k)
  {
    if k == 0 {
    } else {
      PairedLosses(parts, c, d, k - 1);
      ComplementNeverCounts(parts, c[k - 1]);
      assert d[|d| - k] == Complement(c[k - 1]);
      PairsFlipStep(parts, c, k - 1);
    }
  }

  /** Every choice of half of the partitions or its complement counts. */
  ghost predicate EveryPairFlips(parts: seq<seq<real>>, h: nat) {
    forall m: Mask :: Length(m) == 2 * h && Trues(m) == h ==> Overfits(parts, m) || Overfits(parts, Complement(m))
  }

  /** For an even number of partitions at most half of the choices count, and exactly half do
      if and only if in every complementary pair one of the two counts. */
  lemma AtMostHalf(parts: seq<seq<real>>, h: nat)
    ensures var masks := Combinations(2 * h, h);
            && 2 * Losses(parts, masks, |masks|) <= |masks|
            && (2 * Losses(parts, masks, |masks|) == |masks| <==> EveryPairFlips(parts, h))
  {
    var masks := Combinations(2 * h, h);
    ComplementReverses(2 * h, h);
    PairedLosses(parts, masks, masks, |masks|);
    forall m: Mask | Length(m) == 2 * h && Trues(m) == h ensures exists i :: 0 <= i < |masks| && masks[i] == m {
      CombinationsComplete(2 * h, h, m);
    }
    forall i | 0 <= i < |masks| ensures Length(masks[i]) == 2 * h && Trues(masks[i]) == h {
      CombinationsComplete(2 * h, h, masks[i]);
    }
  }

  /** So with an even number of partitions the reported probability never exceeds one half, and
      the verdict fails exactly when every complementary pair of choices flips sign. */
  lemma VerdictMeaning(profits: seq<real>, h: nat, v: Verdict)
    requires h >= 1 && v.Verdict? && v.combinations == |Combinations(2 * h, h)| > 0
    requires v.losses == Losses(Partitions(profits, 2 * h), Combinations(2 * h, h), |Combinations(2 * h, h)|)
    requires v.pass <==> v.losses as real / v.combinations as real < 0.5
    ensures v.losses as real / v.combinations as real <= 0.5
    ensures !v.pass <==> EveryPairFlips(Partitions(profits, 2 * h), h)
  {
    AtMostHalf(Partitions(profits, 2 * h), h);
    HalfRatio(v.losses as real, v.combinations as real);
  }

  lemma HalfRatio(a: real, b: real)
    requires b > 0.0 && 2.0 * a <= b
    ensures a / b <= 0.5
    ensures a / b < 0.5 <==> 2.0 * a < b
  {
  }

  // ---------- the count in plain arithmetic ----------

  /** Partition i holds the next len / n returns, the last one all that are left. */
  lemma PartitionExactly(profits: seq<real>, n: nat, i: nat)
    requires 0 < n && i < n
    ensures var size, part := |profits| / n, Partitions(profits, n)[i];
            && i * size + |part| <= |profits|
            && |part| == (if i < n - 1 then size else |profits| - (n - 1) * size)
            && forall j :: 0 <= j < |part| ==> part[j] == profits[i * size + j]
  {
    CutsOrdered(|profits|, n, i);
    var size := |profits| / n;
    assert (i + 1) * size == i * size + size;
  }

  /** Is partition i in-sample? */
  predicate Bit(m: Mask, i: nat) {
    match m
    case End => false
    case Flag(b, tail) => if i == 0 then b else Bit(tail, i - 1)
  }

  /** Sum over the partitions from i on that are in-sample, or that are not. */
  function PartTotal(parts: seq<seq<real>>, m: Mask, flag: bool, i: nat): real
    requires i <= |parts|
    decreases |parts| - i
  {
    if i == |parts| then 0.0
    else (if Bit(m, i) == flag then Sum(parts[i]) else 0.0) + PartTotal(parts, m, flag, i + 1)
  }

  lemma {:induction false} SumConcat(s: seq<real>, t: seq<real>)
    ensures Sum(s + t) == Sum(s) + Sum(t)
  {
    if t == [] {
      assert s + t == s;
    } else {
      var front := t[..|t| - 1];
      SumConcat(s, front);
      assert (s + t)[..|s + t| - 1] == s + front;
    }
  }

  /** m without its first i flags. */
  function Rest(m: Mask, i: nat): Mask {
    if i == 0 || m.End? then m else Rest(m.tail, i - 1)
  }

  lemma {:induction false} RestStep(m: Mask, i: nat)
    requires i < Length(m)
    ensures Rest(m, i).Flag? && Rest(m, i).head == Bit(m, i) && Rest(m, i).tail == Rest(m, i + 1)
    ensures Length(Rest(m, i)) == Length(m) - i
  {
    if i == 0 {
    } else {
      RestStep(m.tail, i - 1);
    }
  }

  lemma {:induction false} RestEnds(m: Mask, i: nat)
    requires i == Length(m)
    ensures Rest(m, i).End?
  {
    if i == 0 {
    } else {
      RestEnds(m.tail, i - 1);
    }
  }

  lemma {:induction false} SampleTotal(parts: seq<seq<real>>, m: Mask, flag: bool, i: nat)
    requires Length(m) == |parts| && i <= |parts|
    ensures i + Length(Rest(m, i)) == |parts|
    ensures Sum(Sample(parts, i, Rest(m, i), flag)) == PartTotal(parts, m, flag, i)
    decreases |parts| - i
  {
    if i == |parts| {
      RestEnds(m, i);
    } else {
      RestStep(m, i);
      SampleTotal(parts, m, flag, i + 1);
      SumConcat(if Bit(m, i) == flag then parts[i] else [], Sample(parts, i + 1, Rest(m, i + 1), flag));
    }
  }

  lemma SignOfMean(s: seq<real>)
    ensures Positive(s) <==> Sum(s) > 0.0
    ensures Negative(s) <==> Sum(s) < 0.0
  {
    if s != [] { SignOfQuotient(Sum(s), |s| as real); }
  }

  lemma SignOfQuotient(x: real, y: real)
    requires y > 0.0
    ensures x / y > 0.0 <==> x > 0.0
    ensures x / y < 0.0 <==> x < 0.0
  {
    var q := x / y;
    assert q * y == x;
  }

  /** A choice counts exactly when its in-sample partitions sum to a gain and the others to a loss. */
  lemma OverfitsExactly(parts: seq<seq<real>>, m: Mask)
    ensures Overfits(parts, m)
       <==> Length(m) == |parts| && PartTotal(parts, m, true, 0) > 0.0 && PartTotal(parts, m, false, 0) < 0.0
  {
    if Length(m) == |parts| {
      SampleTotal(parts, m, true, 0);
      SampleTotal(parts, m, false, 0);
      SignOfMean(Sample(parts, 0, m, true));
      SignOfMean(Sample(parts, 0, m, false));
    }
  }

  /** m is a choice of half of n partitions that counts. */
  ghost predicate Counts(parts: seq<seq<real>>, n: nat, m: Mask) {
    && Length(m) == n && Trues(m) == n / 2
    && PartTotal(parts, m, true, 0) > 0.0 && PartTotal(parts, m, false, 0) < 0.0
  }

  lemma {:induction false} CountedSet(parts: seq<seq<real>>, n: nat, k: nat) returns (counted: set<Mask>)
    requires |parts| == n && k <= |Combinations(n, n / 2)|
    ensures |counted| == Losses(parts, Combinations(n, n / 2), k)
    ensures forall m :: m in counted <==> m in Combinations(n, n / 2)[..k] && Counts(parts, n, m)
  {
    var masks := Combinations(n, n / 2);
    counted := {};
    if k == 0 {
    } else {
      counted := CountedSet(parts, n, k - 1);
      var m := masks[k - 1];
      CombinationsComplete(n, n / 2, m);
      OverfitsExactly(parts, m);
      if m in masks[..k - 1] {
        var j :| 0 <= j < k - 1 && masks[j] == m;
        CombinationsDistinct(n, n / 2, j, k - 1);
      }
      assert masks[..k] == masks[..k - 1] + [m];
      if Overfits(parts, m) { counted := counted + {m}; }
    }
  }

  lemma {:induction false} ChoiceSet(n: nat, k: nat, j: nat) returns (choices: set<Mask>)
    requires j <= |Combinations(n, k)|
    ensures |choices| == j && forall m :: m in choices <==> m in Combinations(n, k)[..j]
  {
    var masks := Combinations(n, k);
    choices := {};
    if j == 0 {
    } else {
      choices := ChoiceSet(n, k, j - 1);
      var m := masks[j - 1];
      if m in masks[..j - 1] {
        var i :| 0 <= i < j - 1 && masks[i] == m;
        CombinationsDistinct(n, k, i, j - 1);
      }
      assert masks[..j] == masks[..j - 1] + [m];
      choices := choices + {m};
    }
  }

  /** The reported numbers: `losses` is how many choices of half of the partitions gain in-sample and lose
      out of sample, and `combinations` how many choices there are. */
  lemma ReportedCounts(profits: seq<real>, n: nat) returns (counted: set<Mask>, choices: set<Mask>)
    requires n >= 2
    ensures forall m :: m in counted <==> Counts(Partitions(profits, n), n, m)
    ensures forall m :: m in choices <==> Length(m) == n && Trues(m) == n / 2
    ensures |counted| == Losses(Partitions(profits, n), Combinations(n, n / 2), |Combinations(n, n / 2)|)
    ensures |choices| == |Combinations(n, n / 2)|
  {
    var masks := Combinations(n, n / 2);
    counted := CountedSet(Partitions(profits, n), n, |masks|);
    choices := ChoiceSet(n, n / 2, |masks|);
    assert masks[..|masks|] == masks;
    forall m: Mask ensures m in masks <==> Length(m) == n && Trues(m) == n / 2 { CombinationsComplete(n, n / 2, m); }
  }
}
