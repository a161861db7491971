/** Small vocabulary shared by the other modules: results, sums of reals, and the
    fact that a sum over a list does not depend on the order of the list. */
module Common {

  datatype Option<+T> = None | Some(value: T)

  datatype Result<+T, +E> = Ok(value: T) | Err(error: E)

  function Max(a: real, b: real): real { if a >= b then a else b }

  function Min(a: real, b: real): real { if a <= b then a else b }

  function Abs(x: real): real { if x < 0.0 then -x else x }

  function MinInt(a: int, b: int): int { if a <= b then a else b }

  function MaxInt(a: int, b: int): int { if a >= b then a else b }

  /** The front and the last element of a list that was just extended. */
  lemma Snoc<T>(s: seq<T>, x: T)
    ensures (s + [x])[..|s + [x]| - 1] == s
    ensures (s + [x])[|s + [x]| - 1] == x
  {
  }

  /** Left-to-right sum, the order in which the loops accumulate. */
  function Sum(s: seq<real>): real {
    if |s| == 0 then 0.0 else Sum(s[..|s| - 1]) + s[|s| - 1]
  }

  function Mean(s: seq<real>): real
    requires s != []
  {
    Sum(s) / |s| as real
  }

  /** Sum of the first k values. */
  function PrefixSum(s: seq<real>, k: nat): real
    requires k <= |s|
  {
    if k == 0 then 0.0 else PrefixSum(s, k - 1) + s[k - 1]
  }

  lemma {:induction false} PrefixSumSame(s: seq<real>, t: seq<real>, k: nat)
    requires k <= |s| && k <= |t| && forall i :: 0 <= i < k ==> s[i] == t[i]
    ensures PrefixSum(s, k) == PrefixSum(t, k)
  {
    if k == 0 {
    } else {
      PrefixSumSame(s, t, k - 1);
    }
  }

  /** The sum of a window is the difference of two prefix sums. */
  lemma {:induction false} PrefixSumIsSum(s: seq<real>, a: nat, b: nat)
    requires a <= b <= |s|
    ensures PrefixSum(s, b) - PrefixSum(s, a) == Sum(s[a..b])
    decreases b
  {
    if a == b {
    } else {
      PrefixSumIsSum(s, a, b - 1);
      assert s[a..b][..b - a - 1] == s[a..b - 1];
    }
  }

  lemma PrefixSumOfAll(s: seq<real>)
    ensures PrefixSum(s, |s|) == Sum(s)
  {
    PrefixSumIsSum(s, 0, |s|);
    assert s[0..|s|] == s;
  }

  lemma ProductNonNegative(x: real, y: real)
    requires x >= 0.0 && y >= 0.0
    ensures x * y >= 0.0
  {
  }

  /** True range of a day with the close of the day before. */
  function TrueRange(high: real, low: real, before: real): real {
    Max(Max(high - low, Abs(high - before)), Abs(low - before))
  }

  /** It is the span of the day widened to the close before it. */
  lemma TrueRangeIsSpan(high: real, low: real, before: real)
    requires low <= high
    ensures TrueRange(high, low, before)
         == (if high >= before then high else before) - (if low <= before then low else before)
  {
  }

  lemma {:induction false} SumRemove(s: seq<real>, i: nat)
    requires i < |s|
    ensures Sum(s) == Sum(RemoveAt(s, i)) + s[i]
  {
    if i == |s| - 1 {
      assert RemoveAt(s, i) == s[..i];
    } else {
      RemoveBeforeLast(s, i);
      SumRemove(s[..|s| - 1], i);
    }
  }

  function RemoveAt<T>(s: seq<T>, i: nat): seq<T>
    requires i < |s|
  {
    s[..i] + s[i + 1..]
  }

  lemma RemoveBeforeLast<T>(s: seq<T>, i: nat)
    requires i + 1 < |s|
    ensures RemoveAt(s, i)[..|s| - 2] == RemoveAt(s[..|s| - 1], i)
    ensures RemoveAt(s, i)[|s| - 2] == s[|s| - 1]
  {
  }

  lemma SameTails<T>(s: seq<T>, t: seq<T>)
    requires s != [] && t != [] && s[0] == t[0] && multiset(s) == multiset(t)
    ensures multiset(s[1..]) == multiset(t[1..])
  {
    assert s == [s[0]] + s[1..] && t == [t[0]] + t[1..];
    assert multiset(s[1..]) == multiset(s) - multiset{s[0]};
  }

  /** Removing one occurrence from both sides of a multiset equality. */
  lemma MatchLast<T>(s: seq<T>, t: seq<T>) returns (i: nat)
    requires |s| > 0 && multiset(s) == multiset(t)
    ensures i < |t| && t[i] == s[|s| - 1]
    ensures multiset(s[..|s| - 1]) == multiset(RemoveAt(t, i))
  {
    var x := s[|s| - 1];
    var front := s[..|s| - 1];
    assert s == front + [x];
    assert multiset(s) == multiset(front) + multiset{x};
    assert x in multiset(t);
    i :| 0 <= i < |t| && t[i] == x;
    RemoveAtMultiset(t, i);
  }

  lemma RemoveAtMultiset<T>(t: seq<T>, i: nat)
    requires i < |t|
    ensures multiset(RemoveAt(t, i)) == multiset(t) - multiset{t[i]}
  {
    assert t == t[..i] + [t[i]] + t[i + 1..];
  }

  lemma MultisetSnoc<T>(s: seq<T>, x: T)
    ensures multiset(s + [x]) == multiset(s) + multiset{x}
  {
  }

  lemma PrefixWithin<T>(s: seq<T>, k: nat)
    requires k <= |s|
    ensures multiset(s[..k]) <= multiset(s)
  {
    assert s == s[..k] + s[k..];
    assert multiset(s) == multiset(s[..k]) + multiset(s[k..]);
  }

  /** A selection from s that does not use the last element is a selection from the front. */
  lemma WithinFront<T>(pick: seq<T>, s: seq<T>)
    requires s != [] && multiset(pick) <= multiset(s) && s[|s| - 1] !in pick
    ensures multiset(pick) <= multiset(s[..|s| - 1])
  {
    var front, last := s[..|s| - 1], s[|s| - 1];
    assert s == front + [last];
    MultisetSnoc(front, last);
    assert multiset(pick)[last] == 0;
  }

  lemma WithinFrontRemoved<T>(pick: seq<T>, s: seq<T>, i: nat)
    requires s != [] && multiset(pick) <= multiset(s) && i < |pick| && pick[i] == s[|s| - 1]
    ensures multiset(RemoveAt(pick, i)) <= multiset(s[..|s| - 1])
  {
    var front, last := s[..|s| - 1], s[|s| - 1];
    assert s == front + [last];
    MultisetSnoc(front, last);
    RemoveAtMultiset(pick, i);
  }

  /** Replacing an element of a selection along with the list it was selected from. */
  lemma WithinReplaced<T>(pick: seq<T>, s: seq<T>, i: nat, y: T, j: nat)
    requires i < |s| && multiset(pick) <= multiset(s[i := y]) && j < |pick| && pick[j] == y
    ensures multiset(RemoveAt(pick, j) + [s[i]]) <= multiset(s)
  {
    var x := s[i];
    assert multiset(s[i := y]) == multiset(s) - multiset{x} + multiset{y};
    RemoveAtMultiset(pick, j);
    MultisetSnoc(RemoveAt(pick, j), x);
    assert x in multiset(s);
  }

  lemma WithinUnreplaced<T>(pick: seq<T>, s: seq<T>, i: nat, y: T)
    requires i < |s| && multiset(pick) <= multiset(s[i := y]) && y !in pick
    ensures multiset(pick) <= multiset(s)
  {
  }

  lemma SelectionSize<T>(pick: seq<T>, s: seq<T>)
    requires multiset(pick) <= multiset(s)
    ensures |pick| <= |s|
  {
    assert |multiset(pick)| == |pick| && |multiset(s)| == |s|;
    assert multiset(s) == multiset(pick) + (multiset(s) - multiset(pick));
  }

  lemma {:induction false} SumPermutation(s: seq<real>, t: seq<real>)
    requires multiset(s) == multiset(t)
    ensures Sum(s) == Sum(t)
  {
    assert |multiset(s)| == |s| && |multiset(t)| == |t|;
    if |s| == 0 {
    } else {
      var i := MatchLast(s, t);
      SumPermutation(s[..|s| - 1], RemoveAt(t, i));
      SumRemove(t, i);
    }
  }
}
