/** The confidence reported with a prediction: the largest entry of the
    classifier's probability vector for the one input row (`np.max`). */
module Confidence {

  /** `np.max` over a non-empty vector of probabilities. */
  function Max(s: seq<real>): (m: real)
    requires |s| > 0
    ensures m in s
    ensures forall i :: 0 <= i < |s| ==> s[i] <= m
  {
    if |s| == 1 then s[0]
    else
      var rest := Max(s[1..]);
      if s[0] >= rest then s[0] else rest
  }

  /** The two properties of Max pin it down: any upper bound that is an entry is the maximum. */
  lemma MaxUnique(s: seq<real>, m: real)
    requires m in s
    requires forall i :: 0 <= i < |s| ==> s[i] <= m
    ensures Max(s) == m
  {
  }

  /** Sum of the entries of a vector. */
  function Sum(s: seq<real>): real
  {
    if |s| == 0 then 0.0 else s[0] + Sum(s[1..])
  }

  /** Every entry lies in [0, 1]. */
  predicate InUnitInterval(s: seq<real>)
  {
    forall i :: 0 <= i < |s| ==> 0.0 <= s[i] <= 1.0
  }

  /** `k` copies of `x` added up, that is k * x written without multiplication. */
  function Times(k: nat, x: real): real
  {
    if k == 0 then 0.0 else x + Times(k - 1, x)
  }

  /** Times grows with its second argument. */
  lemma {:induction false} TimesMonotone(k: nat, x: real, y: real)
    requires x <= y
    ensures Times(k, x) <= Times(k, y)
  {
    if k > 0 {
      TimesMonotone(k - 1, x, y);
    }
  }

  /** Times is multiplication. */
  lemma {:induction false} TimesIsProduct(k: nat, x: real)
    ensures Times(k, x) == (k as real) * x
  {
    if k > 0 {
      TimesIsProduct(k - 1, x);
      assert (k as real) * x == ((k - 1) as real) * x + x;
    }
  }

  /** No entry exceeds the maximum, so the sum is at most |s| times it. */
  lemma {:induction false} SumAtMostCountTimesMax(s: seq<real>)
    requires |s| > 0
    ensures Sum(s) <= Times(|s|, Max(s))
    decreases |s|
  {
    if |s| > 1 {
      SumAtMostCountTimesMax(s[1..]);
      assert Max(s[1..]) in s;
      TimesMonotone(|s| - 1, Max(s[1..]), Max(s));
    }
  }

  /** A quantity whose k-fold multiple reaches 1 is at least 1/k. */
  lemma AtLeastReciprocal(k: nat, m: real)
    requires k > 0 && 1.0 <= Times(k, m)
    ensures m >= 1.0 / (k as real)
  {
    TimesIsProduct(k, m);
    var n := k as real;
    assert (n * m) / n == m;
  }

  /** The largest of n weights that add up to 1 is at least 1/n. */
  lemma MaxAtLeastAverage(s: seq<real>)
    requires |s| > 0 && Sum(s) == 1.0
    ensures Max(s) >= 1.0 / (|s| as real)
  {
    SumAtMostCountTimesMax(s);
    AtLeastReciprocal(|s|, Max(s));
  }

  /** Confidence of probabilities in [0, 1] lies in [0, 1]; when they add up
      to 1 it is also at least 1/n for n classes. */
  lemma ConfidenceBounds(s: seq<real>)
    requires |s| > 0 && InUnitInterval(s)
    ensures 0.0 <= Max(s) <= 1.0
    ensures Sum(s) == 1.0 ==> Max(s) >= 1.0 / (|s| as real)
  {
    if Sum(s) == 1.0 {
      MaxAtLeastAverage(s);
    }
  }
}
