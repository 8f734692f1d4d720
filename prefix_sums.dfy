/** Running totals over a sequence of reals. The depth chart, the price ladder
    and the pie chart each compute the same prefix sums of level sizes; this
    module states that computation once. */
module PrefixSums {

  /** xs[0] + ... + xs[k-1]. */
  function SumTo(xs: seq<real>, k: nat): real
    requires k <= |xs|
  {
    if k == 0 then 0.0 else SumTo(xs, k - 1) + xs[k - 1]
  }

  /** The total of the whole sequence. */
  function Sum(xs: seq<real>): real
  {
    SumTo(xs, |xs|)
  }

  predicate AllNonNegative(xs: seq<real>)
  {
    forall i :: 0 <= i < |xs| ==> xs[i] >= 0.0
  }

  /** Element i is the total of xs[0], ..., xs[i]. */
  function RunningTotals(xs: seq<real>): (r: seq<real>)
    ensures |r| == |xs|
  {
    seq(|xs|, i requires 0 <= i < |xs| => SumTo(xs, i + 1))
  }

  /** A partial sum reads only the elements it adds up. */
  lemma {:induction false} SumToAgree(xs: seq<real>, ys: seq<real>, k: nat)
    requires k <= |xs| && k <= |ys|
    requires forall i :: 0 <= i < k ==> xs[i] == ys[i]
    ensures SumTo(xs, k) == SumTo(ys, k)
  {
    if k > 0 {
      SumToAgree(xs, ys, k - 1);
    }
  }

  /** Summing from the front gives the same total. */
  lemma {:induction false} SumToCons(xs: seq<real>, k: nat)
    requires 0 < k <= |xs|
    ensures SumTo(xs, k) == xs[0] + SumTo(xs[1..], k - 1)
  {
    if k > 1 {
      SumToCons(xs, k - 1);
    }
  }

  lemma SumCons(xs: seq<real>)
    requires |xs| > 0
    ensures Sum(xs) == xs[0] + Sum(xs[1..])
  {
    SumToCons(xs, |xs|);
  }

  lemma {:induction false} SumToMonotone(xs: seq<real>, i: nat, j: nat)
    requires AllNonNegative(xs)
    requires i <= j <= |xs|
    ensures SumTo(xs, i) <= SumTo(xs, j)
  {
    if i < j {
      SumToMonotone(xs, i, j - 1);
    }
  }

  lemma SumToNonNegative(xs: seq<real>, k: nat)
    requires AllNonNegative(xs)
    requires k <= |xs|
    ensures SumTo(xs, k) >= 0.0
  {
    SumToMonotone(xs, 0, k);
  }

  /** The running total starts at the first element and adds one element per step. */
  lemma RunningTotalsRecurrence(xs: seq<real>)
    ensures |xs| > 0 ==> RunningTotals(xs)[0] == xs[0]
    ensures forall i :: 0 < i < |xs| ==> RunningTotals(xs)[i] == RunningTotals(xs)[i - 1] + xs[i]
  {
    if |xs| > 0 {
      assert SumTo(xs, 1) == SumTo(xs, 0) + xs[0];
    }
  }

  /** With non-negative elements the running totals never decrease. */
  lemma RunningTotalsNonDecreasing(xs: seq<real>)
    requires AllNonNegative(xs)
    ensures forall i, j :: 0 <= i <= j < |xs| ==> RunningTotals(xs)[i] <= RunningTotals(xs)[j]
  {
    forall i, j | 0 <= i <= j < |xs|
      ensures RunningTotals(xs)[i] <= RunningTotals(xs)[j]
    {
      SumToMonotone(xs, i + 1, j + 1);
    }
  }

  /** The last running total is the total of the whole sequence. */
  lemma RunningTotalsLast(xs: seq<real>)
    requires |xs| > 0
    ensures RunningTotals(xs)[|xs| - 1] == Sum(xs)
  {
  }

  /** With non-negative elements every running total lies between 0 and the grand total. */
  lemma RunningTotalsBounded(xs: seq<real>)
    requires AllNonNegative(xs)
    ensures forall i :: 0 <= i < |xs| ==> 0.0 <= RunningTotals(xs)[i] <= Sum(xs)
  {
    forall i | 0 <= i < |xs|
      ensures 0.0 <= RunningTotals(xs)[i] <= Sum(xs)
    {
      SumToMonotone(xs, 0, i + 1);
      SumToMonotone(xs, i + 1, |xs|);
    }
  }
}
