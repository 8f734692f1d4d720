/** The bids-versus-asks pie: the total size of the first 30 levels of each
    side, as a two-slice data array. */
module BidsAsksPie {
  import opened PrefixSums
  import opened OrderBook
  import DepthChart

  /** Levels per side that enter each total. */
  const PieLevels: nat := 30

  datatype Slice = Slice(name: string, value: real, color: string)

  /** `reduce((sum, [, size]) => sum + size, acc)`: the sizes added from the left onto acc. */
  function FoldSizes(levels: seq<Level>, acc: real): real
  {
    if |levels| == 0 then acc else FoldSizes(levels[1..], acc + levels[0].size)
  }

  /** The fold adds exactly the sizes of the levels to its seed. */
  lemma {:induction false} FoldIsSum(levels: seq<Level>, acc: real)
    ensures FoldSizes(levels, acc) == acc + Sum(Sizes(levels))
  {
    if |levels| > 0 {
      FoldIsSum(levels[1..], acc + levels[0].size);
      SumCons(Sizes(levels));
      assert Sizes(levels)[1..] == Sizes(levels[1..]);
    }
  }

  /** One side's total: the sum of the sizes of its first 30 levels, zero for an empty side. */
  function Total(levels: seq<Level>): (r: real)
    ensures r == Sum(Sizes(Take(levels, PieLevels)))
    ensures |levels| == 0 ==> r == 0.0
  {
    FoldIsSum(Take(levels, PieLevels), 0.0);
    FoldSizes(Take(levels, PieLevels), 0.0)
  }

  /** The effect's data array: nothing when the book is missing or the chart
      is not mounted, otherwise Bids then Asks with their totals and colours. */
  function PieData(book: Option<Book>, mounted: bool): (r: Option<seq<Slice>>)
    ensures r.None? <==> book.None? || !mounted
    ensures r.Some? ==> |r.value| == 2
    ensures r.Some? ==> r.value[0] == Slice("Bids", Total(book.value.bids), "#22c55e")
    ensures r.Some? ==> r.value[1] == Slice("Asks", Total(book.value.asks), "#ef4444")
  {
    if book.None? || !mounted then None
    else Some([Slice("Bids", Total(book.value.bids), "#22c55e"), Slice("Asks", Total(book.value.asks), "#ef4444")])
  }

  /** Prices play no part: two sides with the same sizes have the same total. */
  lemma TotalIgnoresPrices(a: seq<Level>, b: seq<Level>)
    requires Sizes(a) == Sizes(b)
    ensures Total(a) == Total(b)
  {
    assert |a| == |Sizes(a)| == |b|;
    var ta, tb := Take(a, PieLevels), Take(b, PieLevels);
    forall i | 0 <= i < |ta|
      ensures Sizes(ta)[i] == Sizes(tb)[i]
    {
      assert Sizes(a)[i] == Sizes(b)[i];
    }
    SumToAgree(Sizes(ta), Sizes(tb), |ta|);
  }

  /** A total only counts the first 30 levels: deeper levels change nothing. */
  lemma TotalIgnoresDeeperLevels(levels: seq<Level>, deeper: seq<Level>)
    requires |levels| >= PieLevels
    ensures Total(levels + deeper) == Total(levels)
  {
    assert Take(levels + deeper, PieLevels) == Take(levels, PieLevels);
  }

  /** With non-negative sizes a total is non-negative. */
  lemma TotalNonNegative(levels: seq<Level>)
    requires NonNegative(levels)
    ensures Total(levels) >= 0.0
  {
    TakeKeeps(levels, PieLevels);
    SizesNonNegative(Take(levels, PieLevels));
    SumToNonNegative(Sizes(Take(levels, PieLevels)), Min(PieLevels, |levels|));
  }

  /** A side's total is the last point of the depth chart's curve for that side. */
  lemma TotalIsDepthCurveEnd(levels: seq<Level>)
    requires |levels| > 0
    ensures var curve := DepthChart.Series(Take(levels, DepthChart.DepthLevels));
      Total(levels) == curve[|curve| - 1].size
  {
    RunningTotalsLast(Sizes(Take(levels, PieLevels)));
  }
}
