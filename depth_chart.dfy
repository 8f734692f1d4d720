/** The depth chart's data preparation: the first 30 levels of each side,
    turned into cumulative-size curves, and the extremes that set the axes. */
module DepthChart {
  import opened PrefixSums
  import opened OrderBook

  /** Levels per side the chart draws. */
  const DepthLevels: nat := 30

  /** One point of a cumulative curve: a level's price and the total size up to it. */
  datatype Point = Point(price: real, size: real)

  /** Both curves and the data-driven ends of the axes. The y top is the
      largest cumulative size before the chart's display margin is applied. */
  datatype Depth = Depth(bids: seq<Point>, asks: seq<Point>, xLow: Option<real>, xHigh: Option<real>, yHigh: Option<real>)

  /** The cumulative curve of a side, level by level in list order. */
  function Series(levels: seq<Level>): (r: seq<Point>)
    ensures |r| == |levels|
  {
    seq(|levels|, i requires 0 <= i < |levels| => Point(levels[i].price, RunningTotals(Sizes(levels))[i]))
  }

  function Prices(ps: seq<Point>): (r: seq<real>)
    ensures |r| == |ps|
    ensures forall i :: 0 <= i < |ps| ==> r[i] == ps[i].price
  {
    seq(|ps|, i requires 0 <= i < |ps| => ps[i].price)
  }

  function Depths(ps: seq<Point>): (r: seq<real>)
    ensures |r| == |ps|
    ensures forall i :: 0 <= i < |ps| ==> r[i] == ps[i].size
  {
    seq(|ps|, i requires 0 <= i < |ps| => ps[i].size)
  }

  /** The smallest element, absent for an empty sequence. */
  function Least(xs: seq<real>): (r: Option<real>)
    ensures r.Some? <==> |xs| > 0
    ensures r.Some? ==> exists i :: 0 <= i < |xs| && xs[i] == r.value
    ensures r.Some? ==> forall i :: 0 <= i < |xs| ==> r.value <= xs[i]
  {
    if |xs| == 0 then None
    else match Least(xs[1..])
      case None => Some(xs[0])
      case Some(m) => Some(if xs[0] <= m then xs[0] else m)
  }

  /** The largest element, absent for an empty sequence. */
  function Greatest(xs: seq<real>): (r: Option<real>)
    ensures r.Some? <==> |xs| > 0
    ensures r.Some? ==> exists i :: 0 <= i < |xs| && xs[i] == r.value
    ensures r.Some? ==> forall i :: 0 <= i < |xs| ==> xs[i] <= r.value
  {
    if |xs| == 0 then None
    else match Greatest(xs[1..])
      case None => Some(xs[0])
      case Some(m) => Some(if xs[0] >= m then xs[0] else m)
  }

  /** The running-total loop of one side. */
  method Accumulate(levels: seq<Level>) returns (series: seq<Point>)
    ensures series == Series(levels)
  {
    var depth := 0.0;
    series := [];
    for k := 0 to |levels|
      invariant |series| == k
      invariant depth == SumTo(Sizes(levels), k)
      invariant forall i :: 0 <= i < k ==> series[i] == Series(levels)[i]
    {
      depth := depth + levels[k].size;
      series := series + [Point(levels[k].price, depth)];
    }
  }

  /** The chart's effect body: nothing when the book is missing or the chart
      is not mounted, otherwise both curves and the axis ends. */
  method PrepareDepth(book: Option<Book>, mounted: bool) returns (d: Option<Depth>)
    ensures d.None? <==> book.None? || !mounted
    ensures d.Some? ==>
      var bids, asks := Series(Take(book.value.bids, DepthLevels)), Series(Take(book.value.asks, DepthLevels));
      d.value == Depth(bids, asks, Least(Prices(bids)), Greatest(Prices(asks)), Greatest(Depths(bids + asks)))
  {
    if book.None? || !mounted {
      return None;
    }
    var bids := Accumulate(Take(book.value.bids, DepthLevels));
    var asks := Accumulate(Take(book.value.asks, DepthLevels));
    d := Some(Depth(bids, asks, Least(Prices(bids)), Greatest(Prices(asks)), Greatest(Depths(bids + asks))));
  }

  /** Each curve keeps the first min(30, n) prices in input order, and point i
      carries the total size of levels 0 .. i. */
  lemma SeriesOfSlice(levels: seq<Level>)
    ensures |Series(Take(levels, DepthLevels))| == Min(DepthLevels, |levels|)
    ensures forall i :: 0 <= i < |Series(Take(levels, DepthLevels))| ==>
      Series(Take(levels, DepthLevels))[i] == Point(levels[i].price, SumTo(Sizes(levels), i + 1))
  {
    var front := Take(levels, DepthLevels);
    forall i | 0 <= i < |front|
      ensures Series(front)[i] == Point(levels[i].price, SumTo(Sizes(levels), i + 1))
    {
      SumToAgree(Sizes(front), Sizes(levels), i + 1);
    }
  }

  /** The curve starts at the first level's size and grows by each level's size. */
  lemma SeriesRecurrence(levels: seq<Level>)
    ensures |levels| > 0 ==> Series(levels)[0].size == levels[0].size
    ensures forall i :: 0 < i < |levels| ==> Series(levels)[i].size == Series(levels)[i - 1].size + levels[i].size
  {
    RunningTotalsRecurrence(Sizes(levels));
  }

  /** With non-negative sizes the curve never falls and ends at the side's total. */
  lemma SeriesNonDecreasing(levels: seq<Level>)
    requires AllNonNegative(Sizes(levels))
    ensures forall i, j :: 0 <= i <= j < |levels| ==> Series(levels)[i].size <= Series(levels)[j].size
    ensures |levels| > 0 ==> Series(levels)[|levels| - 1].size == Sum(Sizes(levels))
  {
    RunningTotalsNonDecreasing(Sizes(levels));
  }

  /** The largest cumulative size of a non-empty side is its last point. */
  lemma SeriesPeak(levels: seq<Level>)
    requires AllNonNegative(Sizes(levels))
    requires |levels| > 0
    ensures Greatest(Depths(Series(levels))) == Some(Sum(Sizes(levels)))
  {
    SeriesNonDecreasing(levels);
    var xs := Depths(Series(levels));
    assert xs[|levels| - 1] == Sum(Sizes(levels));
    GreatestIs(xs, |levels| - 1);
  }

  /** An element that bounds all others is the greatest. */
  lemma GreatestIs(xs: seq<real>, k: nat)
    requires k < |xs|
    requires forall i :: 0 <= i < |xs| ==> xs[i] <= xs[k]
    ensures Greatest(xs) == Some(xs[k])
  {
  }

  /** An element that bounds all others from below is the least. */
  lemma LeastIs(xs: seq<real>, k: nat)
    requires k < |xs|
    requires forall i :: 0 <= i < |xs| ==> xs[k] <= xs[i]
    ensures Least(xs) == Some(xs[k])
  {
  }

  /** The y-axis top is the larger of the two side totals; with one side
      empty it is the other side's total. */
  lemma DepthTop(bids: seq<Level>, asks: seq<Level>)
    requires AllNonNegative(Sizes(bids)) && AllNonNegative(Sizes(asks))
    requires |bids| + |asks| > 0
    ensures Greatest(Depths(Series(bids) + Series(asks))) == Some(if Sum(Sizes(bids)) >= Sum(Sizes(asks)) then Sum(Sizes(bids)) else Sum(Sizes(asks)))
  {
    if |bids| == 0 {
      assert Series(bids) + Series(asks) == Series(asks);
      SumToNonNegative(Sizes(asks), |asks|);
      SeriesPeak(asks);
    } else if |asks| == 0 {
      assert Series(bids) + Series(asks) == Series(bids);
      SumToNonNegative(Sizes(bids), |bids|);
      SeriesPeak(bids);
    } else {
      BothSidesTop(bids, asks);
    }
  }

  /** The y-axis top when both sides have levels. */
  lemma BothSidesTop(bids: seq<Level>, asks: seq<Level>)
    requires AllNonNegative(Sizes(bids)) && AllNonNegative(Sizes(asks))
    requires |bids| > 0 && |asks| > 0
    ensures Greatest(Depths(Series(bids) + Series(asks))) == Some(if Sum(Sizes(bids)) >= Sum(Sizes(asks)) then Sum(Sizes(bids)) else Sum(Sizes(asks)))
  {
    SeriesNonDecreasing(bids);
    SeriesNonDecreasing(asks);
    var both := Series(bids) + Series(asks);
    var xs := Depths(both);
    var k := if Sum(Sizes(bids)) >= Sum(Sizes(asks)) then |bids| - 1 else |bids| + |asks| - 1;
    forall i | 0 <= i < |xs|
      ensures xs[i] <= xs[k]
    {
      if i < |bids| {
        assert xs[i] == Series(bids)[i].size;
      } else {
        assert xs[i] == Series(asks)[i - |bids|].size;
      }
    }
    GreatestIs(xs, k);
  }

  /** With bids best-first (descending) and asks best-first (ascending), the
      x-axis runs from the deepest drawn bid to the deepest drawn ask. */
  lemma DepthDomain(book: Book)
    requires Descending(book.bids) && Ascending(book.asks)
    requires |book.bids| > 0 && |book.asks| > 0
    ensures Least(Prices(Series(Take(book.bids, DepthLevels)))) == Some(book.bids[Min(DepthLevels, |book.bids|) - 1].price)
    ensures Greatest(Prices(Series(Take(book.asks, DepthLevels)))) == Some(book.asks[Min(DepthLevels, |book.asks|) - 1].price)
  {
    var bs := Prices(Series(Take(book.bids, DepthLevels)));
    var ks := Prices(Series(Take(book.asks, DepthLevels)));
    LeastIs(bs, |bs| - 1);
    GreatestIs(ks, |ks| - 1);
  }
}
