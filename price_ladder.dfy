/** The price ladder: the first `levels` bids and asks side by side, each row
    with its size and the running total of sizes, the best price of each side
    highlighted. */
module PriceLadder {
  import opened PrefixSums
  import opened OrderBook
  import DepthChart

  /** Rows shown when the caller passes no `levels`. */
  const DefaultLevels: nat := 15

  /** One prepared level: its price, its size and the total size from the best level down to it. */
  datatype Row = Row(price: real, size: real, cum: real)

  /** One side of a table line: empty past the end of the side, otherwise the
      level's size and price and whether it carries the best-price highlight. */
  datatype Cell = Empty | Filled(size: real, price: real, best: bool)

  datatype Line = Line(bid: Cell, ask: Cell)

  /** The prepared sides and the table lines drawn from them. */
  datatype Ladder = Ladder(bids: seq<Row>, asks: seq<Row>, lines: seq<Line>)

  /** The rows of a side, in list order, with running totals. */
  function Rows(levels: seq<Level>): (r: seq<Row>)
    ensures |r| == |levels|
  {
    seq(|levels|, i requires 0 <= i < |levels| => Row(levels[i].price, levels[i].size, RunningTotals(Sizes(levels))[i]))
  }

  /** The slice-and-accumulate pass over one side. */
  method Side(levels: seq<Level>, n: nat) returns (rows: seq<Row>)
    ensures rows == Rows(Take(levels, n))
  {
    var front := Take(levels, n);
    var cum := 0.0;
    rows := [];
    for k := 0 to |front|
      invariant |rows| == k
      invariant cum == SumTo(Sizes(front), k)
      invariant forall i :: 0 <= i < k ==> rows[i] == Rows(front)[i]
    {
      cum := cum + front[k].size;
      rows := rows + [Row(front[k].price, front[k].size, cum)];
    }
  }

  /** `rows[i]?.price`: the price of row i, absent past the end. */
  function PriceAt(rows: seq<Row>, i: nat): (r: Option<real>)
    ensures r.Some? <==> i < |rows|
    ensures r.Some? ==> r.value == rows[i].price
  {
    if i < |rows| then Some(rows[i].price) else None
  }

  /** The best price of a side is the price of its first row; an empty side has none. */
  function Best(rows: seq<Row>): (r: Option<real>)
    ensures r.Some? <==> |rows| > 0
    ensures r.Some? ==> r.value == rows[0].price
  {
    PriceAt(rows, 0)
  }

  /** The highlight test: the row's optional price equals the optional best price. */
  predicate IsBest(rows: seq<Row>, i: nat)
  {
    PriceAt(rows, i) == Best(rows)
  }

  function CellAt(rows: seq<Row>, i: nat): (c: Cell)
    ensures c.Filled? <==> i < |rows|
    ensures c.Filled? ==> c.size == rows[i].size && c.price == rows[i].price && (c.best <==> rows[i].price == rows[0].price)
  {
    if i < |rows| then Filled(rows[i].size, rows[i].price, IsBest(rows, i)) else Empty
  }

  /** Exactly n lines; line i shows a side's row i iff that side has one. */
  function Lines(bids: seq<Row>, asks: seq<Row>, n: nat): (t: seq<Line>)
    ensures |t| == n
    ensures forall i :: 0 <= i < n ==> (t[i].bid.Filled? <==> i < |bids|) && (t[i].ask.Filled? <==> i < |asks|)
    ensures forall i :: 0 <= i < n ==> t[i] == Line(CellAt(bids, i), CellAt(asks, i))
  {
    seq(n, i requires 0 <= i < n => Line(CellAt(bids, i), CellAt(asks, i)))
  }

  /** The component's preparation: nothing for a missing book, otherwise both
      sides cut to `levels` (15 when not given) and the table built from them. */
  method PrepareLadder(book: Option<Book>, levels: Option<nat>) returns (l: Option<Ladder>)
    ensures book.None? <==> l.None?
    ensures l.Some? ==>
      var n := if levels.Some? then levels.value else DefaultLevels;
      var bids, asks := Rows(Take(book.value.bids, n)), Rows(Take(book.value.asks, n));
      l.value == Ladder(bids, asks, Lines(bids, asks, n))
  {
    if book.None? {
      return None;
    }
    var n := if levels.Some? then levels.value else DefaultLevels;
    var bids := Side(book.value.bids, n);
    var asks := Side(book.value.asks, n);
    l := Some(Ladder(bids, asks, Lines(bids, asks, n)));
  }

  /** A side keeps at most n rows, in input order, each with its own price
      and size and the total of the sizes up to and including it. */
  lemma RowsOfSlice(levels: seq<Level>, n: nat)
    ensures |Rows(Take(levels, n))| == Min(n, |levels|) <= n
    ensures forall i :: 0 <= i < |Rows(Take(levels, n))| ==>
      Rows(Take(levels, n))[i] == Row(levels[i].price, levels[i].size, SumTo(Sizes(levels), i + 1))
  {
    var front := Take(levels, n);
    forall i | 0 <= i < |front|
      ensures Rows(front)[i] == Row(levels[i].price, levels[i].size, SumTo(Sizes(levels), i + 1))
    {
      SumToAgree(Sizes(front), Sizes(levels), i + 1);
    }
  }

  /** The first running total is the first size; each later one adds its own size. */
  lemma CumRecurrence(levels: seq<Level>)
    ensures |levels| > 0 ==> Rows(levels)[0].cum == levels[0].size
    ensures forall i :: 0 < i < |levels| ==> Rows(levels)[i].cum == Rows(levels)[i - 1].cum + levels[i].size
  {
    RunningTotalsRecurrence(Sizes(levels));
  }

  /** A present row is flagged best iff its price equals the first row's price. */
  lemma FlagIff(rows: seq<Row>, i: nat)
    requires i < |rows|
    ensures IsBest(rows, i) <==> rows[i].price == rows[0].price
  {
  }

  /** With distinct prices on a side, only its first row is flagged. */
  lemma OnlyFirstFlagged(levels: seq<Level>, n: nat)
    requires DistinctPrices(levels)
    ensures forall i :: 0 <= i < |Rows(Take(levels, n))| ==> (IsBest(Rows(Take(levels, n)), i) <==> i == 0)
  {
    var rows := Rows(Take(levels, n));
    forall i | 0 <= i < |rows|
      ensures IsBest(rows, i) <==> i == 0
    {
      assert rows[i].price == levels[i].price && rows[0].price == levels[0].price;
    }
  }

  /** The ladder's running totals agree with the depth chart's curve on the
      levels both of them draw. */
  lemma AgreesWithDepthChart(levels: seq<Level>, n: nat)
    ensures forall i :: 0 <= i < |Rows(Take(levels, n))| && i < |DepthChart.Series(Take(levels, DepthChart.DepthLevels))| ==>
      Rows(Take(levels, n))[i].cum == DepthChart.Series(Take(levels, DepthChart.DepthLevels))[i].size
  {
    RowsOfSlice(levels, n);
    DepthChart.SeriesOfSlice(levels);
  }
}
