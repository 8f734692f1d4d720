# BTC dashboard computations in Dafny

This project models the computations inside a React dashboard for the
BTC-USD market. The dashboard fetches an order book, a ticker and five-minute
candles from the exchange, then draws them. Its own logic is a handful of
small passes over order-book levels and candles:

- **Buy calculator.** It estimates what buying a quantity of BTC costs. It
  walks the asks best price first. It takes whole levels until one level can
  absorb what is left. It reports a cost, or that the book is too thin.
- **Depth chart.** It builds cumulative-size curves over the first 30 bids
  and the first 30 asks, and finds the values that fix the axes.
- **Price ladder.** It shows the first `levels` rows of each side (15 by
  default). Each row has a size and a running total, and the best price of
  each side is highlighted.
- **Bids/asks pie.** It shows the total size of the first 30 levels of each
  side as two slices.
- **Main page.** It turns candles into a time-sorted price history, formats
  the `HH:mm:ss` snapshot label, and decides between nothing, a loading
  spinner and the dashboard.

Prices and sizes are exact `real`s. Levels arrive with their decimal strings
already parsed. The running total that three components compute separately
is defined once, in `PrefixSums`, and lemmas tie the components to each
other. For example, a pie total is the last point of the depth curve for the
same side.

Module layout:

- `prefix_sums.dfy` (`PrefixSums`): partial sums and running totals.
- `orderbook.dfy` (`OrderBook`): levels, books, order predicates and `slice(0, n)`.
- `buy_calculator.dfy` (`BuyCalculator`): the submit handler, its loop, the closed form and the label.
- `depth_chart.dfy` (`DepthChart`): the cumulative curves and axis extremes.
- `price_ladder.dfy` (`PriceLadder`): rows, best prices, flags and the table lines.
- `bids_asks_pie.dfy` (`BidsAsksPie`): side totals and the two-slice data.
- `main_page.dfy` (`MainPage`): candle history, the time label and render gating.

The calculator walks every ask level the book holds
(`src/components/BuyCalculator.tsx:17`). Unlike the depth chart, the ladder
and the pie, it does not slice the list first.

For example, asks (100, 0.5) and (101, 1.0) give 50 for 0.5 BTC and
0.5 × 100 + 0.5 × 101 = 100.5 for 1 BTC.

## Model

| member | source | states |
|---|---|---|
| PrefixSums.RunningTotalsRecurrence | src/components/OrderbookDepthChart.tsx:30-39 | The first running total is the first size, and each later total is the previous one plus that level's size. |
| PrefixSums.RunningTotalsNonDecreasing | src/components/OrderbookDepthChart.tsx:32-39 | With non-negative sizes, the running totals never decrease. |
| PrefixSums.RunningTotalsLast | src/components/BidsAsksPie.tsx:23-28 | The last running total equals the total of all sizes. |
| PrefixSums.RunningTotalsBounded | src/components/PriceLadder.tsx:13-34 | With non-negative sizes, every running total lies between 0 and the side's total. |
| OrderBook.Take | src/components/OrderbookDepthChart.tsx:24-29 | `slice(0, n)` keeps min(n, length) levels, each one unchanged and in input order. |
| BuyCalculator.FirstAbsorbing | src/components/BuyCalculator.tsx:17-23 | The stopping level is the first level whose size covers what remains after all earlier levels are taken whole. When no level does, it is the list length. |
| BuyCalculator.WalkAsks | src/components/BuyCalculator.tsx:15-29 | The loop equals the closed form `Quote`. After k whole levels, remaining is q minus their sizes and cost is the sum of their size × price. At the stop it adds remaining × price and breaks. A positive remainder at the end means Insufficient. |
| BuyCalculator.HandleCalculate | src/components/BuyCalculator.tsx:12-30 | With no book, a blank amount or a non-numeric amount, the previous result is returned unchanged. Any number, zero and negatives included, gets the walk's result. |
| BuyCalculator.Display | src/components/BuyCalculator.tsx:53-56 | An unset result shows nothing. Insufficient shows "Not enough asks in book". A cost shows an approximate amount carrying that cost. Each of these holds in both directions. |
| BuyCalculator.DisplayDistinguishes | src/components/BuyCalculator.tsx:53-56 | Different results give different labels, so an insufficient book is never shown as a number. |
| BuyCalculator.FirstAbsorbingUnique | src/components/BuyCalculator.tsx:20-23 | Any level that absorbs the rest, with no earlier level doing so, is the level where the loop breaks. |
| BuyCalculator.QuoteAtStop | src/components/BuyCalculator.tsx:20-23 | A fill that stops at level k costs the whole levels before k plus (q − their sizes) × price of level k. |
| BuyCalculator.QuoteRunsOut | src/components/BuyCalculator.tsx:17-29 | When no level absorbs the rest, every level is taken whole. The result is Insufficient if something is left, and otherwise the cost of the whole book. |
| BuyCalculator.QuoteInsufficientIff | src/components/BuyCalculator.tsx:20-29 | With non-negative sizes, the result is Insufficient exactly when q exceeds the total ask size. |
| BuyCalculator.QuoteExactDepth | src/components/BuyCalculator.tsx:20-29 | A target equal to the total ask size still gets a cost. |
| BuyCalculator.QuoteZero | src/components/BuyCalculator.tsx:14-23 | A zero amount on a non-empty book costs 0. |
| BuyCalculator.QuoteIgnoresDeeperLevels | src/components/BuyCalculator.tsx:20-23 | Once a level absorbs the rest, appending further levels leaves the result unchanged. |
| BuyCalculator.QuoteBounds | src/components/BuyCalculator.tsx:17-27 | On an ascending, non-negative ladder, a filled cost lies between q × best ask and q × price of the stopping level. |
| BuyCalculator.QuoteExamples | src/components/BuyCalculator.tsx:17-29 | Asks (100, 0.5), (101, 1.0) give 50 for 0.5 and 100.5 for 1.0. A single ask (100, 0.5) gives Insufficient for 2. |
| DepthChart.Accumulate | src/components/OrderbookDepthChart.tsx:30-39 | The running-depth loop yields the curve `Series`: point i carries level i's price and the running total of sizes. |
| DepthChart.Least | src/components/OrderbookDepthChart.tsx:43 | The minimum is absent exactly for an empty sequence. Otherwise it is an element and bounds every element from below. |
| DepthChart.Greatest | src/components/OrderbookDepthChart.tsx:44 | The maximum is absent exactly for an empty sequence. Otherwise it is an element and bounds every element from above. |
| DepthChart.PrepareDepth | src/components/OrderbookDepthChart.tsx:13-51 | There is no result exactly when the book is missing or the chart is not mounted. Otherwise it returns both curves over the first 30 levels plus the x and y extremes. Each curve is a function of its own side alone. |
| DepthChart.SeriesOfSlice | src/components/OrderbookDepthChart.tsx:24-39 | Each curve has min(30, side length) points with prices in input order. Point i's size is the sum of the first i+1 sizes. |
| DepthChart.SeriesRecurrence | src/components/OrderbookDepthChart.tsx:30-39 | Depth starts at the first size and grows by each level's size. |
| DepthChart.SeriesNonDecreasing | src/components/OrderbookDepthChart.tsx:32-39 | With non-negative sizes, a curve never falls and ends at the side's total. |
| DepthChart.SeriesPeak | src/components/OrderbookDepthChart.tsx:32-39 | The largest depth of a non-empty curve is its last point, the side's total. |
| DepthChart.DepthTop | src/components/OrderbookDepthChart.tsx:47-52 | The y-domain top, before the display margin, is the larger of the two side totals. When one side is empty, it is the other side's total. |
| DepthChart.BothSidesTop | src/components/OrderbookDepthChart.tsx:47-52 | With both sides non-empty, the y-domain top is the larger of the two side totals. |
| DepthChart.DepthDomain | src/components/OrderbookDepthChart.tsx:40-46 | With bids descending and asks ascending, the x-domain runs from the last drawn bid price to the last drawn ask price. |
| PriceLadder.Side | src/components/PriceLadder.tsx:15-34 | The slice-and-accumulate loop yields `Rows` of the first n levels. |
| PriceLadder.PriceAt | src/components/PriceLadder.tsx:53-54 | `rows[i]?.price` is present exactly when i is within the side, and it is that row's price. |
| PriceLadder.Best | src/components/PriceLadder.tsx:37-38 | The best price is present exactly for a non-empty side, and it is the first row's price. |
| PriceLadder.CellAt | src/components/PriceLadder.tsx:57-79 | A cell is filled exactly when the side has row i. A filled cell carries that row's size and price, and it is highlighted exactly when its price equals the first row's price. |
| PriceLadder.Lines | src/components/PriceLadder.tsx:52-83 | Exactly n table lines are produced. Line i shows a side's row i exactly when that side has one. |
| PriceLadder.PrepareLadder | src/components/PriceLadder.tsx:9-83 | A missing book gives nothing. Otherwise both sides are cut to `levels` (15 when unset) and the table is built from them. |
| PriceLadder.RowsOfSlice | src/components/PriceLadder.tsx:15-34 | A side keeps at most `levels` rows in input order. Each row keeps its own price and size, and `cum` is the sum of sizes 0..i. |
| PriceLadder.CumRecurrence | src/components/PriceLadder.tsx:17-33 | `cum[0]` is `size[0]`, and `cum[i]` is `cum[i−1] + size[i]`. |
| PriceLadder.FlagIff | src/components/PriceLadder.tsx:53-54 | A present row is flagged best exactly when its price equals the first row's price. |
| PriceLadder.OnlyFirstFlagged | src/components/PriceLadder.tsx:37-54 | With distinct prices, only row 0 of a side is flagged. |
| PriceLadder.AgreesWithDepthChart | src/components/PriceLadder.tsx:13-34 | On the levels both draw, the ladder's `cum` equals the depth chart's running depth. |
| BidsAsksPie.FoldIsSum | src/components/BidsAsksPie.tsx:23-28 | The `reduce` fold adds exactly the sizes of the levels to its seed. |
| BidsAsksPie.Total | src/components/BidsAsksPie.tsx:23-28 | A side's total is the sum of the sizes of its first 30 levels, and 0 for an empty side. |
| BidsAsksPie.PieData | src/components/BidsAsksPie.tsx:14-32 | There is no data exactly when the book is missing or the chart is not mounted. Otherwise there are exactly two slices: "Bids" with the bid total first, then "Asks" with the ask total, with their colours. |
| BidsAsksPie.TotalIgnoresPrices | src/components/BidsAsksPie.tsx:23-28 | Two sides with the same sizes have the same total, whatever their prices. |
| BidsAsksPie.TotalIgnoresDeeperLevels | src/components/BidsAsksPie.tsx:23-28 | Levels beyond the 30th never change a total. |
| BidsAsksPie.TotalNonNegative | src/components/BidsAsksPie.tsx:23-28 | With non-negative sizes, a total is non-negative. |
| BidsAsksPie.TotalIsDepthCurveEnd | src/components/BidsAsksPie.tsx:23-28 | A non-empty side's total is the last point of the depth chart's curve for that side. |
| MainPage.MapCandles | src/pages/MainPage.tsx:63-64 | There is one point per candle: time is the candle time × 1000 and price is the close. |
| MainPage.Insert | src/pages/MainPage.tsx:65-70 | Inserting adds exactly one point, and keeps all the others. |
| MainPage.InsertSorted | src/pages/MainPage.tsx:65-70 | Inserting into a time-sorted history keeps it sorted. |
| MainPage.SortByTime | src/pages/MainPage.tsx:65-70 | The result is sorted by non-decreasing time and is a permutation of the input. |
| MainPage.PriceHistory | src/pages/MainPage.tsx:62-71 | The stored history has one point per candle, is sorted by time, and is a permutation of the mapped candles. |
| MainPage.InsertKeepsOrder | src/pages/MainPage.tsx:65-70 | An inserted point goes ahead of the points with an equal time, and the order among those points is unchanged. |
| MainPage.SortIsStable | src/pages/MainPage.tsx:65-70 | Points with equal times keep their input order. |
| MainPage.SortKeepsSorted | src/pages/MainPage.tsx:65-70 | A history already in time order comes out unchanged. |
| MainPage.SortIdempotent | src/pages/MainPage.tsx:65-70 | Sorting twice is the same as sorting once. |
| MainPage.DecimalString | src/pages/MainPage.tsx:113 | `n.toString()` is one or more decimal digits with no leading zero, and it is a single digit exactly when n < 10. |
| MainPage.DecimalRoundTrip | src/pages/MainPage.tsx:113 | Reading the decimal string back gives n. |
| MainPage.PadStart | src/pages/MainPage.tsx:113 | `padStart` reaches the width, ends with the original string, and puts only fill characters before it. |
| MainPage.Pad | src/pages/MainPage.tsx:113 | For n ≤ 9, `pad(n)` is "0" followed by the digit. For n ≥ 10, it is the plain decimal string. Either way it has at least two characters. |
| MainPage.PadRoundTrip | src/pages/MainPage.tsx:113 | The padded string reads back as n. |
| MainPage.PadTwoDigits | src/pages/MainPage.tsx:113-116 | Below 100, the padded string has exactly two characters. |
| MainPage.TimeStringLayout | src/pages/MainPage.tsx:114-116 | For h < 24, m < 60 and s < 60, the label has eight characters with ':' at positions 2 and 5, and each two-digit field reads back as its number. |
| MainPage.Render | src/pages/MainPage.tsx:76-125 | A non-empty error shows nothing. Otherwise the spinner shows exactly when the book or the ticker is missing or the history is empty, and the dashboard shows, with the snapshot label, exactly when all three are present. |
| MainPage.ErrorTakesPrecedence | src/pages/MainPage.tsx:76 | An error hides the page whatever else has arrived. |

## Left out

- The network fetches, response status checks and promise chains (`src/pages/MainPage.tsx:31-74`) are I/O against the exchange. The received book, ticker, stored price history and error message are parameters of `MainPage.Render`. The history passed in is the one `MainPage.PriceHistory` produces from the candles.
- React state and effects are left out. `setUsdCost` becomes `HandleCalculate`'s return value, with the displayed result passed in as `previous`. The effects of the two charts become `PrepareDepth` and `PieData`, and a `mounted` flag stands for `ref.current`.
- `parseFloat`, `Number` and `isNaN` are not modelled. Levels arrive as parsed reals. The amount field arrives already classified as blank, non-numeric or a number. The input is of type number, so inputs where `Number` and `parseFloat` disagree, such as whitespace-only text, are outside the model.
- IEEE-754 rounding is not modelled, because all arithmetic is on exact reals.
- The depth chart's 1.05 factor on the y top, its margins and its pixel ranges are display scaling. `Depth.yHigh` is the largest depth before that factor.
- D3 drawing is left out: scales, paths, areas, axes, pie arcs and labels (`src/components/OrderbookDepthChart.tsx:40-92`, `src/components/BidsAsksPie.tsx:15-22, 33-62`). Only the data these are drawn from is modelled.
- `toLocaleString` is locale-dependent, so the formatting of the calculator label, the ladder cells and the ticker header is left out. The label and the cells carry the exact numbers.
- The wall clock (`new Date()`) is left out. Hours, minutes and seconds are parameters of `TimeString` and `Render`.
- The ladder's CSS class strings are left out. A cell keeps only whether it is filled and whether it is highlighted.
- PriceLadder.PrepareLadder: `levels` is a natural number. A negative or fractional `levels` prop is outside the model.
- Candles are records with named fields. A candle array shorter than five entries, which would give `undefined` fields, is outside the model.
- The browser's `min='0.0001'` validation and the disabled submit button (`src/components/BuyCalculator.tsx:38, 49`) are form behaviour outside the handler. The model covers the guard on line 14 only.
- The third field of each level (the order count) is never read, so it is not modelled.
- `src/components/TopBidsAsksTable.tsx` is not part of this model: it only slices three levels and renders them.
- `src/components/RecentTradesFeed.tsx` is not part of this model: it only maps trade sides to colours and formats values.
- `src/components/PriceChart.tsx` is not part of this model: it is drawing only.
- `src/pages/StartScreen.tsx` is not part of this model: it is animation only.
- `src/App.tsx` is not part of this model: it is routing only.
- `src/types/TradeType.ts` is not part of this model: it is a type declaration only.
