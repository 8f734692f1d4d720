/** The buy-cost estimator: walks the ask ladder in list order, taking whole
    levels until one can absorb what is left of the target quantity. */
module BuyCalculator {
  import opened PrefixSums
  import opened OrderBook

  /** The calculator's result state: nothing computed yet, not enough asks,
      or a cost in quote currency. The component encodes these as null, NaN
      and a number. */
  datatype Outcome = NotRun | Insufficient | Cost(usd: real)

  /** The amount text field as the guard sees it: empty, text that does not
      read as a number, or a number (zero and negative values included). */
  datatype Amount = Blank | NotANumber | Number(btc: real)

  /** What the label beside the button shows. */
  datatype Shown = Nothing | Message(text: string) | Approx(usd: real)

  const NotEnoughAsks: string := "Not enough asks in book"

  /** size × price of each level. */
  function Notionals(levels: seq<Level>): (r: seq<real>)
    ensures |r| == |levels|
    ensures forall i :: 0 <= i < |r| ==> r[i] == levels[i].size * levels[i].price
  {
    seq(|levels|, i requires 0 <= i < |levels| => levels[i].size * levels[i].price)
  }

  /** What is still to buy once levels 0 .. j-1 have been taken whole. */
  function Remaining(asks: seq<Level>, q: real, j: nat): real
    requires j <= |asks|
  {
    q - SumTo(Sizes(asks), j)
  }

  /** What levels 0 .. j-1 cost when taken whole. */
  function Paid(asks: seq<Level>, j: nat): real
    requires j <= |asks|
  {
    SumTo(Notionals(asks), j)
  }

  /** Level j can absorb everything that is left when it is reached. */
  predicate Absorbs(asks: seq<Level>, q: real, j: nat)
  {
    j < |asks| && Remaining(asks, q, j) <= asks[j].size
  }

  /** The first level at or after `from` that absorbs the rest, or |asks| if none does. */
  function FirstAbsorbing(asks: seq<Level>, q: real, from: nat): (r: nat)
    requires from <= |asks|
    ensures from <= r <= |asks|
    ensures r < |asks| ==> Absorbs(asks, q, r)
    ensures forall j :: from <= j < r ==> !Absorbs(asks, q, j)
    decreases |asks| - from
  {
    if from == |asks| || Absorbs(asks, q, from) then from
    else FirstAbsorbing(asks, q, from + 1)
  }

  /** The closed form of the walk: the whole levels before the stopping level,
      plus what remains at the stopping level's price; Insufficient when no
      level stops the walk and something is still left. */
  function Quote(asks: seq<Level>, q: real): (r: Outcome)
    ensures r != NotRun
  {
    var i := FirstAbsorbing(asks, q, 0);
    if i < |asks| then Cost(Paid(asks, i) + Remaining(asks, q, i) * asks[i].price)
    else if Remaining(asks, q, |asks|) > 0.0 then Insufficient
    else Cost(Paid(asks, |asks|))
  }

  /** The loop of the submit handler. */
  method WalkAsks(asks: seq<Level>, q: real) returns (outcome: Outcome)
    ensures outcome == Quote(asks, q)
  {
    var remaining := q;
    var cost := 0.0;
    var k := 0;
    while k < |asks|
      invariant 0 <= k <= |asks|
      invariant remaining == Remaining(asks, q, k)
      invariant cost == Paid(asks, k)
      invariant forall j :: 0 <= j < k ==> !Absorbs(asks, q, j)
    {
      var askSize := asks[k].size;
      var askPrice := asks[k].price;
      if remaining <= askSize {
        QuoteAtStop(asks, q, k, remaining, askPrice);
        cost := cost + remaining * askPrice;
        remaining := 0.0;
        assert Quote(asks, q) == Cost(cost);
        break;
      }
      cost := cost + askSize * askPrice;
      remaining := remaining - askSize;
      k := k + 1;
    }
    if k == |asks| {
      QuoteRunsOut(asks, q);
    }
    outcome := if remaining > 0.0 then Insufficient else Cost(cost);
  }

  /** The guard at the top of the handler: a book is loaded and the amount is a number. */
  predicate Proceeds(book: Option<Book>, amount: Amount)
  {
    book.Some? && amount.Number?
  }

  /** The submit handler. `previous` is the result currently on display; when
      the guard fails it is returned untouched. */
  method HandleCalculate(book: Option<Book>, amount: Amount, previous: Outcome) returns (result: Outcome)
    ensures !Proceeds(book, amount) ==> result == previous
    ensures Proceeds(book, amount) ==> result == Quote(book.value.asks, amount.btc)
  {
    if book.None? || amount.Blank? || amount.NotANumber? {
      return previous;
    }
    result := WalkAsks(book.value.asks, amount.btc);
  }

  /** The label: nothing while unset, a fixed message when the book is too
      thin, an approximate dollar amount otherwise. */
  function Display(o: Outcome): (d: Shown)
    ensures d.Nothing? <==> o.NotRun?
    ensures d.Message? <==> o.Insufficient?
    ensures d.Approx? <==> o.Cost?
    ensures d.Message? ==> d.text == NotEnoughAsks
    ensures d.Approx? ==> d.usd == o.usd
  {
    match o
    case NotRun => Nothing
    case Insufficient => Message(NotEnoughAsks)
    case Cost(c) => Approx(c)
  }

  /** Different results never show the same label: in particular an
      insufficient book is never shown as a number. */
  lemma DisplayDistinguishes(a: Outcome, b: Outcome)
    requires Display(a) == Display(b)
    ensures a == b
  {
  }

  /** The stopping level is unique: any level that absorbs with none before it is the first. */
  lemma FirstAbsorbingUnique(asks: seq<Level>, q: real, i: nat)
    requires Absorbs(asks, q, i)
    requires forall j :: 0 <= j < i ==> !Absorbs(asks, q, j)
    ensures FirstAbsorbing(asks, q, 0) == i
  {
  }

  /** When no level absorbs the rest, every level is taken whole and the
      result depends only on what is left at the end. */
  lemma QuoteRunsOut(asks: seq<Level>, q: real)
    requires forall j :: 0 <= j < |asks| ==> !Absorbs(asks, q, j)
    ensures Quote(asks, q) == if Remaining(asks, q, |asks|) > 0.0 then Insufficient else Cost(Paid(asks, |asks|))
  {
    assert FirstAbsorbing(asks, q, 0) == |asks|;
  }

  /** A fill that stops at level k costs the levels before it plus the rest
      at level k's price (the rest and the price are passed by name). */
  lemma QuoteAtStop(asks: seq<Level>, q: real, k: nat, rest: real, price: real)
    requires Absorbs(asks, q, k)
    requires forall j :: 0 <= j < k ==> !Absorbs(asks, q, j)
    requires rest == Remaining(asks, q, k) && price == asks[k].price
    ensures Quote(asks, q) == Cost(Paid(asks, k) + rest * price)
  {
    FirstAbsorbingUnique(asks, q, k);
  }

  /** With non-negative sizes the book is insufficient exactly when the target
      exceeds the total ask size. */
  lemma QuoteInsufficientIff(asks: seq<Level>, q: real)
    requires AllNonNegative(Sizes(asks))
    ensures Quote(asks, q).Insufficient? <==> q > Sum(Sizes(asks))
  {
    var i := FirstAbsorbing(asks, q, 0);
    if i < |asks| {
      SumToMonotone(Sizes(asks), i + 1, |asks|);
    }
  }

  /** A target equal to the whole ask depth still gets a cost. */
  lemma QuoteExactDepth(asks: seq<Level>, q: real)
    requires AllNonNegative(Sizes(asks))
    requires q == Sum(Sizes(asks))
    ensures Quote(asks, q).Cost?
  {
    QuoteInsufficientIff(asks, q);
  }

  /** A zero amount passes the guard and costs nothing: the first level absorbs it. */
  lemma QuoteZero(asks: seq<Level>)
    requires |asks| > 0 && asks[0].size >= 0.0
    ensures Quote(asks, 0.0) == Cost(0.0)
  {
    QuoteAtStop(asks, 0.0, 0, 0.0, asks[0].price);
  }

  /** Appending deeper levels changes nothing about the first |asks| levels. */
  lemma LevelAgree(asks: seq<Level>, deeper: seq<Level>, q: real, j: nat)
    requires j <= |asks|
    ensures Remaining(asks + deeper, q, j) == Remaining(asks, q, j)
    ensures Paid(asks + deeper, j) == Paid(asks, j)
    ensures j < |asks| ==> (asks + deeper)[j] == asks[j]
    ensures j < |asks| ==> Absorbs(asks + deeper, q, j) == Absorbs(asks, q, j)
  {
    SumToAgree(Sizes(asks + deeper), Sizes(asks), j);
    SumToAgree(Notionals(asks + deeper), Notionals(asks), j);
  }

  /** Once a level absorbs the rest, levels further down the ladder do not matter. */
  lemma QuoteIgnoresDeeperLevels(asks: seq<Level>, q: real, deeper: seq<Level>)
    requires FirstAbsorbing(asks, q, 0) < |asks|
    ensures Quote(asks + deeper, q) == Quote(asks, q)
  {
    var i := FirstAbsorbing(asks, q, 0);
    forall j | 0 <= j <= i
      ensures Absorbs(asks + deeper, q, j) == Absorbs(asks, q, j)
    {
      LevelAgree(asks, deeper, q, j);
    }
    LevelAgree(asks, deeper, q, i);
    var rest, price := Remaining(asks, q, i), asks[i].price;
    QuoteAtStop(asks, q, i, rest, price);
    QuoteAtStop(asks + deeper, q, i, rest, price);
  }

  /** Scaling by a non-negative factor keeps the order. */
  lemma MulMonotone(a: real, b: real, c: real)
    requires a >= 0.0 && b <= c
    ensures a * b <= a * c
  {
  }

  /** One more quantity s bought at a price in [lo, hi] keeps the per-unit cost within [lo, hi]. */
  lemma AddBounds(taken: real, s: real, paid: real, p: real, lo: real, hi: real, total: real, paidAll: real)
    requires s >= 0.0 && lo <= p <= hi
    requires taken * lo <= paid <= taken * hi
    requires total == taken + s && paidAll == paid + s * p
    ensures total * lo <= paidAll <= total * hi
  {
    MulMonotone(s, lo, p);
    MulMonotone(s, p, hi);
    assert (taken + s) * lo == taken * lo + s * lo;
    assert (taken + s) * hi == taken * hi + s * hi;
  }

  /** Taking k levels whose prices lie in [lo, hi] costs between lo and hi
      per unit; `taken` and `paid` name the quantity and the cost of those levels. */
  lemma {:induction false} PaidBounds(levels: seq<Level>, k: nat, lo: real, hi: real, taken: real, paid: real)
    requires k <= |levels|
    requires forall j :: 0 <= j < k ==> levels[j].size >= 0.0 && lo <= levels[j].price <= hi
    requires taken == SumTo(Sizes(levels), k) && paid == Paid(levels, k)
    ensures taken * lo <= paid <= taken * hi
  {
    if k > 0 {
      var s, p := levels[k - 1].size, levels[k - 1].price;
      var taken0, paid0 := SumTo(Sizes(levels), k - 1), Paid(levels, k - 1);
      PaidBounds(levels, k - 1, lo, hi, taken0, paid0);
      assert paid == paid0 + s * p;
      AddBounds(taken0, s, paid0, p, lo, hi, taken, paid);
    }
  }

  /** What is left when the stopping level is reached is never negative for a non-negative target. */
  lemma RemainingAtStop(asks: seq<Level>, q: real)
    requires q >= 0.0
    requires FirstAbsorbing(asks, q, 0) < |asks|
    ensures Remaining(asks, q, FirstAbsorbing(asks, q, 0)) >= 0.0
  {
    var i := FirstAbsorbing(asks, q, 0);
    if i > 0 {
      assert !Absorbs(asks, q, i - 1);
    }
  }

  /** On an ascending ladder the whole levels before level i cost between the best price and level i's price per unit. */
  lemma AscendingPaidBounds(asks: seq<Level>, i: nat, lo: real, hi: real, taken: real, paid: real)
    requires NonNegative(asks) && Ascending(asks)
    requires i < |asks| && lo == asks[0].price && hi == asks[i].price
    requires taken == SumTo(Sizes(asks), i) && paid == Paid(asks, i)
    ensures taken * lo <= paid <= taken * hi
  {
    PaidBounds(asks, i, lo, hi, taken, paid);
  }

  /** Whole levels within [lo, hi] per unit plus the rest at hi keep the total within [lo, hi] per unit. */
  lemma CostBetween(q: real, taken: real, rest: real, paid: real, lo: real, hi: real, cost: real)
    requires q == taken + rest && rest >= 0.0 && lo <= hi
    requires taken * lo <= paid <= taken * hi
    requires cost == paid + rest * hi
    ensures q * lo <= cost <= q * hi
  {
    AddBounds(taken, rest, paid, hi, lo, hi, q, cost);
  }

  /** On an ascending ladder a filled quote costs at least q at the best ask
      and at most q at the price of the stopping level. */
  lemma QuoteBounds(asks: seq<Level>, q: real, best: real, stop: real)
    requires NonNegative(asks) && Ascending(asks)
    requires q >= 0.0
    requires FirstAbsorbing(asks, q, 0) < |asks|
    requires best == asks[0].price && stop == asks[FirstAbsorbing(asks, q, 0)].price
    ensures Quote(asks, q).Cost?
    ensures q * best <= Quote(asks, q).usd <= q * stop
  {
    var i := FirstAbsorbing(asks, q, 0);
    var taken, paid := SumTo(Sizes(asks), i), Paid(asks, i);
    AscendingPaidBounds(asks, i, best, stop, taken, paid);
    RemainingAtStop(asks, q);
    var rest := Remaining(asks, q, i);
    QuoteAtStop(asks, q, i, rest, stop);
    CostBetween(q, taken, rest, paid, best, stop, paid + rest * stop);
  }

  /** Two concrete quotes: 0.5 BTC from the first level costs 50, 1 BTC costs
      50 + 50.5, and a one-level book of 0.5 BTC cannot fill 2 BTC. */
  lemma QuoteExamples()
    ensures Quote([Level(100.0, 0.5), Level(101.0, 1.0)], 0.5) == Cost(50.0)
    ensures Quote([Level(100.0, 0.5), Level(101.0, 1.0)], 1.0) == Cost(100.5)
    ensures Quote([Level(100.0, 0.5)], 2.0) == Insufficient
  {
    var two := [Level(100.0, 0.5), Level(101.0, 1.0)];
    assert Absorbs(two, 0.5, 0);
    QuoteAtStop(two, 0.5, 0, 0.5, 100.0);
    assert !Absorbs(two, 1.0, 0);
    assert Absorbs(two, 1.0, 1);
    QuoteAtStop(two, 1.0, 1, 0.5, 101.0);
    var one := [Level(100.0, 0.5)];
    assert !Absorbs(one, 2.0, 0);
  }
}
