/** The order book snapshot shared by every component: two ladders of
    price levels whose decimal strings have already been parsed. */
module OrderBook {
  import opened PrefixSums

  datatype Option<T> = None | Some(value: T)

  /** One price level. The exchange's third field (number of orders) is never read. */
  datatype Level = Level(price: real, size: real)

  /** Bids best (highest) price first, asks best (lowest) price first. */
  datatype Book = Book(bids: seq<Level>, asks: seq<Level>)

  function Min(a: nat, b: nat): nat
  {
    if a <= b then a else b
  }

  /** `levels.slice(0, n)`: the first n levels, or all of them when there are fewer. */
  function Take(levels: seq<Level>, n: nat): (r: seq<Level>)
    ensures |r| == Min(n, |levels|)
    ensures forall i :: 0 <= i < |r| ==> r[i] == levels[i]
  {
    levels[..Min(n, |levels|)]
  }

  /** The size column of a ladder. */
  function Sizes(levels: seq<Level>): (r: seq<real>)
    ensures |r| == |levels|
    ensures forall i :: 0 <= i < |r| ==> r[i] == levels[i].size
  {
    seq(|levels|, i requires 0 <= i < |levels| => levels[i].size)
  }

  predicate NonNegative(levels: seq<Level>)
  {
    forall i :: 0 <= i < |levels| ==> levels[i].price >= 0.0 && levels[i].size >= 0.0
  }

  predicate Ascending(levels: seq<Level>)
  {
    forall i, j :: 0 <= i <= j < |levels| ==> levels[i].price <= levels[j].price
  }

  predicate Descending(levels: seq<Level>)
  {
    forall i, j :: 0 <= i <= j < |levels| ==> levels[i].price >= levels[j].price
  }

  predicate DistinctPrices(levels: seq<Level>)
  {
    forall i, j :: 0 <= i < j < |levels| ==> levels[i].price != levels[j].price
  }

  lemma SizesNonNegative(levels: seq<Level>)
    requires NonNegative(levels)
    ensures AllNonNegative(Sizes(levels))
  {
  }

  /** A prefix keeps the order and the sign of the levels it keeps. */
  lemma TakeKeeps(levels: seq<Level>, n: nat)
    ensures NonNegative(levels) ==> NonNegative(Take(levels, n))
    ensures Ascending(levels) ==> Ascending(Take(levels, n))
    ensures Descending(levels) ==> Descending(Take(levels, n))
  {
  }
}
