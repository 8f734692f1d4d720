/** The dashboard page's own data shaping: candles into a time-sorted price
    history, the HH:mm:ss snapshot label, and which screen the page shows. */
module MainPage {
  import opened OrderBook

  /** One exchange candle, `[time, low, high, open, close, volume]`, time in seconds. */
  datatype Candle = Candle(time: int, low: real, high: real, open: real, close: real, volume: real)

  /** One point of the price history, time in milliseconds. */
  datatype PricePoint = PricePoint(time: int, price: real)

  /** The ticker as received; the page only tests whether it has arrived. */
  datatype Ticker = Ticker(price: string, open: string, high: string, low: string, volume: string)

  // ---------------------------------------------------------------------
  // Candles to price history
  // ---------------------------------------------------------------------

  /** `map(d => ({time: d[0] * 1000, price: d[4]}))`. */
  function MapCandles(cs: seq<Candle>): (r: seq<PricePoint>)
    ensures |r| == |cs|
    ensures forall i :: 0 <= i < |cs| ==> r[i].time == cs[i].time * 1000 && r[i].price == cs[i].close
  {
    seq(|cs|, i requires 0 <= i < |cs| => PricePoint(cs[i].time * 1000, cs[i].close))
  }

  predicate SortedByTime(ps: seq<PricePoint>)
  {
    forall i, j :: 0 <= i <= j < |ps| ==> ps[i].time <= ps[j].time
  }

  /** The points of ps with the given time, in the order ps has them. */
  function WithTime(ps: seq<PricePoint>, t: int): seq<PricePoint>
  {
    if |ps| == 0 then [] else (if ps[0].time == t then [ps[0]] else []) + WithTime(ps[1..], t)
  }

  /** Puts p in front of the first point whose time is not smaller, so that p
      stays ahead of points with an equal time. */
  function Insert(p: PricePoint, s: seq<PricePoint>): (r: seq<PricePoint>)
    ensures |r| == |s| + 1
    ensures multiset(r) == multiset(s) + multiset{p}
    ensures r[0] == p || (|s| > 0 && r[0] == s[0])
  {
    if |s| == 0 then [p]
    else if p.time <= s[0].time then [p] + s
    else
      assert s == [s[0]] + s[1..];
      [s[0]] + Insert(p, s[1..])
  }

  /** Inserting into a sorted history keeps it sorted. */
  lemma {:induction false} InsertSorted(p: PricePoint, s: seq<PricePoint>)
    requires SortedByTime(s)
    ensures SortedByTime(Insert(p, s))
  {
    if |s| > 0 && p.time > s[0].time {
      var rest := Insert(p, s[1..]);
      InsertSorted(p, s[1..]);
      assert s[0].time <= rest[0].time;
      assert Insert(p, s) == [s[0]] + rest;
    }
  }

  /** `sort((a, b) => a.time - b.time)`, a stable sort by time. */
  function SortByTime(ps: seq<PricePoint>): (r: seq<PricePoint>)
    ensures |r| == |ps|
    ensures SortedByTime(r)
    ensures multiset(r) == multiset(ps)
  {
    if |ps| == 0 then []
    else
      assert ps == [ps[0]] + ps[1..];
      InsertSorted(ps[0], SortByTime(ps[1..]));
      Insert(ps[0], SortByTime(ps[1..]))
  }

  /** The history the page stores from a candle response. */
  function PriceHistory(cs: seq<Candle>): (r: seq<PricePoint>)
    ensures |r| == |cs|
    ensures SortedByTime(r)
    ensures multiset(r) == multiset(MapCandles(cs))
  {
    SortByTime(MapCandles(cs))
  }

  /** Filtering a sequence with a point in front. */
  lemma WithTimeCons(x: PricePoint, s: seq<PricePoint>, t: int)
    ensures WithTime([x] + s, t) == (if x.time == t then [x] else []) + WithTime(s, t)
  {
    assert ([x] + s)[1..] == s;
  }

  /** Inserting p adds it ahead of the points of equal time and leaves the
      order among the others alone. */
  lemma {:induction false} InsertKeepsOrder(p: PricePoint, s: seq<PricePoint>, t: int)
    ensures WithTime(Insert(p, s), t) == (if p.time == t then [p] else []) + WithTime(s, t)
  {
    if |s| == 0 {
    } else if p.time <= s[0].time {
      WithTimeCons(p, s, t);
    } else {
      var rest := Insert(p, s[1..]);
      InsertKeepsOrder(p, s[1..], t);
      WithTimeCons(s[0], rest, t);
      WithTimeCons(s[0], s[1..], t);
      assert s == [s[0]] + s[1..];
    }
  }

  /** Sorting is stable: points with the same time keep their input order. */
  lemma {:induction false} SortIsStable(ps: seq<PricePoint>, t: int)
    ensures WithTime(SortByTime(ps), t) == WithTime(ps, t)
  {
    if |ps| > 0 {
      SortIsStable(ps[1..], t);
      InsertKeepsOrder(ps[0], SortByTime(ps[1..]), t);
    }
  }

  /** Candles already in time order come out unchanged. */
  lemma {:induction false} SortKeepsSorted(ps: seq<PricePoint>)
    requires SortedByTime(ps)
    ensures SortByTime(ps) == ps
  {
    if |ps| > 0 {
      assert SortedByTime(ps[1..]);
      SortKeepsSorted(ps[1..]);
      assert ps == [ps[0]] + ps[1..];
    }
  }

  /** Sorting twice is sorting once. */
  lemma SortIdempotent(ps: seq<PricePoint>)
    ensures SortByTime(SortByTime(ps)) == SortByTime(ps)
  {
    SortKeepsSorted(SortByTime(ps));
  }

  // ---------------------------------------------------------------------
  // The snapshot time label
  // ---------------------------------------------------------------------

  function DigitChar(d: nat): (c: char)
    requires d < 10
    ensures '0' <= c <= '9'
    ensures c as int - '0' as int == d
  {
    ('0' as int + d) as char
  }

  predicate AllDigits(s: string)
  {
    forall i :: 0 <= i < |s| ==> '0' <= s[i] <= '9'
  }

  /** `n.toString()` for a natural number: its decimal digits, no leading zero. */
  function DecimalString(n: nat): (s: string)
    ensures 1 <= |s|
    ensures AllDigits(s)
    ensures |s| > 1 ==> s[0] != '0'
    ensures n < 10 <==> |s| == 1
  {
    if n < 10 then [DigitChar(n)] else DecimalString(n / 10) + [DigitChar(n % 10)]
  }

  /** The number a string of decimal digits denotes. */
  function DigitsValue(s: string): nat
    requires AllDigits(s)
  {
    if |s| == 0 then 0 else DigitsValue(s[..|s| - 1]) * 10 + (s[|s| - 1] as int - '0' as int)
  }

  /** Reading the decimal string back gives the number. */
  lemma {:induction false} DecimalRoundTrip(n: nat)
    ensures DigitsValue(DecimalString(n)) == n
  {
    if n >= 10 {
      DecimalRoundTrip(n / 10);
      var s := DecimalString(n);
      assert s[..|s| - 1] == DecimalString(n / 10);
    }
  }

  /** `s.padStart(width, fill)`: fill characters prepended up to the width. */
  function PadStart(s: string, width: nat, fill: char): (r: string)
    ensures |r| == if |s| >= width then |s| else width
    ensures r[|r| - |s|..] == s
    ensures forall i :: 0 <= i < |r| - |s| ==> r[i] == fill
  {
    if |s| >= width then s else seq(width - |s|, _ => fill) + s
  }

  /** `pad(n)`: a one-digit number gets a leading zero, a longer one is left as is. */
  function Pad(n: nat): (r: string)
    ensures |r| >= 2
    ensures AllDigits(r)
    ensures n <= 9 ==> r == ['0', DigitChar(n)]
    ensures n >= 10 ==> r == DecimalString(n)
  {
    PadStart(DecimalString(n), 2, '0')
  }

  /** A two-character digit string reads as tens and units. */
  lemma TwoDigitsValue(a: char, b: char)
    requires '0' <= a <= '9' && '0' <= b <= '9'
    ensures DigitsValue([a, b]) == (a as int - '0' as int) * 10 + (b as int - '0' as int)
  {
    assert [a][..0] == [];
    assert DigitsValue([a]) == a as int - '0' as int;
    assert [a, b][..1] == [a];
    assert DigitsValue([a, b]) == DigitsValue([a]) * 10 + (b as int - '0' as int);
  }

  /** The padded string still reads back as the number. */
  lemma PadRoundTrip(n: nat)
    ensures DigitsValue(Pad(n)) == n
  {
    if n <= 9 {
      TwoDigitsValue('0', DigitChar(n));
    } else {
      DecimalRoundTrip(n);
    }
  }

  /** Below 100 the padded string has exactly two digits. */
  lemma PadTwoDigits(n: nat)
    requires n < 100
    ensures |Pad(n)| == 2
  {
    if n >= 10 {
      assert n / 10 < 10;
    }
  }

  /** `${pad(h)}:${pad(m)}:${pad(s)}`. */
  function TimeString(h: nat, m: nat, s: nat): string
  {
    Pad(h) + ":" + Pad(m) + ":" + Pad(s)
  }

  /** Three two-character fields joined by colons sit at fixed positions. */
  lemma JoinedFields(a: string, b: string, c: string)
    requires |a| == 2 && |b| == 2 && |c| == 2
    ensures var r := a + ":" + b + ":" + c;
      |r| == 8 && r[2] == ':' && r[5] == ':' && r[0..2] == a && r[3..5] == b && r[6..8] == c
  {
    var r := a + ":" + b + ":" + c;
    assert r == [a[0], a[1], ':', b[0], b[1], ':', c[0], c[1]];
  }

  /** For a time of day the label is HH:mm:ss: eight characters, colons at
      positions 2 and 5, and each field reads back as its number. */
  lemma TimeStringLayout(h: nat, m: nat, s: nat)
    requires h < 24 && m < 60 && s < 60
    ensures var r := TimeString(h, m, s);
      |r| == 8 && r[2] == ':' && r[5] == ':' &&
      AllDigits(r[0..2]) && AllDigits(r[3..5]) && AllDigits(r[6..8]) &&
      DigitsValue(r[0..2]) == h && DigitsValue(r[3..5]) == m && DigitsValue(r[6..8]) == s
  {
    PadTwoDigits(h);
    PadTwoDigits(m);
    PadTwoDigits(s);
    PadRoundTrip(h);
    PadRoundTrip(m);
    PadRoundTrip(s);
    JoinedFields(Pad(h), Pad(m), Pad(s));
  }

  // ---------------------------------------------------------------------
  // Which screen the page shows
  // ---------------------------------------------------------------------

  /** `if (error)`: a present, non-empty message. */
  predicate HasError(error: Option<string>)
  {
    error.Some? && error.value != ""
  }

  /** `!orderBook || !ticker || priceHistory.length === 0`. */
  predicate IsLoading(book: Option<Book>, ticker: Option<Ticker>, history: seq<PricePoint>)
  {
    book.None? || ticker.None? || |history| == 0
  }

  /** Nothing, the loading spinner, or the dashboard with its snapshot time. */
  datatype Screen = Blank | Spinner | Dashboard(clock: string)

  /** The page's render decision, with the wall clock's hours, minutes and seconds passed in. */
  function Render(error: Option<string>, book: Option<Book>, ticker: Option<Ticker>, history: seq<PricePoint>, h: nat, m: nat, s: nat): (r: Screen)
    ensures r.Blank? <==> HasError(error)
    ensures r.Spinner? <==> !HasError(error) && (book.None? || ticker.None? || |history| == 0)
    ensures r.Dashboard? <==> !HasError(error) && book.Some? && ticker.Some? && |history| > 0
    ensures r.Dashboard? ==> r.clock == TimeString(h, m, s)
  {
    if HasError(error) then Blank
    else if IsLoading(book, ticker, history) then Spinner
    else Dashboard(TimeString(h, m, s))
  }

  /** An error hides the page whatever else has arrived. */
  lemma ErrorTakesPrecedence(error: Option<string>, book: Option<Book>, ticker: Option<Ticker>, history: seq<PricePoint>, h: nat, m: nat, s: nat)
    requires HasError(error)
    ensures Render(error, book, ticker, history, h, m, s) == Blank
  {
  }
}
