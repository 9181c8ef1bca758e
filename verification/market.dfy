/**
 The market-price screen (`EnhancedMarketPrices`): the search/trend filter
 over the quote list, the per-commodity statistics behind the comparison
 cards, the distinct commodity list, the range-indicator position and the
 nearby quick-comparison rows.
 */
module MarketPrices {
  import opened Wrappers
  import opened Seqs
  import opened Text

  /** Direction of a quote's recent movement, supplied with the quote. */
  datatype Trend = Up | Down | Stable

  /**
   One mandi's current price for one commodity. `change` and `trend` are
   independent inputs: nothing here ties one to the other. `lastUpdated` is
   a timestamp in milliseconds.
   */
  datatype Quote = Quote(id: string, produce: string, mandi: string, price: int,
                         change: int, trend: Trend, lastUpdated: int)

  /** The four trend buttons: 'all', 'trending', 'falling' and 'stable'. */
  datatype TrendFilter = All | Trending | Falling | StableOnly

  // ---------------------------------------------------------------------------
  // Quote filter
  // ---------------------------------------------------------------------------

  /** The free-text search: the term occurs in the produce OR the mandi name, ignoring case. */
  predicate MatchesSearch(q: Quote, term: string) {
    Contains(Lower(q.produce), Lower(term)) || Contains(Lower(q.mandi), Lower(term))
  }

  /** The trend button: which trend each category admits. */
  predicate MatchesTrend(q: Quote, f: TrendFilter) {
    match f
    case All => true
    case Trending => q.trend == Up
    case Falling => q.trend == Down
    case StableOnly => q.trend == Stable
  }

  predicate Passes(q: Quote, term: string, f: TrendFilter) {
    MatchesSearch(q, term) && MatchesTrend(q, f)
  }

  /** `filteredPrices`: the quotes shown in the list view. */
  function FilteredPrices(prices: seq<Quote>, term: string, f: TrendFilter): (r: seq<Quote>)
    ensures IsSubsequence(r, prices)
    ensures forall i :: 0 <= i < |r| ==> MatchesSearch(r[i], term) && MatchesTrend(r[i], f)
    ensures forall i :: 0 <= i < |prices| && MatchesSearch(prices[i], term) && MatchesTrend(prices[i], f) ==>
              prices[i] in r
    ensures forall q {:trigger multiset(r)[q]} ::
              multiset(r)[q] == if MatchesSearch(q, term) && MatchesTrend(q, f) then multiset(prices)[q] else 0
    ensures f == Trending ==> forall i :: 0 <= i < |r| ==> r[i].trend == Up
    ensures f == Falling ==> forall i :: 0 <= i < |r| ==> r[i].trend == Down
    ensures f == StableOnly ==> forall i :: 0 <= i < |r| ==> r[i].trend == Stable
  {
    FilterIsSubsequence(prices, q => Passes(q, term, f));
    FilterMultiplicity(prices, q => Passes(q, term, f));
    Filter(prices, q => Passes(q, term, f))
  }

  /** An empty search with the 'all' button shows every quote, in order. */
  lemma UnfilteredShowsAll(prices: seq<Quote>)
    ensures FilteredPrices(prices, "", All) == prices
  {
    forall i | 0 <= i < |prices| ensures Passes(prices[i], "", All) {
      ContainsEmpty(Lower(prices[i].produce));
    }
    FilterKeepsAll(prices, q => Passes(q, "", All));
  }

  /** Choosing a trend button only narrows what the search alone shows. */
  lemma TrendFilterNarrows(prices: seq<Quote>, term: string, f: TrendFilter)
    ensures IsSubsequence(FilteredPrices(prices, term, f), FilteredPrices(prices, term, All))
    ensures |FilteredPrices(prices, term, f)| <= |FilteredPrices(prices, term, All)|
  {
    FilterStrengthen(prices, q => Passes(q, term, All), q => Passes(q, term, f));
    SubsequenceLength(FilteredPrices(prices, term, f), FilteredPrices(prices, term, All));
  }

  /** The search matches exactly when the lower-cased term occurs at some position of either lower-cased field. */
  lemma SearchMatchIff(q: Quote, term: string)
    ensures MatchesSearch(q, term) <==>
            (exists k :: OccursAt(Lower(q.produce), Lower(term), k)) ||
            (exists k :: OccursAt(Lower(q.mandi), Lower(term), k))
  {
    ContainsIffOccurrence(Lower(q.produce), Lower(term));
    ContainsIffOccurrence(Lower(q.mandi), Lower(term));
  }

  // ---------------------------------------------------------------------------
  // Commodity statistics
  // ---------------------------------------------------------------------------

  /**
   Statistics of one commodity. For a commodity without quotes the source
   returns no mandi names at all; they are modelled as empty strings.
   */
  datatype Stats = Stats(highest: int, lowest: int, average: int, mandis: seq<Quote>,
                         highestMandi: string, lowestMandi: string)

  /** The quotes whose produce is exactly `name` (case-sensitive), in input order. */
  function QuotesOf(prices: seq<Quote>, name: string): (r: seq<Quote>)
    ensures IsSubsequence(r, prices)
    ensures forall i :: 0 <= i < |r| ==> r[i].produce == name
    ensures forall i :: 0 <= i < |prices| && prices[i].produce == name ==> prices[i] in r
    ensures forall q {:trigger multiset(r)[q]} :: multiset(r)[q] == if q.produce == name then multiset(prices)[q] else 0
  {
    FilterIsSubsequence(prices, (q: Quote) => q.produce == name);
    FilterMultiplicity(prices, (q: Quote) => q.produce == name);
    Filter(prices, (q: Quote) => q.produce == name)
  }

  function PriceValues(qs: seq<Quote>): (r: seq<int>)
    ensures |r| == |qs| && forall i :: 0 <= i < |qs| ==> r[i] == qs[i].price
  {
    seq(|qs|, i requires 0 <= i < |qs| => qs[i].price)
  }

  /**
   `Math.round(sum / n)` for `n > 0`: the integer nearest to the mean, with
   halves rounded up.
   */
  function RoundedMean(sum: int, n: int): (r: int)
    requires n > 0
    ensures 2 * n * r <= 2 * sum + n < 2 * n * (r + 1)
  {
    (2 * sum + n) / (2 * n)
  }

  lemma MulCancelLt(d: int, a: int, b: int)
    requires d > 0 && d * a < d * b
    ensures a < b
  {
  }

  /** A rounded mean of values in `[lo, hi]` stays in `[lo, hi]`. */
  lemma RoundedMeanWithin(sum: int, n: int, lo: int, hi: int)
    requires n > 0 && n * lo <= sum <= n * hi
    ensures lo <= RoundedMean(sum, n) <= hi
  {
    var r := RoundedMean(sum, n);
    assert 2 * n * (hi + 1) == 2 * (n * hi) + 2 * n;
    assert 2 * n * lo == 2 * (n * lo);
    MulCancelLt(2 * n, r, hi + 1);
    MulCancelLt(2 * n, lo, r + 1);
  }

  /** Every quote's price lies in `[lo, hi]`, and some quote is priced at each end. */
  predicate IsPriceRange(qs: seq<Quote>, lo: int, hi: int) {
    && (forall i :: 0 <= i < |qs| ==> lo <= qs[i].price <= hi)
    && (exists i :: 0 <= i < |qs| && qs[i].price == hi)
    && (exists i :: 0 <= i < |qs| && qs[i].price == lo)
  }

  /** `avg` is the mean price of `qs` rounded to the nearest integer, halves up. */
  predicate IsRoundedMeanPrice(qs: seq<Quote>, avg: int) {
    2 * |qs| * avg <= 2 * Sum(PriceValues(qs)) + |qs| < 2 * |qs| * (avg + 1)
  }

  /** `m` is the mandi of the first quote, in input order, priced at `v`. */
  predicate IsFirstMandiAt(qs: seq<Quote>, v: int, m: string) {
    exists i :: 0 <= i < |qs| && qs[i].price == v && qs[i].mandi == m &&
                forall j :: 0 <= j < i ==> qs[j].price != v
  }

  /** `qs.find(p => p.price === v)?.mandi || ''`. */
  function MandiPricedAt(qs: seq<Quote>, v: int): (m: string)
    ensures (exists i :: 0 <= i < |qs| && qs[i].price == v) ==> IsFirstMandiAt(qs, v, m)
    ensures (forall i :: 0 <= i < |qs| ==> qs[i].price != v) ==> m == ""
  {
    match FindIndex(qs, (q: Quote) => q.price == v)
    case Some(i) => qs[i].mandi
    case None => ""
  }

  /** The extremes of the price list are the price range of the quotes. */
  lemma ExtremesArePriceRange(qs: seq<Quote>)
    requires |qs| > 0
    ensures IsPriceRange(qs, MinOf(PriceValues(qs)), MaxOf(PriceValues(qs)))
  {
    var values := PriceValues(qs);
    var hi, lo := MaxOf(values), MinOf(values);
    var h :| 0 <= h < |values| && values[h] == hi;
    var l :| 0 <= l < |values| && values[l] == lo;
    assert qs[h].price == hi && qs[l].price == lo;
  }

  /** The statistics of a non-empty list of quotes for one commodity. */
  function Summary(data: seq<Quote>): (r: Stats)
    requires |data| > 0
    ensures r.mandis == data
    ensures IsPriceRange(data, r.lowest, r.highest)
    ensures IsRoundedMeanPrice(data, r.average)
    ensures r.lowest <= r.average <= r.highest
    ensures IsFirstMandiAt(data, r.highest, r.highestMandi)
    ensures IsFirstMandiAt(data, r.lowest, r.lowestMandi)
  {
    var values := PriceValues(data);
    var highest, lowest := MaxOf(values), MinOf(values);
    ExtremesArePriceRange(data);
    SumBounds(values, lowest, highest);
    RoundedMeanWithin(Sum(values), |values|, lowest, highest);
    var average := RoundedMean(Sum(values), |values|);
    Stats(highest, lowest, average, data, MandiPricedAt(data, highest), MandiPricedAt(data, lowest))
  }

  /** `getHighestLowestPrices(produceName)` over the full, unfiltered quote list. */
  function CommodityStats(prices: seq<Quote>, name: string): (r: Stats)
    ensures IsSubsequence(r.mandis, prices)
    ensures forall i :: 0 <= i < |r.mandis| ==> r.mandis[i].produce == name
    ensures forall i :: 0 <= i < |prices| && prices[i].produce == name ==> prices[i] in r.mandis
    ensures forall q {:trigger multiset(r.mandis)[q]} ::
              multiset(r.mandis)[q] == if q.produce == name then multiset(prices)[q] else 0
    ensures |r.mandis| == 0 ==>
              r.highest == 0 && r.lowest == 0 && r.average == 0 &&
              r.highestMandi == "" && r.lowestMandi == ""
    ensures |r.mandis| > 0 ==>
              && IsPriceRange(r.mandis, r.lowest, r.highest)
              && IsRoundedMeanPrice(r.mandis, r.average)
              && r.lowest <= r.average <= r.highest
              && IsFirstMandiAt(r.mandis, r.highest, r.highestMandi)
              && IsFirstMandiAt(r.mandis, r.lowest, r.lowestMandi)
  {
    var data := QuotesOf(prices, name);
    if |data| == 0 then Stats(0, 0, 0, [], "", "") else Summary(data)
  }

  /** A percentage of a part of a positive whole lies in `[0, 100]`. */
  lemma PercentWithin(part: real, whole: real)
    ensures 0.0 <= part <= whole && whole > 0.0 ==> 0.0 <= part / whole * 100.0 <= 100.0
    ensures part == 0.0 && whole > 0.0 ==> part / whole * 100.0 == 0.0
    ensures part == whole && whole > 0.0 ==> part / whole * 100.0 == 100.0
  {
    if 0.0 <= part <= whole && whole > 0.0 {
      assert part / whole <= 1.0 by {
        assert part / whole * whole == part;
      }
    }
  }

  /**
   Where the average sits between lowest and highest, in percent, as the
   range indicator places its marker: `(average - lowest) / (highest - lowest) * 100`.
   When `highest == lowest` the source divides zero by zero; `None` stands
   for that undefined position.
   */
  function RangePosition(s: Stats): (r: Option<real>)
    ensures r.Some? <==> s.highest != s.lowest
    ensures s.lowest < s.highest && s.lowest <= s.average <= s.highest ==>
              r.Some? && 0.0 <= r.value <= 100.0
    ensures s.lowest < s.highest && s.average == s.lowest ==> r == Some(0.0)
    ensures s.lowest < s.highest && s.average == s.highest ==> r == Some(100.0)
    ensures r.Some? ==> r.value * (s.highest - s.lowest) as real == (s.average - s.lowest) as real * 100.0
  {
    if s.highest == s.lowest then None
    else
      var part, whole := (s.average - s.lowest) as real, (s.highest - s.lowest) as real;
      PercentWithin(part, whole);
      Some(part / whole * 100.0)
  }

  /** For any commodity whose prices differ, the marker lies on the bar. */
  lemma CommodityPositionOnBar(prices: seq<Quote>, name: string)
    ensures var s := CommodityStats(prices, name);
            s.lowest < s.highest ==> RangePosition(s).Some? && 0.0 <= RangePosition(s).value <= 100.0
  {
  }

  /** A commodity quoted at one price everywhere (or by one mandi) has no defined position. */
  lemma UniformPricesHaveNoPosition(prices: seq<Quote>, name: string)
    requires exists i :: 0 <= i < |prices| && prices[i].produce == name
    requires forall i, j ::
               0 <= i < |prices| && 0 <= j < |prices| && prices[i].produce == name && prices[j].produce == name
               ==> prices[i].price == prices[j].price
    ensures RangePosition(CommodityStats(prices, name)) == None
  {
    var s := CommodityStats(prices, name);
    var i :| 0 <= i < |prices| && prices[i].produce == name;
    assert prices[i] in s.mandis;
    var h :| 0 <= h < |s.mandis| && s.mandis[h].price == s.highest;
    var l :| 0 <= l < |s.mandis| && s.mandis[l].price == s.lowest;
    assert s.mandis[h] in prices && s.mandis[l] in prices;
  }

  // ---------------------------------------------------------------------------
  // Commodity list and the nearby quick comparison
  // ---------------------------------------------------------------------------

  function ProduceNames(prices: seq<Quote>): (r: seq<string>)
    ensures |r| == |prices| && forall i :: 0 <= i < |prices| ==> r[i] == prices[i].produce
  {
    seq(|prices|, i requires 0 <= i < |prices| => prices[i].produce)
  }

  /** `uniqueProduces`: each commodity name once, in order of first appearance. */
  function UniqueProduces(prices: seq<Quote>): (r: seq<string>)
    ensures NoDuplicates(r)
    ensures forall i :: 0 <= i < |prices| ==> prices[i].produce in r
    ensures forall i :: 0 <= i < |r| ==> exists j :: 0 <= j < |prices| && prices[j].produce == r[i]
  {
    var names := ProduceNames(prices);
    var r := Distinct(names);
    assert forall i :: 0 <= i < |r| ==> r[i] in names;
    r
  }

  /** Commodities are listed in the order in which their first quote appears. */
  lemma UniqueProducesFirstSeen(prices: seq<Quote>)
    ensures forall i, j :: 0 <= i < j < |UniqueProduces(prices)| ==>
              IndexOf(ProduceNames(prices), UniqueProduces(prices)[i]) <
              IndexOf(ProduceNames(prices), UniqueProduces(prices)[j])
  {
    DistinctFirstSeenOrder(ProduceNames(prices));
  }

  /** One row of the nearby quick comparison: a commodity and its first quotes. */
  datatype NearbyRow = NearbyRow(produce: string, quotes: seq<Quote>)

  function Min(a: int, b: int): int {
    if a <= b then a else b
  }

  /** One comparison row: the commodity's first quotes, at most three. */
  function NearbyRowFor(prices: seq<Quote>, name: string): (row: NearbyRow)
    requires exists j :: 0 <= j < |prices| && prices[j].produce == name
    ensures row.produce == name
    ensures 1 <= |row.quotes| <= 3
    ensures |row.quotes| == Min(3, |QuotesOf(prices, name)|)
    ensures row.quotes <= QuotesOf(prices, name)
    ensures forall k :: 0 <= k < |row.quotes| ==> row.quotes[k].produce == name
  {
    var data := QuotesOf(prices, name);
    var j :| 0 <= j < |prices| && prices[j].produce == name;
    assert prices[j] in data;
    NearbyRow(name, data[..Min(3, |data|)])
  }

  /** The quick comparison: the first three commodities, each with its first three quotes. */
  function NearbyComparison(prices: seq<Quote>): (rows: seq<NearbyRow>)
    ensures |rows| == Min(3, |UniqueProduces(prices)|)
    ensures forall i :: 0 <= i < |rows| ==> rows[i].produce == UniqueProduces(prices)[i]
    ensures forall i, j :: 0 <= i < j < |rows| ==> rows[i].produce != rows[j].produce
    ensures forall i :: 0 <= i < |rows| ==>
              && 1 <= |rows[i].quotes| <= 3
              && |rows[i].quotes| == Min(3, |QuotesOf(prices, rows[i].produce)|)
              && rows[i].quotes <= QuotesOf(prices, rows[i].produce)
              && (forall k :: 0 <= k < |rows[i].quotes| ==> rows[i].quotes[k].produce == rows[i].produce)
  {
    var names := UniqueProduces(prices);
    seq(Min(3, |names|), i requires 0 <= i < Min(3, |names|) => NearbyRowFor(prices, names[i]))
  }
}
