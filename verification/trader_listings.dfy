/**
 The trader's listing screen (`TraderListings`): the conjunctive filter
 over produce listings followed by the selected sort, the active-filter
 counter, the reset action, the quick min/max price panel and the
 "time ago" label of a listing.
 */
module TraderListings {
  import opened Wrappers
  import opened Seqs
  import opened Text
  import opened ProduceListing
  import ListingSort

  // ---------------------------------------------------------------------------
  // Criteria
  // ---------------------------------------------------------------------------

  /**
   A range input after `parseInt`: the empty string (no bound), a number,
   or a non-empty text that parses to NaN. Every comparison with NaN is
   false, so a NaN bound admits nothing.
   */
  datatype Bound = Unset | Value(n: int) | NotANumber

  datatype Range = Range(min: Bound, max: Bound)

  /** The screen's filter state; `crop` and `location` use "all" for no restriction. */
  datatype Criteria = Criteria(searchTerm: string, crop: string, location: string,
                               quantityRange: Range, priceRange: Range,
                               verifiedOnly: bool, sortBy: SortKey)

  const AllOption: string := "all"

  predicate AtLeast(x: int, b: Bound) {
    match b
    case Unset => true
    case Value(n) => x >= n
    case NotANumber => false
  }

  predicate AtMost(x: int, b: Bound) {
    match b
    case Unset => true
    case Value(n) => x <= n
    case NotANumber => false
  }

  predicate InRange(x: int, r: Range) {
    AtLeast(x, r.min) && AtMost(x, r.max)
  }

  /** The search: the term occurs in the name, the location or the variety (if any), ignoring case. */
  predicate MatchesSearch(p: Produce, term: string) {
    || Contains(Lower(p.name), Lower(term))
    || Contains(Lower(p.location), Lower(term))
    || (p.variety.Some? && Contains(Lower(p.variety.value), Lower(term)))
  }

  /** All criteria hold of `p`, and `p` is an active listing. */
  predicate Admits(c: Criteria, p: Produce) {
    && MatchesSearch(p, c.searchTerm)
    && (c.crop == AllOption || p.name == c.crop)
    && (c.location == AllOption || p.location == c.location)
    && InRange(p.quantity, c.quantityRange)
    && InRange(p.currentPrice, c.priceRange)
    && (!c.verifiedOnly || p.verified)
    && p.status == Active
  }

  // ---------------------------------------------------------------------------
  // Filter and sort
  // ---------------------------------------------------------------------------

  /** The filter stage of `filteredProduces`. */
  function FilterListings(ps: seq<Produce>, c: Criteria): (r: seq<Produce>)
    ensures IsSubsequence(r, ps)
    ensures forall i :: 0 <= i < |r| ==> Admits(c, r[i])
    ensures forall i :: 0 <= i < |ps| && Admits(c, ps[i]) ==> ps[i] in r
    ensures forall p {:trigger multiset(r)[p]} :: multiset(r)[p] == if Admits(c, p) then multiset(ps)[p] else 0
  {
    FilterIsSubsequence(ps, p => Admits(c, p));
    FilterMultiplicity(ps, p => Admits(c, p));
    Filter(ps, p => Admits(c, p))
  }

  /** `filteredProduces`: the admitted listings in the order selected by `c.sortBy`. */
  function FilteredProduces(ps: seq<Produce>, c: Criteria): (r: seq<Produce>)
    ensures multiset(r) == multiset(FilterListings(ps, c))
    ensures forall i :: 0 <= i < |r| ==> Admits(c, r[i])
    ensures forall i :: 0 <= i < |r| ==> r[i].status == Active
    ensures c.verifiedOnly ==> forall i :: 0 <= i < |r| ==> r[i].verified
    ensures forall i :: 0 <= i < |ps| && Admits(c, ps[i]) ==> ps[i] in r
    ensures ListingSort.Sorted(c.sortBy, r)
  {
    var kept := FilterListings(ps, c);
    var r := ListingSort.Sort(c.sortBy, kept);
    assert forall i :: 0 <= i < |r| ==> r[i] in multiset(kept);
    assert forall i :: 0 <= i < |ps| && Admits(c, ps[i]) ==> ps[i] in multiset(r);
    r
  }

  /** What each sort key means for neighbouring results. */
  lemma SortOrders(ps: seq<Produce>, c: Criteria)
    ensures var r := FilteredProduces(ps, c);
      && (c.sortBy == PriceLow ==> forall i, j :: 0 <= i < j < |r| ==> r[i].currentPrice <= r[j].currentPrice)
      && (c.sortBy == PriceHigh ==> forall i, j :: 0 <= i < j < |r| ==> r[i].currentPrice >= r[j].currentPrice)
      && (c.sortBy == QuantityLow ==> forall i, j :: 0 <= i < j < |r| ==> r[i].quantity <= r[j].quantity)
      && (c.sortBy == QuantityHigh ==> forall i, j :: 0 <= i < j < |r| ==> r[i].quantity >= r[j].quantity)
      && (c.sortBy == Bids ==> forall i, j :: 0 <= i < j < |r| ==> |r[i].bids| >= |r[j].bids|)
      && (c.sortBy == Newest ==> forall i, j :: 0 <= i < j < |r| ==> r[i].harvestDate >= r[j].harvestDate)
      && (c.sortBy == Location ==> forall i, j :: 0 <= i < j < |r| ==> LexLe(r[i].location, r[j].location))
  {
    var r := FilteredProduces(ps, c);
    assert ListingSort.Sorted(c.sortBy, r);
  }

  /** Listings that compare equal under the selected key keep their input order. */
  lemma TiesKeepInputOrder(ps: seq<Produce>, c: Criteria, e: Produce)
    ensures ListingSort.TiedWith(c.sortBy, FilteredProduces(ps, c), e) ==
            ListingSort.TiedWith(c.sortBy, FilterListings(ps, c), e)
  {
    ListingSort.SortIsStable(c.sortBy, FilterListings(ps, c), e);
  }

  /** Running the pipeline on its own output changes nothing. */
  lemma FilteredProducesIdempotent(ps: seq<Produce>, c: Criteria)
    ensures FilteredProduces(FilteredProduces(ps, c), c) == FilteredProduces(ps, c)
  {
    var r := FilteredProduces(ps, c);
    FilterKeepsAll(r, p => Admits(c, p));
    ListingSort.SortOfSorted(c.sortBy, r);
  }

  /** A listing that is not active never appears, whatever the criteria. */
  lemma InactiveNeverListed(ps: seq<Produce>, c: Criteria, p: Produce)
    requires p.status != Active
    ensures p !in FilteredProduces(ps, c)
  {
  }

  /** A range bound that does not parse as a number empties the result. */
  lemma NaNBoundExcludesAll(ps: seq<Produce>, c: Criteria)
    requires NotANumber in {c.quantityRange.min, c.quantityRange.max, c.priceRange.min, c.priceRange.max}
    ensures FilteredProduces(ps, c) == []
  {
  }

  /** The verified-only switch adds exactly the condition `verified`, and nothing otherwise. */
  lemma VerifiedOnlyIff(c: Criteria, p: Produce)
    ensures Admits(c.(verifiedOnly := true), p) <==> Admits(c.(verifiedOnly := false), p) && p.verified
  {
  }

  /** The search matches exactly when the lower-cased term occurs at some position of a searched field. */
  lemma SearchMatchIff(p: Produce, term: string)
    ensures MatchesSearch(p, term) <==>
            || (exists k :: OccursAt(Lower(p.name), Lower(term), k))
            || (exists k :: OccursAt(Lower(p.location), Lower(term), k))
            || (p.variety.Some? && exists k :: OccursAt(Lower(p.variety.value), Lower(term), k))
  {
    ContainsIffOccurrence(Lower(p.name), Lower(term));
    ContainsIffOccurrence(Lower(p.location), Lower(term));
    if p.variety.Some? {
      ContainsIffOccurrence(Lower(p.variety.value), Lower(term));
    }
  }

  // ---------------------------------------------------------------------------
  // Counter and reset
  // ---------------------------------------------------------------------------

  function Flag(b: bool): nat {
    if b then 1 else 0
  }

  /** A range input counts as set when either of its two text boxes is non-empty. */
  predicate RangeSet(r: Range) {
    r.min != Unset || r.max != Unset
  }

  /** `activeFiltersCount`: how many of crop, location, quantity, price and verified are in use. */
  function ActiveFiltersCount(c: Criteria): (n: nat)
    ensures n <= 5
    ensures n == 0 <==>
              c.crop == AllOption && c.location == AllOption &&
              !RangeSet(c.quantityRange) && !RangeSet(c.priceRange) && !c.verifiedOnly
  {
    Flag(c.crop != AllOption) + Flag(c.location != AllOption) +
    Flag(RangeSet(c.quantityRange)) + Flag(RangeSet(c.priceRange)) + Flag(c.verifiedOnly)
  }

  /**
   Each of the five filters adds exactly one to the counter when it is put in
   use, whatever the others are doing.
   */
  lemma EachFilterCountsOne(c: Criteria, crop: string, location: string, range: Range)
    requires crop != AllOption && location != AllOption && RangeSet(range)
    ensures ActiveFiltersCount(c.(crop := crop)) == ActiveFiltersCount(c.(crop := AllOption)) + 1
    ensures ActiveFiltersCount(c.(location := location)) == ActiveFiltersCount(c.(location := AllOption)) + 1
    ensures ActiveFiltersCount(c.(quantityRange := range)) ==
            ActiveFiltersCount(c.(quantityRange := Range(Unset, Unset))) + 1
    ensures ActiveFiltersCount(c.(priceRange := range)) ==
            ActiveFiltersCount(c.(priceRange := Range(Unset, Unset))) + 1
    ensures ActiveFiltersCount(c.(verifiedOnly := true)) == ActiveFiltersCount(c.(verifiedOnly := false)) + 1
  {
  }

  /** The counter ignores the search text and the sort order. */
  lemma CountIgnoresSearchAndSort(c: Criteria, term: string, k: SortKey)
    ensures ActiveFiltersCount(c.(searchTerm := term, sortBy := k)) == ActiveFiltersCount(c)
  {
  }

  /** `clearAllFilters`: every criterion back to its initial value. */
  function ClearAllFilters(c: Criteria): (r: Criteria)
    ensures ActiveFiltersCount(r) == 0
    ensures r.searchTerm == "" && r.sortBy == Newest
    ensures forall p: Produce :: Admits(r, p) <==> p.status == Active
  {
    var r := Criteria("", AllOption, AllOption, Range(Unset, Unset), Range(Unset, Unset), false, Newest);
    assert forall p: Produce :: MatchesSearch(p, "") by {
      forall p: Produce ensures MatchesSearch(p, "") {
        ContainsEmpty(Lower(p.name));
      }
    }
    r
  }

  /** After a reset the screen shows every active listing, newest first. */
  lemma ClearedShowsEveryActive(ps: seq<Produce>, c: Criteria)
    ensures var r := FilteredProduces(ps, ClearAllFilters(c));
      && (forall i :: 0 <= i < |ps| && ps[i].status == Active ==> ps[i] in r)
      && (forall i, j :: 0 <= i < j < |r| ==> r[i].harvestDate >= r[j].harvestDate)
  {
    SortOrders(ps, ClearAllFilters(c));
  }

  // ---------------------------------------------------------------------------
  // Quick stats and the "time ago" label
  // ---------------------------------------------------------------------------

  function CurrentPrices(ps: seq<Produce>): (r: seq<int>)
    ensures |r| == |ps| && forall i :: 0 <= i < |ps| ==> r[i] == ps[i].currentPrice
  {
    seq(|ps|, i requires 0 <= i < |ps| => ps[i].currentPrice)
  }

  /**
   The quick-stats panel: `None` when nothing is listed (the panel is
   hidden), otherwise the lowest and highest listed price.
   */
  function QuickStats(r: seq<Produce>): (s: Option<(int, int)>)
    ensures s.None? <==> |r| == 0
    ensures s.Some? ==> forall i :: 0 <= i < |r| ==> s.value.0 <= r[i].currentPrice <= s.value.1
    ensures s.Some? ==> exists i :: 0 <= i < |r| && r[i].currentPrice == s.value.0
    ensures s.Some? ==> exists i :: 0 <= i < |r| && r[i].currentPrice == s.value.1
  {
    if |r| == 0 then None
    else
      var prices := CurrentPrices(r);
      var lo, hi := MinOf(prices), MaxOf(prices);
      var l :| 0 <= l < |prices| && prices[l] == lo;
      var h :| 0 <= h < |prices| && prices[h] == hi;
      assert r[l].currentPrice == lo && r[h].currentPrice == hi;
      Some((lo, hi))
  }

  /** Price bounds that hold of every listing of `a` hold of every listing of a permutation of `a`. */
  lemma PriceBoundsCarry(a: seq<Produce>, b: seq<Produce>, lo: int, hi: int)
    requires multiset(a) == multiset(b)
    requires forall i :: 0 <= i < |a| ==> lo <= a[i].currentPrice <= hi
    ensures forall i :: 0 <= i < |b| ==> lo <= b[i].currentPrice <= hi
  {
    forall i | 0 <= i < |b| ensures lo <= b[i].currentPrice <= hi {
      assert b[i] in multiset(a);
      var j :| 0 <= j < |a| && a[j] == b[i];
    }
  }

  /** The panel's figures do not depend on the sort order. */
  lemma QuickStatsIgnoreOrder(a: seq<Produce>, b: seq<Produce>)
    requires multiset(a) == multiset(b)
    ensures QuickStats(a) == QuickStats(b)
  {
    assert |a| == |b| by {
      assert |a| == |multiset(a)| && |b| == |multiset(b)|;
    }
    if |a| > 0 {
      var sa, sb := QuickStats(a).value, QuickStats(b).value;
      PriceBoundsCarry(a, b, sa.0, sa.1);
      PriceBoundsCarry(b, a, sb.0, sb.1);
      var la :| 0 <= la < |a| && a[la].currentPrice == sa.0;
      var lb :| 0 <= lb < |b| && b[lb].currentPrice == sb.0;
      var ha :| 0 <= ha < |a| && a[ha].currentPrice == sa.1;
      var hb :| 0 <= hb < |b| && b[hb].currentPrice == sb.1;
      assert sa.0 == sb.0 && sa.1 == sb.1;
      assert sa == sb;
    }
  }

  /** How long ago a listing's date was, as the card labels it. */
  datatype TimeAgo = JustNow | HoursAgo(hours: int) | DaysAgo(days: int)

  const MsPerHour: int := 1000 * 60 * 60

  /**
   `formatTimeAgo`: `now` and `date` are millisecond timestamps; the elapsed
   time is floored to whole hours, then to whole days from 24 hours on.
   */
  function FormatTimeAgo(now: int, date: int): (r: TimeAgo)
    ensures r == JustNow <==> now - date < MsPerHour
    ensures r.HoursAgo? <==> MsPerHour <= now - date < 24 * MsPerHour
    ensures r.HoursAgo? ==> r.hours * MsPerHour <= now - date < (r.hours + 1) * MsPerHour
    ensures r.DaysAgo? ==> r.days >= 1 && r.days * 24 * MsPerHour <= now - date < (r.days + 1) * 24 * MsPerHour
  {
    var hours := (now - date) / MsPerHour;
    if hours < 1 then JustNow
    else if hours < 24 then HoursAgo(hours)
    else
      var days := hours / 24;
      assert days * 24 <= hours < (days + 1) * 24;
      DaysAgo(days)
  }
}
