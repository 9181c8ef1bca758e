# KrishiSethu marketplace: selection and aggregation logic in Dafny

This project models the in-memory data logic of the KrishiSethu farmer/trader
marketplace front-end. The logic is pure functions over record sequences, and
the project proves properties about it. Four pieces are covered:

- **Market prices** (`MarketPrices`, `market.dfy`). The price list is filtered
  by a case-insensitive search over produce and mandi names, combined with a
  trend button. For each commodity the module computes the comparison
  statistics: highest, lowest and rounded average price, the mandi reporting
  each extreme, and the contributing quotes. It also models the distinct
  commodity list, the range-indicator position and the nearby quick-comparison
  rows.
- **Trader listings** (`ProduceListing`, `ListingSort`, `TraderListings`).
  Produce listings pass a conjunctive filter: search text, crop, location,
  quantity and price ranges, the verified switch, and the hard "active" status
  gate. One of seven stable sorts follows. The module also covers the
  active-filter counter, the reset action, the min/max quick stats and the
  "time ago" label.
- **Trader dashboard** (`TraderDashboard`). Covers the status counts, the
  investment total, the notification badge, the transaction tabs, the status
  labels and the progress-bar width.
- **Error handling** (`ErrorHandling`). The closed error-code taxonomy, the
  classification of a failed request (response status, then request, then
  unknown), the error journal capped at 50 entries, the bilingual message
  lookup with its fallbacks, and the hook's `CustomError` branch.

Shared modules: `Wrappers` holds `Option`. `Seqs` holds filter, subsequence,
find, max/min, sum and first-seen distinct. `Text` holds lower-casing,
substring search and lexicographic order.

The following become parameters:

- The current time: `now`, in milliseconds.
- Dates: integer timestamps.
- The local-storage journal: a sequence passed in and returned.
- The UI language: `Language`.

Four behaviours of the code that are easy to misread:

- **Range-indicator position when `highest == lowest`.** The code computes
  `(average - lowest) / (highest - lowest)`, which is 0/0 (NaN).
  `MarketPrices.RangePosition` returns `None` for that undefined position.
- **Non-numeric range bound.** The code's `parseInt` yields NaN, and every
  comparison with NaN is false, so the listing shows nothing.
  `TraderListings.Bound.NotANumber` models this, and
  `TraderListings.NaNBoundExcludesAll` proves it.
- **Mandi names of a commodity without quotes.** The code returns none; they are
  modelled as `""`, which renders the same.
- **Journalling.** `handleError` sends a `CustomError` straight to `createError`
  and never through `handleAPIError`, so a `CustomError` is not journalled
  (`ErrorHandling.HandleError`).

## Model

| member | source | states |
|---|---|---|
| MarketPrices.FilteredPrices | src/components/Market/EnhancedMarketPrices.tsx:28-37 | the list view shows an order-preserving subsequence of the quotes. A quote is kept exactly when the search and the trend button both admit it, with as many copies as the input holds. 'trending' keeps only `up`, 'falling' only `down`, 'stable' only `stable` |
| MarketPrices.UnfilteredShowsAll | src/components/Market/EnhancedMarketPrices.tsx:28-37 | an empty search with the 'all' button shows every quote, in order |
| MarketPrices.TrendFilterNarrows | src/components/Market/EnhancedMarketPrices.tsx:31-36 | the trend predicate is ANDed with the search, so any button shows a subsequence of (and no more than) what 'all' shows |
| MarketPrices.SearchMatchIff | src/components/Market/EnhancedMarketPrices.tsx:29-30 | a quote matches the search iff the lower-cased term occurs at some position of the lower-cased produce OR the lower-cased mandi |
| Text.ContainsIffOccurrence | src/components/Market/EnhancedMarketPrices.tsx:29-30 | the recursive `includes` agrees with "the needle occurs at some index k of the haystack" |
| MarketPrices.QuotesOf | src/components/Market/EnhancedMarketPrices.tsx:56 | the contributing quotes are exactly those whose produce equals the name (case-sensitive), in input order, each with its input multiplicity |
| MarketPrices.CommodityStats | src/components/Market/EnhancedMarketPrices.tsx:55-75 | `mandis` holds every quote of the commodity, with its input multiplicity and in input order. No quote gives all zeros with no mandis. Otherwise every price lies in [lowest, highest] and both ends are attained. The average is the mean rounded half up and lies in [lowest, highest]. Each mandi name comes from the first quote, in input order, at that extreme |
| MarketPrices.Summary | src/components/Market/EnhancedMarketPrices.tsx:59-74 | the same statistics for a non-empty quote list |
| MarketPrices.RoundedMean | src/components/Market/EnhancedMarketPrices.tsx:62 | `Math.round(sum/n)` is the integer r with r ≤ sum/n + 1/2 < r + 1 |
| MarketPrices.RoundedMeanWithin | src/components/Market/EnhancedMarketPrices.tsx:62 | the rounded mean of values in [lo, hi] stays in [lo, hi] |
| MarketPrices.MandiPricedAt | src/components/Market/EnhancedMarketPrices.tsx:64-65 | when some quote has the price, the result is the mandi of the first such quote (first occurrence wins ties); when none has it, the result is the empty string |
| Seqs.FindIndex | src/components/Market/EnhancedMarketPrices.tsx:64-65 | `find` returns the first index satisfying the predicate, or none when no element does |
| Seqs.MaxOf | src/components/Market/EnhancedMarketPrices.tsx:60 | `Math.max` is an upper bound attained by some element |
| Seqs.MinOf | src/components/Market/EnhancedMarketPrices.tsx:61 | `Math.min` is a lower bound attained by some element |
| Seqs.SumBounds | src/components/Market/EnhancedMarketPrices.tsx:62 | a sum of n values in [lo, hi] lies in [n·lo, n·hi] |
| MarketPrices.RangePosition | src/components/Market/EnhancedMarketPrices.tsx:321 | the position is defined iff highest ≠ lowest, and then it is (average − lowest)/(highest − lowest) × 100, stated as position × (highest − lowest) = (average − lowest) × 100. With lowest ≤ average ≤ highest and lowest < highest it lies in [0, 100], reaching 0 at the lowest and 100 at the highest |
| MarketPrices.CommodityPositionOnBar | src/components/Market/EnhancedMarketPrices.tsx:321 | for any commodity whose prices differ, the marker is on the bar (0..100%) |
| MarketPrices.UniformPricesHaveNoPosition | src/components/Market/EnhancedMarketPrices.tsx:321 | a quoted commodity with one price everywhere has no defined position (the 0/0 case) |
| MarketPrices.UniqueProduces | src/components/Market/EnhancedMarketPrices.tsx:77 | the commodity list has no duplicates, contains every quote's produce and nothing else |
| Seqs.Distinct | src/components/Market/EnhancedMarketPrices.tsx:77 | `[...new Set(s)]` has no duplicates and holds exactly the elements of s |
| Seqs.DistinctFirstSeenOrder | src/components/Market/EnhancedMarketPrices.tsx:77 | distinct elements appear in the order of their first occurrence |
| MarketPrices.UniqueProducesFirstSeen | src/components/Market/EnhancedMarketPrices.tsx:77 | commodities are listed in the order their first quote appears |
| MarketPrices.NearbyComparison | src/components/Market/EnhancedMarketPrices.tsx:408-410 | min(3, #commodities) rows; row i is for the i-th commodity of the distinct list, so the names differ. Each row holds the first min(3, n) of its commodity's n quotes (at least one) |
| Seqs.FilterAppend | src/components/Trader/TraderDashboard.tsx:41-47 | filtering a concatenation is concatenating the filtered parts |
| Seqs.FilterLengthIsPositions | src/components/Trader/TraderDashboard.tsx:41-44 | `filter(...).length` equals the number of positions whose element satisfies the predicate |
| Seqs.FilterMultiplicity | src/components/Trader/TraderListings.tsx:34-53 | `filter` keeps exactly the elements satisfying the predicate: each such element occurs as often as in the input, every other element not at all |
| Seqs.FilterIsSubsequence | src/components/Trader/TraderListings.tsx:34-53 | `filter` keeps an order-preserving subsequence |
| Seqs.FilterIdempotent | src/components/Trader/TraderListings.tsx:34-53 | filtering twice with one predicate equals filtering once |
| TraderListings.FilterListings | src/components/Trader/TraderListings.tsx:34-53 | the filter stage keeps, in order, exactly the listings all criteria admit, each with its input multiplicity |
| TraderListings.FilteredProduces | src/components/Trader/TraderListings.tsx:34-64 | the result is a permutation of the filtered listings, sorted by the selected key. Every result is active, and verified when verified-only is on. Every admitted listing appears |
| TraderListings.SortOrders | src/components/Trader/TraderListings.tsx:54-63 | price_low/quantity_low ascend and price_high/quantity_high descend on their field. bids descends by bid count, newest descends by harvest date, location ascends lexicographically |
| TraderListings.TiesKeepInputOrder | src/components/Trader/TraderListings.tsx:54-64 | listings that compare equal keep their filtered input order (stable sort) |
| TraderListings.FilteredProducesIdempotent | src/components/Trader/TraderListings.tsx:34-64 | running filter and sort on their own output changes nothing |
| TraderListings.InactiveNeverListed | src/components/Trader/TraderListings.tsx:51-52 | a listing whose status is not active never appears, whatever the criteria |
| TraderListings.NaNBoundExcludesAll | src/components/Trader/TraderListings.tsx:43-47 | a range bound that parses to NaN empties the result |
| TraderListings.VerifiedOnlyIff | src/components/Trader/TraderListings.tsx:49 | the verified switch adds exactly the condition `verified`; switched off, it imposes nothing |
| TraderListings.SearchMatchIff | src/components/Trader/TraderListings.tsx:36-38 | a listing matches iff the lower-cased term occurs in the lower-cased name, location, or variety when present |
| ListingSort.Sort | src/components/Trader/TraderListings.tsx:54-64 | the sort returns a sorted permutation of its input |
| ListingSort.SortIsStable | src/components/Trader/TraderListings.tsx:54-64 | for every listing e, the listings tied with e appear in the same order before and after sorting |
| ListingSort.SortOfSorted | src/components/Trader/TraderListings.tsx:54-64 | sorting an already sorted sequence returns it unchanged |
| ProduceListing.BeforeTotal | src/components/Trader/TraderListings.tsx:54-63 | each of the seven comparators relates every pair one way or the other |
| ProduceListing.BeforeTransitive | src/components/Trader/TraderListings.tsx:54-63 | each of the seven comparators is transitive |
| Text.LexLeTotal | src/components/Trader/TraderListings.tsx:60 | the location order is total |
| Text.LexLeTransitive | src/components/Trader/TraderListings.tsx:60 | the location order is transitive |
| TraderListings.FormatTimeAgo | src/components/Trader/TraderListings.tsx:66-74 | "just now" iff under one hour has elapsed, and h hours iff 1h ≤ elapsed < 24h, with elapsed in [h, h+1) hours. Otherwise d ≥ 1 days with elapsed in [d, d+1) days |
| TraderListings.ClearAllFilters | src/components/Trader/TraderListings.tsx:76-84 | after a reset the counter is 0, the search is empty, the sort is newest, and the criteria admit a listing iff it is active |
| TraderListings.ClearedShowsEveryActive | src/components/Trader/TraderListings.tsx:76-84 | after a reset every active listing is shown, newest first |
| TraderListings.ActiveFiltersCount | src/components/Trader/TraderListings.tsx:86-92 | the counter lies in 0..5 and is 0 iff crop and location are 'all', both ranges are empty and verified-only is off |
| TraderListings.EachFilterCountsOne | src/components/Trader/TraderListings.tsx:86-92 | putting any one of crop, location, quantity range, price range or verified-only in use raises the counter by exactly one, whatever the other filters are; with the zero case this fixes the counter as the number of filters in use |
| TraderListings.CountIgnoresSearchAndSort | src/components/Trader/TraderListings.tsx:86-92 | the counter does not depend on the search text or the sort key |
| TraderListings.QuickStats | src/components/Trader/TraderListings.tsx:387-399 | the panel is hidden iff nothing is listed. Otherwise it shows a lower and an upper bound of the listed prices, each attained |
| TraderListings.QuickStatsIgnoreOrder | src/components/Trader/TraderListings.tsx:393-399 | the quick stats depend only on which listings are shown, not on their order |
| TraderDashboard.WithStatusIn | src/components/Trader/TraderDashboard.tsx:41-44 | the selection is the order-preserving subsequence of transactions whose status is in the group, each with its input multiplicity, so its length is the headline count |
| TraderDashboard.StatusCount | src/components/Trader/TraderDashboard.tsx:41-44 | the length of a status filter is the number of positions whose transaction has a status in the group |
| TraderDashboard.ActiveBids | src/components/Trader/TraderDashboard.tsx:41 | `activeBids` is the number of transactions whose status is pending or deal_accepted |
| TraderDashboard.CompletedDeals | src/components/Trader/TraderDashboard.tsx:42 | `completedDeals` is the number of completed transactions |
| TraderDashboard.PendingPayments | src/components/Trader/TraderDashboard.tsx:44 | `pendingPayments` is the number of transactions whose status is payment_initiated |
| TraderDashboard.TotalInvestment | src/components/Trader/TraderDashboard.tsx:45-47 | `totalInvestment` plus the amounts of the pending bids is the sum of all amounts, so exactly the pending bids are left out of it |
| TraderDashboard.MetricsDisjoint | src/components/Trader/TraderDashboard.tsx:41-44 | activeBids + completedDeals + pendingPayments counts the union of disjoint groups, so it is at most the number of transactions |
| TraderDashboard.CountUnion | src/components/Trader/TraderDashboard.tsx:41-44 | counts of disjoint status groups add up to the count of their union |
| TraderDashboard.InvestmentExcludesExactlyPending | src/components/Trader/TraderDashboard.tsx:45-47 | the amounts of the non-pending transactions and those of the pending ones add up to the sum of all amounts, so the two filters split the amounts |
| TraderDashboard.Badge | src/components/Trader/TraderDashboard.tsx:103-105 | the badge shows iff some transaction is pending, deal-accepted or payment-initiated. It then carries the positive number of such transactions |
| TraderDashboard.FilteredTransactions | src/components/Trader/TraderDashboard.tsx:50-56 | each tab shows an order-preserving subsequence holding exactly the transactions it admits, each with its input multiplicity. 'all' and unrecognised tabs show every transaction |
| TraderDashboard.TabsMatchCounts | src/components/Trader/TraderDashboard.tsx:41-56 | the pending tab lists activeBids transactions and the completed tab completedDeals. The payment tab lists at least pendingPayments |
| TraderDashboard.TabsDisjoint | src/components/Trader/TraderDashboard.tsx:52-54 | no status is shown under two of the pending, payment and completed tabs |
| TraderDashboard.StatusText | src/components/Trader/TraderDashboard.tsx:69-78 | the five known statuses get a label different from the status; any other status is shown as is |
| TraderDashboard.StatusTextDistinguishesKnown | src/components/Trader/TraderDashboard.tsx:69-77 | different known statuses get different labels |
| TraderDashboard.ProgressWidth | src/components/Trader/TraderDashboard.tsx:252-254 | the width is 25, 50, 75 or 100. It is 100 iff the completed tab would show the status, 75 iff the payment tab would, and 50 iff the deal is accepted |
| TraderDashboard.ProgressMonotone | src/components/Trader/TraderDashboard.tsx:252-254 | the width never decreases along pending → deal_accepted → payment_initiated → payment_completed → completed |
| ErrorHandling.CreateError | src/utils/errorHandling.ts:113-126 | code, details and context pass through, and the timestamp is now. The message is the given one when non-empty, else 'An error occurred', so it is never empty |
| ErrorHandling.StatusCode | src/utils/errorHandling.ts:139-154 | 401 → AUTH_FAILED, 403 → AUTH_REQUIRED, 422 → VALIDATION_ERROR, 500 → SERVER_ERROR, any other status → API_ERROR |
| ErrorHandling.StatusMessage | src/utils/errorHandling.ts:139-154 | 401, 403, 422 and 500 get 'Unauthorized access', 'Access forbidden', 'Validation failed' and 'Internal server error'. Any other status gives 'API Error: ' followed by the status in its usual decimal form: digits without a leading zero (a lone "0" aside) that read back as the status, after a '-' when negative |
| ErrorHandling.Classify | src/utils/errorHandling.ts:131-161 | a response decides code and message by its status and carries its data. Failing that, a truthy request (present and not the empty string) gives NETWORK_ERROR with 'Network connection failed', carrying the request. Otherwise the result is UNKNOWN_ERROR carrying the raw error, with the error's own message or, when that is missing or empty, 'An error occurred'. The message is never empty and the context passes through on every branch |
| ErrorHandling.ClassificationIsUnique | src/utils/errorHandling.ts:131-161 | the branch-by-branch description of the classification leaves no choice: two errors that both meet it are equal |
| ErrorHandling.ResponseTakesPriority | src/utils/errorHandling.ts:134-161 | with a response present, the request marker makes no difference |
| ErrorHandling.NetworkOnlyWithoutResponse | src/utils/errorHandling.ts:155-157 | NETWORK_ERROR is produced iff there is no response and the request is present and non-empty; an empty-string request, which is falsy, gives UNKNOWN_ERROR |
| ErrorHandling.PrintedStatus | src/utils/errorHandling.ts:152-153 | after the 'API Error: ' prefix come the status's decimal digits (after a '-' when negative), without a leading zero unless the magnitude is 0, reading back as its magnitude |
| ErrorHandling.NatToString | src/utils/errorHandling.ts:153 | a number prints as at least one digit, "0" for zero and with a non-zero first digit otherwise |
| ErrorHandling.DecimalIsUnique | src/utils/errorHandling.ts:153 | two digit strings without leading zeros that read back as the same number are the same string, so the printed status is the only such form |
| ErrorHandling.NatToStringRoundTrip | src/utils/errorHandling.ts:153 | the status printed into 'API Error: …' reads back as the same number |
| ErrorHandling.LogError | src/utils/errorHandling.ts:99-107 | push then trim equals the newest 50 entries of the old journal with the error appended (the independent `Newest`). The result is non-empty, holds at most 50 entries and ends with the error |
| ErrorHandling.LogErrorShape | src/utils/errorHandling.ts:99-105 | below capacity the error is simply appended. At capacity or above the journal holds exactly 50 entries, with the newest old entries, in order, before the error |
| ErrorHandling.LogAllKeepsNewest | src/utils/errorHandling.ts:99-107 | logging a series of errors leaves the newest 50 of everything logged (oldest evicted first) |
| ErrorHandling.JournalHoldsLastFifty | src/utils/errorHandling.ts:102-105 | after 50 or more errors the journal is exactly the 50 most recent |
| ErrorHandling.HandleAPIError | src/utils/errorHandling.ts:131-165 | the returned error is exactly the classification: code, message and details by response, then truthy request, then unknown, with the context kept and the timestamp now. The journal becomes the newest 50 of the old journal plus that error, which comes last |
| ErrorHandling.Translation | src/utils/errorHandling.ts:61-84 | a language has a text for a code iff the code is one of the nine translated ones, and every text is non-empty |
| ErrorHandling.TranslationCoverage | src/utils/errorHandling.ts:61-84 | English and Hindi translate the same codes, and each Hindi text differs from the English one |
| ErrorHandling.GetErrorMessage | src/utils/errorHandling.ts:170-173 | the result is the translation when one exists, else the error's message when non-empty, else 'An error occurred'. It is never empty, and the language defaults to English |
| ErrorHandling.ServerErrorShowsOwnMessage | src/utils/errorHandling.ts:170-173 | a status-500 error has no translation and shows 'Internal server error' in either language |
| ErrorHandling.ClassifiedCodesTranslated | src/utils/errorHandling.ts:61-84 | every code the classifier produces except SERVER_ERROR has a translation in both languages |
| ErrorHandling.HandleError | src/utils/errorHandling.ts:181-184 | a CustomError keeps its code, details and message, or gets 'An error occurred' when its message is empty. It takes the handler's context, is stamped now, carries no userId and is not journalled. Anything else goes through handleAPIError: it is classified as there and appended to the journal, keeping the newest 50 |

## Left out

- JSX rendering (class names, icons, colours, bilingual UI text) and the React state plumbing of all three components are presentation only. The same holds for `getTrendIcon`, `getTrendColor`, `getStatusColor` and `getStatusIcon`.
- `getLastUpdatedTime` is left out because it reads the wall clock and `Math.random()`.
- The hard-coded `nearbyAPMCs` list is a constant and holds no logic.
- The commodity selector of the comparison view (`selectedProduce ? [selectedProduce] : uniqueProduces`) is only a choice between one name and `uniqueProduces`.
- The crop and location option lists (`cropTypes`, `locations`) are left out. They use the same first-seen distinct construction as `uniqueProduces` (`Seqs.Distinct`).
- `totalProduce` is just the length of the available-produce array.
- Every number (price, quantity, amount, change) is modelled as an integer; JavaScript doubles and fractional values are not modelled. This also leaves out the floating-point payment split (`amount * 0.97`, `amount * 0.03`) and `toLocaleString` formatting.
- TraderListings.FormatTimeAgo: returns the bucket (just now / hours / days) and not the bilingual label text. Date-string parsing is left out; dates are millisecond timestamps and `now` is a parameter.
- Text.Lower: `toLowerCase` is modelled as the ASCII fold of 'A'..'Z'. Full Unicode case mapping is not modelled.
- Text.LexLe: `localeCompare` is modelled as lexicographic order on code points. Locale collation is not modelled; only its being a total preorder matters to the proofs.
- TraderListings.Bound: `parseInt` itself is not modelled. A bound is the parse result: empty, a number, or NaN.
- ProduceListing.Before: sort keys other than the seven UI options cannot be selected. They would fall to the harvest-date comparison, like 'newest'. An invalid harvest date (NaN timestamp) is not modelled.
- MarketPrices.MatchesTrend: only the four filter buttons can set the trend filter. Any other value would keep nothing and is not modelled.
- ErrorHandling.ErrorCode: codes are the closed `ERROR_CODES` taxonomy. A `CustomError` built with a code outside it is not modelled.
- ErrorHandling.HasRequest: `error.request` is modelled as an optional string, truthy when present and non-empty. Other falsy values a caller could put there (`0`, `false`, `NaN`) cannot be represented.
- ErrorHandling.Response: a response whose status is missing (printed as 'undefined') is not modelled.
- ErrorHandling.HandleError: models the body of the hook's `handleError` callback as if the hook ran. errorHandling.ts has no import of React, yet `useErrorHandler` calls `React.useState` and `React.useCallback` (lines 179, 181, 189). As written, calling the hook throws a ReferenceError unless the host provides a global `React`; without one the callback is never created. The hook's React state is not modelled.
- ErrorHandling.Classify: a thrown `null` or `undefined` is not modelled. `handleAPIError` reads `error.response` at errorHandling.ts:134, which throws a TypeError for such a value, and `handleError` forwards every non-`CustomError` there (line 184). The hook then fails instead of producing an error code. `RawError` and `Thrown` cannot represent such a value.
- Seqs.MaxOf: `Math.max(...values)` and `Math.min(...values)` spread their argument. For arrays beyond the engine's argument limit they throw a RangeError (EnhancedMarketPrices.tsx:60-61, TraderListings.tsx:393 and 399). The model has no length limit.
- `console.error`, `process.env`, and reading and writing the journal as JSON in local storage are left out. The journal is a sequence passed in and returned.
- The hook's `setError`/`clearError` state is left out.
- `src/utils/imageOptimization.ts` (canvas and Blob work), `src/lib/supabase.ts` (client set-up and schema types; only the listing status values are used) and `src/hooks/usePerformance.ts` (timing and logging) are not part of this model.
