# Review rating and query service — a Dafny model

This project models the core of a ratings-and-reviews middleware: the
`CommerceToolsService` class in `backend/src/services/commercetools.service.ts`
and the pure parts of `backend/src/config/index.ts` it depends on.

The service keeps an in-process store of reviews per product and offers five
operations:

- `getProductRating` gives a rating summary: counts per rating 1..5, the mean rounded to one decimal, and the total.
- `getProductReviews` filters by rating and by verified purchase, sorts by rating or by date, and returns one page with `total` and `hasMore`.
- `createReview` checks the rating range and the comment length, refuses a second review from the same submitter for the same product, and appends the new review.
- `deleteReview` removes the first review with a given id.
- `healthCheck` reports whether the store exists.

The configuration file contributes the review bounds (ratings 1..5, comments of
at most 1000 characters, author names of at most 100) and `parseTrustProxy`. That
function turns the `TRUST_PROXY` environment string into a boolean, a hop count
or an address string.

Layout, one module per concern:

- `wrappers.dfy` (`Wrappers`): `Option`, `Result`, `Outcome`.
- `numerals.dfy` (`Numerals`): decimal digit strings. They serve `parseInt(s, 10)` and the numbers printed into review ids.
- `config.dfy` (`Config`): the review bounds and `ParseTrustProxy`.
- `review_types.dfy` (`ReviewTypes`): the stored review record, the public review, the create input, the filters, the rating summary and the page result.
- `rating.dfy` (`Rating`): the rating aggregator.
- `query.dfy` (`Query`): filters, the stable sort, JavaScript `slice` semantics, pagination, and the whole query.
- `store.dfy` (`Store`): the store invariant, the checks and records of `createReview`, and the lookup and removal of `deleteReview`.
- `service.dfy` (`Service`): the class `CommerceToolsService` itself.

How the model represents the source:

- **The store.** The class has three fields. `reviews` is a `map` from product id to the product's list. `productOrder` holds the map's keys in insertion order, because a JavaScript `Map` iterates in that order and `deleteReview` scans it that way. `idCounter` is the id counter. `Valid()` is the store invariant. Every stored review names its key's product and has a rating in 1..5, and no submitter appears twice in one product's list. Every method keeps it.
- **Averages.** `averageRating` is kept as a whole number of tenths, `averageTenths`. `Math.round(avg * 10)` becomes `(20 * sum + n) / (2 * n)` in integer division. `RoundedTenths` proves this is the nearest integer to `10 * sum / n`, with halves rounded up.
- **Sorting.** Each of the four sort modes compares by the difference of an integer key, `SortKey` (`ComparatorIsKeyDifference`). `Array.prototype.sort` is stable. So the sort is modelled as a stable insertion sort by that key, `StableSort`. It is proved to be a permutation, ordered by the key, and to keep each group of equal keys in its input order.
- **Quirks kept as written.**
  - A rating filter of 0 filters nothing (a truthiness test).
  - Date sorting with `sortOrder == 'asc'` puts the newest first, and any other order puts the oldest first.
  - A read with no filter sorts the stored array in place, so `GetProductReviews` may reorder the stored list. It never adds or removes reviews.
  - The duplicate check only sees reviews that carry a `userId`; the seed reviews carry none.
  - The counter starts at 1, so the first created review is `review-1`, the id of a seed review. `IdCollision` shows the consequence.
- **Internal fields leak from reads.** `getProductReviews` returns the stored records with `version` and `userId` still attached; only `createReview` strips them.

## Model

| member | source | states |
|---|---|---|
| `Config.ReviewBoundsConsistent` | backend/src/config/index.ts:77-82 | the rating range is 1..5, so it is non-empty; the comment and author-name limits are positive |
| `Config.ParseTrustProxy` | backend/src/config/index.ts:14-28 | unset or empty gives 1; "true"/"false" in any letter case, and only they, give a boolean; an all-digit string gives its base-10 value; every other string comes back unchanged, and such a string is never all digits nor a boolean word |
| `Config.ParseTrustProxyNumber` | backend/src/config/index.ts:22-24 | the decimal numeral of every hop count parses back to that count |
| `Config.ParseTrustProxyCaseInsensitive` | backend/src/config/index.ts:18-19 | two strings that differ only in letter case and spell "true" or "false" parse to the same boolean |
| `Numerals.DecimalString` | backend/src/services/commercetools.service.ts:183 | the printed form of a counter value is a non-empty digit string with no leading zero |
| `Numerals.DecimalRoundTrip` | backend/src/config/index.ts:22-24 | reading back the decimal numeral of `n` with base-10 parsing gives `n` |
| `Numerals.DecimalStringInjective` | backend/src/services/commercetools.service.ts:183 | distinct numbers print as distinct numerals |
| `Rating.RoundedTenths` | backend/src/services/commercetools.service.ts:88 | the integer form of `Math.round(avg * 10)` is the nearest integer to `10 * sum / n`, with halves rounded up |
| `Rating.Aggregate` | backend/src/services/commercetools.service.ts:70-91 | the summary names the product, its total is the number of reviews, it has buckets 1..5 each holding that rating's count, the average is 0 with no reviews, and otherwise the average is the mean rounded to one decimal |
| `Rating.DistributionSumsToTotal` | backend/src/services/commercetools.service.ts:73-89 | when every rating is in 1..5, the five counts add up to the total |
| `Rating.AverageInRange` | backend/src/services/commercetools.service.ts:81-88 | with at least one review whose ratings are all in 1..5, the rounded average lies between 1.0 and 5.0 |
| `Rating.EmptySummary` | backend/src/services/commercetools.service.ts:81-91 | a product without reviews gets average 0, total 0 and all five counts 0, with no division |
| `Rating.AggregateOrderIndependent` | backend/src/services/commercetools.service.ts:70-90 | the summary depends only on which reviews there are, not on their order |
| `Rating.WorkedExample` | backend/src/services/commercetools.service.ts:81-88 | ratings 5, 4, 5, 3 give an average of 4.3 (4.25 rounded half up) and counts 0, 0, 1, 1, 2 |
| `Query.WithRating` | backend/src/services/commercetools.service.ts:113-115 | the rating filter keeps exactly the reviews with that rating |
| `Query.WithVerified` | backend/src/services/commercetools.service.ts:117-119 | the verified filter keeps exactly the reviews with that verified-purchase flag |
| `Query.ApplyFilters` | backend/src/services/commercetools.service.ts:112-119 | the filtered copy holds exactly the reviews that pass every active filter, and a rating filter of 0 is no filter |
| `Query.Matching` | backend/src/services/commercetools.service.ts:113-119 | reference filter: the result is exactly the input reviews that pass every active filter, in input order |
| `Query.FiltersSelectMatching` | backend/src/services/commercetools.service.ts:112-119 | the rating filter and then the verified filter, applied in sequence, equal the single reference filter on both conditions |
| `Query.Compare` | backend/src/services/commercetools.service.ts:122-132 | a review sorts before another by rating ascending for 'asc' and descending otherwise, or by date newest-first for 'asc' and oldest-first otherwise; the comparator is 0 exactly on equal sort keys |
| `Query.ComparatorIsKeyDifference` | backend/src/services/commercetools.service.ts:122-133 | in each sort mode the source's comparator is the difference of the two reviews' sort keys |
| `Query.StableSort` | backend/src/services/commercetools.service.ts:121-133 | the sorted list is a permutation of its input, ordered by the sort key, and reviews with equal keys keep their input order |
| `Query.SortedTiesDetermine` | backend/src/services/commercetools.service.ts:121-133 | a list sorted by key is determined by its groups of equal keys, so any stable sort with this comparator returns exactly `StableSort`'s list |
| `Query.RatingOrdersReverse` | backend/src/services/commercetools.service.ts:122-126 | when no two reviews share a rating, the 'asc' rating sort is exactly the reverse of the rating sort in any other order |
| `Query.RatingSortDirection` | backend/src/services/commercetools.service.ts:122-126 | sorting by rating gives non-decreasing ratings for 'asc' and non-increasing ratings otherwise |
| `Query.DateSortDirection` | backend/src/services/commercetools.service.ts:127-133 | the default date sort puts the newest first for 'asc' and the oldest first otherwise |
| `Query.SliceIndex` | backend/src/services/commercetools.service.ts:137 | a slice bound lands within the list and is the bound itself, capped at the length, when it is not negative |
| `Query.JsSlice` | backend/src/services/commercetools.service.ts:137 | the slice is the contiguous run of the list from the read start index up to the read end index, and is empty when they cross |
| `Query.Paginate` | backend/src/services/commercetools.service.ts:135-146 | total is the list's length; for page and limit of at least 1 the page is the elements from `(page-1)*limit` to `page*limit` and holds at most `limit` of them; `hasMore` holds iff `page*limit < total`; a page past the end is empty with `hasMore` false |
| `Query.PagesCover` | backend/src/services/commercetools.service.ts:136-137 | pages 1..p laid end to end are exactly the first `p*limit` reviews, so no review is skipped or repeated |
| `Query.TwelveReviewsByFive` | backend/src/services/commercetools.service.ts:135-146 | with 12 reviews and limit 5 the pages hold 5, 5, 2 and 0 reviews, and only the first two have more |
| `Query.PageSorted` | backend/src/services/commercetools.service.ts:121-137 | every page cut from a sorted list is sorted |
| `Query.QueryReviews` | backend/src/services/commercetools.service.ts:110-146 | total is the number of matching reviews; for page and limit of at least 1 the page is exactly the window from `(page-1)*limit` to `page*limit` of the stably sorted matching reviews, `hasMore` holds iff `page*limit < total`, and a page past the end is empty with `hasMore` false; every returned review is one of the product's reviews, passes every active filter and is in sort order |
| `Store.UpdateKeepsWellFormedStore` | backend/src/services/commercetools.service.ts:195-197 | replacing one product's list by a list that satisfies the invariant keeps the whole store valid |
| `Store.CheckReview` | backend/src/services/commercetools.service.ts:161-179 | checks in order: a rating outside 1..5 is refused first, then a comment over 1000 characters, then a submitter who already reviewed the product; a review is accepted exactly when all three pass |
| `Store.CreateError.Message` | backend/src/services/commercetools.service.ts:163-178 | the three refusals read "Rating must be between 1 and 5", "Comment must not exceed 1000 characters" and "You have already reviewed this product" |
| `Store.FindSubmitter` | backend/src/services/commercetools.service.ts:174-177 | the search finds a review exactly when some review of the product has the submitter's `userId`; what it finds is the first such review in list order |
| `Store.NewReview` | backend/src/services/commercetools.service.ts:181-192 | the new record's id is `review-` followed by the counter's decimal numeral: digits with no leading zero that read back as the counter; its public fields are the input's, dated `now`, not a verified purchase; it has version 1 and records the submitter |
| `ReviewTypes.StripDropsOnlyInternals` | backend/src/services/commercetools.service.ts:201-202 | two records strip to the same public review exactly when they differ at most in `version` and `userId` |
| `Store.NewReviewIdsDistinct` | backend/src/services/commercetools.service.ts:183 | different counter values give different review ids |
| `Store.AcceptedReviewKeepsInvariant` | backend/src/services/commercetools.service.ts:171-197 | appending a review that passed the checks keeps the product's list well formed: right product, rating in range, each submitter at most once |
| `Store.SecondReviewRefused` | backend/src/services/commercetools.service.ts:171-179 | after a submitter's review is stored, a second valid review by the same submitter for the same product is refused as a duplicate |
| `Store.FindIndex` | backend/src/services/commercetools.service.ts:220 | the result is -1 exactly when no review has the id; otherwise it is the first position holding the id |
| `Store.RemoveAt` | backend/src/services/commercetools.service.ts:222 | splicing out one position shortens the list by one and keeps every other review in order |
| `Store.RemoveKeepsInvariant` | backend/src/services/commercetools.service.ts:222 | removing a review keeps the product's list well formed |
| `Store.RemoveKeepsWellFormedStore` | backend/src/services/commercetools.service.ts:219-223 | splicing the review with the id out of one product's list keeps the whole store valid and keeps its set of products |
| `Store.FirstHolder` | backend/src/services/commercetools.service.ts:219-226 | the result is -1 exactly when no product's list holds the id; otherwise it is the first product, in key order, whose list holds it |
| `Store.InsertKeepsUniqueSubmitters` | backend/src/services/commercetools.service.ts:123-132 | one insertion step of the sort keeps each submitter unique when the inserted review's submitter is new to the list |
| `Store.SortKeepsInvariant` | backend/src/services/commercetools.service.ts:123-132 | sorting a stored list in place keeps it well formed, so an unfiltered read cannot corrupt the store |
| `Service.CommerceToolsService.constructor` | backend/src/services/commercetools.service.ts:20-25 | a new service holds exactly the two seed reviews under "test-product-1", and its counter is 1 |
| `Service.CommerceToolsService.InitializeMockData` | backend/src/services/commercetools.service.ts:30-54 | stores the two seed reviews under "test-product-1" and changes nothing else |
| `Service.CommerceToolsService.SetReviews` | backend/src/services/commercetools.service.ts:197 | replaces one product's list; a new key goes to the end of the key order and an existing key keeps its place |
| `Service.CommerceToolsService.ReviewsOf` | backend/src/services/commercetools.service.ts:59-61 | an unknown product has no reviews; in a valid store every returned review belongs to the product, has a rating in range and a submitter not repeated |
| `Service.CommerceToolsService.GetProductRating` | backend/src/services/commercetools.service.ts:66-96 | the summary of the product's reviews: the counts sum to the total, the average is 0 with no reviews and otherwise between 1.0 and 5.0 |
| `Service.CommerceToolsService.GetProductReviews` | backend/src/services/commercetools.service.ts:101-151 | returns the query result on the product's reviews; without a filter the stored list of a known product is left sorted, and otherwise the store is unchanged; no product gains or loses a review |
| `Service.CommerceToolsService.CreateReview` | backend/src/services/commercetools.service.ts:157-208 | a refused review leaves the store and counter unchanged and reports the first failing check; an accepted one is appended to its product's list with id `review-<counter>`, not a verified purchase, version 1 and the submitter recorded; the counter goes up by one; the result is that review without `version` and `userId`; every other product's list is unchanged |
| `Service.CommerceToolsService.DeleteReview` | backend/src/services/commercetools.service.ts:214-233 | with no list holding the id it fails with "Failed to delete review" and changes nothing; otherwise it splices the first review with that id out of the first product, in key order, that holds one, and nothing else changes |
| `Service.CommerceToolsService.HealthCheck` | backend/src/services/commercetools.service.ts:238-247 | always reports healthy, since the store always exists |
| `Service.IdCollision` | backend/src/services/commercetools.service.ts:21-53 | the first review created on a fresh service gets the seed id "review-1"; deleting that id removes the seed review and keeps the new one |

## Left out

- Logging is left out, and so is the try/catch that only logs and rethrows. The error messages that reach callers are kept: the three `createReview` messages and "Failed to delete review".
- `async` and Promises are left out; every operation is a plain call.
- The clock (`new Date()`) is left out. `CreateReview` takes the creation time as the parameter `now`, in milliseconds.
- Floating point is left out. `Rating.Aggregate` keeps the average as an exact number of tenths. Double rounding of `sum / n * 10` can differ from exact rounding only on an exact half, and that is not modelled.
- `Config.ParseTrustProxy` does not model `parseInt` losing precision above 2^53; numbers are unbounded.
- `Config.ParseTrustProxy` folds letter case for ASCII only. No non-ASCII character lower-cases to a letter of "true" or "false", so the two comparisons agree with `toLowerCase`.
- `Store.CheckReview` counts comment length in characters (Unicode scalar values). JavaScript's `length` counts UTF-16 code units, so a comment with characters outside the Basic Multilingual Plane can count differently.
- Ratings, pages, limits and rating filters are integers. The source relies on the request validation to reject fractions and NaN before they reach the service, and that validation is not part of this model.
- The default arguments `page = 1` and `limit = 10` of `getProductReviews` are not modelled. `GetProductReviews` always takes both values, and a caller that omits them gets the same result as one that passes 1 and 10.
- The `filters` argument of `getProductReviews` is never absent in the model. An absent argument behaves exactly like `NoFilters`.
- `Service.CommerceToolsService.DeleteReview` takes the `version` argument but does not use it, as in the source.
- Concurrency is left out, including the race between the duplicate check and the insert. The model is sequential.
- `validateConfig`, `dotenv` and the other `config` entries (port, JWT, rate limits, CORS, logging) are left out, because they only read the environment.
- The HTTP layer, authentication, rate limiting, request validation, Swagger and all frontend code are not part of this model.
- The identifier normaliser and an external commerce backend do not exist in `commercetools.service.ts`, and `commercetools.types.ts` only declares types, so neither is modelled.
