/** The review records the service stores, accepts and returns. */
module ReviewTypes {
  import opened Wrappers

  /**
   * A review as held in the in-process store (`MockReview`): the public fields
   * plus the internal `version` and, for reviews created through the service,
   * the submitter `userId`. `createdAt` is a timestamp in milliseconds.
   */
  datatype StoredReview = StoredReview(
    id: string,
    productId: string,
    rating: int,
    comment: Option<string>,
    authorName: Option<string>,
    createdAt: int,
    isVerifiedPurchase: bool,
    version: int,
    userId: Option<string>)

  /** A review as returned by `createReview`: the internal fields removed. */
  datatype Review = Review(
    id: string,
    productId: string,
    rating: int,
    comment: Option<string>,
    authorName: Option<string>,
    createdAt: int,
    isVerifiedPurchase: bool)

  /** The body of a create request, with the product taken from the route. */
  datatype ReviewInput = ReviewInput(
    productId: string,
    rating: int,
    comment: Option<string>,
    authorName: Option<string>)

  datatype SortBy = ByDate | ByRating | ByHelpful
  datatype SortOrder = Asc | Desc

  /** Optional query filters; a missing `filters` argument behaves as `NoFilters`. */
  datatype Filters = Filters(
    rating: Option<int>,
    verified: Option<bool>,
    sortBy: Option<SortBy>,
    sortOrder: Option<SortOrder>)

  const NoFilters := Filters(None, None, None, None)

  /**
   * The rating summary of a product. `averageTenths` is ten times the rounded
   * average (the source's `averageRating` is `averageTenths / 10`), and
   * `distribution` maps each rating 1..5 to its count.
   */
  datatype RatingSummary = RatingSummary(
    productId: string,
    averageTenths: int,
    totalReviews: nat,
    distribution: map<int, nat>)

  /** One page of a review listing. The stored records are returned as they are. */
  datatype PaginatedReviews = PaginatedReviews(
    reviews: seq<StoredReview>,
    total: nat,
    page: int,
    limit: int,
    hasMore: bool)

  /** Removes the internal `version` and `userId` fields. */
  function Strip(r: StoredReview): Review {
    Review(r.id, r.productId, r.rating, r.comment, r.authorName, r.createdAt, r.isVerifiedPurchase)
  }

  /** Stripping forgets exactly the internal fields: two records strip alike iff they differ at most in `version` and `userId`. */
  lemma StripDropsOnlyInternals(a: StoredReview, b: StoredReview)
    ensures Strip(a) == Strip(b) <==> a.(version := 0, userId := None) == b.(version := 0, userId := None)
  {
  }
}
