/**
 * `CommerceToolsService` over its in-process store: a map from product id to
 * the list of that product's reviews, the order in which the map's keys were
 * first set (a JavaScript `Map` iterates in that order), and the id counter.
 */
module Service {
  import opened Wrappers
  import Numerals
  import opened ReviewTypes
  import opened Config
  import opened Rating
  import opened Query
  import opened Store

  /** The two reviews the store is seeded with, dated 2024-01-15 and 2024-01-20 (milliseconds since the epoch, UTC). */
  const SeedProduct: string := "test-product-1"
  const SeedReview1: StoredReview := StoredReview(
    "review-1", SeedProduct, 5, Some("Excellent product! Highly recommended."), Some("John D."),
    1705276800000, true, 1, None)
  const SeedReview2: StoredReview := StoredReview(
    "review-2", SeedProduct, 4, Some("Good quality, fast delivery."), Some("Sarah M."),
    1705708800000, true, 1, None)

  /** The message `deleteReview` throws whatever went wrong. */
  const DeleteFailedMessage: string := "Failed to delete review"

  class CommerceToolsService {
    /** `mockReviews`: the reviews of each product. */
    var reviews: map<string, seq<StoredReview>>
    /** The keys of `mockReviews` in insertion order. */
    var productOrder: seq<string>
    /** `reviewIdCounter`: the number in the next created review's id. */
    var idCounter: nat

    /** The store invariant: the key order lists each key once, and every list is well formed. */
    ghost predicate Valid()
      reads this
    {
      && (forall i, j :: 0 <= i < j < |productOrder| ==> productOrder[i] != productOrder[j])
      && (forall p :: p in reviews <==> p in productOrder)
      && WellFormedStore(reviews)
    }

    /** A fresh service: an empty map, the counter at 1, then the seed data. */
    constructor ()
      ensures Valid()
      ensures reviews == map[SeedProduct := [SeedReview1, SeedReview2]]
      ensures productOrder == [SeedProduct]
      ensures idCounter == 1
    {
      reviews := map[];
      productOrder := [];
      idCounter := 1;
      new;
      InitializeMockData();
    }

    /** `initializeMockData`: stores the two seed reviews under the seed product. */
    method InitializeMockData()
      requires Valid()
      modifies this
      ensures Valid()
      ensures reviews == old(reviews)[SeedProduct := [SeedReview1, SeedReview2]]
      ensures productOrder == if SeedProduct in old(reviews) then old(productOrder) else old(productOrder) + [SeedProduct]
      ensures idCounter == old(idCounter)
    {
      SetReviews(SeedProduct, [SeedReview1, SeedReview2]);
    }

    /** `mockReviews.set(p, list)`: a new key goes to the end of the key order, an existing key keeps its place. */
    method SetReviews(p: string, list: seq<StoredReview>)
      requires Valid() && WellFormedList(p, list)
      modifies this
      ensures Valid()
      ensures reviews == old(reviews)[p := list]
      ensures productOrder == if p in old(reviews) then old(productOrder) else old(productOrder) + [p]
      ensures idCounter == old(idCounter)
    {
      if p !in reviews {
        productOrder := productOrder + [p];
      }
      UpdateKeepsWellFormedStore(reviews, p, list);
      reviews := reviews[p := list];
    }

    /** `getProductReviewsFromMock`: the product's list, or an empty one for an unknown product. */
    function ReviewsOf(productId: string): (r: seq<StoredReview>)
      reads this
      ensures productId !in reviews ==> r == []
      ensures Valid() ==> WellFormedList(productId, r)
    {
      if productId in reviews then reviews[productId] else []
    }

    /** `getProductRating` */
    method GetProductRating(productId: string) returns (r: RatingSummary)
      requires Valid()
      ensures r == Aggregate(productId, ReviewsOf(productId))
      ensures r.totalReviews == |ReviewsOf(productId)|
      ensures r.distribution[1] + r.distribution[2] + r.distribution[3] + r.distribution[4] + r.distribution[5] == r.totalReviews
      ensures r.totalReviews == 0 ==> r.averageTenths == 0
      ensures r.totalReviews > 0 ==> 10 * MinRating <= r.averageTenths <= 10 * MaxRating
    {
      var list := ReviewsOf(productId);
      assert InRange(Ratings(list)) by {
        forall i | 0 <= i < |list| ensures MinRating <= Ratings(list)[i] <= MaxRating {
          assert list[i] in list;
        }
      }
      r := Aggregate(productId, list);
      DistributionSumsToTotal(productId, list);
      if list != [] {
        AverageInRange(productId, list);
      }
    }

    /**
     * `getProductReviews`. Filtering makes a copy; without a filter the sort
     * works on the stored array itself, so the stored list is left sorted.
     */
    method GetProductReviews(productId: string, page: int, limit: int, filters: Filters) returns (result: PaginatedReviews)
      requires Valid()
      modifies this
      ensures Valid()
      ensures result == QueryReviews(old(ReviewsOf(productId)), filters, page, limit)
      ensures reviews ==
        if !FilterCopies(filters) && productId in old(reviews)
        then old(reviews)[productId := StableSort(old(reviews[productId]), filters)]
        else old(reviews)
      ensures productOrder == old(productOrder) && idCounter == old(idCounter)
      ensures forall p :: multiset(ReviewsOf(p)) == multiset(old(ReviewsOf(p)))
    {
      var list := ReviewsOf(productId);
      if RatingFilterActive(filters) {
        list := WithRating(list, filters.rating.value);
      }
      if VerifiedFilterActive(filters) {
        list := WithVerified(list, filters.verified.value);
      }
      list := StableSort(list, filters);
      if !FilterCopies(filters) && productId in reviews {
        SortKeepsInvariant(productId, reviews[productId], filters);
        UpdateKeepsWellFormedStore(reviews, productId, list);
        reviews := reviews[productId := list];
      }
      var offset := (page - 1) * limit;
      var pageReviews := JsSlice(list, offset, offset + limit);
      result := PaginatedReviews(pageReviews, |list|, page, limit, offset + |pageReviews| < |list|);
    }

    /** `createReview`, with the creation time passed in. */
    method CreateReview(input: ReviewInput, userId: string, now: int) returns (result: Result<Review, CreateError>)
      requires Valid()
      modifies this
      ensures Valid()
      ensures CheckReview(input, old(ReviewsOf(input.productId)), userId).Some? ==>
        && result == Failure(CheckReview(input, old(ReviewsOf(input.productId)), userId).value)
        && reviews == old(reviews) && productOrder == old(productOrder) && idCounter == old(idCounter)
      ensures CheckReview(input, old(ReviewsOf(input.productId)), userId).None? ==>
        var created := NewReview(input, userId, old(idCounter), now);
        && result == Success(Strip(created))
        && reviews == old(reviews)[input.productId := old(ReviewsOf(input.productId)) + [created]]
        && productOrder == (if input.productId in old(reviews) then old(productOrder) else old(productOrder) + [input.productId])
        && idCounter == old(idCounter) + 1
      ensures forall p :: p != input.productId ==> ReviewsOf(p) == old(ReviewsOf(p))
    {
      var existing := ReviewsOf(input.productId);
      var problem := CheckReview(input, existing, userId);
      if problem.Some? {
        return Failure(problem.value);
      }
      var created := NewReview(input, userId, idCounter, now);
      idCounter := idCounter + 1;
      AcceptedReviewKeepsInvariant(input, existing, userId, idCounter - 1, now);
      SetReviews(input.productId, existing + [created]);
      result := Success(Strip(created));
    }

    /**
     * `deleteReview`: scans the products in key order and splices out the first
     * review with the id from the first list that has one. The version is not used.
     */
    method DeleteReview(reviewId: string, version: int) returns (result: Outcome<string>)
      requires Valid()
      modifies this
      ensures Valid()
      ensures productOrder == old(productOrder) && idCounter == old(idCounter)
      ensures FirstHolder(old(productOrder), old(reviews), reviewId) == -1 ==>
        result == Fail(DeleteFailedMessage) && reviews == old(reviews)
      ensures FirstHolder(old(productOrder), old(reviews), reviewId) >= 0 ==>
        var p := old(productOrder)[FirstHolder(old(productOrder), old(reviews), reviewId)];
        && result == Pass
        && reviews == old(reviews)[p := RemoveAt(old(reviews)[p], FindIndex(old(reviews)[p], reviewId))]
    {
      ghost var holder := FirstHolder(productOrder, reviews, reviewId);
      var i := 0;
      while i < |productOrder|
        invariant 0 <= i <= |productOrder|
        invariant Valid()
        invariant reviews == old(reviews) && productOrder == old(productOrder) && idCounter == old(idCounter)
        invariant holder == -1 || i <= holder
      {
        var p := productOrder[i];
        var list := reviews[p];
        var index := FindIndex(list, reviewId);
        if index != -1 {
          assert holder == i;
          RemoveKeepsWellFormedStore(reviews, p, reviewId);
          reviews := reviews[p := RemoveAt(list, index)];
          return Pass;
        }
        i := i + 1;
      }
      return Fail(DeleteFailedMessage);
    }

    /** `healthCheck`: the store always exists once constructed. */
    method HealthCheck() returns (healthy: bool)
      ensures healthy
    {
      healthy := true;
    }
  }

  /**
   * The counter starts at 1 although the seed data already uses "review-1": the
   * first review created on a fresh service gets that id too, and deleting it by
   * id then removes the seed review, which sits under the earlier key.
   */
  method IdCollision() returns (createdId: string, seedList: seq<StoredReview>, otherList: seq<StoredReview>)
    ensures createdId == SeedReview1.id
    ensures seedList == [SeedReview2]
    ensures |otherList| == 1 && otherList[0].id == createdId
  {
    var service := new CommerceToolsService();
    var input := ReviewInput("other-product", 5, None, None);
    assert service.ReviewsOf("other-product") == [];
    var created := service.CreateReview(input, "user-1", 0);
    assert created.Success?;
    createdId := created.value.id;
    assert createdId == "review-1" by {
      assert Numerals.DecimalString(1) == "1";
    }
    assert FindIndex([SeedReview1, SeedReview2], createdId) == 0;
    var outcome := service.DeleteReview(createdId, 1);
    seedList := service.ReviewsOf(SeedProduct);
    otherList := service.ReviewsOf("other-product");
  }
}
