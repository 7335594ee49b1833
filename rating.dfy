/**
 * The rating aggregator behind `getProductRating`: a five-bucket distribution,
 * the mean rounded to one decimal place, and the number of reviews.
 */
module Rating {
  import opened ReviewTypes
  import opened Config

  /** `reviews.map((r) => r.rating)` */
  function Ratings(reviews: seq<StoredReview>): seq<int> {
    seq(|reviews|, i requires 0 <= i < |reviews| => reviews[i].rating)
  }

  /** `ratings.filter((r) => r === k).length` */
  function Count(rs: seq<int>, k: int): nat {
    if rs == [] then 0 else (if rs[0] == k then 1 else 0) + Count(rs[1..], k)
  }

  /** `ratings.reduce((sum, r) => sum + r, 0)` */
  function Sum(rs: seq<int>): int {
    if rs == [] then 0 else rs[0] + Sum(rs[1..])
  }

  /** Every rating lies in the configured range. */
  predicate InRange(rs: seq<int>) {
    forall i :: 0 <= i < |rs| ==> MinRating <= rs[i] <= MaxRating
  }

  /**
   * `Math.round(sum / n * 10)` in exact arithmetic: the nearest integer to
   * `10 * sum / n`, halves rounded up.
   */
  function RoundedTenths(sum: int, n: nat): (t: int)
    requires n > 0
    ensures n * (2 * t - 1) <= 20 * sum < n * (2 * t + 1)
  {
    var t := (20 * sum + n) / (2 * n);
    assert 2 * n * t <= 20 * sum + n < 2 * n * t + 2 * n;
    t
  }

  /** `getProductRating` on the reviews of one product. */
  function Aggregate(productId: string, reviews: seq<StoredReview>): (r: RatingSummary)
    ensures r.productId == productId && r.totalReviews == |reviews|
    ensures r.distribution.Keys == {1, 2, 3, 4, 5}
    ensures forall k :: k in r.distribution ==> r.distribution[k] == Count(Ratings(reviews), k)
    ensures reviews == [] ==> r.averageTenths == 0
    ensures reviews != [] ==>
      |reviews| * (2 * r.averageTenths - 1) <= 20 * Sum(Ratings(reviews)) < |reviews| * (2 * r.averageTenths + 1)
  {
    var rs := Ratings(reviews);
    var distribution := map[1 := Count(rs, 1), 2 := Count(rs, 2), 3 := Count(rs, 3), 4 := Count(rs, 4), 5 := Count(rs, 5)];
    var averageTenths := if |rs| > 0 then RoundedTenths(Sum(rs), |rs|) else 0;
    RatingSummary(productId, averageTenths, |reviews|, distribution)
  }

  /** When every rating is in 1..5 the five counts add up to the number of ratings. */
  lemma {:induction false} CountsCoverRange(rs: seq<int>)
    requires InRange(rs)
    ensures Count(rs, 1) + Count(rs, 2) + Count(rs, 3) + Count(rs, 4) + Count(rs, 5) == |rs|
  {
    if rs != [] {
      CountsCoverRange(rs[1..]);
    }
  }

  /** Each rating in 1..5 bounds the sum by the count from both sides. */
  lemma {:induction false} SumBounds(rs: seq<int>)
    requires InRange(rs)
    ensures MinRating * |rs| <= Sum(rs) <= MaxRating * |rs|
  {
    if rs != [] {
      SumBounds(rs[1..]);
    }
  }

  /** The distribution of a product's reviews sums to its total. */
  lemma DistributionSumsToTotal(productId: string, reviews: seq<StoredReview>)
    requires InRange(Ratings(reviews))
    ensures var r := Aggregate(productId, reviews);
      r.distribution[1] + r.distribution[2] + r.distribution[3] + r.distribution[4] + r.distribution[5] == r.totalReviews
  {
    CountsCoverRange(Ratings(reviews));
  }

  /** With at least one review the rounded average lies between 1.0 and 5.0. */
  lemma AverageInRange(productId: string, reviews: seq<StoredReview>)
    requires reviews != [] && InRange(Ratings(reviews))
    ensures 10 * MinRating <= Aggregate(productId, reviews).averageTenths <= 10 * MaxRating
  {
    var rs := Ratings(reviews);
    SumBounds(rs);
    TenthsBounds(Sum(rs), |rs|);
  }

  /** A mean of values in 1..5 rounds to between 10 and 50 tenths. */
  lemma TenthsBounds(sum: int, n: nat)
    requires n > 0 && n <= sum <= 5 * n
    ensures 10 <= RoundedTenths(sum, n) <= 50
  {
    var t := RoundedTenths(sum, n);
    assert n * (2 * t - 1) <= n * 100;
    CancelFactor(n, 2 * t - 1, 100);
    assert n * 20 <= n * (2 * t + 1);
    CancelFactor(n, 20, 2 * t + 1);
  }

  lemma CancelFactor(n: int, a: int, b: int)
    requires n > 0 && n * a <= n * b
    ensures a <= b
  {
  }

  /** A product without reviews has a zero summary; nothing is divided. */
  lemma EmptySummary(productId: string)
    ensures Aggregate(productId, []) == RatingSummary(productId, 0, 0, map[1 := 0, 2 := 0, 3 := 0, 4 := 0, 5 := 0])
  {
  }

  /** A count depends only on the multiset of ratings. */
  lemma {:induction false} CountIsMultiplicity(rs: seq<int>, k: int)
    ensures Count(rs, k) == multiset(rs)[k]
  {
    if rs != [] {
      CountIsMultiplicity(rs[1..], k);
      assert rs == [rs[0]] + rs[1..];
    }
  }

  /** Removing the element at `j` takes exactly that element off the sum. */
  lemma {:induction false} SumRemove(rs: seq<int>, j: nat)
    requires j < |rs|
    ensures Sum(rs) == rs[j] + Sum(rs[..j] + rs[j + 1..])
  {
    if j > 0 {
      SumRemove(rs[1..], j - 1);
      assert rs[1..][..j - 1] + rs[1..][j..] == (rs[..j] + rs[j + 1..])[1..];
    } else {
      assert rs[..0] + rs[1..] == rs[1..];
    }
  }

  /** Sums agree on permutations. */
  lemma {:induction false} SumPermutation(a: seq<int>, b: seq<int>)
    requires multiset(a) == multiset(b)
    ensures Sum(a) == Sum(b)
    decreases |a|
  {
    if a != [] {
      assert a[0] in multiset(b);
      var j :| 0 <= j < |b| && b[j] == a[0];
      var rest := b[..j] + b[j + 1..];
      PermutationRemove(a, b, j);
      SumPermutation(a[1..], rest);
      SumRemove(b, j);
    } else {
      assert |multiset(b)| == 0;
    }
  }

  /** The summary does not depend on the order of the reviews. */
  lemma AggregateOrderIndependent(productId: string, a: seq<StoredReview>, b: seq<StoredReview>)
    requires multiset(a) == multiset(b)
    ensures Aggregate(productId, a) == Aggregate(productId, b)
  {
    RatingsPermutation(a, b);
    var ra, rb := Ratings(a), Ratings(b);
    SumPermutation(ra, rb);
    forall k | 1 <= k <= 5 ensures Count(ra, k) == Count(rb, k) {
      CountIsMultiplicity(ra, k);
      CountIsMultiplicity(rb, k);
    }
    assert |a| == |multiset(a)| == |b|;
  }

  /** Projecting permuted reviews onto their ratings gives permuted ratings. */
  lemma {:induction false} RatingsPermutation(a: seq<StoredReview>, b: seq<StoredReview>)
    requires multiset(a) == multiset(b)
    ensures multiset(Ratings(a)) == multiset(Ratings(b))
    decreases |a|
  {
    if a != [] {
      assert a[0] in multiset(b);
      var j :| 0 <= j < |b| && b[j] == a[0];
      var rest := b[..j] + b[j + 1..];
      PermutationRemove(a, b, j);
      RatingsPermutation(a[1..], rest);
      RatingsRemove(b, j);
      assert Ratings(a) == [a[0].rating] + Ratings(a[1..]);
    } else {
      assert |multiset(b)| == 0;
    }
  }

  /** Taking the first element off one side and an equal element off the other keeps a permutation. */
  lemma PermutationRemove<T>(a: seq<T>, b: seq<T>, j: nat)
    requires multiset(a) == multiset(b) && a != [] && j < |b| && b[j] == a[0]
    ensures multiset(a[1..]) == multiset(b[..j] + b[j + 1..])
  {
    var rest := b[..j] + b[j + 1..];
    assert b == b[..j] + [b[j]] + b[j + 1..];
    assert multiset(b) == multiset(b[..j]) + multiset{b[j]} + multiset(b[j + 1..]);
    assert a == [a[0]] + a[1..];
    assert multiset(a) == multiset{a[0]} + multiset(a[1..]);
    assert multiset(rest) == multiset(b[..j]) + multiset(b[j + 1..]);
    assert multiset(a[1..]) == multiset(a) - multiset{a[0]};
    assert multiset(rest) == multiset(b) - multiset{b[j]};
  }

  /** Removing the review at `j` removes its rating from the ratings. */
  lemma RatingsRemove(reviews: seq<StoredReview>, j: nat)
    requires j < |reviews|
    ensures multiset(Ratings(reviews)) == multiset(Ratings(reviews[..j] + reviews[j + 1..])) + multiset{reviews[j].rating}
  {
    var rs := Ratings(reviews);
    var rest := reviews[..j] + reviews[j + 1..];
    assert Ratings(rest) == rs[..j] + rs[j + 1..];
    assert rs == rs[..j] + [rs[j]] + rs[j + 1..];
  }

  /** Ratings 5, 4, 5, 3 average 4.25, which `Math.round` shows as 4.3. */
  lemma WorkedExample(productId: string, reviews: seq<StoredReview>)
    requires Ratings(reviews) == [5, 4, 5, 3]
    ensures Aggregate(productId, reviews).averageTenths == 43
    ensures Aggregate(productId, reviews).distribution == map[1 := 0, 2 := 0, 3 := 1, 4 := 1, 5 := 2]
  {
    assert Sum([5, 4, 5, 3]) == 17;
    assert Count([5, 4, 5, 3], 1) == 0 && Count([5, 4, 5, 3], 2) == 0 && Count([5, 4, 5, 3], 3) == 1;
    assert Count([5, 4, 5, 3], 4) == 1 && Count([5, 4, 5, 3], 5) == 2;
  }
}
