/**
 * The review query engine behind `getProductReviews`: exact-match filters on
 * rating and verified purchase, a stable sort by rating or by date, and the
 * page slice with its `total` and `hasMore`.
 */
module Query {
  import opened Wrappers
  import opened ReviewTypes

  // ---------------------------------------------------------------- filters

  /** `if (filters?.rating)` is a truthiness test: a rating filter of 0 filters nothing. */
  predicate RatingFilterActive(f: Filters) {
    f.rating.Some? && f.rating.value != 0
  }

  /** `filters?.verified !== undefined` */
  predicate VerifiedFilterActive(f: Filters) {
    f.verified.Some?
  }

  /** Either filter ran, so the list being sorted is a copy and not the stored array. */
  predicate FilterCopies(f: Filters) {
    RatingFilterActive(f) || VerifiedFilterActive(f)
  }

  /** A review passes every active filter. */
  predicate Matches(r: StoredReview, f: Filters) {
    && (RatingFilterActive(f) ==> r.rating == f.rating.value)
    && (VerifiedFilterActive(f) ==> r.isVerifiedPurchase == f.verified.value)
  }

  /** `reviews.filter((r) => r.rating === k)` */
  function WithRating(s: seq<StoredReview>, k: int): (r: seq<StoredReview>)
    ensures |r| <= |s|
    ensures forall x :: x in r <==> x in s && x.rating == k
  {
    if s == [] then [] else (if s[0].rating == k then [s[0]] else []) + WithRating(s[1..], k)
  }

  /** `reviews.filter((r) => r.isVerifiedPurchase === v)` */
  function WithVerified(s: seq<StoredReview>, v: bool): (r: seq<StoredReview>)
    ensures |r| <= |s|
    ensures forall x :: x in r <==> x in s && x.isVerifiedPurchase == v
  {
    if s == [] then [] else (if s[0].isVerifiedPurchase == v then [s[0]] else []) + WithVerified(s[1..], v)
  }

  /** The two filters, applied one after the other as the source does. */
  function ApplyFilters(s: seq<StoredReview>, f: Filters): (r: seq<StoredReview>)
    ensures |r| <= |s|
    ensures forall x :: x in r <==> x in s && Matches(x, f)
  {
    var byRating := if RatingFilterActive(f) then WithRating(s, f.rating.value) else s;
    if VerifiedFilterActive(f) then WithVerified(byRating, f.verified.value) else byRating
  }

  /** Reference definition: the reviews that match every active filter, in their original order. */
  function Matching(s: seq<StoredReview>, f: Filters): (r: seq<StoredReview>)
    ensures |r| <= |s|
    ensures forall x :: x in r <==> x in s && Matches(x, f)
  {
    if s == [] then [] else (if Matches(s[0], f) then [s[0]] else []) + Matching(s[1..], f)
  }

  /** Filtering one list after another is filtering by both at once. */
  lemma {:induction false} FiltersSelectMatching(s: seq<StoredReview>, f: Filters)
    ensures ApplyFilters(s, f) == Matching(s, f)
  {
    if s != [] {
      FiltersSelectMatching(s[1..], f);
      var x, t := s[0], s[1..];
      if RatingFilterActive(f) {
        var k := f.rating.value;
        var h := if x.rating == k then [x] else [];
        assert WithRating(s, k) == h + WithRating(t, k);
        if VerifiedFilterActive(f) {
          var v := f.verified.value;
          if x.rating == k {
            assert (h + WithRating(t, k))[0] == x;
            assert (h + WithRating(t, k))[1..] == WithRating(t, k);
          } else {
            assert h + WithRating(t, k) == WithRating(t, k);
          }
        }
      }
    }
  }

  // ---------------------------------------------------------------- sorting

  /** `filters.sortOrder === 'asc' ? 1 : -1` */
  function Order(f: Filters): int {
    if f.sortOrder == Some(Asc) then 1 else -1
  }

  /** The source's comparator: by rating when `sortBy` is 'rating', otherwise by date with the operands swapped. */
  function Compare(a: StoredReview, b: StoredReview, f: Filters): (c: int)
    ensures f.sortBy == Some(ByRating) ==>
      (c < 0 <==> if f.sortOrder == Some(Asc) then a.rating < b.rating else a.rating > b.rating)
    ensures f.sortBy != Some(ByRating) ==>
      (c < 0 <==> if f.sortOrder == Some(Asc) then a.createdAt > b.createdAt else a.createdAt < b.createdAt)
    ensures c == 0 <==> SortKey(a, f) == SortKey(b, f)
  {
    if f.sortBy == Some(ByRating) then (a.rating - b.rating) * Order(f)
    else (b.createdAt - a.createdAt) * Order(f)
  }

  /**
   * The key the comparator orders by: sorting with the comparator is sorting by
   * this key in ascending order. Date order with 'asc' is newest first.
   */
  function SortKey(r: StoredReview, f: Filters): int {
    if f.sortBy == Some(ByRating) then (if f.sortOrder == Some(Asc) then r.rating else -r.rating)
    else (if f.sortOrder == Some(Asc) then -r.createdAt else r.createdAt)
  }

  /** The comparator's value is the difference of the keys, in all four sort modes. */
  lemma ComparatorIsKeyDifference(a: StoredReview, b: StoredReview, f: Filters)
    ensures Compare(a, b, f) == SortKey(a, f) - SortKey(b, f)
  {
  }

  predicate SortedByKey(s: seq<StoredReview>, f: Filters) {
    forall i, j :: 0 <= i < j < |s| ==> SortKey(s[i], f) <= SortKey(s[j], f)
  }

  /** The reviews whose key is `v`, in their order in `s`: the ties that a stable sort keeps in place. */
  function WithKey(s: seq<StoredReview>, f: Filters, v: int): seq<StoredReview> {
    if s == [] then [] else (if SortKey(s[0], f) == v then [s[0]] else []) + WithKey(s[1..], f, v)
  }

  /** Puts `x` before the first element whose key is not smaller than its own. */
  function Insert(x: StoredReview, t: seq<StoredReview>, f: Filters): (r: seq<StoredReview>)
    ensures multiset(r) == multiset(t) + multiset{x}
  {
    if t == [] then [x]
    else if SortKey(x, f) <= SortKey(t[0], f) then [x] + t
    else
      assert t == [t[0]] + t[1..];
      [t[0]] + Insert(x, t[1..], f)
  }

  /** Inserting into a sorted list keeps it sorted. */
  lemma {:induction false} InsertSorted(x: StoredReview, t: seq<StoredReview>, f: Filters)
    requires SortedByKey(t, f)
    ensures SortedByKey(Insert(x, t, f), f)
  {
    if t != [] && SortKey(x, f) > SortKey(t[0], f) {
      var rest := Insert(x, t[1..], f);
      InsertSorted(x, t[1..], f);
      var r := [t[0]] + rest;
      forall j | 0 < j < |r| ensures SortKey(r[0], f) <= SortKey(r[j], f) {
        var y := r[j];
        assert y in multiset(rest);
        assert y == x || y in multiset(t[1..]);
      }
    }
  }

  /** Inserting `x` adds it at the front of its own tie class and leaves every other class alone. */
  lemma {:induction false} InsertWithKey(x: StoredReview, t: seq<StoredReview>, f: Filters, v: int)
    ensures WithKey(Insert(x, t, f), f, v) == (if SortKey(x, f) == v then [x] else []) + WithKey(t, f, v)
  {
    var r := Insert(x, t, f);
    if t == [] {
    } else if SortKey(x, f) <= SortKey(t[0], f) {
      assert r[0] == x && r[1..] == t;
    } else {
      var rest := Insert(x, t[1..], f);
      InsertWithKey(x, t[1..], f, v);
      assert r[0] == t[0] && r[1..] == rest;
    }
  }

  /** `Array.prototype.sort` with the comparator, which is stable: insertion sort by key. */
  function StableSort(s: seq<StoredReview>, f: Filters): (r: seq<StoredReview>)
    ensures multiset(r) == multiset(s)
    ensures SortedByKey(r, f)
    ensures forall v :: WithKey(r, f, v) == WithKey(s, f, v)
  {
    if s == [] then []
    else
      var sortedTail := StableSort(s[1..], f);
      var r := Insert(s[0], sortedTail, f);
      assert s == [s[0]] + s[1..];
      InsertSorted(s[0], sortedTail, f);
      assert forall v :: WithKey(r, f, v) == WithKey(s, f, v) by {
        forall v ensures WithKey(r, f, v) == WithKey(s, f, v) {
          InsertWithKey(s[0], sortedTail, f, v);
        }
      }
      r
  }

  /** Sorting by rating: non-decreasing for 'asc', non-increasing for anything else. */
  lemma RatingSortDirection(s: seq<StoredReview>, f: Filters, i: nat, j: nat)
    requires f.sortBy == Some(ByRating)
    requires i < j < |StableSort(s, f)|
    ensures var r := StableSort(s, f);
      if f.sortOrder == Some(Asc) then r[i].rating <= r[j].rating else r[i].rating >= r[j].rating
  {
  }

  /** Sorting by date (the default): newest first for 'asc', oldest first for anything else. */
  lemma DateSortDirection(s: seq<StoredReview>, f: Filters, i: nat, j: nat)
    requires f.sortBy != Some(ByRating)
    requires i < j < |StableSort(s, f)|
    ensures var r := StableSort(s, f);
      if f.sortOrder == Some(Asc) then r[i].createdAt >= r[j].createdAt else r[i].createdAt <= r[j].createdAt
  {
  }

  /**
   * A key-sorted list is determined by its tie classes: two sorted lists with
   * the same ties are equal, so `StableSort`'s contract pins its result down.
   */
  lemma {:induction false} SortedTiesDetermine(a: seq<StoredReview>, b: seq<StoredReview>, f: Filters)
    requires SortedByKey(a, f) && SortedByKey(b, f)
    requires forall v :: WithKey(a, f, v) == WithKey(b, f, v)
    ensures a == b
  {
    if a != [] && b == [] {
      WithKeyMembers(a, f, SortKey(a[0], f));
    } else if a == [] && b != [] {
      WithKeyMembers(b, f, SortKey(b[0], f));
    } else if a != [] {
      var ka, kb := SortKey(a[0], f), SortKey(b[0], f);
      WithKeyMembers(a, f, kb);
      WithKeyMembers(b, f, ka);
      WithKeyMembers(b, f, kb);
      WithKeyMembers(a, f, ka);
      assert b[0] in WithKey(a, f, kb);
      assert a[0] in WithKey(b, f, ka);
      SortedHeadIsLeast(a, f, b[0]);
      SortedHeadIsLeast(b, f, a[0]);
      assert ka == kb;
      TiesOfTail(a, f, ka);
      TiesOfTail(b, f, ka);
      forall v ensures WithKey(a[1..], f, v) == WithKey(b[1..], f, v) {
        TiesOfTail(a, f, v);
        TiesOfTail(b, f, v);
      }
      assert SortedByKey(a[1..], f) && SortedByKey(b[1..], f) by {
        forall i, j | 0 <= i < j < |a| - 1 ensures SortKey(a[1..][i], f) <= SortKey(a[1..][j], f) {
          assert a[1..][i] == a[i + 1] && a[1..][j] == a[j + 1];
        }
        forall i, j | 0 <= i < j < |b| - 1 ensures SortKey(b[1..][i], f) <= SortKey(b[1..][j], f) {
          assert b[1..][i] == b[i + 1] && b[1..][j] == b[j + 1];
        }
      }
      SortedTiesDetermine(a[1..], b[1..], f);
      assert a == [a[0]] + a[1..] && b == [b[0]] + b[1..];
    }
  }

  /** Dropping the head removes it from the front of its own tie class and leaves the others alone. */
  lemma TiesOfTail(a: seq<StoredReview>, f: Filters, v: int)
    requires a != []
    ensures SortKey(a[0], f) == v ==> WithKey(a, f, v) != [] && WithKey(a, f, v)[0] == a[0]
    ensures WithKey(a[1..], f, v) == if SortKey(a[0], f) == v then WithKey(a, f, v)[1..] else WithKey(a, f, v)
  {
    var h := if SortKey(a[0], f) == v then [a[0]] else [];
    assert WithKey(a, f, v) == h + WithKey(a[1..], f, v);
    assert (h + WithKey(a[1..], f, v))[|h|..] == WithKey(a[1..], f, v);
  }

  /** The first element of a sorted list has the least key. */
  lemma SortedHeadIsLeast(a: seq<StoredReview>, f: Filters, x: StoredReview)
    requires SortedByKey(a, f) && x in a
    ensures SortKey(a[0], f) <= SortKey(x, f)
  {
    var i :| 0 <= i < |a| && a[i] == x;
  }

  /** A review is among the ties of `v` exactly when it is in the list with key `v`. */
  lemma {:induction false} WithKeyMembers(s: seq<StoredReview>, f: Filters, v: int)
    ensures forall x :: x in WithKey(s, f, v) <==> x in s && SortKey(x, f) == v
  {
    if s != [] {
      WithKeyMembers(s[1..], f, v);
      assert s == [s[0]] + s[1..];
    }
  }

  /** The ties of a concatenation are the ties of each part, in order. */
  lemma {:induction false} WithKeyConcat(a: seq<StoredReview>, b: seq<StoredReview>, f: Filters, v: int)
    ensures WithKey(a + b, f, v) == WithKey(a, f, v) + WithKey(b, f, v)
  {
    if a == [] {
      assert a + b == b;
    } else {
      var h := if SortKey(a[0], f) == v then [a[0]] else [];
      assert (a + b)[0] == a[0] && (a + b)[1..] == a[1..] + b;
      assert WithKey(a + b, f, v) == h + WithKey(a[1..] + b, f, v);
      WithKeyConcat(a[1..], b, f, v);
      assert WithKey(a, f, v) == h + WithKey(a[1..], f, v);
    }
  }

  /** `s` backwards. */
  function Reverse(s: seq<StoredReview>): (r: seq<StoredReview>)
    ensures |r| == |s|
    ensures forall i :: 0 <= i < |s| ==> r[i] == s[|s| - 1 - i]
  {
    if s == [] then [] else Reverse(s[1..]) + [s[0]]
  }

  /** The ties of a reversed list are the reversed ties. */
  lemma {:induction false} WithKeyReverse(s: seq<StoredReview>, f: Filters, v: int)
    ensures WithKey(Reverse(s), f, v) == Reverse(WithKey(s, f, v))
  {
    if s != [] {
      WithKeyReverse(s[1..], f, v);
      WithKeyConcat(Reverse(s[1..]), [s[0]], f, v);
      var h := if SortKey(s[0], f) == v then [s[0]] else [];
      var w := WithKey(s[1..], f, v);
      assert WithKey([s[0]], f, v) == h + WithKey([], f, v);
      if h == [] {
        assert h + w == w;
      } else {
        assert (h + w)[0] == s[0] && (h + w)[1..] == w;
      }
    }
  }

  /** Ascending rating keys are the negated descending ones, so the ties of `v` under one are those of `-v` under the other. */
  lemma {:induction false} WithKeyFlip(s: seq<StoredReview>, asc: Filters, desc: Filters, v: int)
    requires asc.sortBy == Some(ByRating) && asc.sortOrder == Some(Asc)
    requires desc.sortBy == Some(ByRating) && desc.sortOrder != Some(Asc)
    ensures WithKey(s, asc, v) == WithKey(s, desc, -v)
  {
    if s != [] {
      WithKeyFlip(s[1..], asc, desc, v);
    }
  }

  /** No review of the list has key `v`: its tie class is empty. */
  lemma {:induction false} NoTies(s: seq<StoredReview>, f: Filters, v: int)
    requires forall x :: x in s ==> SortKey(x, f) != v
    ensures WithKey(s, f, v) == []
  {
    if s != [] {
      assert s[0] in s;
      NoTies(s[1..], f, v);
    }
  }

  /** No two reviews share a rating. */
  predicate DistinctRatings(s: seq<StoredReview>) {
    forall i, j :: 0 <= i < j < |s| ==> s[i].rating != s[j].rating
  }

  /** With distinct ratings, each rating tie class holds at most one review. */
  lemma {:induction false} AtMostOneTie(s: seq<StoredReview>, f: Filters, v: int)
    requires f.sortBy == Some(ByRating) && f.sortOrder == Some(Asc)
    requires DistinctRatings(s)
    ensures |WithKey(s, f, v)| <= 1
  {
    if s != [] {
      var t := s[1..];
      if s[0].rating == v {
        forall x | x in t ensures SortKey(x, f) != v {
          var m :| 0 <= m < |t| && t[m] == x;
          assert s[m + 1] == x;
        }
        NoTies(t, f, v);
      } else {
        assert DistinctRatings(t) by {
          forall i, j | 0 <= i < j < |t| ensures t[i].rating != t[j].rating {
            assert t[i] == s[i + 1] && t[j] == s[j + 1];
          }
        }
        AtMostOneTie(t, f, v);
      }
    }
  }

  /** A list in descending rating order, reversed, is in ascending rating order. */
  lemma ReverseOfDescending(d: seq<StoredReview>, asc: Filters, desc: Filters)
    requires asc.sortBy == Some(ByRating) && asc.sortOrder == Some(Asc)
    requires desc.sortBy == Some(ByRating) && desc.sortOrder != Some(Asc)
    requires SortedByKey(d, desc)
    ensures SortedByKey(Reverse(d), asc)
  {
    var r := Reverse(d);
    forall i, j | 0 <= i < j < |r| ensures SortKey(r[i], asc) <= SortKey(r[j], asc) {
      assert r[i] == d[|d| - 1 - i] && r[j] == d[|d| - 1 - j];
      assert SortKey(d[|d| - 1 - j], desc) <= SortKey(d[|d| - 1 - i], desc);
    }
  }

  /** With distinct ratings, the descending sort reversed has the same (singleton) tie classes as the ascending sort. */
  lemma ReversedTies(s: seq<StoredReview>, asc: Filters, desc: Filters, v: int)
    requires asc.sortBy == Some(ByRating) && asc.sortOrder == Some(Asc)
    requires desc.sortBy == Some(ByRating) && desc.sortOrder != Some(Asc)
    requires DistinctRatings(s)
    ensures WithKey(Reverse(StableSort(s, desc)), asc, v) == WithKey(StableSort(s, asc), asc, v)
  {
    var d := StableSort(s, desc);
    WithKeyReverse(d, asc, v);
    WithKeyFlip(d, asc, desc, v);
    WithKeyFlip(s, asc, desc, v);
    AtMostOneTie(s, asc, v);
    var w := WithKey(s, asc, v);
    assert WithKey(d, asc, v) == w;
    assert Reverse(w) == w;
  }

  /** When no two reviews share a rating, sorting by rating 'asc' gives exactly the reverse of any other order. */
  lemma RatingOrdersReverse(s: seq<StoredReview>, asc: Filters, desc: Filters)
    requires asc.sortBy == Some(ByRating) && asc.sortOrder == Some(Asc)
    requires desc.sortBy == Some(ByRating) && desc.sortOrder != Some(Asc)
    requires DistinctRatings(s)
    ensures StableSort(s, asc) == Reverse(StableSort(s, desc))
  {
    var d := StableSort(s, desc);
    var r := Reverse(d);
    ReverseOfDescending(d, asc, desc);
    forall v ensures WithKey(r, asc, v) == WithKey(StableSort(s, asc), asc, v) {
      ReversedTies(s, asc, desc, v);
    }
    SortedTiesDetermine(StableSort(s, asc), r, asc);
  }

  // ------------------------------------------------------------- pagination

  function Min(a: int, b: int): int {
    if a <= b then a else b
  }

  /** How `Array.prototype.slice` reads an index: negative counts from the end, then clamped to the length. */
  function SliceIndex(i: int, len: nat): (k: nat)
    ensures k <= len
    ensures 0 <= i ==> k == Min(i, len)
  {
    if i < 0 then (if len + i < 0 then 0 else len + i) else Min(i, len)
  }

  /** `s.slice(start, end)`: the contiguous run of `s` between the two read indices, empty when they cross. */
  function JsSlice<T>(s: seq<T>, start: int, end: int): (r: seq<T>)
    ensures var from, to := SliceIndex(start, |s|), SliceIndex(end, |s|);
      && |r| == (if from < to then to - from else 0)
      && forall i :: 0 <= i < |r| ==> r[i] == s[from + i]
    ensures forall x :: x in r ==> x in s
  {
    var from, to := SliceIndex(start, |s|), SliceIndex(end, |s|);
    if from < to then s[from..to] else []
  }

  /** Page `page` (from 1) of `limit` items: positions `(page-1)*limit` up to `page*limit`, cut off at the end. */
  function PageWindow<T>(s: seq<T>, page: int, limit: int): seq<T>
    requires page >= 1 && limit >= 1
  {
    MulSucc(page, limit);
    s[Min((page - 1) * limit, |s|)..Min(page * limit, |s|)]
  }

  /** The pagination step of `getProductReviews` on the filtered and sorted list. */
  function Paginate(s: seq<StoredReview>, page: int, limit: int): (r: PaginatedReviews)
    ensures r.total == |s| && r.page == page && r.limit == limit
    ensures forall x :: x in r.reviews ==> x in s
    ensures page >= 1 && limit >= 1 ==>
      && r.reviews == s[Min((page - 1) * limit, |s|)..Min(page * limit, |s|)]
      && |r.reviews| <= limit
      && (r.hasMore <==> page * limit < |s|)
    ensures page >= 1 && limit >= 1 && (page - 1) * limit >= |s| ==> r.reviews == [] && !r.hasMore
  {
    var offset := (page - 1) * limit;
    var reviews := JsSlice(s, offset, offset + limit);
    assert offset + limit == page * limit;
    assert page >= 1 && limit >= 1 ==> 0 <= offset;
    PaginatedReviews(reviews, |s|, page, limit, offset + |reviews| < |s|)
  }

  /** Pages 1..p laid end to end. */
  function PagesUpTo(s: seq<StoredReview>, limit: int, p: nat): seq<StoredReview> {
    if p == 0 then [] else PagesUpTo(s, limit, p - 1) + Paginate(s, p, limit).reviews
  }

  /** Consecutive pages neither skip nor repeat a review: the first p pages are the first p*limit reviews. */
  lemma {:induction false} PagesCover(s: seq<StoredReview>, limit: int, p: nat)
    requires limit >= 1
    ensures PagesUpTo(s, limit, p) == s[..Min(p * limit, |s|)]
  {
    if p > 0 {
      PagesCover(s, limit, p - 1);
      var lo, hi := PageBounds(s, p, limit);
      PrefixSplit(s, lo, hi);
    }
  }

  lemma PrefixSplit<T>(s: seq<T>, lo: nat, hi: nat)
    requires lo <= hi <= |s|
    ensures s[..lo] + s[lo..hi] == s[..hi]
  {
  }

  /** Page p (from 1) is the slice between two clamped offsets one limit apart. */
  lemma PageBounds(s: seq<StoredReview>, p: int, limit: int) returns (lo: nat, hi: nat)
    requires p >= 1 && limit >= 1
    ensures lo == Min((p - 1) * limit, |s|) && hi == Min(p * limit, |s|)
    ensures lo <= hi <= |s|
    ensures Paginate(s, p, limit).reviews == s[lo..hi]
  {
    MulSucc(p, limit);
    lo, hi := Min((p - 1) * limit, |s|), Min(p * limit, |s|);
  }

  lemma MulSucc(p: int, limit: int)
    requires p >= 1 && limit >= 1
    ensures p * limit == (p - 1) * limit + limit && 0 <= (p - 1) * limit
  {
  }

  /** Twelve reviews, five to a page: 5, 5, 2 and then none; only the first two pages have more. */
  lemma TwelveReviewsByFive(s: seq<StoredReview>)
    requires |s| == 12
    ensures |Paginate(s, 1, 5).reviews| == 5 && Paginate(s, 1, 5).hasMore
    ensures |Paginate(s, 2, 5).reviews| == 5 && Paginate(s, 2, 5).hasMore
    ensures |Paginate(s, 3, 5).reviews| == 2 && !Paginate(s, 3, 5).hasMore
    ensures |Paginate(s, 4, 5).reviews| == 0 && !Paginate(s, 4, 5).hasMore
  {
  }

  // ------------------------------------------------------------------ query

  /** Any page of a sorted list is sorted. */
  lemma PageSorted(s: seq<StoredReview>, f: Filters, page: int, limit: int)
    requires SortedByKey(s, f)
    ensures SortedByKey(Paginate(s, page, limit).reviews, f)
  {
    var offset := (page - 1) * limit;
    var from, to := SliceIndex(offset, |s|), SliceIndex(offset + limit, |s|);
    if from < to {
      SliceSorted(s, f, from, to);
    }
  }

  lemma SliceSorted(s: seq<StoredReview>, f: Filters, lo: nat, hi: nat)
    requires SortedByKey(s, f) && lo <= hi <= |s|
    ensures SortedByKey(s[lo..hi], f)
  {
    forall i, j | 0 <= i < j < hi - lo ensures SortKey(s[lo..hi][i], f) <= SortKey(s[lo..hi][j], f) {
      assert s[lo..hi][i] == s[lo + i] && s[lo..hi][j] == s[lo + j];
    }
  }

  /** Filter, sort, then cut out the page: the value `getProductReviews` returns. */
  function QueryReviews(s: seq<StoredReview>, f: Filters, page: int, limit: int): (r: PaginatedReviews)
    ensures r.total == |Matching(s, f)|
    ensures forall x :: x in r.reviews ==> x in s && Matches(x, f)
    ensures SortedByKey(r.reviews, f)
    ensures page >= 1 && limit >= 1 ==>
      r.reviews == PageWindow(StableSort(Matching(s, f), f), page, limit)
    ensures page >= 1 && limit >= 1 ==> (r.hasMore <==> page * limit < r.total)
    ensures page >= 1 && limit >= 1 && (page - 1) * limit >= r.total ==> r.reviews == [] && !r.hasMore
  {
    var filtered := ApplyFilters(s, f);
    FiltersSelectMatching(s, f);
    PageOfMatching(s, f, page, limit);
    Paginate(StableSort(filtered, f), page, limit)
  }

  /** The page cut from the sorted matching reviews holds only matching reviews of `s`, in key order. */
  lemma PageOfMatching(s: seq<StoredReview>, f: Filters, page: int, limit: int)
    ensures var sorted := StableSort(Matching(s, f), f);
      && |sorted| == |Matching(s, f)|
      && (forall x :: x in Paginate(sorted, page, limit).reviews ==> x in s && Matches(x, f))
      && SortedByKey(Paginate(sorted, page, limit).reviews, f)
      && (page >= 1 && limit >= 1 ==> Paginate(sorted, page, limit).reviews == PageWindow(sorted, page, limit))
  {
    var sorted := StableSort(Matching(s, f), f);
    assert |multiset(sorted)| == |multiset(Matching(s, f))|;
    forall x | x in Paginate(sorted, page, limit).reviews ensures x in s && Matches(x, f) {
      assert x in multiset(sorted);
    }
    PageSorted(sorted, f, page, limit);
  }
}
