/**
 * Pure operations on the per-product review lists of the in-process store: the
 * store invariant, the checks `createReview` makes, the records it creates, and
 * the lookup and removal `deleteReview` performs.
 */
module Store {
  import opened Wrappers
  import opened ReviewTypes
  import opened Config
  import opened Numerals
  import opened Query

  // --------------------------------------------------------- store invariant

  /** No submitter has more than one review in the list. */
  predicate UniqueSubmitters(s: seq<StoredReview>) {
    forall i, j :: 0 <= i < j < |s| && s[i].userId.Some? ==> s[i].userId != s[j].userId
  }

  /**
   * The invariant of the list stored under product `p`: every review names `p`
   * and has a rating in the configured range, and each submitter appears at most once.
   */
  predicate WellFormedList(p: string, s: seq<StoredReview>) {
    && (forall r :: r in s ==> r.productId == p && MinRating <= r.rating <= MaxRating)
    && UniqueSubmitters(s)
  }

  /** Every list of the store satisfies the invariant for its own key. */
  predicate WellFormedStore(lists: map<string, seq<StoredReview>>) {
    forall p :: p in lists ==> WellFormedList(p, lists[p])
  }

  /** Replacing one product's list by a well-formed list keeps the whole store well formed. */
  lemma UpdateKeepsWellFormedStore(lists: map<string, seq<StoredReview>>, p: string, list: seq<StoredReview>)
    requires WellFormedStore(lists) && WellFormedList(p, list)
    ensures WellFormedStore(lists[p := list])
  {
  }

  /** Some review in the list was submitted by `userId`. */
  predicate HasSubmitter(s: seq<StoredReview>, userId: string) {
    exists r :: r in s && r.userId == Some(userId)
  }

  /** A first match in the tail, after a head that does not match, is the first match in the whole list. */
  lemma FirstMatchAfterHead(s: seq<StoredReview>, userId: string, x: StoredReview)
    requires s != [] && s[0].userId != Some(userId)
    requires exists k :: 0 <= k < |s[1..]| && s[1..][k] == x && forall i :: 0 <= i < k ==> s[1..][i].userId != Some(userId)
    ensures exists k :: 0 <= k < |s| && s[k] == x && forall i :: 0 <= i < k ==> s[i].userId != Some(userId)
  {
    var k :| 0 <= k < |s[1..]| && s[1..][k] == x && forall i :: 0 <= i < k ==> s[1..][i].userId != Some(userId);
    assert s[k + 1] == x;
    forall i | 0 <= i < k + 1 ensures s[i].userId != Some(userId) {
      if i > 0 {
        assert s[i] == s[1..][i - 1];
      }
    }
  }

  /** `existingProductReviews.find((r) => r.userId === userId)`: the first review by the submitter, if any. */
  function FindSubmitter(s: seq<StoredReview>, userId: string): (r: Option<StoredReview>)
    ensures r.Some? <==> HasSubmitter(s, userId)
    ensures r.Some? ==> r.value in s && r.value.userId == Some(userId)
    ensures r.Some? ==>
      exists k :: 0 <= k < |s| && s[k] == r.value && forall i :: 0 <= i < k ==> s[i].userId != Some(userId)
  {
    if s == [] then None
    else if s[0].userId == Some(userId) then Some(s[0])
    else
      var r := FindSubmitter(s[1..], userId);
      assert forall x :: x in s <==> x == s[0] || x in s[1..] by {
        assert s == [s[0]] + s[1..];
      }
      if r.Some? then FirstMatchAfterHead(s, userId, r.value); r else r
  }

  // ------------------------------------------------------------ createReview

  /** The configured bounds as the error messages print them. */
  lemma BoundNumerals()
    ensures DecimalString(MinRating) == "1" && DecimalString(MaxRating) == "5"
    ensures DecimalString(MaxCommentLength) == "1000"
  {
    assert DigitChar(0) == '0' && DigitChar(1) == '1' && DigitChar(5) == '5';
    assert DecimalString(10) == DecimalString(1) + [DigitChar(0)];
    assert DecimalString(100) == DecimalString(10) + [DigitChar(0)];
    assert DecimalString(1000) == DecimalString(100) + [DigitChar(0)];
  }

  /** Why `createReview` refused a review; `Message` is the text of the thrown error. */
  datatype CreateError = RatingOutOfRange | CommentTooLong | AlreadyReviewed {
    function Message(): (m: string)
      ensures this == RatingOutOfRange ==> m == "Rating must be between 1 and 5"
      ensures this == CommentTooLong ==> m == "Comment must not exceed 1000 characters"
      ensures this == AlreadyReviewed ==> m == "You have already reviewed this product"
    {
      BoundNumerals();
      match this
      case RatingOutOfRange =>
        "Rating must be between " + DecimalString(MinRating) + " and " + DecimalString(MaxRating)
      case CommentTooLong =>
        "Comment must not exceed " + DecimalString(MaxCommentLength) + " characters"
      case AlreadyReviewed =>
        "You have already reviewed this product"
    }
  }

  /** `reviewInput.comment && reviewInput.comment.length > maxCommentLength` */
  predicate CommentExceeds(comment: Option<string>) {
    comment.Some? && |comment.value| > MaxCommentLength
  }

  /** The three checks of `createReview`, in the source's order: rating range, comment length, duplicate submitter. */
  function CheckReview(input: ReviewInput, existing: seq<StoredReview>, userId: string): (e: Option<CreateError>)
    ensures e == None <==>
      MinRating <= input.rating <= MaxRating && !CommentExceeds(input.comment) && !HasSubmitter(existing, userId)
    ensures e == Some(RatingOutOfRange) <==> input.rating < MinRating || input.rating > MaxRating
    ensures e == Some(CommentTooLong) <==>
      MinRating <= input.rating <= MaxRating && CommentExceeds(input.comment)
    ensures e == Some(AlreadyReviewed) <==>
      MinRating <= input.rating <= MaxRating && !CommentExceeds(input.comment) && HasSubmitter(existing, userId)
  {
    if input.rating < MinRating || input.rating > MaxRating then Some(RatingOutOfRange)
    else if CommentExceeds(input.comment) then Some(CommentTooLong)
    else if FindSubmitter(existing, userId).Some? then Some(AlreadyReviewed)
    else None
  }

  /** `review-${counter}` */
  function NewReviewId(counter: nat): string {
    "review-" + DecimalString(counter)
  }

  /** Successive counter values give distinct identifiers. */
  lemma NewReviewIdsDistinct(m: nat, n: nat)
    requires m != n
    ensures NewReviewId(m) != NewReviewId(n)
  {
    DecimalStringInjective(m, n);
    assert NewReviewId(m)[7..] == DecimalString(m);
    assert NewReviewId(n)[7..] == DecimalString(n);
  }

  /** The record `createReview` stores: not a verified purchase, version 1, submitter kept for the duplicate check. */
  function NewReview(input: ReviewInput, userId: string, counter: nat, now: int): (r: StoredReview)
    ensures |r.id| > 7 && r.id[..7] == "review-" && AllDigits(r.id[7..]) && DecimalValue(r.id[7..]) == counter
    ensures Strip(r) == Review(r.id, input.productId, input.rating, input.comment, input.authorName, now, false)
    ensures r.id[7] != '0' || |r.id| == 8
    ensures r.version == 1 && r.userId == Some(userId)
  {
    DecimalRoundTrip(counter);
    assert NewReviewId(counter)[7..] == DecimalString(counter);
    StoredReview(NewReviewId(counter), input.productId, input.rating, input.comment, input.authorName,
                 now, false, 1, Some(userId))
  }

  /** A review that passes the checks can be appended without breaking the list invariant. */
  lemma AcceptedReviewKeepsInvariant(input: ReviewInput, existing: seq<StoredReview>, userId: string, counter: nat, now: int)
    requires WellFormedList(input.productId, existing)
    requires CheckReview(input, existing, userId) == None
    ensures WellFormedList(input.productId, existing + [NewReview(input, userId, counter, now)])
  {
    var x := NewReview(input, userId, counter, now);
    var s := existing + [x];
    forall i, j | 0 <= i < j < |s| && s[i].userId.Some? ensures s[i].userId != s[j].userId {
      if j == |existing| {
        assert s[i] in existing;
      }
    }
  }

  /** Once a submitter's review is stored, a second one for the same product is refused as a duplicate. */
  lemma SecondReviewRefused(input: ReviewInput, again: ReviewInput, existing: seq<StoredReview>, userId: string, counter: nat, now: int)
    requires CheckReview(input, existing, userId) == None
    requires MinRating <= again.rating <= MaxRating && !CommentExceeds(again.comment)
    ensures CheckReview(again, existing + [NewReview(input, userId, counter, now)], userId) == Some(AlreadyReviewed)
  {
    var s := existing + [NewReview(input, userId, counter, now)];
    assert s[|existing|] in s;
  }

  // ------------------------------------------------------------ deleteReview

  /** `reviews.findIndex((r) => r.id === reviewId)`: the first position holding the id, or -1. */
  function FindIndex(s: seq<StoredReview>, id: string): (k: int)
    ensures -1 <= k < |s|
    ensures k == -1 <==> forall i :: 0 <= i < |s| ==> s[i].id != id
    ensures k >= 0 ==> s[k].id == id && forall i :: 0 <= i < k ==> s[i].id != id
  {
    if s == [] then -1
    else if s[0].id == id then 0
    else
      var k := FindIndex(s[1..], id);
      if k == -1 then -1 else k + 1
  }

  /** `reviews.splice(k, 1)` */
  function RemoveAt(s: seq<StoredReview>, k: nat): (r: seq<StoredReview>)
    requires k < |s|
    ensures |r| == |s| - 1
    ensures forall i :: 0 <= i < k ==> r[i] == s[i]
    ensures forall i :: k <= i < |r| ==> r[i] == s[i + 1]
  {
    s[..k] + s[k + 1..]
  }

  /** Removing a review keeps the list invariant. */
  lemma RemoveKeepsInvariant(p: string, s: seq<StoredReview>, k: nat)
    requires k < |s| && WellFormedList(p, s)
    ensures WellFormedList(p, RemoveAt(s, k))
  {
    var r := RemoveAt(s, k);
    forall x | x in r ensures x in s {
      var i :| 0 <= i < |r| && r[i] == x;
      if i >= k {
        assert x == s[i + 1];
      }
    }
    forall i, j | 0 <= i < j < |r| && r[i].userId.Some? ensures r[i].userId != r[j].userId {
      var i', j' := if i < k then i else i + 1, if j < k then j else j + 1;
      assert r[i] == s[i'] && r[j] == s[j'];
    }
  }

  /** Removing the review with the id from one product's list keeps the whole store well formed and its keys. */
  lemma RemoveKeepsWellFormedStore(lists: map<string, seq<StoredReview>>, p: string, id: string)
    requires WellFormedStore(lists) && p in lists && FindIndex(lists[p], id) >= 0
    ensures WellFormedStore(lists[p := RemoveAt(lists[p], FindIndex(lists[p], id))])
    ensures lists[p := RemoveAt(lists[p], FindIndex(lists[p], id))].Keys == lists.Keys
  {
    RemoveKeepsInvariant(p, lists[p], FindIndex(lists[p], id));
    UpdateKeepsWellFormedStore(lists, p, RemoveAt(lists[p], FindIndex(lists[p], id)));
  }

  /**
   * The position, in the store's key order, of the first product whose list
   * holds a review with the id, or -1: where `deleteReview`'s scan stops.
   */
  function FirstHolder(order: seq<string>, lists: map<string, seq<StoredReview>>, id: string): (k: int)
    requires forall p :: p in order ==> p in lists
    ensures -1 <= k < |order|
    ensures k == -1 <==> forall i :: 0 <= i < |order| ==> FindIndex(lists[order[i]], id) == -1
    ensures k >= 0 ==>
      FindIndex(lists[order[k]], id) >= 0 && forall i :: 0 <= i < k ==> FindIndex(lists[order[i]], id) == -1
  {
    if order == [] then -1
    else if FindIndex(lists[order[0]], id) != -1 then 0
    else
      var k := FirstHolder(order[1..], lists, id);
      if k == -1 then -1 else k + 1
  }

  // ------------------------------------------------------- sorting the store

  /** `x`'s submitter, if any, has no review in `t`. */
  predicate NewSubmitter(x: StoredReview, t: seq<StoredReview>) {
    forall y :: y in t && x.userId.Some? ==> y.userId != x.userId
  }

  /** Dropping the first review keeps each submitter unique. */
  lemma TailKeepsUniqueSubmitters(t: seq<StoredReview>)
    requires |t| > 0 && UniqueSubmitters(t)
    ensures UniqueSubmitters(t[1..]) && NewSubmitter(t[0], t[1..])
  {
    var u := t[1..];
    forall i, j | 0 <= i < j < |u| && u[i].userId.Some? ensures u[i].userId != u[j].userId {
      assert u[i] == t[i + 1] && u[j] == t[j + 1];
    }
    forall y | y in u && t[0].userId.Some? ensures y.userId != t[0].userId {
      var m :| 0 <= m < |u| && u[m] == y;
      assert t[m + 1] == y;
    }
  }

  /** Putting a review with a new submitter in front keeps each submitter unique. */
  lemma ConsKeepsUniqueSubmitters(x: StoredReview, t: seq<StoredReview>)
    requires UniqueSubmitters(t) && NewSubmitter(x, t)
    ensures UniqueSubmitters([x] + t)
  {
    var r := [x] + t;
    forall i, j | 0 <= i < j < |r| && r[i].userId.Some? ensures r[i].userId != r[j].userId {
      assert r[j] == t[j - 1] && r[j] in t;
      if i > 0 {
        assert r[i] == t[i - 1];
      }
    }
  }

  /** A submitter new to a list is new to any permutation of it. */
  lemma NewSubmitterPermutation(x: StoredReview, t: seq<StoredReview>, u: seq<StoredReview>)
    requires multiset(t) == multiset(u) && NewSubmitter(x, t)
    ensures NewSubmitter(x, u)
  {
    forall y | y in u ensures y in t {
      assert y in multiset(u);
    }
  }

  /** Inserting a review whose submitter is new keeps each submitter unique. */
  lemma {:induction false} InsertKeepsUniqueSubmitters(x: StoredReview, t: seq<StoredReview>, f: Filters)
    requires UniqueSubmitters(t) && NewSubmitter(x, t)
    ensures UniqueSubmitters(Insert(x, t, f))
  {
    if t == [] {
    } else if SortKey(x, f) <= SortKey(t[0], f) {
      ConsKeepsUniqueSubmitters(x, t);
    } else {
      var rest := Insert(x, t[1..], f);
      TailKeepsUniqueSubmitters(t);
      assert NewSubmitter(x, t[1..]) by {
        forall y | y in t[1..] ensures y in t {
        }
      }
      InsertKeepsUniqueSubmitters(x, t[1..], f);
      assert NewSubmitter(t[0], rest) by {
        forall y | y in rest && t[0].userId.Some? ensures y.userId != t[0].userId {
          assert y in multiset(rest);
          if y == x {
            assert t[0] in t;
          } else {
            assert y in t[1..];
          }
        }
      }
      ConsKeepsUniqueSubmitters(t[0], rest);
    }
  }

  /** Sorting a list keeps the list invariant, so the in-place sort of a read never corrupts the store. */
  lemma {:induction false} SortKeepsInvariant(p: string, s: seq<StoredReview>, f: Filters)
    requires WellFormedList(p, s)
    ensures WellFormedList(p, StableSort(s, f))
  {
    var r := StableSort(s, f);
    forall x | x in r ensures x in s {
      assert x in multiset(r);
    }
    if s != [] {
      var tail := s[1..];
      TailKeepsUniqueSubmitters(s);
      assert WellFormedList(p, tail) by {
        forall x | x in tail ensures x in s {
        }
      }
      SortKeepsInvariant(p, tail, f);
      var sortedTail := StableSort(tail, f);
      NewSubmitterPermutation(s[0], tail, sortedTail);
      InsertKeepsUniqueSubmitters(s[0], sortedTail, f);
    }
  }
}
