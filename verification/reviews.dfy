/** The review handler: a buyer rates a product. The caller's existing review
    is rewritten in place, otherwise a new one is appended; the product's
    rating becomes the mean of its reviews, and the reviewed line of the order
    is flagged. */
module Reviews {
  import opened Model

  const Reviewed := "Reviwed succesfully!"

  /** The body of a review request. `user` is the reviewer as the client sent
      it; the caller's identity comes from the session instead. */
  datatype ReviewRequest = ReviewRequest(user: UserRef, rating: real, comment: string, productId: Id, orderId: Id)

  /** Some review was written by the caller. */
  predicate ReviewedBy(reviews: seq<Review>, callerId: Id) {
    exists i | 0 <= i < |reviews| :: reviews[i].user.id == callerId
  }

  /** The caller's reviews rewritten with the request's rating, comment and
      user; every other review unchanged. */
  function Overwrite(reviews: seq<Review>, callerId: Id, req: ReviewRequest): (r: seq<Review>)
    ensures |r| == |reviews|
    ensures forall i | 0 <= i < |r| ::
      r[i] == if reviews[i].user.id == callerId
              then reviews[i].(rating := req.rating, comment := req.comment, user := req.user)
              else reviews[i]
    decreases |reviews|
  {
    if |reviews| == 0 then []
    else
      var head := if reviews[0].user.id == callerId
                  then reviews[0].(rating := req.rating, comment := req.comment, user := req.user)
                  else reviews[0];
      [head] + Overwrite(reviews[1..], callerId, req)
  }

  /** The review list after the request: rewritten in place when the caller
      has reviewed before, one review longer otherwise. */
  function Upsert(reviews: seq<Review>, callerId: Id, req: ReviewRequest): (r: seq<Review>)
    ensures |r| >= 1
    ensures ReviewedBy(reviews, callerId) ==> r == Overwrite(reviews, callerId, req)
    ensures !ReviewedBy(reviews, callerId) ==>
      && |r| == |reviews| + 1
      && r[..|reviews|] == reviews
      && r[|reviews|] == Review(req.user, req.rating, req.comment, req.productId)
  {
    if ReviewedBy(reviews, callerId) then Overwrite(reviews, callerId, req)
    else reviews + [Review(req.user, req.rating, req.comment, req.productId)]
  }

  function SumRatings(reviews: seq<Review>): real {
    if |reviews| == 0 then 0.0 else reviews[0].rating + SumRatings(reviews[1..])
  }

  /** The cart with every line whose id is `itemId` flagged as reviewed. */
  function MarkReviewed(cart: seq<CartItem>, itemId: Id): (r: seq<CartItem>)
    ensures |r| == |cart|
    ensures forall i | 0 <= i < |r| ::
      r[i] == if cart[i].id == itemId then cart[i].(isReviewed := true) else cart[i]
    decreases |cart|
  {
    if |cart| == 0 then []
    else
      [if cart[0].id == itemId then cart[0].(isReviewed := true) else cart[0]]
      + MarkReviewed(cart[1..], itemId)
  }

  /** PUT /create-new-review, on behalf of the signed-in user `callerId`. A
      missing product fails when its reviews are read; a missing order is
      silently not updated. */
  function CreateReview(st: Store, callerId: Id, req: ReviewRequest): (r: Reply<string>)
    ensures r.media == [] && r.store.shops == st.shops && r.store.nextProductId == st.nextProductId
    ensures r.store.products.Keys == st.products.Keys && |r.store.orders| == |st.orders|
    ensures req.productId !in st.products ==> r == Reply(st, Err(Error(400, NullAccess)), [])
    ensures req.productId in st.products ==>
      var p := st.products[req.productId];
      var reviews := Upsert(p.reviews, callerId, req);
      && r.result == Ok(Reviewed)
      && r.store.products == st.products[req.productId := p.(reviews := reviews,
                                ratings := Some(SumRatings(reviews) / (|reviews| as real)))]
    ensures req.productId in st.products && req.orderId < |st.orders| ==>
      r.store.orders == st.orders[req.orderId := st.orders[req.orderId].(
                          cart := MarkReviewed(st.orders[req.orderId].cart, req.productId))]
    ensures req.orderId >= |st.orders| ==> r.store.orders == st.orders
  {
    if req.productId !in st.products then Reply(st, Err(Error(400, NullAccess)), [])
    else
      var p := st.products[req.productId];
      var reviews := Upsert(p.reviews, callerId, req);
      var rated := p.(reviews := reviews, ratings := Some(SumRatings(reviews) / (|reviews| as real)));
      var orders := if req.orderId < |st.orders|
                    then st.orders[req.orderId := st.orders[req.orderId].(
                           cart := MarkReviewed(st.orders[req.orderId].cart, req.productId))]
                    else st.orders;
      Reply(st.(products := st.products[req.productId := rated], orders := orders), Ok(Reviewed), [])
  }

  /** Every rating lies in [lo, hi]. */
  ghost predicate RatingsWithin(reviews: seq<Review>, lo: real, hi: real) {
    forall i | 0 <= i < |reviews| :: lo <= reviews[i].rating <= hi
  }

  lemma {:induction false} SumRatingsBounds(reviews: seq<Review>, lo: real, hi: real)
    requires RatingsWithin(reviews, lo, hi)
    ensures lo * (|reviews| as real) <= SumRatings(reviews) <= hi * (|reviews| as real)
    decreases |reviews|
  {
    if |reviews| > 0 {
      assert RatingsWithin(reviews[1..], lo, hi) by {
        forall i | 0 <= i < |reviews[1..]| ensures lo <= reviews[1..][i].rating <= hi {
          assert reviews[1..][i] == reviews[i + 1];
        }
      }
      SumRatingsBounds(reviews[1..], lo, hi);
    }
  }

  /** Every rating of `r` is `rating` or one of the ratings of `reviews`. */
  ghost predicate RatingsDrawnFrom(r: seq<Review>, reviews: seq<Review>, rating: real) {
    forall i | 0 <= i < |r| ::
      r[i].rating == rating || exists j | 0 <= j < |reviews| :: r[i].rating == reviews[j].rating
  }

  /** The upsert introduces no rating other than the request's, so it keeps
      every rating in [lo, hi] when the old ones and the new one are. */
  lemma {:induction false} UpsertRatingsWithin(reviews: seq<Review>, callerId: Id, req: ReviewRequest, lo: real, hi: real)
    requires RatingsWithin(reviews, lo, hi) && lo <= req.rating <= hi
    ensures RatingsDrawnFrom(Upsert(reviews, callerId, req), reviews, req.rating)
    ensures RatingsWithin(Upsert(reviews, callerId, req), lo, hi)
  {
    var r := Upsert(reviews, callerId, req);
    forall i | 0 <= i < |r|
      ensures r[i].rating == req.rating || exists j | 0 <= j < |reviews| :: r[i].rating == reviews[j].rating
      ensures lo <= r[i].rating <= hi
    {
      if i < |reviews| {
        if !ReviewedBy(reviews, callerId) { assert r[i] == r[..|reviews|][i]; }
        if r[i].rating != req.rating { assert r[i].rating == reviews[i].rating; }
      }
    }
  }

  /** With the old ratings and the new one within [lo, hi], the product's
      rating after a review is within [lo, hi] too (a mean, not a sum). */
  lemma {:induction false} RatingWithinBounds(st: Store, callerId: Id, req: ReviewRequest, lo: real, hi: real)
    requires req.productId in st.products
    requires RatingsWithin(st.products[req.productId].reviews, lo, hi) && lo <= req.rating <= hi
    ensures var p := CreateReview(st, callerId, req).store.products[req.productId];
      p.ratings.Some? && lo <= p.ratings.value <= hi
  {
    var reviews := Upsert(st.products[req.productId].reviews, callerId, req);
    var p := CreateReview(st, callerId, req).store.products[req.productId];
    assert p.ratings == Some(SumRatings(reviews) / (|reviews| as real));
    UpsertRatingsWithin(st.products[req.productId].reviews, callerId, req, lo, hi);
    MeanOfRatingsWithin(reviews, lo, hi);
  }

  lemma {:induction false} MeanOfRatingsWithin(reviews: seq<Review>, lo: real, hi: real)
    requires |reviews| > 0 && RatingsWithin(reviews, lo, hi)
    ensures lo <= SumRatings(reviews) / (|reviews| as real) <= hi
  {
    SumRatingsBounds(reviews, lo, hi);
    MeanWithin(SumRatings(reviews), |reviews| as real, lo, hi);
  }

  lemma {:induction false} MeanWithin(sum: real, n: real, lo: real, hi: real)
    requires n > 0.0 && lo * n <= sum <= hi * n
    ensures lo <= sum / n <= hi
  {
    var m := sum / n;
    assert m * n == sum;
    assert (m - lo) * n == sum - lo * n;
    assert (hi - m) * n == hi * n - sum;
  }

  lemma {:induction false} OverwriteTwice(reviews: seq<Review>, callerId: Id, req: ReviewRequest)
    requires req.user.id == callerId
    ensures Overwrite(Overwrite(reviews, callerId, req), callerId, req) == Overwrite(reviews, callerId, req)
  {
    var once := Overwrite(reviews, callerId, req);
    var twice := Overwrite(once, callerId, req);
    assert forall i | 0 <= i < |twice| :: twice[i] == once[i];
  }

  lemma {:induction false} UpsertTwice(reviews: seq<Review>, callerId: Id, req: ReviewRequest)
    requires req.user.id == callerId
    ensures Upsert(Upsert(reviews, callerId, req), callerId, req) == Upsert(reviews, callerId, req)
  {
    var once := Upsert(reviews, callerId, req);
    if ReviewedBy(reviews, callerId) {
      OverwriteTwice(reviews, callerId, req);
      var i :| 0 <= i < |reviews| && reviews[i].user.id == callerId;
      assert once[i].user.id == callerId;
    } else {
      assert once[|reviews|].user.id == callerId;
      var last := once[|reviews|];
      assert ReviewedBy(once, callerId);
      var twice := Overwrite(once, callerId, req);
      forall i | 0 <= i < |once| ensures twice[i] == once[i] {
        if i < |reviews| {
          assert once[i] == once[..|reviews|][i] == reviews[i];
        }
      }
    }
  }

  lemma {:induction false} MarkReviewedTwice(cart: seq<CartItem>, itemId: Id)
    ensures MarkReviewed(MarkReviewed(cart, itemId), itemId) == MarkReviewed(cart, itemId)
  {
    var once := MarkReviewed(cart, itemId);
    assert forall i | 0 <= i < |once| :: MarkReviewed(once, itemId)[i] == once[i];
  }

  /** Sending the same review again changes nothing, provided the reviewer in
      the body is the signed-in caller. */
  lemma {:induction false} ReviewTwiceSameAsOnce(st: Store, callerId: Id, req: ReviewRequest)
    requires req.user.id == callerId
    ensures var once := CreateReview(st, callerId, req);
      CreateReview(once.store, callerId, req) == once
  {
    var once := CreateReview(st, callerId, req);
    if req.productId in st.products {
      UpsertTwice(st.products[req.productId].reviews, callerId, req);
      if req.orderId < |st.orders| {
        MarkReviewedTwice(st.orders[req.orderId].cart, req.productId);
      }
    }
  }

  /** The match is against the signed-in caller, but the stored reviewer is
      the one the body names: when they differ, each resubmission appends
      another review. */
  lemma {:induction false} MismatchedReviewerAppendsAgain(st: Store, callerId: Id, req: ReviewRequest)
    requires req.user.id != callerId
    requires req.productId in st.products && !ReviewedBy(st.products[req.productId].reviews, callerId)
    ensures var once := CreateReview(st, callerId, req);
      var twice := CreateReview(once.store, callerId, req);
      |twice.store.products[req.productId].reviews| == |st.products[req.productId].reviews| + 2
  {
    var reviews := st.products[req.productId].reviews;
    var once := Upsert(reviews, callerId, req);
    assert !ReviewedBy(once, callerId) by {
      forall i | 0 <= i < |once| ensures once[i].user.id != callerId {
        if i < |reviews| {
          assert once[i] == once[..|reviews|][i] == reviews[i];
        }
      }
    }
  }
}
