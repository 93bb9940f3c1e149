/** The review routes of the backend: one review per user and product, and the
    recomputation of the product's average rating after each new review. */
module ServerReviews {
  import opened Common
  import opened Domain
  import Seqs

  datatype Review = Review(
    id: string,
    userId: string,
    productId: ProductId,
    rating: int,
    comment: string,
    createdAt: int)

  predicate HasReviewed(reviews: seq<Review>, userId: string, pid: ProductId) {
    exists k :: 0 <= k < |reviews| && reviews[k].userId == userId && reviews[k].productId == pid
  }

  /** No user has reviewed the same product twice. */
  predicate OneReviewPerUser(reviews: seq<Review>) {
    forall i, j :: 0 <= i < j < |reviews| ==>
      !(reviews[i].userId == reviews[j].userId && reviews[i].productId == reviews[j].productId)
  }

  function IsFor(pid: ProductId): Review -> bool {
    (rv: Review) => rv.productId == pid
  }

  /** The rating of each review, position by position. */
  function RatingsOf(xs: seq<Review>): (r: seq<int>)
    ensures |r| == |xs| && forall i :: 0 <= i < |xs| ==> r[i] == xs[i].rating
  {
    seq(|xs|, i requires 0 <= i < |xs| => xs[i].rating)
  }

  /** `GET /api/products/{id}/reviews` read down to its ratings: exactly the ratings of
      the product's reviews, in the collection's order. */
  function Ratings(reviews: seq<Review>, pid: ProductId): (r: seq<int>)
    ensures |r| <= |reviews|
    ensures r == RatingsOf(Seqs.Filter(reviews, IsFor(pid)))
    decreases |reviews|
  {
    if |reviews| == 0 then []
    else
      var init := reviews[..|reviews| - 1];
      var front := Ratings(init, pid);
      var last := reviews[|reviews| - 1];
      assert init + [last] == reviews;
      Seqs.FilterAppend(init, [last], IsFor(pid));
      assert [last][1..] == [];
      if last.productId == pid then front + [last.rating] else front
  }

  lemma RatingsSnoc(reviews: seq<Review>, review: Review, pid: ProductId)
    ensures Ratings(reviews + [review], pid) ==
            Ratings(reviews, pid) + if review.productId == pid then [review.rating] else []
  {
    var all := reviews + [review];
    assert all[..|all| - 1] == reviews;
  }

  function Sum(xs: seq<int>): int
    decreases |xs|
  {
    if |xs| == 0 then 0 else Sum(xs[..|xs| - 1]) + xs[|xs| - 1]
  }

  /** Python's `sum(ratings) / len(ratings)`: true division, exact here. */
  function Mean(xs: seq<int>): (m: real)
    requires |xs| > 0
    ensures m * |xs| as real == Sum(xs) as real
  {
    Sum(xs) as real / |xs| as real
  }

  datatype Created = Created(reviews: seq<Review>, products: seq<Product>, review: Review)

  /** The product's statistics once a review is in: an average that times the count
      gives the sum of the ratings, the count itself, and every other field as it was. */
  function WithStats(p: Product, ratings: seq<int>): (r: Product)
    requires |ratings| > 0
    ensures r.averageRating * |ratings| as real == Sum(ratings) as real
    ensures r == p.(averageRating := r.averageRating, totalReviews := |ratings|)
  {
    p.(averageRating := Mean(ratings), totalReviews := |ratings|)
  }

  /** `POST /api/products/{id}/reviews`. A second review by the same user on the same
      product is a 400 and nothing is stored. Otherwise the review is appended under the
      caller's id, and the first product with that id gets `average_rating` = the mean of
      all its ratings and `total_reviews` = their count; every other product is unchanged
      (and a review of a product that does not exist is still stored). */
  function CreateReview(reviews: seq<Review>, db: seq<Product>, userId: string, pid: ProductId,
                        rating: int, comment: string, newId: string, now: int): (r: Result<Created>)
    ensures r.Err? <==> HasReviewed(reviews, userId, pid)
    ensures r.Err? ==> r.error == HttpError(BadRequest, "You have already reviewed this product")
    ensures r.Ok? ==> r.value.review == Review(newId, userId, pid, rating, comment, now)
                      && r.value.reviews == reviews + [r.value.review]
    ensures r.Ok? ==> |r.value.products| == |db|
    ensures r.Ok? ==> forall k :: 0 <= k < |db| && db[k].id != pid ==> r.value.products[k] == db[k]
    ensures r.Ok? ==> forall k :: 0 <= k < |db| && db[k].id == pid && k != FindProductIndex(db, pid).value
                        ==> r.value.products[k] == db[k]
    ensures r.Ok? && FindProductIndex(db, pid).Some? ==>
              var i := FindProductIndex(db, pid).value;
              var ratings := Ratings(r.value.reviews, pid);
              |ratings| > 0 && r.value.products[i] == WithStats(db[i], ratings)
  {
    if HasReviewed(reviews, userId, pid) then
      Err(HttpError(BadRequest, "You have already reviewed this product"))
    else
      var review := Review(newId, userId, pid, rating, comment, now);
      var all := reviews + [review];
      RatingsSnoc(reviews, review, pid);
      var ratings := Ratings(all, pid);
      Ok(Created(all, Restat(db, pid, ratings), review))
  }

  /** `update_one({"id": id}, {"$set": ...})`: the first product with the id takes the new
      statistics; nothing else changes. */
  function Restat(db: seq<Product>, pid: ProductId, ratings: seq<int>): (r: seq<Product>)
    requires |ratings| > 0
    ensures |r| == |db|
    ensures FindProductIndex(db, pid).None? ==> r == db
    ensures FindProductIndex(db, pid).Some? ==>
              var i := FindProductIndex(db, pid).value;
              r == db[i := WithStats(db[i], ratings)]
  {
    match FindProductIndex(db, pid)
    case None => db
    case Some(i) => db[i := WithStats(db[i], ratings)]
  }

  /** Storing a review keeps the one-review-per-user rule. */
  lemma CreateKeepsOnePerUser(reviews: seq<Review>, db: seq<Product>, userId: string, pid: ProductId,
                              rating: int, comment: string, newId: string, now: int)
    requires OneReviewPerUser(reviews)
    requires CreateReview(reviews, db, userId, pid, rating, comment, newId, now).Ok?
    ensures OneReviewPerUser(CreateReview(reviews, db, userId, pid, rating, comment, newId, now).value.reviews)
  {
  }

  /** Each accepted review adds exactly its own rating to the product's ratings, so the
      review count grows by one. */
  lemma CreateAddsOneRating(reviews: seq<Review>, db: seq<Product>, userId: string, pid: ProductId,
                            rating: int, comment: string, newId: string, now: int)
    requires CreateReview(reviews, db, userId, pid, rating, comment, newId, now).Ok?
    ensures Ratings(CreateReview(reviews, db, userId, pid, rating, comment, newId, now).value.reviews, pid)
            == Ratings(reviews, pid) + [rating]
  {
    var all := CreateReview(reviews, db, userId, pid, rating, comment, newId, now).value.reviews;
    assert all[..|all| - 1] == reviews;
  }

  /** The mean lies within the bounds of the ratings, so ratings of 1 to 5 stars give an
      average between 1 and 5. The handler itself does not check the range. */
  lemma {:induction false} MeanWithin(xs: seq<int>, lo: int, hi: int)
    requires |xs| > 0
    requires forall k :: 0 <= k < |xs| ==> lo <= xs[k] <= hi
    ensures lo as real <= Mean(xs) <= hi as real
  {
    SumWithin(xs, lo, hi);
  }

  lemma {:induction false} SumWithin(xs: seq<int>, lo: int, hi: int)
    requires forall k :: 0 <= k < |xs| ==> lo <= xs[k] <= hi
    ensures lo * |xs| <= Sum(xs) <= hi * |xs|
    decreases |xs|
  {
    if |xs| > 0 {
      SumWithin(xs[..|xs| - 1], lo, hi);
    }
  }
}
