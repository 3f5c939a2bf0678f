/** `createProductReview`: one review per author, appended, with `numReviews`
    and `rating` recomputed from the whole review list. */
module Reviews {
  import opened Outcomes
  import opened Catalog

  const AlreadyReviewedMessage: string := "Product already reviewed"
  const ReviewAdded: string := "Review added"

  /** `reviews.reduce((acc, item) => item.rating + acc, acc)`: the start value
      plus the sum of the ratings. */
  function ReduceRatings(rs: seq<Review>, acc: real): (r: real)
    ensures r == acc + SumRatings(rs)
  {
    if rs == [] then acc else ReduceRatings(rs[1..], rs[0].rating + acc)
  }

  /** Appending a review adds its rating to the sum. */
  lemma {:induction false} SumAppend(rs: seq<Review>, x: Review)
    ensures SumRatings(rs + [x]) == SumRatings(rs) + x.rating
  {
    if rs == [] {
      assert rs + [x] == [x];
    } else {
      assert (rs + [x])[1..] == rs[1..] + [x];
      SumAppend(rs[1..], x);
    }
  }

  /** `reviews.find(r => r.user === user)`: the first review by `user`, if any. */
  function FindReview(rs: seq<Review>, user: UserId): (r: Option<Review>)
    ensures r.Some? ==> r.value in rs && r.value.user == user
    ensures r.None? <==> forall i :: 0 <= i < |rs| ==> rs[i].user != user
  {
    if rs == [] then None
    else if rs[0].user == user then Some(rs[0])
    else FindReview(rs[1..], user)
  }

  /** The author has a review on the product already: `find` returned a review. */
  predicate AlreadyReviewed(p: Product, user: UserId): (b: bool)
    ensures b <==> exists i :: 0 <= i < |p.reviews| && p.reviews[i].user == user
  {
    FindReview(p.reviews, user).Some?
  }

  /** The product after the review is pushed and the aggregates are recomputed.
      The rating is stored as given; no range is enforced. */
  function AddReview(p: Product, author: User, rating: real, comment: string): (q: Product)
    ensures q.reviews == p.reviews + [Review(author.name, rating, comment, author.id)]
    ensures AggregatesConsistent(q)
    ensures q == p.(reviews := q.reviews, numReviews := q.numReviews, rating := q.rating)
  {
    var reviews := p.reviews + [Review(author.name, rating, comment, author.id)];
    p.(reviews := reviews,
       numReviews := |reviews|,
       rating := ReduceRatings(reviews, 0.0) / |reviews| as real)
  }

  /** POST /products/:id/reviews. */
  function CreateProductReview(c: seq<Product>, id: ProductId, author: User, rating: real, comment: string): (r: Reply<string>)
    ensures r.response.Ok? <==> FindIndex(c, id).Some? && !AlreadyReviewed(c[FindIndex(c, id).value], author.id)
    ensures r.response.Fail? ==> r.catalog == c
    ensures r.response == Fail(404, ProductNotFound) <==> !HasId(c, id)
    ensures r.response == Fail(400, AlreadyReviewedMessage) <==>
              FindIndex(c, id).Some? && AlreadyReviewed(c[FindIndex(c, id).value], author.id)
    ensures r.response.Ok? ==> r.response == Ok(201, ReviewAdded)
    ensures r.response.Ok? ==>
              var i := FindIndex(c, id).value;
              && |r.catalog| == |c|
              && (forall j :: 0 <= j < |c| && j != i ==> r.catalog[j] == c[j])
              && r.catalog[i].reviews == c[i].reviews + [Review(author.name, rating, comment, author.id)]
              && AggregatesConsistent(r.catalog[i])
              && r.catalog[i] == c[i].(reviews := r.catalog[i].reviews, numReviews := r.catalog[i].numReviews,
                                       rating := r.catalog[i].rating)
  {
    match FindIndex(c, id)
    case None => Reply(c, Fail(404, ProductNotFound))
    case Some(i) =>
      if AlreadyReviewed(c[i], author.id) then Reply(c, Fail(400, AlreadyReviewedMessage))
      else Reply(c[i := AddReview(c[i], author, rating, comment)], Ok(201, ReviewAdded))
  }

  /** A successful review keeps the catalog well formed: ids stay unique, every
      product's rating is the mean of its reviews and numReviews their count,
      and no author has two reviews on one product. */
  lemma CreateReviewPreservesWellFormed(c: seq<Product>, id: ProductId, author: User, rating: real, comment: string)
    requires WellFormed(c)
    ensures WellFormed(CreateProductReview(c, id, author, rating, comment).catalog)
  {
  }

  /** The new rating is the old mean moved by the new review:
      `(rating * n + x) / (n + 1)` where `n` is the previous count. */
  lemma IncrementalMean(p: Product, author: User, rating: real, comment: string)
    requires AggregatesConsistent(p)
    ensures var q := AddReview(p, author, rating, comment);
            q.numReviews == p.numReviews + 1
            && q.rating == (p.rating * p.numReviews as real + rating) / (p.numReviews + 1) as real
  {
    var q := AddReview(p, author, rating, comment);
    var n := |p.reviews|;
    SumAppend(p.reviews, Review(author.name, rating, comment, author.id));
    if n > 0 {
      assert p.rating * n as real == SumRatings(p.reviews);
    }
  }

  /** Once an author has reviewed a product, a second review by the same author
      is refused with 400 and leaves the catalog, rating and count unchanged. */
  lemma SecondReviewRefused(c: seq<Product>, id: ProductId, author: User, rating: real, comment: string,
                            rating2: real, comment2: string)
    requires CreateProductReview(c, id, author, rating, comment).response.Ok?
    ensures var c1 := CreateProductReview(c, id, author, rating, comment).catalog;
            CreateProductReview(c1, id, author, rating2, comment2) == Reply(c1, Fail(400, AlreadyReviewedMessage))
  {
    var i := FindIndex(c, id).value;
    var c1 := CreateProductReview(c, id, author, rating, comment).catalog;
    assert c1[i].id == id;
    assert forall j :: 0 <= j < |c| ==> c1[j].id == c[j].id;
    FindIndexSameIds(c1, c, id);
    assert c1[i].reviews[|c[i].reviews|].user == author.id;
  }

  /** A product without reviews, reviewed 4 and then 2 by another author,
      ends with two reviews and a rating of 3. */
  lemma TwoReviewsAverage(p: Product, alice: User, bob: User)
    requires p.reviews == [] && alice.id != bob.id
    ensures var q1 := AddReview(p, alice, 4.0, "");
            var q2 := AddReview(q1, bob, 2.0, "");
            && q1.numReviews == 1 && q1.rating == 4.0
            && !AlreadyReviewed(q1, bob.id)
            && q2.numReviews == 2 && q2.rating == 3.0
  {
    var q1 := AddReview(p, alice, 4.0, "");
    assert q1.reviews == [Review(alice.name, 4.0, "", alice.id)];
    assert SumRatings(q1.reviews) == 4.0;
    var q2 := AddReview(q1, bob, 2.0, "");
    assert q2.reviews[1..][1..] == [];
    assert SumRatings(q2.reviews) == 6.0;
  }
}
