/** The product catalog as the controller sees it: an ordered sequence of
    product documents, each owning its embedded reviews. */
module Catalog {
  import opened Outcomes

  type ProductId = string
  type UserId = string

  /** The authenticated caller: only its id and display name are used. */
  datatype User = User(id: UserId, name: string)

  /** An embedded review; `name` is the author's name copied at creation time.
      `rating` is whatever number the request carried, fractions included. */
  datatype Review = Review(name: string, rating: real, comment: string, user: UserId)

  /** A product document. `rating` and `numReviews` are derived from `reviews`;
      `user` is the admin who created it. `price` and `countInStock` are whatever
      numbers the requests carried, fractions included. */
  datatype Product = Product(
    id: ProductId,
    user: UserId,
    name: string,
    image: string,
    brand: string,
    category: string,
    description: string,
    price: real,
    countInStock: real,
    rating: real,
    numReviews: int,
    reviews: seq<Review>)

  /** The catalog after a handler ran, together with what it answered. */
  datatype Reply<+T> = Reply(catalog: seq<Product>, response: Response<T>)

  const ProductNotFound: string := "Product not found"

  /** Sum of the review ratings, front to back. */
  function SumRatings(rs: seq<Review>): real
  {
    if rs == [] then 0.0 else rs[0].rating + SumRatings(rs[1..])
  }

  /** The arithmetic mean of the review ratings; 0 when there are none. */
  function MeanRating(rs: seq<Review>): real
  {
    if |rs| == 0 then 0.0 else SumRatings(rs) / |rs| as real
  }

  /** `numReviews` counts the reviews and `rating` is their mean. */
  predicate AggregatesConsistent(p: Product)
  {
    p.numReviews == |p.reviews| && p.rating == MeanRating(p.reviews)
  }

  /** At most one review per author. */
  predicate ReviewersDistinct(p: Product)
  {
    forall i, j :: 0 <= i < j < |p.reviews| ==> p.reviews[i].user != p.reviews[j].user
  }

  predicate UniqueIds(c: seq<Product>)
  {
    forall i, j :: 0 <= i < j < |c| ==> c[i].id != c[j].id
  }

  /** The catalog invariant every handler keeps. */
  predicate WellFormed(c: seq<Product>)
  {
    && UniqueIds(c)
    && forall i :: 0 <= i < |c| ==> AggregatesConsistent(c[i]) && ReviewersDistinct(c[i])
  }

  predicate HasId(c: seq<Product>, id: ProductId)
  {
    exists i :: 0 <= i < |c| && c[i].id == id
  }

  /** The position of the first product carrying `id`, as `findById` locates it. */
  function FindIndex(c: seq<Product>, id: ProductId): (r: Option<nat>)
    ensures r.Some? ==> r.value < |c| && c[r.value].id == id
    ensures r.Some? ==> forall j :: 0 <= j < r.value ==> c[j].id != id
    ensures r.None? <==> !HasId(c, id)
  {
    if c == [] then None
    else if c[0].id == id then Some(0)
    else
      match FindIndex(c[1..], id)
      case None => None
      case Some(k) => Some(k + 1)
  }

  /** In a catalog with unique ids, the product found is the only one with that id. */
  lemma FindIndexUnique(c: seq<Product>, id: ProductId, j: nat)
    requires UniqueIds(c)
    requires j < |c| && c[j].id == id
    ensures FindIndex(c, id) == Some(j)
  {
  }

  /** The lookup depends only on the ids: two catalogs whose products carry the
      same ids position by position find every id at the same place. */
  lemma {:induction false} FindIndexSameIds(c: seq<Product>, d: seq<Product>, id: ProductId)
    requires |c| == |d|
    requires forall j :: 0 <= j < |c| ==> c[j].id == d[j].id
    ensures FindIndex(c, id) == FindIndex(d, id)
    decreases |c|
  {
    if c != [] && c[0].id != id {
      FindIndexSameIds(c[1..], d[1..], id);
    }
  }
}
