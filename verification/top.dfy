/** `getTopProducts`: the three best-rated products, best first. The store's
    order among equal ratings is unspecified; this model lists the product that
    comes first in the catalog first. */
module TopProducts {
  import opened Catalog
  import opened Paging

  const TopCount: nat := 3

  /** Ratings never increase along the sequence. */
  predicate NonIncreasing(s: seq<Product>)
  {
    forall i, j :: 0 <= i < j < |s| ==> s[i].rating >= s[j].rating
  }

  /** No product of `c` left out of `r` rates above a product in `r`. */
  predicate NoneLeftAbove(c: seq<Product>, r: seq<Product>)
  {
    forall p, q :: p in multiset(c) - multiset(r) && q in r ==> p.rating <= q.rating
  }

  /** The position of the best-rated product, the earliest one among equals. */
  function BestIndex(c: seq<Product>): (i: nat)
    requires |c| > 0
    ensures i < |c|
    ensures forall j :: 0 <= j < |c| ==> c[j].rating <= c[i].rating
    ensures forall j :: 0 <= j < i ==> c[j].rating < c[i].rating
  {
    if |c| == 1 then 0
    else
      var k := BestIndex(c[1..]) + 1;
      if c[0].rating >= c[k].rating then 0 else k
  }

  function RemoveAt(s: seq<Product>, i: nat): (r: seq<Product>)
    requires i < |s|
    ensures |r| == |s| - 1
    ensures multiset(r) == multiset(s) - multiset{s[i]}
  {
    assert s == s[..i] + [s[i]] + s[i + 1..];
    s[..i] + s[i + 1..]
  }

  /** The `k` best-rated products of `c`, best first: drawn from `c`, as many as
      `c` allows, and none of the products left behind rates above any chosen one. */
  function TopRated(c: seq<Product>, k: nat): (r: seq<Product>)
    ensures |r| == Min(k, |c|)
    ensures multiset(r) <= multiset(c)
    ensures NonIncreasing(r)
    ensures NoneLeftAbove(c, r)
    decreases k
  {
    if k == 0 || |c| == 0 then []
    else
      var i := BestIndex(c);
      var rest := RemoveAt(c, i);
      var tail := TopRated(rest, k - 1);
      PrependBest(c, i, tail);
      [c[i]] + tail
  }

  /** Every product of the rest rates at most as high as the best one. */
  lemma RestBelowBest(c: seq<Product>, i: nat, tail: seq<Product>)
    requires i < |c|
    requires forall j :: 0 <= j < |c| ==> c[j].rating <= c[i].rating
    requires multiset(tail) <= multiset(RemoveAt(c, i))
    ensures forall q :: q in tail ==> q.rating <= c[i].rating
  {
    var rest := RemoveAt(c, i);
    forall q | q in tail
      ensures q.rating <= c[i].rating
    {
      assert q in multiset(rest);
      assert q in multiset(c);
    }
  }

  /** Putting the best product in front of a top list of the remaining ones
      gives a top list of the whole catalog. */
  lemma PrependBest(c: seq<Product>, i: nat, tail: seq<Product>)
    requires i < |c|
    requires forall j :: 0 <= j < |c| ==> c[j].rating <= c[i].rating
    requires multiset(tail) <= multiset(RemoveAt(c, i))
    requires NonIncreasing(tail)
    requires NoneLeftAbove(RemoveAt(c, i), tail)
    ensures multiset([c[i]] + tail) <= multiset(c)
    ensures NonIncreasing([c[i]] + tail)
    ensures NoneLeftAbove(c, [c[i]] + tail)
  {
    var rest := RemoveAt(c, i);
    var r := [c[i]] + tail;
    RestBelowBest(c, i, tail);
    assert multiset(r) == multiset{c[i]} + multiset(tail);
    assert multiset(c) == multiset(rest) + multiset{c[i]};
    PrependKeepsOrder(c[i], tail);
    assert multiset(c) - multiset(r) == multiset(rest) - multiset(tail);
    forall p, q | p in multiset(c) - multiset(r) && q in r
      ensures p.rating <= q.rating
    {
      if q == c[i] {
        assert p in multiset(c);
        assert p in c;
      }
    }
  }

  lemma PrependKeepsOrder(top: Product, tail: seq<Product>)
    requires NonIncreasing(tail)
    requires forall q :: q in tail ==> q.rating <= top.rating
    ensures NonIncreasing([top] + tail)
  {
    var r := [top] + tail;
    forall a, b | 0 <= a < b < |r|
      ensures r[a].rating >= r[b].rating
    {
      if a > 0 {
        assert r[a] == tail[a - 1] && r[b] == tail[b - 1];
      } else {
        assert r[b] in tail;
      }
    }
  }

  /** GET /products/top. */
  function GetTopProducts(c: seq<Product>): (r: seq<Product>)
    ensures |r| == Min(TopCount, |c|)
    ensures multiset(r) <= multiset(c)
    ensures NonIncreasing(r)
    ensures NoneLeftAbove(c, r)
  {
    TopRated(c, TopCount)
  }
}
