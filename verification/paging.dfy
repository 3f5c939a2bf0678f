/** Fixed-size pagination of a listing: resolve the requested page number,
    skip the earlier pages, cap the result at one page, count the pages. */
module Paging {
  import opened Outcomes

  const PageSize: nat := 12

  function Min(a: int, b: int): int
  {
    if a <= b then a else b
  }

  /** `Number(pageNumber) || 1`: an absent, non-numeric or zero page number means page 1.
      `None` stands for an absent or non-numeric parameter. */
  function ResolvePage(pageNumber: Option<nat>): (page: nat)
    ensures page >= 1
    ensures pageNumber.Some? && pageNumber.value != 0 ==> page == pageNumber.value
    ensures pageNumber.None? || pageNumber.value == 0 ==> page == 1
  {
    match pageNumber
    case Some(n) => if n != 0 then n else 1
    case None => 1
  }

  /** The number of entries before `page`. */
  function Skip(page: nat): nat
    requires page >= 1
  {
    PageSize * (page - 1)
  }

  /** `Math.ceil(count / pageSize)`. */
  function PageCount(count: nat): (pages: nat)
    ensures PageSize * pages >= count
    ensures pages > 0 ==> PageSize * (pages - 1) < count
  {
    (count + PageSize - 1) / PageSize
  }

  /** The store's `skip(n)`: nothing is left when `n` passes the end. */
  function Drop<T>(s: seq<T>, n: nat): seq<T>
  {
    if n >= |s| then [] else s[n..]
  }

  /** The store's `limit(n)`. */
  function Take<T>(s: seq<T>, n: nat): seq<T>
  {
    if n >= |s| then s else s[..n]
  }

  /** The entries shown on `page`: skip the earlier pages, then cap at one page. */
  function PageOf<T>(items: seq<T>, page: nat): (r: seq<T>)
    requires page >= 1
    ensures |r| <= PageSize
    ensures Skip(page) >= |items| ==> r == []
    ensures Skip(page) < |items| ==>
              && |r| == Min(PageSize, |items| - Skip(page))
              && r == items[Skip(page)..Skip(page) + |r|]
  {
    Take(Drop(items, Skip(page)), PageSize)
  }

  /** A page is non-empty exactly when it is one of the first `PageCount` pages,
      so a page past the end is empty and not an error. */
  lemma PageNonEmptyIff<T>(items: seq<T>, page: nat)
    requires page >= 1
    ensures PageOf(items, page) != [] <==> page <= PageCount(|items|)
  {
    var pages := PageCount(|items|);
    if page <= pages {
      assert Skip(page) <= Skip(pages) < |items|;
    }
  }

  /** Reference definition: the list cut into consecutive pieces of one page each. */
  function Chunks<T>(items: seq<T>): seq<seq<T>>
    decreases |items|
  {
    if items == [] then []
    else if |items| <= PageSize then [items]
    else [items[..PageSize]] + Chunks(items[PageSize..])
  }

  function Flatten<T>(ss: seq<seq<T>>): seq<T>
  {
    if ss == [] then [] else ss[0] + Flatten(ss[1..])
  }

  /** Putting the pieces back together gives the whole list. */
  lemma {:induction false} FlattenChunks<T>(items: seq<T>)
    ensures Flatten(Chunks(items)) == items
    decreases |items|
  {
    if items != [] && |items| > PageSize {
      FlattenChunks(items[PageSize..]);
      assert Chunks(items)[1..] == Chunks(items[PageSize..]);
      assert items == items[..PageSize] + items[PageSize..];
    }
  }

  /** Dropping one page from the front shifts every later page down by one. */
  lemma PageShift<T>(items: seq<T>, page: nat)
    requires page >= 1 && |items| > PageSize
    ensures PageOf(items, page + 1) == PageOf(items[PageSize..], page)
  {
    assert Skip(page + 1) == PageSize + Skip(page);
  }

  /** Page `p` is the `p`-th piece, and there are exactly `PageCount` pieces:
      the pages 1..PageCount together list every entry once, in order. */
  lemma {:induction false} PagesAreChunks<T>(items: seq<T>)
    ensures |Chunks(items)| == PageCount(|items|)
    ensures forall p :: 1 <= p <= PageCount(|items|) ==> PageOf(items, p) == Chunks(items)[p - 1]
    decreases |items|
  {
    if items == [] {
    } else if |items| <= PageSize {
      assert PageCount(|items|) == 1;
    } else {
      var rest := items[PageSize..];
      PagesAreChunks(rest);
      assert PageCount(|items|) == PageCount(|rest|) + 1;
      forall p | 1 <= p <= PageCount(|items|)
        ensures PageOf(items, p) == Chunks(items)[p - 1]
      {
        if p > 1 {
          PageShift(items, p - 1);
        }
      }
    }
  }
}
