/** The paginated listings `getProducts` and `getProductsByCategory`. */
module Listing {
  import opened Outcomes
  import opened Catalog
  import Text
  import Paging

  /** The listing query string. An empty keyword or category is the same as an
      absent one (both are falsy and add no condition to the filter). */
  datatype ListQuery = ListQuery(keyword: string, category: string, pageNumber: Option<nat>)

  /** The JSON body `{ products, page, pages }`. */
  datatype ListPage = ListPage(products: seq<Product>, page: nat, pages: nat)

  const CategoryRequired: string := "Category is required"

  /** The conjunctive filter: a non-empty keyword must occur in the name ignoring
      case, and a non-empty category must equal the product's category. */
  predicate Matches(p: Product, keyword: string, category: string): (b: bool)
    ensures b <==>
              && (keyword == "" || exists i :: Text.OccursIgnoringCaseAt(p.name, keyword, i))
              && (category == "" || p.category == category)
  {
    && (keyword != "" ==> Text.ContainsIgnoringCase(p.name, keyword))
    && (category != "" ==> p.category == category)
  }

  /** The matching products, in catalog order. */
  function Filter(c: seq<Product>, keyword: string, category: string): (r: seq<Product>)
    ensures |r| <= |c|
    ensures forall p :: p in r <==> p in c && Matches(p, keyword, category)
  {
    if c == [] then []
    else (if Matches(c[0], keyword, category) then [c[0]] else []) + Filter(c[1..], keyword, category)
  }

  /** Filtering distributes over concatenation, so it keeps catalog order. */
  lemma {:induction false} FilterAppend(a: seq<Product>, b: seq<Product>, keyword: string, category: string)
    ensures Filter(a + b, keyword, category) == Filter(a, keyword, category) + Filter(b, keyword, category)
    decreases |a|
  {
    if a == [] {
      assert a + b == b;
    } else {
      assert (a + b)[0] == a[0];
      assert (a + b)[1..] == a[1..] + b;
      FilterAppend(a[1..], b, keyword, category);
    }
  }

  /** With neither keyword nor category every product is listed. */
  lemma {:induction false} FilterWithoutConditions(c: seq<Product>)
    ensures Filter(c, "", "") == c
  {
    if c != [] {
      FilterWithoutConditions(c[1..]);
    }
  }

  function ListMatching(c: seq<Product>, keyword: string, category: string, pageNumber: Option<nat>): ListPage
  {
    var page := Paging.ResolvePage(pageNumber);
    var matching := Filter(c, keyword, category);
    ListPage(Paging.PageOf(matching, page), page, Paging.PageCount(|matching|))
  }

  /** GET /products. `pages` depends only on how many products match, never on
      the page asked for; a page past the end is empty. */
  function GetProducts(c: seq<Product>, q: ListQuery): (r: ListPage)
    ensures r.page == Paging.ResolvePage(q.pageNumber)
    ensures |r.products| <= Paging.PageSize
    ensures forall p :: p in r.products ==> p in c && Matches(p, q.keyword, q.category)
    ensures Paging.PageSize * r.pages >= |Filter(c, q.keyword, q.category)|
    ensures r.pages > 0 ==> Paging.PageSize * (r.pages - 1) < |Filter(c, q.keyword, q.category)|
    ensures r.products != [] <==> r.page <= r.pages
  {
    var r := ListMatching(c, q.keyword, q.category, q.pageNumber);
    Paging.PageNonEmptyIff(Filter(c, q.keyword, q.category), r.page);
    r
  }

  /** The products of a listing are the requested page of the filtered catalog,
      and `pages` counts the pages of the whole filtered catalog. */
  lemma GetProductsPage(c: seq<Product>, q: ListQuery)
    ensures GetProducts(c, q).products
            == Paging.PageOf(Filter(c, q.keyword, q.category), Paging.ResolvePage(q.pageNumber))
    ensures GetProducts(c, q).pages == Paging.PageCount(|Filter(c, q.keyword, q.category)|)
  {
  }

  /** Page `n` of a listing is the `n`-th piece of the reference cut of the
      filtered catalog into pages. */
  lemma ListingPageIsChunk(c: seq<Product>, keyword: string, category: string, n: nat)
    requires 1 <= n <= Paging.PageCount(|Filter(c, keyword, category)|)
    ensures |Paging.Chunks(Filter(c, keyword, category))| == Paging.PageCount(|Filter(c, keyword, category)|)
    ensures GetProducts(c, ListQuery(keyword, category, Some(n))).products
            == Paging.Chunks(Filter(c, keyword, category))[n - 1]
  {
    GetProductsPage(c, ListQuery(keyword, category, Some(n)));
    Paging.PagesAreChunks(Filter(c, keyword, category));
  }

  /** Walking the pages 1..pages lists every matching product exactly once, in order. */
  lemma ListingCoversMatches(c: seq<Product>, keyword: string, category: string)
    ensures var matching := Filter(c, keyword, category);
            var pages := GetProducts(c, ListQuery(keyword, category, None)).pages;
            && |Paging.Chunks(matching)| == pages
            && Paging.Flatten(Paging.Chunks(matching)) == matching
            && forall n: nat :: 1 <= n <= pages ==>
                 GetProducts(c, ListQuery(keyword, category, Some(n))).products == Paging.Chunks(matching)[n - 1]
  {
    var matching := Filter(c, keyword, category);
    GetProductsPage(c, ListQuery(keyword, category, None));
    Paging.PagesAreChunks(matching);
    Paging.FlattenChunks(matching);
    forall n: nat | 1 <= n <= Paging.PageCount(|matching|)
      ensures GetProducts(c, ListQuery(keyword, category, Some(n))).products == Paging.Chunks(matching)[n - 1]
    {
      ListingPageIsChunk(c, keyword, category, n);
    }
  }

  /** GET /products/category/:category. An empty category is rejected before any
      lookup; otherwise it is the general listing restricted to that category. */
  function GetProductsByCategory(c: seq<Product>, category: string, pageNumber: Option<nat>): (r: Response<ListPage>)
    ensures r.Fail? <==> category == ""
    ensures r.Fail? ==> r.status == 400 && r.message == CategoryRequired
    ensures r.Ok? ==> r.status == 200 && r.body == GetProducts(c, ListQuery("", category, pageNumber))
    ensures r.Ok? ==> forall p :: p in r.body.products ==> p in c && p.category == category
  {
    if category == "" then Fail(400, CategoryRequired)
    else Ok(200, ListMatching(c, "", category, pageNumber))
  }

  /** Thirteen products in a category: the second page holds the thirteenth alone. */
  lemma SecondPageOfThirteen(c: seq<Product>)
    requires |Filter(c, "", "shoes")| == 13
    ensures var r := GetProductsByCategory(c, "shoes", Some(2));
            && r.Ok? && r.body.page == 2 && r.body.pages == 2
            && r.body.products == [Filter(c, "", "shoes")[12]]
  {
  }
}
