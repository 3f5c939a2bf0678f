# Product catalog controller: a Dafny model

This project models the server-side product catalog handlers of an Express/Mongoose
shop backend (`backend/controllers/productController.js`). The product collection is an
immutable, ordered `seq<Product>`, in the store's natural order. Every handler is a pure
function from the catalog and the request to a reply:

- Read-only handlers return what the handler sends. `getProducts` returns a `ListPage`
  (products, page, pages) and `getTopProducts` a sequence of products; neither can fail.
  `getProductsByCategory` and `getProductById` can fail, so they return a `Response`:
  `Ok(status, body)` or `Fail(status, message)`.
- Mutating handlers return a `Reply(catalog', response)`. These are `deleteProduct`,
  `createProduct`, `updateProduct` and `createProductReview`.

The model has three parts:

- **Listing** (`Listing`, `Paging`, `Text`). The keyword and category filter is a
  conjunction. An empty or absent page number resolves to 1. Each page holds at most 12
  products, and `pages` is `ceil(count / 12)`. The pages 1..pages list every matching
  product exactly once, in order, and a page past the end is empty. `TopProducts` returns
  the three best-rated products, best first.
- **Review aggregation** (`Reviews`). A product gets at most one review per author. A
  successful review is appended at the end. Afterwards `numReviews` is the review count
  and `rating` is the mean of the review ratings. `Catalog.WellFormed` is the catalog
  invariant. Every mutating handler preserves it; for `createProduct` this needs the
  generated id to be fresh.
- **Keyed CRUD** (`ProductCrud`). Lookup, delete and update answer 404 for an unknown id;
  create always succeeds. Update uses the source's "overwrite only when the incoming value
  is truthy" merge.

Modules: `Outcomes` (Option, Response), `Catalog` (data model, invariant, lookup by id),
`Text`, `Paging`, `Listing`, `TopProducts`, `Reviews`, `ProductCrud`.

Behaviour of the code worth knowing:

- A duplicate review gets status 400 "Product already reviewed".
- A review's rating is stored as the number the request carried (`Number(rating)`),
  fractions included. It is not range-checked.
- The keyword is passed to the store as a `$regex` pattern with the `i` option. The model
  treats it as a literal substring (see "Left out").

## Model

| member | source | states |
|---|---|---|
| Paging.ResolvePage | backend/controllers/productController.js:6 | The page is the given number when it is present and non-zero; it is 1 when the parameter is absent, non-numeric or zero. It is always at least 1. |
| Paging.PageCount | backend/controllers/productController.js:31 | `pages` is the least number of 12-entry pages that holds all `count` entries: 12·pages ≥ count, and 12·(pages−1) < count when pages > 0. |
| Paging.PageOf | backend/controllers/productController.js:27-29 | A page has at most 12 entries. It is the contiguous window that starts after 12·(page−1) entries and is as long as the list allows. It is empty when the skip reaches past the end. |
| Paging.PageNonEmptyIff | backend/controllers/productController.js:27-31 | A page is non-empty exactly when its number is at most `pages`. A page past the end is therefore empty, not an error. |
| Paging.FlattenChunks | backend/controllers/productController.js:27-29 | Concatenating the reference cut of a list into 12-entry pieces gives back the list. |
| Paging.PagesAreChunks | backend/controllers/productController.js:26-31 | There are exactly `ceil(n/12)` pieces, and page p is the p-th piece for every p in 1..pages. |
| Text.ContainsIffOccurs | backend/controllers/productController.js:9-10 | The recursive substring search succeeds exactly when the needle occurs at some position of the text. |
| Text.ContainsIgnoringCase | backend/controllers/productController.js:9-11 | A case-insensitive match holds exactly when some window of the name equals the keyword up to ASCII case. |
| Text.KeywordCaseIrrelevant | backend/controllers/productController.js:11 | Lower-casing the keyword first does not change whether it matches. |
| Listing.Matches | backend/controllers/productController.js:7-24 | The filter is the conjunction of two conditions: a non-empty keyword occurs in the name ignoring case (some window of the name equals it up to case), and a non-empty category equals the product's category. An empty keyword or category adds no condition. |
| Listing.Filter | backend/controllers/productController.js:21-27 | The listed products are exactly the catalog's products that satisfy the filter, and there are no more of them than catalog entries. |
| Listing.FilterAppend | backend/controllers/productController.js:27 | Filtering distributes over concatenation, so matching products keep their catalog order. |
| Listing.FilterWithoutConditions | backend/controllers/productController.js:7-24 | With neither keyword nor category, every product matches and the whole catalog is listed. |
| Listing.GetProducts | backend/controllers/productController.js:4-32 | `page` echoes the resolved page number. At most 12 products are returned, all from the catalog and all matching. `pages` is `ceil(count/12)` of the full filtered count, whatever page was asked for. The product list is non-empty exactly when page ≤ pages. |
| Listing.ListingPageIsChunk | backend/controllers/productController.js:27-29 | Page n of a listing, for n in 1..pages, is the n-th piece of the reference cut of the filtered catalog into 12-entry pieces. |
| Listing.ListingCoversMatches | backend/controllers/productController.js:26-31 | Requesting pages 1..pages in turn yields every matching product exactly once, in catalog order. |
| Listing.GetProductsByCategory | backend/controllers/productController.js:160-176 | It fails with 400 "Category is required" exactly when the category is empty. Otherwise it is the general listing with only that category, so every returned product has that category. |
| Listing.SecondPageOfThirteen | backend/controllers/productController.js:170-175 | With 13 products in the category, page 2 holds only the 13th product, with page = 2 and pages = 2. |
| Catalog.FindIndex | backend/controllers/productController.js:36 | The lookup returns the first position carrying the id. It returns nothing exactly when no product has that id. |
| Catalog.FindIndexUnique | backend/controllers/productController.js:36 | When ids are unique, the lookup finds the one product that has the id. |
| Catalog.FindIndexSameIds | backend/controllers/productController.js:117 | The lookup depends only on the ids: catalogs with the same ids position by position find every id at the same place, whatever else differs. |
| TopProducts.BestIndex | backend/controllers/productController.js:155 | The chosen product rates at least as high as every product, and strictly higher than every product before it. |
| TopProducts.TopRated | backend/controllers/productController.js:155 | It returns min(k, n) products drawn from the catalog as a sub-multiset, in non-increasing rating order. No product left out rates above any product chosen. |
| TopProducts.GetTopProducts | backend/controllers/productController.js:154-158 | It returns the min(3, n) best-rated products, best first, all drawn from the catalog. |
| Reviews.ReduceRatings | backend/controllers/productController.js:143 | The `reduce` over the reviews with start value `acc` equals `acc` plus the independently defined sum of the ratings. |
| Reviews.FindReview | backend/controllers/productController.js:121-123 | `find` returns a review by the caller from the product's reviews, and returns nothing exactly when no review has the caller as author. |
| Reviews.AlreadyReviewed | backend/controllers/productController.js:121-125 | The product counts as already reviewed exactly when some review has the caller as author. |
| Reviews.SumAppend | backend/controllers/productController.js:138-143 | Appending a review adds exactly its rating to the rating sum. |
| Reviews.AddReview | backend/controllers/productController.js:130-144 | Exactly one review is appended after the existing ones. The result satisfies numReviews = count and rating = mean. Every other field is unchanged. |
| Reviews.CreateProductReview | backend/controllers/productController.js:114-152 | It succeeds exactly when the product exists and the caller has not reviewed it. An unknown id gives 404. An author who already reviewed the product gets 400. Both failures leave the catalog unchanged. On success the reply is 201 "Review added", only the found product changes, its reviews gain the new one at the end, and its aggregates are consistent. Every other field of that product (id, owner, name, image, brand, category, description, price, countInStock) is unchanged. |
| Reviews.CreateReviewPreservesWellFormed | backend/controllers/productController.js:119-146 | A well-formed catalog stays well formed: ids stay unique, every rating is the mean of its reviews, every numReviews is the review count, and no author has two reviews on one product. |
| Reviews.IncrementalMean | backend/controllers/productController.js:138-144 | Starting from consistent aggregates, the recomputed rating equals (rating·n + new)/(n+1), and the count grows by one. |
| Reviews.SecondReviewRefused | backend/controllers/productController.js:121-128 | In any catalog, after a successful review, a second review by the same author fails with 400 and leaves the catalog unchanged. |
| Reviews.TwoReviewsAverage | backend/controllers/productController.js:131-144 | Reviews of 4 and then 2 from different authors give numReviews 1 and rating 4.0, then numReviews 2 and rating 3.0. |
| ProductCrud.GetProductById | backend/controllers/productController.js:35-44 | It succeeds with 200 exactly when some product has the id, and returns a catalog product with that id. Otherwise it fails with 404 "Product not found". |
| ProductCrud.DeleteProduct | backend/controllers/productController.js:49-59 | It succeeds with 200 "Product removed" exactly when the id exists, and removes exactly that product: one entry fewer, the multiset minus that product, order kept. An unknown id gives 404 and an unchanged catalog. |
| ProductCrud.DeleteRemovesExactly | backend/controllers/productController.js:50-54 | In a well-formed catalog the deleted id can no longer be found. Every other product remains, and the catalog stays well formed. |
| ProductCrud.SampleProduct | backend/controllers/productController.js:62-72 | The placeholder document carries the given id and owner, has no reviews and rating 0, and satisfies the mean/count invariant and one review per author. |
| ProductCrud.CreateProduct | backend/controllers/productController.js:61-76 | It answers 201 and appends one new product to the catalog. The product has the fresh id and the caller as owner. It has name "Sample name", image "/images/sample.jpg", brand "Sample brand", category "Sample category" and description "Sample description". Its price is 0, countInStock 0, numReviews 0 and rating 0, it has no reviews, and its aggregates are consistent. |
| ProductCrud.CreateThenGet | backend/controllers/productController.js:61-76 | With a fresh id, the catalog stays well formed, and a lookup of the new id returns the created product. |
| ProductCrud.Merge | backend/controllers/productController.js:94-102 | The merge never changes id, owner, reviews, rating or numReviews. |
| ProductCrud.MergeFieldwise | backend/controllers/productController.js:95-101 | Each of the seven editable fields takes the incoming value exactly when that value is truthy, and keeps the old value otherwise. |
| ProductCrud.MergeUnchangedIff | backend/controllers/productController.js:95-101 | The product is unchanged exactly when every truthy incoming value already equals the current one. An all-falsy body is therefore a no-op. |
| ProductCrud.MergeIdempotent | backend/controllers/productController.js:95-101 | Applying the same update twice gives the same product as applying it once. |
| ProductCrud.MergeNeverClears | backend/controllers/productController.js:95-101 | An update cannot clear a field: a non-empty text stays non-empty and a non-zero number stays non-zero. |
| ProductCrud.UpdateProduct | backend/controllers/productController.js:81-109 | It succeeds with 200 exactly when the id exists, and replaces only that product with the merged one. An unknown id gives 404 and an unchanged catalog. |
| ProductCrud.UpdateThenGet | backend/controllers/productController.js:92-104 | The catalog stays well formed, and a lookup afterwards returns the updated product. |

## Left out

- HTTP and Express wiring (`asyncHandler`, `res.status().json()`), authentication, and
  the admin check. The caller is a `User` value (id and name). Errors are `Fail` responses
  carrying the status and message.
- Mongoose persistence and ObjectId generation. `createProduct` takes the fresh id as a
  parameter. Ids are strings compared by equality, which stands for the source's
  `toString()` comparison. Malformed ids, and the CastError they raise in the store, are
  not modelled.
- The product schema (`productModel.js`) is not part of this model. A new product's
  `rating` of 0 and empty review list are assumed schema defaults, and so are review
  timestamps.
- Paging.ResolvePage: `Number(pageNumber)` is modelled as an optional natural number, so
  negative and fractional page numbers are not modelled.
- Text.ContainsIgnoringCase: the keyword is a literal substring. Regular-expression
  metacharacters are not interpreted, and case folding covers ASCII letters only.
- TopProducts.GetTopProducts: among equal ratings the store's order is unspecified. The
  model lists catalog order (earliest first), and no contract states this tie-break.
- Product and review ratings are mathematical reals. The floating-point rounding of the
  source's sum and division is not modelled, and neither is `Number(rating)` yielding
  NaN for non-numeric input.
- The update body (`ProductPatch`): each field is present or absent, text fields as
  strings and `price` and `countInStock` as real numbers (fractions kept, as `||` stores
  them). Non-string and non-number JSON values in the body, and NaN, are not modelled.
- Concurrency: the read-modify-write of `product.save()` is modelled as a single atomic
  step.
- The client-side Redux actions (`frontend/src/actions/productActions.js`) are request
  plumbing around HTTP calls and are not modelled.
