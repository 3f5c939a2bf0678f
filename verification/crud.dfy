/** Keyed handlers: `getProductById`, `deleteProduct`, `createProduct` and
    `updateProduct` with its keep-unless-truthy merge. */
module ProductCrud {
  import opened Outcomes
  import opened Catalog

  const ProductRemoved: string := "Product removed"

  /** GET /products/:id. */
  function GetProductById(c: seq<Product>, id: ProductId): (r: Response<Product>)
    ensures r.Ok? <==> HasId(c, id)
    ensures r.Ok? ==> r.status == 200 && r.body in c && r.body.id == id
    ensures r.Fail? ==> r.status == 404 && r.message == ProductNotFound
  {
    match FindIndex(c, id)
    case None => Fail(404, ProductNotFound)
    case Some(i) => Ok(200, c[i])
  }

  /** DELETE /products/:id: removes the product found and nothing else. */
  function DeleteProduct(c: seq<Product>, id: ProductId): (r: Reply<string>)
    ensures r.response.Ok? <==> HasId(c, id)
    ensures r.response.Ok? ==> r.response == Ok(200, ProductRemoved)
    ensures r.response.Fail? ==> r.response == Fail(404, ProductNotFound) && r.catalog == c
    ensures r.response.Ok? ==>
              var i := FindIndex(c, id).value;
              && |r.catalog| == |c| - 1
              && multiset(r.catalog) == multiset(c) - multiset{c[i]}
              && r.catalog == c[..i] + c[i + 1..]
  {
    match FindIndex(c, id)
    case None => Reply(c, Fail(404, ProductNotFound))
    case Some(i) =>
      assert c == c[..i] + [c[i]] + c[i + 1..];
      Reply(c[..i] + c[i + 1..], Ok(200, ProductRemoved))
  }

  /** In a well-formed catalog, deleting removes exactly the product with that
      id: afterwards it cannot be found, every other product remains, and the
      catalog stays well formed. */
  lemma DeleteRemovesExactly(c: seq<Product>, id: ProductId)
    requires WellFormed(c) && HasId(c, id)
    ensures var c' := DeleteProduct(c, id).catalog;
            && WellFormed(c')
            && GetProductById(c', id) == Fail(404, ProductNotFound)
            && forall p :: p in c ==> (p in c' <==> p.id != id)
  {
  }

  /** The document `createProduct` builds: fixed placeholder fields, owned by the
      caller, no stock, no reviews. `rating` starts at the schema default 0. */
  function SampleProduct(id: ProductId, owner: UserId): (p: Product)
    ensures p.id == id && p.user == owner
    ensures AggregatesConsistent(p) && ReviewersDistinct(p)
    ensures p.reviews == [] && p.rating == 0.0
  {
    Product(
      id := id,
      user := owner,
      name := "Sample name",
      image := "/images/sample.jpg",
      brand := "Sample brand",
      category := "Sample category",
      description := "Sample description",
      price := 0.0,
      countInStock := 0.0,
      rating := 0.0,
      numReviews := 0,
      reviews := [])
  }

  /** POST /products. `freshId` is the identifier the store generates. */
  function CreateProduct(c: seq<Product>, freshId: ProductId, owner: UserId): (r: Reply<Product>)
    ensures r.response.Ok? && r.response.status == 201
    ensures r.catalog == c + [r.response.body]
    ensures var p := r.response.body;
            && p.id == freshId && p.user == owner
            && p.name == "Sample name" && p.image == "/images/sample.jpg"
            && p.brand == "Sample brand" && p.category == "Sample category"
            && p.description == "Sample description"
            && p.price == 0.0 && p.countInStock == 0.0
            && p.reviews == [] && p.numReviews == 0 && p.rating == 0.0
            && AggregatesConsistent(p)
  {
    var p := SampleProduct(freshId, owner);
    Reply(c + [p], Ok(201, p))
  }

  /** A created product is well formed, keeps the catalog well formed when its
      id is fresh, and is what a lookup of that id then returns. */
  lemma CreateThenGet(c: seq<Product>, freshId: ProductId, owner: UserId)
    requires WellFormed(c) && !HasId(c, freshId)
    ensures var r := CreateProduct(c, freshId, owner);
            && WellFormed(r.catalog)
            && GetProductById(r.catalog, freshId) == Ok(200, r.response.body)
  {
    var r := CreateProduct(c, freshId, owner);
    var c' := r.catalog;
    assert c'[|c|] == r.response.body;
    assert forall j :: 0 <= j < |c| ==> c'[j] == c[j];
    FindIndexUnique(c', freshId, |c|);
  }

  /** The fields of the PUT body; `None` is an absent (undefined or null) field. */
  datatype ProductPatch = ProductPatch(
    name: Option<string>,
    price: Option<real>,
    description: Option<string>,
    image: Option<string>,
    brand: Option<string>,
    category: Option<string>,
    countInStock: Option<real>)

  /** JavaScript truthiness of a text field: present and not empty. */
  predicate TruthyText(v: Option<string>)
  {
    v.Some? && v.value != ""
  }

  /** JavaScript truthiness of a numeric field: present and not zero. */
  predicate TruthyReal(v: Option<real>)
  {
    v.Some? && v.value != 0.0
  }

  /** `incoming || current` for text. */
  function OrText(incoming: Option<string>, current: string): string
  {
    if TruthyText(incoming) then incoming.value else current
  }

  function OrReal(incoming: Option<real>, current: real): real
  {
    if TruthyReal(incoming) then incoming.value else current
  }

  /** Overwrite each editable field by its incoming value when that value is
      truthy; the identity, owner and review data are never touched. */
  function Merge(p: Product, d: ProductPatch): (q: Product)
    ensures q.id == p.id && q.user == p.user
    ensures q.reviews == p.reviews && q.rating == p.rating && q.numReviews == p.numReviews
  {
    p.(name := OrText(d.name, p.name),
       price := OrReal(d.price, p.price),
       description := OrText(d.description, p.description),
       image := OrText(d.image, p.image),
       brand := OrText(d.brand, p.brand),
       category := OrText(d.category, p.category),
       countInStock := OrReal(d.countInStock, p.countInStock))
  }

  /** Each editable field ends up as the incoming value exactly when that value
      is truthy, and as the old value otherwise. */
  lemma MergeFieldwise(p: Product, d: ProductPatch)
    ensures var q := Merge(p, d);
            && (TruthyText(d.name) ==> q.name == d.name.value) && (!TruthyText(d.name) ==> q.name == p.name)
            && (TruthyReal(d.price) ==> q.price == d.price.value) && (!TruthyReal(d.price) ==> q.price == p.price)
            && (TruthyText(d.description) ==> q.description == d.description.value)
            && (!TruthyText(d.description) ==> q.description == p.description)
            && (TruthyText(d.image) ==> q.image == d.image.value) && (!TruthyText(d.image) ==> q.image == p.image)
            && (TruthyText(d.brand) ==> q.brand == d.brand.value) && (!TruthyText(d.brand) ==> q.brand == p.brand)
            && (TruthyText(d.category) ==> q.category == d.category.value)
            && (!TruthyText(d.category) ==> q.category == p.category)
            && (TruthyReal(d.countInStock) ==> q.countInStock == d.countInStock.value)
            && (!TruthyReal(d.countInStock) ==> q.countInStock == p.countInStock)
  {
  }

  /** The merge leaves a product unchanged exactly when every truthy incoming
      value already equals the current one; in particular an all-falsy body is a no-op. */
  lemma MergeUnchangedIff(p: Product, d: ProductPatch)
    ensures Merge(p, d) == p <==>
              && (TruthyText(d.name) ==> d.name.value == p.name)
              && (TruthyReal(d.price) ==> d.price.value == p.price)
              && (TruthyText(d.description) ==> d.description.value == p.description)
              && (TruthyText(d.image) ==> d.image.value == p.image)
              && (TruthyText(d.brand) ==> d.brand.value == p.brand)
              && (TruthyText(d.category) ==> d.category.value == p.category)
              && (TruthyReal(d.countInStock) ==> d.countInStock.value == p.countInStock)
  {
    var q := Merge(p, d);
    if q == p {
      assert q.name == p.name && q.price == p.price && q.description == p.description;
      assert q.image == p.image && q.brand == p.brand && q.category == p.category;
      assert q.countInStock == p.countInStock;
    }
  }

  /** Applying the same update twice is the same as applying it once. */
  lemma MergeIdempotent(p: Product, d: ProductPatch)
    ensures Merge(Merge(p, d), d) == Merge(p, d)
  {
  }

  /** An update can never clear a field: a non-empty text field stays non-empty
      and a non-zero number stays non-zero. */
  lemma MergeNeverClears(p: Product, d: ProductPatch)
    ensures var q := Merge(p, d);
            && (p.name != "" ==> q.name != "")
            && (p.description != "" ==> q.description != "")
            && (p.image != "" ==> q.image != "")
            && (p.brand != "" ==> q.brand != "")
            && (p.category != "" ==> q.category != "")
            && (p.price != 0.0 ==> q.price != 0.0)
            && (p.countInStock != 0.0 ==> q.countInStock != 0.0)
  {
  }

  /** PUT /products/:id. */
  function UpdateProduct(c: seq<Product>, id: ProductId, d: ProductPatch): (r: Reply<Product>)
    ensures r.response.Ok? <==> HasId(c, id)
    ensures r.response.Fail? ==> r.response == Fail(404, ProductNotFound) && r.catalog == c
    ensures r.response.Ok? ==>
              var i := FindIndex(c, id).value;
              && r.response.status == 200
              && r.response.body == Merge(c[i], d)
              && r.catalog == c[i := r.response.body]
  {
    match FindIndex(c, id)
    case None => Reply(c, Fail(404, ProductNotFound))
    case Some(i) =>
      var q := Merge(c[i], d);
      Reply(c[i := q], Ok(200, q))
  }

  /** An update keeps the catalog well formed, and a lookup afterwards returns
      the merged product. */
  lemma UpdateThenGet(c: seq<Product>, id: ProductId, d: ProductPatch)
    requires WellFormed(c) && HasId(c, id)
    ensures var r := UpdateProduct(c, id, d);
            && WellFormed(r.catalog)
            && GetProductById(r.catalog, id) == Ok(200, r.response.body)
  {
    var r := UpdateProduct(c, id, d);
    var i := FindIndex(c, id).value;
    assert forall j :: 0 <= j < |c| ==> r.catalog[j].id == c[j].id;
    assert r.catalog[i] == Merge(c[i], d);
    FindIndexUnique(r.catalog, id, i);
  }
}
