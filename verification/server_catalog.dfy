/** The product and category routes of the backend: the filtered listing, the lookup
    by id, and the admin-only create, update and delete. The product collection is a
    sequence in the database's natural order. */
module ServerCatalog {
  import opened Common
  import opened Domain
  import opened ServerAuth
  import Seqs

  /** The query string of `GET /api/products`. An empty string is an absent parameter:
      the handler only filters on a truthy value. */
  datatype ProductQuery = ProductQuery(
    category: string,
    platform: string,
    genre: string,
    featured: Option<bool>,
    limit: int,
    skip: int)

  /** The route's defaults: `limit=20`, `skip=0`, no filter. */
  const DefaultLimit := 20

  function DefaultQuery(): ProductQuery {
    ProductQuery("", "", "", None, DefaultLimit, 0)
  }

  /** The product satisfies every supplied filter: category equality, membership of the
      platform and the genre in the product's lists, featured equality. */
  predicate Matches(p: Product, q: ProductQuery) {
    && (q.category == "" || p.categoryId == q.category)
    && (q.platform == "" || q.platform in p.platform)
    && (q.genre == "" || q.genre in p.genre)
    && (q.featured.None? || p.featured == q.featured.value)
  }

  function MatchesQuery(q: ProductQuery): Product -> bool {
    p => Matches(p, q)
  }

  function Abs(n: int): nat {
    if n < 0 then -n else n
  }

  /** What is left after skipping `skip` elements of `n`, capped by a non-zero limit. */
  function WindowLength(n: nat, skip: nat, limit: int): nat {
    var rest := if skip <= n then n - skip else 0;
    if limit == 0 || rest <= Abs(limit) then rest else Abs(limit)
  }

  /** The cursor's `limit`: 0 means no limit, a negative limit counts as its magnitude.
      The result is the run of `s` that starts after the skipped elements. */
  function Window(s: seq<Product>, skip: nat, limit: int): (r: seq<Product>)
    ensures limit != 0 ==> |r| <= Abs(limit)
    ensures |r| == WindowLength(|s|, skip, limit)
    ensures forall k :: 0 <= k < |r| ==> skip + k < |s| && r[k] == s[skip + k]
    ensures forall k :: 0 <= k < |r| ==> r[k] in s
  {
    var rest := if skip <= |s| then s[skip..] else [];
    if limit == 0 || |rest| <= Abs(limit) then rest else rest[..Abs(limit)]
  }

  /** `GET /api/products`: the matching products after skipping `skip` of them and
      keeping at most `limit`. A negative `skip` makes the driver raise, a 500. */
  function GetProducts(db: seq<Product>, q: ProductQuery): (r: Result<seq<Product>>)
    ensures r.Err? <==> q.skip < 0
    ensures r.Err? ==> r.error.status == InternalError
    ensures r.Ok? ==> forall k :: 0 <= k < |r.value| ==> r.value[k] in db && Matches(r.value[k], q)
    ensures r.Ok? && q.limit != 0 ==> |r.value| <= Abs(q.limit)
    ensures r.Ok? ==> var m := Seqs.Filter(db, MatchesQuery(q));
              && |r.value| == WindowLength(|m|, q.skip, q.limit)
              && forall k :: 0 <= k < |r.value| ==> q.skip + k < |m| && r.value[k] == m[q.skip + k]
  {
    if q.skip < 0 then Err(HttpError(InternalError, "skip must be >= 0"))
    else
      var m := Seqs.Filter(db, MatchesQuery(q));
      var w := Window(m, q.skip, q.limit);
      assert forall k :: 0 <= k < |w| ==> w[k] in m;
      Ok(w)
  }

  /** Nothing that matches is lost when the window is wide enough. */
  lemma GetProductsComplete(db: seq<Product>, q: ProductQuery, p: Product)
    requires q.skip == 0
    requires q.limit == 0 || |db| <= Abs(q.limit)
    requires p in db && Matches(p, q)
    ensures GetProducts(db, q).Ok? && p in GetProducts(db, q).value
  {
    var i :| 0 <= i < |db| && db[i] == p;
    assert MatchesQuery(q)(db[i]);
  }

  /** With the route's defaults at most twenty products come back, and each one is a
      product of the catalogue. */
  lemma DefaultListingBounded(db: seq<Product>)
    ensures GetProducts(db, DefaultQuery()).Ok?
    ensures |GetProducts(db, DefaultQuery()).value| <= 20
  {
  }

  /** `GET /api/products/{id}`: the first product with that id, or 404. */
  function GetProduct(db: seq<Product>, id: ProductId): (r: Result<Product>)
    ensures r.Ok? ==> r.value in db && r.value.id == id
    ensures r.Err? <==> forall k :: 0 <= k < |db| ==> db[k].id != id
    ensures r.Err? ==> r.error == HttpError(NotFound, "Product not found")
  {
    match FindProduct(db, id)
    case None => Err(HttpError(NotFound, "Product not found"))
    case Some(p) => Ok(p)
  }

  datatype Saved = Saved(db: seq<Product>, product: Product)

  /** `POST /api/products`: admin only; the product is stored under a fresh id. */
  function CreateProduct(db: seq<Product>, user: User, p: Product, newId: ProductId): (r: Result<Saved>)
    ensures r.Err? <==> !user.isAdmin
    ensures r.Err? ==> r.error == HttpError(Forbidden, "Admin access required")
    ensures r.Ok? ==> r.value.product == p.(id := newId) && r.value.db == db + [r.value.product]
  {
    match RequireAdmin(user)
    case Err(e) => Err(e)
    case Ok(_) => Ok(Saved(db + [p.(id := newId)], p.(id := newId)))
  }

  /** `PUT /api/products/{id}`: admin only; every field of the first product with that
      id is overwritten by the body, keeping the id; 404 when no product has it. */
  function UpdateProduct(db: seq<Product>, user: User, id: ProductId, p: Product): (r: Result<Saved>)
    ensures !user.isAdmin ==> r == Err(HttpError(Forbidden, "Admin access required"))
    ensures user.isAdmin ==> (r.Err? <==> forall k :: 0 <= k < |db| ==> db[k].id != id)
    ensures r.Err? && user.isAdmin ==> r.error == HttpError(NotFound, "Product not found")
    ensures r.Ok? ==> r.value.product == p.(id := id) && |r.value.db| == |db|
    ensures r.Ok? ==> forall k :: 0 <= k < |db| ==>
              r.value.db[k] == (if k == FindProductIndex(db, id).value then p.(id := id) else db[k])
  {
    match RequireAdmin(user)
    case Err(e) => Err(e)
    case Ok(_) =>
      match FindProductIndex(db, id)
      case None => Err(HttpError(NotFound, "Product not found"))
      case Some(i) => Ok(Saved(db[i := p.(id := id)], p.(id := id)))
  }

  /** `DELETE /api/products/{id}`: admin only; removes the first product with that id;
      404 when none has it. */
  function DeleteProduct(db: seq<Product>, user: User, id: ProductId): (r: Result<seq<Product>>)
    ensures !user.isAdmin ==> r == Err(HttpError(Forbidden, "Admin access required"))
    ensures user.isAdmin ==> (r.Err? <==> forall k :: 0 <= k < |db| ==> db[k].id != id)
    ensures r.Err? && user.isAdmin ==> r.error == HttpError(NotFound, "Product not found")
    ensures r.Ok? ==> |r.value| == |db| - 1
    ensures r.Ok? ==> forall k :: 0 <= k < |r.value| ==> r.value[k] in db
    ensures r.Ok? ==> forall k :: 0 <= k < |db| && db[k].id != id ==> db[k] in r.value
    ensures r.Ok? ==> r.value == db[..FindProductIndex(db, id).value] + db[FindProductIndex(db, id).value + 1..]
  {
    match RequireAdmin(user)
    case Err(e) => Err(e)
    case Ok(_) =>
      match FindProductIndex(db, id)
      case None => Err(HttpError(NotFound, "Product not found"))
      case Some(i) =>
        var rest := db[..i] + db[i + 1..];
        assert forall k :: 0 <= k < |db| && k != i ==> db[k] == (if k < i then rest[k] else rest[k - 1]);
        Ok(rest)
  }

  /** No two products share an id, as ids drawn from `uuid4` keep them. */
  predicate UniqueIds(db: seq<Product>) {
    forall i, j :: 0 <= i < j < |db| ==> db[i].id != db[j].id
  }

  /** A product created under an id no product has keeps the ids unique, and the lookup
      by that id finds exactly it. */
  lemma CreateThenGet(db: seq<Product>, user: User, p: Product, newId: ProductId)
    requires user.isAdmin && UniqueIds(db)
    requires forall k :: 0 <= k < |db| ==> db[k].id != newId
    ensures UniqueIds(CreateProduct(db, user, p, newId).value.db)
    ensures GetProduct(CreateProduct(db, user, p, newId).value.db, newId) == Ok(p.(id := newId))
  {
    var after := db + [p.(id := newId)];
    assert after[|db|].id == newId;
  }

  /** After an update the lookup by the id answers the new body; unique ids stay unique. */
  lemma UpdateThenGet(db: seq<Product>, user: User, id: ProductId, p: Product)
    requires UpdateProduct(db, user, id, p).Ok?
    ensures GetProduct(UpdateProduct(db, user, id, p).value.db, id) == Ok(p.(id := id))
    ensures UniqueIds(db) ==> UniqueIds(UpdateProduct(db, user, id, p).value.db)
  {
    var i := FindProductIndex(db, id).value;
    var after := UpdateProduct(db, user, id, p).value.db;
    assert after[i] == p.(id := id);
  }

  /** With unique ids a deleted product is gone: its lookup is a 404, and the ids of
      the rest stay unique. */
  lemma DeleteThenGet(db: seq<Product>, user: User, id: ProductId)
    requires UniqueIds(db)
    requires DeleteProduct(db, user, id).Ok?
    ensures GetProduct(DeleteProduct(db, user, id).value, id) == Err(HttpError(NotFound, "Product not found"))
    ensures UniqueIds(DeleteProduct(db, user, id).value)
  {
    RemoveAtUnique(db, FindProductIndex(db, id).value);
  }

  /** Cutting one product out of a catalogue with unique ids leaves unique ids, none of
      them the cut product's. */
  lemma RemoveAtUnique(db: seq<Product>, i: nat)
    requires UniqueIds(db) && i < |db|
    ensures UniqueIds(db[..i] + db[i + 1..])
    ensures forall p :: p in db[..i] + db[i + 1..] ==> p.id != db[i].id
  {
    var after := db[..i] + db[i + 1..];
    assert forall k :: 0 <= k < |after| ==> after[k] == db[if k < i then k else k + 1];
  }

  datatype Category = Category(id: string, name: string, description: string, imageUrl: string)

  /** `POST /api/categories`: admin only; the category is stored under a fresh id. */
  function CreateCategory(categories: seq<Category>, user: User, c: Category, newId: string)
    : (r: Result<seq<Category>>)
    ensures r.Err? <==> !user.isAdmin
    ensures r.Err? ==> r.error == HttpError(Forbidden, "Admin access required")
    ensures r.Ok? ==> r.value == categories + [c.(id := newId)]
  {
    match RequireAdmin(user)
    case Err(e) => Err(e)
    case Ok(_) => Ok(categories + [c.(id := newId)])
  }

  /** A category created under a fresh id is the only one with that id, and it carries
      the submitted name, description and image. */
  lemma CategoryCreatedOnce(categories: seq<Category>, user: User, c: Category, newId: string)
    requires user.isAdmin
    requires forall k :: 0 <= k < |categories| ==> categories[k].id != newId
    ensures var after := CreateCategory(categories, user, c, newId).value;
            forall k :: 0 <= k < |after| ==>
              (after[k].id == newId <==> k == |categories|)
    ensures var last := CreateCategory(categories, user, c, newId).value[|categories|];
            last.name == c.name && last.description == c.description && last.imageUrl == c.imageUrl
  {
  }
}
