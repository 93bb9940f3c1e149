/** The records the backend stores and the storefront displays. */
module Domain {
  import opened Common

  type ProductId = string

  /** A catalogue entry. Prices and ratings are exact reals; the release date is an
      abstract timestamp (larger is later). */
  datatype Product = Product(
    id: ProductId,
    title: string,
    description: string,
    price: real,
    imageUrl: string,
    categoryId: string,
    platform: seq<string>,
    genre: seq<string>,
    rating: string,
    releaseDate: int,
    developer: string,
    publisher: string,
    inStock: int,
    featured: bool,
    averageRating: real,
    totalReviews: int)

  /** Position of the first product with this id: what `find_one({"id": id})` returns. */
  function FindProductIndex(db: seq<Product>, id: ProductId): (r: Option<nat>)
    ensures r.Some? ==> r.value < |db| && db[r.value].id == id
    ensures r.Some? ==> forall k :: 0 <= k < r.value ==> db[k].id != id
    ensures r.None? <==> forall k :: 0 <= k < |db| ==> db[k].id != id
    decreases |db|
  {
    if |db| == 0 then None
    else if db[0].id == id then Some(0)
    else match FindProductIndex(db[1..], id)
      case None => None
      case Some(i) => Some(i + 1)
  }

  function FindProduct(db: seq<Product>, id: ProductId): (r: Option<Product>)
    ensures r.Some? ==> r.value in db && r.value.id == id
    ensures r.None? <==> forall k :: 0 <= k < |db| ==> db[k].id != id
  {
    match FindProductIndex(db, id)
    case None => None
    case Some(i) => Some(db[i])
  }

  /** One line of the cart as `GET /api/cart` returns it: the product's details,
      the quantity, and price times quantity. */
  datatype CartEntry = CartEntry(product: Product, quantity: int, subtotal: real)

  /** `product["price"] * item["quantity"]`, the subtotal of one cart line. */
  function LineTotal(p: Product, quantity: int): real {
    p.price * quantity as real
  }

  /** `items.reduce((sum, item) => sum + item.quantity, 0)`. */
  function SumQuantities(items: seq<CartEntry>): int
    decreases |items|
  {
    if |items| == 0 then 0
    else SumQuantities(items[..|items| - 1]) + items[|items| - 1].quantity
  }

  /** `items.reduce((sum, item) => sum + item.subtotal, 0)`. */
  function SumSubtotals(items: seq<CartEntry>): real
    decreases |items|
  {
    if |items| == 0 then 0.0
    else SumSubtotals(items[..|items| - 1]) + items[|items| - 1].subtotal
  }

  lemma SumSubtotalsSnoc(items: seq<CartEntry>, e: CartEntry)
    ensures SumSubtotals(items + [e]) == SumSubtotals(items) + e.subtotal
  {
    assert (items + [e])[..|items|] == items;
  }

  lemma SumQuantitiesSnoc(items: seq<CartEntry>, e: CartEntry)
    ensures SumQuantities(items + [e]) == SumQuantities(items) + e.quantity
  {
    assert (items + [e])[..|items|] == items;
  }
}
