/** The cart routes of the backend (`/api/cart`, `/api/cart/add`, `/api/cart/update`,
    `/api/cart/remove/{id}`), as functions from the current user's stored cart document
    to the document written back or the HTTP error raised. */
module ServerCart {
  import opened Common
  import opened Domain
  import Seqs

  datatype CartLine = CartLine(productId: ProductId, quantity: int)

  /** The user's cart document, if one exists; its `items` list (absent reads as empty). */
  type StoredCart = Option<seq<CartLine>>

  function Lines(stored: StoredCart): seq<CartLine> {
    if stored.Some? then stored.value else []
  }

  predicate HasProduct(lines: seq<CartLine>, pid: ProductId) {
    exists k :: 0 <= k < |lines| && lines[k].productId == pid
  }

  /** `i` is the first line for `pid`, the one the handlers' search loop stops at. */
  predicate FirstLineAt(lines: seq<CartLine>, pid: ProductId, i: int) {
    0 <= i < |lines| && lines[i].productId == pid
    && forall k :: 0 <= k < i ==> lines[k].productId != pid
  }

  /** No two lines of the cart are for the same product. */
  predicate DistinctProducts(lines: seq<CartLine>) {
    forall i, j :: 0 <= i < j < |lines| ==> lines[i].productId != lines[j].productId
  }

  function FindLine(lines: seq<CartLine>, pid: ProductId): (r: Option<nat>)
    ensures r.Some? ==> FirstLineAt(lines, pid, r.value)
    ensures r.None? <==> !HasProduct(lines, pid)
    decreases |lines|
  {
    if |lines| == 0 then None
    else if lines[0].productId == pid then Some(0)
    else match FindLine(lines[1..], pid)
      case None =>
        assert forall k :: 1 <= k < |lines| ==> lines[k] == lines[1..][k - 1];
        None
      case Some(i) => Some(i + 1)
  }

  /** Sum of the quantities of all lines. */
  function TotalQuantity(lines: seq<CartLine>): int
    decreases |lines|
  {
    if |lines| == 0 then 0 else lines[0].quantity + TotalQuantity(lines[1..])
  }

  /** `POST /api/cart/add`: the items written back. A product already in the cart has
      the requested amount added to its first line; otherwise one line is appended.
      No cart document yet is an empty one, and the write is an upsert, so it never fails. */
  function AddToCart(stored: StoredCart, pid: ProductId, quantity: int): (r: seq<CartLine>)
    ensures !HasProduct(Lines(stored), pid) ==> r == Lines(stored) + [CartLine(pid, quantity)]
    ensures forall i :: FirstLineAt(Lines(stored), pid, i) ==>
              |r| == |Lines(stored)|
              && r[i] == CartLine(pid, Lines(stored)[i].quantity + quantity)
              && forall k :: 0 <= k < |r| && k != i ==> r[k] == Lines(stored)[k]
  {
    var lines := Lines(stored);
    match FindLine(lines, pid)
    case None => lines + [CartLine(pid, quantity)]
    case Some(i) => lines[i := CartLine(pid, lines[i].quantity + quantity)]
  }

  /** `PUT /api/cart/update`: overwrites the quantity of the first line for the product.
      A missing cart or a missing line is a 404 and nothing is written. */
  function UpdateCartItem(stored: StoredCart, pid: ProductId, quantity: int): (r: Result<seq<CartLine>>)
    ensures stored.None? ==> r == Err(HttpError(NotFound, "Cart not found"))
    ensures stored.Some? && !HasProduct(stored.value, pid) ==>
              r == Err(HttpError(NotFound, "Item not found in cart"))
    ensures forall i :: stored.Some? && FirstLineAt(stored.value, pid, i) ==>
              r.Ok? && |r.value| == |stored.value|
              && r.value[i] == CartLine(pid, quantity)
              && forall k :: 0 <= k < |r.value| && k != i ==> r.value[k] == stored.value[k]
  {
    match stored
    case None => Err(HttpError(NotFound, "Cart not found"))
    case Some(lines) =>
      match FindLine(lines, pid)
      case None => Err(HttpError(NotFound, "Item not found in cart"))
      case Some(i) => Ok(lines[i := CartLine(pid, quantity)])
  }

  function NotFor(pid: ProductId): CartLine -> bool {
    (l: CartLine) => l.productId != pid
  }

  /** The lines that are not for `pid`, in their original order. */
  function Without(lines: seq<CartLine>, pid: ProductId): (r: seq<CartLine>)
    ensures forall k :: 0 <= k < |r| ==> r[k].productId != pid && r[k] in lines
    ensures forall k :: 0 <= k < |lines| && lines[k].productId != pid ==> lines[k] in r
    ensures !HasProduct(lines, pid) ==> r == lines
    ensures Seqs.IsSubsequence(r, lines)
  {
    var keep := NotFor(pid);
    Seqs.FilterIsSubsequence(lines, keep);
    if !HasProduct(lines, pid) then Seqs.FilterAll(lines, keep); Seqs.Filter(lines, keep)
    else Seqs.Filter(lines, keep)
  }

  /** `DELETE /api/cart/remove/{id}`: drops every line for the product; an absent
      product leaves the items as they are; no cart document is a 404. */
  function RemoveFromCart(stored: StoredCart, pid: ProductId): (r: Result<seq<CartLine>>)
    ensures r.Err? <==> stored.None?
    ensures r.Err? ==> r.error == HttpError(NotFound, "Cart not found")
    ensures r.Ok? ==> r.value == Without(stored.value, pid)
  {
    match stored
    case None => Err(HttpError(NotFound, "Cart not found"))
    case Some(lines) => Ok(Without(lines, pid))
  }

  /** Adding never creates a second line for a product. */
  lemma AddKeepsDistinct(stored: StoredCart, pid: ProductId, quantity: int)
    requires DistinctProducts(Lines(stored))
    ensures DistinctProducts(AddToCart(stored, pid, quantity))
  {
    var lines := Lines(stored);
    var r := AddToCart(stored, pid, quantity);
    match FindLine(lines, pid)
    case None =>
    case Some(i) =>
      assert forall k :: 0 <= k < |r| ==> r[k].productId == lines[k].productId;
  }

  lemma UpdateKeepsDistinct(stored: StoredCart, pid: ProductId, quantity: int)
    requires DistinctProducts(Lines(stored))
    requires UpdateCartItem(stored, pid, quantity).Ok?
    ensures DistinctProducts(UpdateCartItem(stored, pid, quantity).value)
  {
    var lines := Lines(stored);
    var r := UpdateCartItem(stored, pid, quantity).value;
    match FindLine(lines, pid)
    case None =>
    case Some(i) =>
      assert forall k :: 0 <= k < |r| ==> r[k].productId == lines[k].productId;
  }

  lemma {:induction false} WithoutKeepsDistinct(lines: seq<CartLine>, pid: ProductId)
    requires DistinctProducts(lines)
    ensures DistinctProducts(Without(lines, pid))
    decreases |lines|
  {
    if |lines| > 0 {
      var keep := NotFor(pid);
      var tail := Seqs.Filter(lines[1..], keep);
      assert DistinctProducts(lines[1..]);
      WithoutKeepsDistinct(lines[1..], pid);
      assert tail == Without(lines[1..], pid);
      if keep(lines[0]) {
        forall k | 0 <= k < |tail| ensures tail[k].productId != lines[0].productId {
          HeadUnique(lines, tail[k]);
        }
        ConsDistinct(lines[0], tail);
        assert Without(lines, pid) == [lines[0]] + tail;
      } else {
        assert Without(lines, pid) == tail;
      }
    }
  }

  lemma ConsDistinct(l: CartLine, tail: seq<CartLine>)
    requires DistinctProducts(tail)
    requires forall k :: 0 <= k < |tail| ==> tail[k].productId != l.productId
    ensures DistinctProducts([l] + tail)
  {
    var r := [l] + tail;
    forall i, j | 0 <= i < j < |r| ensures r[i].productId != r[j].productId {
      assert r[j] == tail[j - 1];
      if i > 0 {
        assert r[i] == tail[i - 1];
      }
    }
  }

  /** In a cart without repeats, nothing after the first line is for its product. */
  lemma HeadUnique(lines: seq<CartLine>, l: CartLine)
    requires DistinctProducts(lines) && |lines| > 0 && l in lines[1..]
    ensures l.productId != lines[0].productId
  {
    var j :| 0 <= j < |lines[1..]| && lines[1..][j] == l;
    assert lines[j + 1] == l;
  }

  /** Adding changes the cart's total quantity by exactly the requested amount. */
  lemma AddTotalQuantity(stored: StoredCart, pid: ProductId, quantity: int)
    ensures TotalQuantity(AddToCart(stored, pid, quantity)) == TotalQuantity(Lines(stored)) + quantity
  {
    var lines := Lines(stored);
    var r := AddToCart(stored, pid, quantity);
    var found := FindLine(lines, pid);
    if found.None? {
      assert r == lines + [CartLine(pid, quantity)];
      TotalQuantityAppend(lines, CartLine(pid, quantity));
    } else {
      var i := found.value;
      assert r == lines[i := CartLine(pid, lines[i].quantity + quantity)];
      TotalQuantityUpdate(lines, i, CartLine(pid, lines[i].quantity + quantity));
    }
  }

  lemma {:induction false} TotalQuantityAppend(lines: seq<CartLine>, l: CartLine)
    ensures TotalQuantity(lines + [l]) == TotalQuantity(lines) + l.quantity
    decreases |lines|
  {
    if |lines| > 0 {
      assert (lines + [l])[1..] == lines[1..] + [l];
      TotalQuantityAppend(lines[1..], l);
    }
  }

  lemma {:induction false} TotalQuantityUpdate(lines: seq<CartLine>, i: nat, l: CartLine)
    requires i < |lines|
    ensures TotalQuantity(lines[i := l]) == TotalQuantity(lines) - lines[i].quantity + l.quantity
    decreases |lines|
  {
    if i > 0 {
      assert lines[i := l][1..] == lines[1..][i - 1 := l];
      TotalQuantityUpdate(lines[1..], i - 1, l);
    }
  }

  /** The view entry of one line: the product's details and price times quantity, or
      nothing when the product no longer exists. */
  function Entry(line: CartLine, db: seq<Product>): (r: Option<CartEntry>)
    ensures r.None? <==> FindProduct(db, line.productId).None?
    ensures r.Some? ==> r.value.product in db && r.value.product.id == line.productId
                        && r.value.quantity == line.quantity
                        && r.value.subtotal == LineTotal(r.value.product, line.quantity)
  {
    match FindProduct(db, line.productId)
    case None => None
    case Some(p) => Some(CartEntry(p, line.quantity, LineTotal(p, line.quantity)))
  }

  /** An entry for a product of the catalogue, priced at its price. */
  predicate PricedFrom(e: CartEntry, db: seq<Product>) {
    e.product in db && e.subtotal == LineTotal(e.product, e.quantity)
  }

  /** The cart view joined with the catalogue, in line order: one entry per line whose
      product still exists, priced at the product's current price. */
  function Priced(lines: seq<CartLine>, db: seq<Product>): seq<CartEntry>
    decreases |lines|
  {
    if |lines| == 0 then []
    else
      var front := Priced(lines[..|lines| - 1], db);
      match Entry(lines[|lines| - 1], db)
      case None => front
      case Some(e) => front + [e]
  }

  /** The view has at most one entry per line, and each is a catalogue product priced at
      its current price. */
  lemma {:induction false} PricedFromCatalogue(lines: seq<CartLine>, db: seq<Product>)
    ensures |Priced(lines, db)| <= |lines|
    ensures forall k :: 0 <= k < |Priced(lines, db)| ==> PricedFrom(Priced(lines, db)[k], db)
    decreases |lines|
  {
    if |lines| > 0 {
      var init := lines[..|lines| - 1];
      PricedFromCatalogue(init, db);
      var r, r0 := Priced(lines, db), Priced(init, db);
      match Entry(lines[|lines| - 1], db)
      case None =>
      case Some(e) =>
        assert r == r0 + [e];
        assert forall k :: 0 <= k < |r0| ==> r[k] == r0[k];
    }
  }

  /** Lines whose product was deleted contribute nothing. */
  lemma {:induction false} PricedAllMissing(lines: seq<CartLine>, db: seq<Product>)
    requires forall k :: 0 <= k < |lines| ==> FindProduct(db, lines[k].productId).None?
    ensures Priced(lines, db) == []
    decreases |lines|
  {
    if |lines| > 0 {
      PricedAllMissing(lines[..|lines| - 1], db);
    }
  }

  /** When every product still exists, the view has one entry per line, in line order. */
  lemma {:induction false} PricedAllPresent(lines: seq<CartLine>, db: seq<Product>)
    requires forall k :: 0 <= k < |lines| ==> FindProduct(db, lines[k].productId).Some?
    ensures |Priced(lines, db)| == |lines|
    ensures forall k :: 0 <= k < |lines| ==>
              Priced(lines, db)[k].product.id == lines[k].productId
              && Priced(lines, db)[k].quantity == lines[k].quantity
    decreases |lines|
  {
    if |lines| > 0 {
      var init := lines[..|lines| - 1];
      assert forall k :: 0 <= k < |init| ==> init[k] == lines[k];
      PricedAllPresent(init, db);
      var e := Entry(lines[|lines| - 1], db).value;
      var r, r0 := Priced(lines, db), Priced(init, db);
      assert r == r0 + [e];
      forall k | 0 <= k < |lines|
        ensures r[k].product.id == lines[k].productId && r[k].quantity == lines[k].quantity
      {
        if k < |init| {
          assert r[k] == r0[k];
        }
      }
    }
  }

  /** One more line extends the view by that line's entry, if any, and the running total
      by its subtotal. */
  lemma PricedStep(lines: seq<CartLine>, i: nat, db: seq<Product>, items: seq<CartEntry>, total: real)
    requires i < |lines| && items == Priced(lines[..i], db) && total == SumSubtotals(items)
    ensures Entry(lines[i], db).None? ==> items == Priced(lines[..i + 1], db)
    ensures Entry(lines[i], db).Some? ==>
              var e := Entry(lines[i], db).value;
              items + [e] == Priced(lines[..i + 1], db) && total + e.subtotal == SumSubtotals(items + [e])
  {
    var ext := lines[..i + 1];
    assert ext[..|ext| - 1] == lines[..i];
    if Entry(lines[i], db).Some? {
      SumSubtotalsSnoc(items, Entry(lines[i], db).value);
    }
  }

  /** `GET /api/cart`: walks the lines, skipping those whose product was deleted, and
      accumulates the total as it goes. With no cart the view is empty with total 0. */
  method GetCart(stored: StoredCart, db: seq<Product>) returns (items: seq<CartEntry>, total: real)
    ensures items == Priced(Lines(stored), db)
    ensures total == SumSubtotals(items)
    ensures stored.None? ==> items == [] && total == 0.0
  {
    if stored.None? {
      return [], 0.0;
    }
    items, total := PriceLines(stored.value, db);
  }

  /** The loop of `GET /api/cart` over the stored lines. */
  method PriceLines(lines: seq<CartLine>, db: seq<Product>) returns (items: seq<CartEntry>, total: real)
    ensures items == Priced(lines, db)
    ensures total == SumSubtotals(items)
  {
    items := [];
    total := 0.0;
    var i := 0;
    while i < |lines|
      invariant 0 <= i <= |lines|
      invariant items == Priced(lines[..i], db)
      invariant total == SumSubtotals(items)
    {
      PricedStep(lines, i, db, items, total);
      var entry := Entry(lines[i], db);
      if entry.Some? {
        items := items + [entry.value];
        total := total + entry.value.subtotal;
      }
      i := i + 1;
    }
    assert lines[..i] == lines;
  }
}
