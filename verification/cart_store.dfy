/** The client cart store: a snapshot of the server's cart that every mutation
    refreshes with a full reload. Each operation is a state transition that takes the
    authentication flag and the server's responses as inputs and also reports the API
    calls it issued, in order. */
module CartStore {
  import opened Common
  import opened Domain
  import ServerCart

  /** The store as its consumers observe it once the `[cartItems]` effect has run. */
  datatype Store = Store(items: seq<CartEntry>, total: real, count: int)

  /** Count and total agree with the items: count = Σ quantity, total = Σ subtotal. */
  predicate Consistent(s: Store) {
    s.count == SumQuantities(s.items) && s.total == SumSubtotals(s.items)
  }

  /** The initial state, and the state whenever the session is unauthenticated. */
  const Empty := Store([], 0.0, 0)

  /** New items, followed by the effect that recomputes count and total from them. */
  function WithItems(items: seq<CartEntry>): (s: Store)
    ensures s.items == items && Consistent(s)
  {
    Store(items, SumSubtotals(items), SumQuantities(items))
  }

  datatype Call =
    | PostAdd(productId: ProductId, quantity: int)
    | PutUpdate(productId: ProductId, quantity: int)
    | DeleteRemove(productId: ProductId)
    | GetCart

  /** The server's answer to `GET /api/cart`: the items, or a failed request. */
  datatype Snapshot = Loaded(items: seq<CartEntry>) | LoadFailed

  /** `{ success, error }` as the operations return it. */
  datatype Reply = Reply(success: bool, error: Option<string>)

  datatype Step = Step(store: Store, reply: Reply, calls: seq<Call>)

  datatype Loading = Loading(store: Store, calls: seq<Call>)

  /** `loadCart`: nothing at all when unauthenticated; otherwise one fetch, whose items
      replace the local ones on success and whose failure leaves the store untouched. */
  function LoadCart(s: Store, authenticated: bool, snap: Snapshot): (r: Loading)
    ensures !authenticated ==> r == Loading(s, [])
    ensures authenticated ==> r.calls == [GetCart]
    ensures authenticated && snap.Loaded? ==> r.store == WithItems(snap.items)
    ensures snap.LoadFailed? ==> r.store == s
  {
    if !authenticated then Loading(s, [])
    else match snap
      case Loaded(items) => Loading(WithItems(items), [GetCart])
      case LoadFailed => Loading(s, [GetCart])
  }

  /** The `[isAuthenticated]` effect: a fresh load when signed in, an empty store otherwise. */
  function AuthChanged(s: Store, authenticated: bool, snap: Snapshot): (r: Loading)
    ensures !authenticated ==> r.store == Empty && r.calls == []
    ensures authenticated ==> r == LoadCart(s, true, snap)
  {
    if authenticated then LoadCart(s, true, snap) else Loading(Empty, [])
  }

  const AddFallback := "Errore nell'aggiungere il prodotto al carrello"
  const UpdateFallback := "Errore nell'aggiornamento del carrello"
  const RemoveFallback := "Errore nella rimozione del prodotto"
  const ClearFallback := "Errore nello svuotamento del carrello"

  /** The common shape of add, update and remove: refused without any call when
      unauthenticated; otherwise the call, and on its success a reload and `success: true`
      (whatever the reload brings back); on its failure the error text and no reload. */
  function Mutate(s: Store, authenticated: bool, call: Call, resp: Response, snap: Snapshot,
                  fallback: string): (r: Step)
    ensures !authenticated ==> r == Step(s, Reply(false, None), [])
    ensures authenticated ==> |r.calls| >= 1 && r.calls[0] == call
    ensures authenticated && resp.Done? ==> r.reply == Reply(true, None) && r.calls == [call, GetCart]
    ensures authenticated && resp.Done? && snap.Loaded? ==> r.store == WithItems(snap.items)
    ensures authenticated && resp.Failed? ==>
              r == Step(s, Reply(false, Some(ErrorText(resp.detail, fallback))), [call])
  {
    if !authenticated then Step(s, Reply(false, None), [])
    else match resp
      case Failed(detail) => Step(s, Reply(false, Some(ErrorText(detail, fallback))), [call])
      case Done =>
        var loaded := LoadCart(s, true, snap);
        Step(loaded.store, Reply(true, None), [call] + loaded.calls)
  }

  /** `addToCart(productId, quantity)`. */
  function AddToCart(s: Store, authenticated: bool, pid: ProductId, quantity: int,
                     resp: Response, snap: Snapshot): (r: Step)
    ensures !authenticated ==> r.calls == [] && !r.reply.success && r.store == s
    ensures authenticated ==> |r.calls| >= 1 && r.calls[0] == PostAdd(pid, quantity)
    ensures r.reply.success <==> authenticated && resp.Done?
    ensures r.reply.success ==> r.calls == [PostAdd(pid, quantity), GetCart]
    ensures r.reply.success && snap.Loaded? ==> r.store.items == snap.items
    ensures !r.reply.success ==> r.store == s && GetCart !in r.calls
  {
    Mutate(s, authenticated, PostAdd(pid, quantity), resp, snap, AddFallback)
  }

  /** `addToCart(productId)`: the quantity defaults to one. */
  function AddOne(s: Store, authenticated: bool, pid: ProductId, resp: Response, snap: Snapshot): (r: Step)
    ensures authenticated ==> |r.calls| >= 1 && r.calls[0] == PostAdd(pid, 1)
    ensures !authenticated ==> r.calls == []
  {
    AddToCart(s, authenticated, pid, 1, resp, snap)
  }

  /** `updateCartItem(productId, quantity)`. */
  function UpdateCartItem(s: Store, authenticated: bool, pid: ProductId, quantity: int,
                          resp: Response, snap: Snapshot): (r: Step)
    ensures !authenticated ==> r.calls == [] && !r.reply.success && r.store == s
    ensures authenticated ==> |r.calls| >= 1 && r.calls[0] == PutUpdate(pid, quantity)
    ensures r.reply.success <==> authenticated && resp.Done?
    ensures r.reply.success ==> r.calls == [PutUpdate(pid, quantity), GetCart]
    ensures r.reply.success && snap.Loaded? ==> r.store.items == snap.items
    ensures !r.reply.success ==> r.store == s && GetCart !in r.calls
  {
    Mutate(s, authenticated, PutUpdate(pid, quantity), resp, snap, UpdateFallback)
  }

  /** `removeFromCart(productId)`. */
  function RemoveFromCart(s: Store, authenticated: bool, pid: ProductId,
                          resp: Response, snap: Snapshot): (r: Step)
    ensures !authenticated ==> r.calls == [] && !r.reply.success && r.store == s
    ensures authenticated ==> |r.calls| >= 1 && r.calls[0] == DeleteRemove(pid)
    ensures r.reply.success <==> authenticated && resp.Done?
    ensures r.reply.success ==> r.calls == [DeleteRemove(pid), GetCart]
    ensures r.reply.success && snap.Loaded? ==> r.store.items == snap.items
    ensures !r.reply.success ==> r.store == s && GetCart !in r.calls
  {
    Mutate(s, authenticated, DeleteRemove(pid), resp, snap, RemoveFallback)
  }

  /** One removal per item, in item order. */
  function Deletes(items: seq<CartEntry>): (r: seq<Call>)
    ensures |r| == |items|
    ensures forall k :: 0 <= k < |items| ==> r[k] == DeleteRemove(items[k].product.id)
  {
    seq(|items|, k requires 0 <= k < |items| => DeleteRemove(items[k].product.id))
  }

  /** The first of the `n` removals whose response is a failure, if any. */
  function FirstFailure(n: nat, removal: nat -> Response): (r: Option<nat>)
    ensures r.Some? ==> r.value < n && removal(r.value).Failed?
                        && forall k :: 0 <= k < r.value ==> removal(k).Done?
    ensures r.None? ==> forall k :: 0 <= k < n ==> removal(k).Done?
    decreases n
  {
    if n == 0 then None
    else match FirstFailure(n - 1, removal)
      case Some(k) => Some(k)
      case None => if removal(n - 1).Failed? then Some(n - 1) else None
  }

  /** `clearCart`: removes the items one at a time, in order, where `removal(k)` is the
      server's answer to the k-th removal. The first failure ends the loop: later items
      are not attempted, nothing is reloaded, the local store is left as it was, and the
      result is a failure. When every removal succeeds the cart is reloaded. */
  function ClearCart(s: Store, authenticated: bool, removal: nat -> Response, snap: Snapshot): (r: Step)
    ensures !authenticated ==> r == Step(s, Reply(false, None), [])
    ensures authenticated && FirstFailure(|s.items|, removal).None? ==>
              r.reply.success && r.calls == Deletes(s.items) + [GetCart]
    ensures authenticated && FirstFailure(|s.items|, removal).None? && snap.Loaded? ==>
              r.store == WithItems(snap.items)
    ensures authenticated && FirstFailure(|s.items|, removal).Some? ==>
              var k := FirstFailure(|s.items|, removal).value;
              !r.reply.success && r.store == s && r.calls == Deletes(s.items[..k + 1])
  {
    if !authenticated then Step(s, Reply(false, None), [])
    else match FirstFailure(|s.items|, removal)
      case Some(k) =>
        Step(s, Reply(false, Some(ErrorText(removal(k).detail, ClearFallback))), Deletes(s.items[..k + 1]))
      case None =>
        var loaded := LoadCart(s, true, snap);
        Step(loaded.store, Reply(true, None), Deletes(s.items) + loaded.calls)
  }

  /** Every operation keeps count and total in agreement with the items. */
  lemma OperationsKeepConsistent(s: Store, authenticated: bool, pid: ProductId, quantity: int,
                                 resp: Response, snap: Snapshot, removal: nat -> Response)
    requires Consistent(s)
    ensures Consistent(LoadCart(s, authenticated, snap).store)
    ensures Consistent(AuthChanged(s, authenticated, snap).store)
    ensures Consistent(AddToCart(s, authenticated, pid, quantity, resp, snap).store)
    ensures Consistent(UpdateCartItem(s, authenticated, pid, quantity, resp, snap).store)
    ensures Consistent(RemoveFromCart(s, authenticated, pid, resp, snap).store)
    ensures Consistent(ClearCart(s, authenticated, removal, snap).store)
  {
  }

  /** The product ids of the removals the server carried out. */
  function RemovedIds(calls: seq<Call>): seq<ProductId>
    decreases |calls|
  {
    if |calls| == 0 then []
    else (if calls[0].DeleteRemove? then [calls[0].productId] else []) + RemovedIds(calls[1..])
  }

  /** The server's cart lines after the `DELETE /api/cart/remove/{id}` handler ran for
      each id in turn. */
  function ApplyRemovals(lines: seq<ServerCart.CartLine>, ids: seq<ProductId>): seq<ServerCart.CartLine>
    decreases |ids|
  {
    if |ids| == 0 then lines else ApplyRemovals(ServerCart.Without(lines, ids[0]), ids[1..])
  }

  /** Removing a set of products keeps exactly the server lines for other products. */
  lemma {:induction false} ApplyRemovalsKeeps(lines: seq<ServerCart.CartLine>, ids: seq<ProductId>)
    ensures forall k :: 0 <= k < |lines| && lines[k].productId !in ids ==> lines[k] in ApplyRemovals(lines, ids)
    ensures forall l :: l in ApplyRemovals(lines, ids) ==> l in lines && l.productId !in ids
    decreases |ids|
  {
    if |ids| > 0 {
      var next := ServerCart.Without(lines, ids[0]);
      ApplyRemovalsKeeps(next, ids[1..]);
      forall k | 0 <= k < |lines| && lines[k].productId !in ids
        ensures lines[k] in ApplyRemovals(lines, ids)
      {
        var j :| 0 <= j < |next| && next[j] == lines[k];
      }
      forall l | l in ApplyRemovals(lines, ids) ensures l in lines && l.productId !in ids {
        var j :| 0 <= j < |next| && next[j] == l;
      }
    }
  }

  /** The ids removed by a list of removal calls are the items' product ids, in order. */
  lemma {:induction false} RemovedIdsOfDeletes(items: seq<CartEntry>)
    ensures RemovedIds(Deletes(items)) == seq(|items|, k requires 0 <= k < |items| => items[k].product.id)
    decreases |items|
  {
    if |items| > 0 {
      RemovedIdsOfDeletes(items[1..]);
      assert Deletes(items)[1..] == Deletes(items[1..]);
    }
  }

  /** What a failed `clearCart` leaves on the server: the removals before the failing
      one were carried out, the failing one changed nothing and the rest were never
      sent. So every server line whose product is not among the first `k` items, where
      the k-th removal failed, is still in the cart. */
  lemma ClearCartPartial(s: Store, removal: nat -> Response, snap: Snapshot,
                         lines: seq<ServerCart.CartLine>)
    requires FirstFailure(|s.items|, removal).Some?
    ensures var k := FirstFailure(|s.items|, removal).value;
            var carried := ClearCart(s, true, removal, snap).calls[..k];
            forall j :: 0 <= j < |lines| && (forall i :: 0 <= i < k ==> s.items[i].product.id != lines[j].productId)
              ==> lines[j] in ApplyRemovals(lines, RemovedIds(carried))
  {
    var k := FirstFailure(|s.items|, removal).value;
    var ids := RemovedIds(ClearCart(s, true, removal, snap).calls[..k]);
    CarriedIds(s, removal, snap);
    ApplyRemovalsKeeps(lines, ids);
    forall j | 0 <= j < |lines| && (forall i :: 0 <= i < k ==> s.items[i].product.id != lines[j].productId)
      ensures lines[j].productId !in ids
    {
      assert forall i :: 0 <= i < |ids| ==> ids[i] == s.items[i].product.id;
    }
  }

  /** The removals a failed `clearCart` carried out are those of the items before the
      failing one. */
  lemma CarriedIds(s: Store, removal: nat -> Response, snap: Snapshot)
    requires FirstFailure(|s.items|, removal).Some?
    ensures var k := FirstFailure(|s.items|, removal).value;
            var ids := RemovedIds(ClearCart(s, true, removal, snap).calls[..k]);
            |ids| == k && forall i :: 0 <= i < k ==> ids[i] == s.items[i].product.id
  {
    var k := FirstFailure(|s.items|, removal).value;
    var calls := ClearCart(s, true, removal, snap).calls;
    assert calls[..k] == Deletes(s.items[..k]);
    RemovedIdsOfDeletes(s.items[..k]);
  }
}
