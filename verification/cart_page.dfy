/** The cart page's quantity controls: a requested quantity below one removes the line,
    anything else overwrites its quantity; the minus and plus buttons request one less
    and one more than the line holds. */
module CartPage {
  import opened Common
  import opened Domain
  import opened CartStore
  import ServerCart

  datatype Route = RouteRemove(productId: ProductId) | RouteUpdate(productId: ProductId, quantity: int)

  /** The decision of `handleQuantityChange(productId, newQuantity)`. */
  function QuantityRoute(pid: ProductId, newQuantity: int): (r: Route)
    ensures r.productId == pid
    ensures r.RouteRemove? <==> newQuantity < 1
    ensures r.RouteUpdate? ==> r.quantity == newQuantity
  {
    if newQuantity < 1 then RouteRemove(pid) else RouteUpdate(pid, newQuantity)
  }

  /** `handleQuantityChange` carried through the cart store. */
  function HandleQuantityChange(s: Store, authenticated: bool, pid: ProductId, newQuantity: int,
                                resp: Response, snap: Snapshot): (r: Step)
    ensures !authenticated ==> r.calls == [] && r.store == s && !r.reply.success
    ensures authenticated ==>
              |r.calls| >= 1 && r.calls[0] == (if newQuantity < 1 then DeleteRemove(pid) else PutUpdate(pid, newQuantity))
    ensures forall k :: 0 <= k < |r.calls| && r.calls[k].PutUpdate? ==> r.calls[k].quantity >= 1
    ensures r.reply.success <==> authenticated && resp.Done?
  {
    match QuantityRoute(pid, newQuantity)
    case RouteRemove(_) => RemoveFromCart(s, authenticated, pid, resp, snap)
    case RouteUpdate(_, q) => UpdateCartItem(s, authenticated, pid, q, resp, snap)
  }

  /** The minus button: one less, which on the last unit removes the line. */
  function Minus(e: CartEntry): (r: Route)
    ensures e.quantity <= 1 ==> r == RouteRemove(e.product.id)
    ensures e.quantity > 1 ==> r == RouteUpdate(e.product.id, e.quantity - 1)
  {
    QuantityRoute(e.product.id, e.quantity - 1)
  }

  /** The plus button: one more, which is an update for every line the page can create. */
  function Plus(e: CartEntry): (r: Route)
    ensures e.quantity >= 0 ==> r == RouteUpdate(e.product.id, e.quantity + 1)
    ensures e.quantity < 0 ==> r == RouteRemove(e.product.id)
  {
    QuantityRoute(e.product.id, e.quantity + 1)
  }

  predicate AllPositive(lines: seq<ServerCart.CartLine>) {
    forall k :: 0 <= k < |lines| ==> lines[k].quantity >= 1
  }

  /** Driven from the storefront alone, the server's cart never holds a line with fewer
      than one unit: the catalogue adds one unit, and the quantity controls either remove
      the line or write a quantity of at least one. */
  lemma PageKeepsQuantitiesPositive(stored: ServerCart.StoredCart, pid: ProductId, newQuantity: int)
    requires AllPositive(ServerCart.Lines(stored))
    ensures AllPositive(ServerCart.AddToCart(stored, pid, 1))
    ensures var route := QuantityRoute(pid, newQuantity);
            && (route.RouteRemove? && ServerCart.RemoveFromCart(stored, pid).Ok? ==>
                  AllPositive(ServerCart.RemoveFromCart(stored, pid).value))
            && (route.RouteUpdate? && ServerCart.UpdateCartItem(stored, pid, route.quantity).Ok? ==>
                  AllPositive(ServerCart.UpdateCartItem(stored, pid, route.quantity).value))
  {
    var lines := ServerCart.Lines(stored);
    match ServerCart.FindLine(lines, pid)
    case None =>
      assert ServerCart.AddToCart(stored, pid, 1) == lines + [ServerCart.CartLine(pid, 1)];
    case Some(i) =>
      assert ServerCart.FirstLineAt(lines, pid, i);
    if stored.Some? {
      match ServerCart.FindLine(stored.value, pid)
      case None =>
      case Some(i) =>
        assert ServerCart.FirstLineAt(stored.value, pid, i);
    }
  }
}
