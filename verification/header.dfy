/** The site header: the cart badge, the search box, and which links it offers to whom. */
module Header {
  import opened Common
  import opened Text
  import CartStore
  import ProductsPage

  /** The cart badge: none for an empty cart, the count up to 99, "99+" beyond. */
  function Badge(cartCount: int): (b: Option<string>)
    ensures b.Some? <==> cartCount > 0
    ensures cartCount > 99 ==> b == Some("99+")
    ensures 0 < cartCount <= 99 ==> b.Some? && IsDigits(b.value) && 1 <= |b.value| <= 2
    ensures 0 < cartCount <= 99 ==> b.value[0] != '0'
  {
    if cartCount > 0 then
      if cartCount > 99 then Some("99+")
      else
        assert NatToString(cartCount) == NatToString(cartCount / 10) + [DigitChar(cartCount % 10)] || cartCount < 10;
        Some(NatToString(cartCount))
    else None
  }

  /** Up to 99 the badge spells the exact count; every larger count shares one badge. */
  lemma BadgeReadsBack(cartCount: int)
    ensures 0 < cartCount <= 99 ==> DigitsValue(Badge(cartCount).value) == cartCount
    ensures forall other: int :: cartCount > 99 && other > 99 ==> Badge(cartCount) == Badge(other)
  {
    if 0 < cartCount <= 99 {
      NatToStringValue(cartCount);
    }
  }

  /** With the cart store settled, the badge shows exactly when the items hold at least
      one unit in total. */
  lemma BadgeFollowsStore(s: CartStore.Store)
    requires CartStore.Consistent(s)
    ensures Badge(s.count).Some? <==> CartStore.Domain.SumQuantities(s.items) > 0
  {
  }

  datatype Search = Search(navigate: Option<string>, query: string)

  /** `handleSearch`: a query with a visible character goes to the catalogue with the
      trimmed query as its `search` parameter, encoded by `encode`, and the box is
      cleared; a blank query does nothing. */
  function HandleSearch(query: string, encode: string -> string): (r: Search)
    ensures IsBlank(query) ==> r == Search(None, query)
    ensures !IsBlank(query) ==>
              r.query == "" && r.navigate == Some("/products?search=" + encode(Trim(query)))
              && Trim(query) != "" && IsTrimmed(Trim(query))
  {
    if Trim(query) != "" then Search(Some("/products?search=" + encode(Trim(query))), "")
    else Search(None, query)
  }

  /** Queries that differ once trimmed lead to different addresses when the encoding is
      injective, and queries that differ only in surrounding white space lead to the same
      one. */
  lemma SearchTargets(q1: string, q2: string, encode: string -> string)
    requires !IsBlank(q1) && !IsBlank(q2)
    requires encode(Trim(q1)) == encode(Trim(q2)) ==> Trim(q1) == Trim(q2)
    ensures HandleSearch(q1, encode).navigate == HandleSearch(q2, encode).navigate <==> Trim(q1) == Trim(q2)
  {
    var prefix := "/products?search=";
    var t1 := prefix + encode(Trim(q1));
    var t2 := prefix + encode(Trim(q2));
    if t1 == t2 {
      assert encode(Trim(q1)) == t1[|prefix|..] == t2[|prefix|..] == encode(Trim(q2));
    }
  }

  /** The catalogue opened by a header search starts with the trimmed query as its search
      filter, title order, and no other filter, whenever `decode` undoes `encode`. */
  lemma SearchLandsOnCatalogue(query: string, encode: string -> string, decode: string -> string)
    requires !IsBlank(query)
    requires decode(encode(Trim(query))) == Trim(query)
    ensures var f := ProductsPage.InitialFilters([("search", decode(encode(Trim(query))))]);
            f == ProductsPage.Filters(Trim(query), "", "", "", "", "", "title")
  {
  }

  /** The links that depend on the session. */
  datatype Links = Links(wishlist: bool, profile: bool, admin: bool, logout: bool, signIn: bool)

  /** The wishlist link and the account menu need a session; the admin entry sits inside
      the account menu and also needs the admin flag; sign-in and sign-up replace the
      menu when signed out. */
  function SessionLinks(authenticated: bool, isAdmin: bool): (l: Links)
    ensures l.admin <==> authenticated && isAdmin
    ensures l.wishlist <==> authenticated
    ensures l.profile == l.logout == authenticated
    ensures l.signIn <==> !authenticated
  {
    Links(authenticated, authenticated, authenticated && isAdmin, authenticated, !authenticated)
  }
}
