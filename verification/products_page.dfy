/** The catalogue page: the filter state and its mirror in the address bar, the fetch
    of the server-filtered listing followed by the client-side search, price bounds and
    sort, the wishlist heart, and the star rating. */
module ProductsPage {
  import opened Common
  import opened Domain
  import opened Text
  import opened Sorting
  import Seqs
  import ServerCatalog
  import ServerWishlist

  datatype Filters = Filters(
    search: string,
    category: string,
    platform: string,
    genre: string,
    priceMin: string,
    priceMax: string,
    sortBy: string)

  datatype FilterKey = Search | Category | Platform | Genre | PriceMin | PriceMax | SortBy

  /** The keys of the filter object in declaration order, the order of its entries. */
  const Keys: seq<FilterKey> := [Search, Category, Platform, Genre, PriceMin, PriceMax, SortBy]

  function KeyName(k: FilterKey): string {
    match k
    case Search => "search"
    case Category => "category"
    case Platform => "platform"
    case Genre => "genre"
    case PriceMin => "priceMin"
    case PriceMax => "priceMax"
    case SortBy => "sortBy"
  }

  /** Different filters have different parameter names. */
  lemma KeyNameInjective(a: FilterKey, b: FilterKey)
    ensures KeyName(a) == KeyName(b) ==> a == b
  {
    if KeyName(a) == KeyName(b) {
      var n, m := KeyName(a), KeyName(b);
      assert n[0] == m[0] && n[|n| - 1] == m[|m| - 1];
    }
  }

  function Get(f: Filters, k: FilterKey): string {
    match k
    case Search => f.search
    case Category => f.category
    case Platform => f.platform
    case Genre => f.genre
    case PriceMin => f.priceMin
    case PriceMax => f.priceMax
    case SortBy => f.sortBy
  }

  /** `{ ...filters, [key]: value }`. */
  function Set(f: Filters, k: FilterKey, v: string): (r: Filters)
    ensures Get(r, k) == v
    ensures forall j :: j != k ==> Get(r, j) == Get(f, j)
  {
    match k
    case Search => f.(search := v)
    case Category => f.(category := v)
    case Platform => f.(platform := v)
    case Genre => f.(genre := v)
    case PriceMin => f.(priceMin := v)
    case PriceMax => f.(priceMax := v)
    case SortBy => f.(sortBy := v)
  }

  /** A query string as a list of name/value pairs. */
  type Params = seq<(string, string)>

  /** Position of the first pair with this name. */
  function ParamIndex(params: Params, name: string): (r: Option<nat>)
    ensures r.Some? ==> r.value < |params| && params[r.value].0 == name
    ensures r.Some? ==> forall j :: 0 <= j < r.value ==> params[j].0 != name
    ensures r.None? <==> forall k :: 0 <= k < |params| ==> params[k].0 != name
    decreases |params|
  {
    if |params| == 0 then None
    else if params[0].0 == name then Some(0)
    else match ParamIndex(params[1..], name)
      case None => None
      case Some(i) => Some(i + 1)
  }

  /** `URLSearchParams.get`: the value of the first pair with this name. */
  function ParamGet(params: Params, name: string): (r: Option<string>)
    ensures r.Some? ==> (name, r.value) in params
    ensures r.Some? <==> ParamIndex(params, name).Some?
    ensures r.Some? ==> r.value == params[ParamIndex(params, name).value].1
    ensures r.None? <==> forall k :: 0 <= k < |params| ==> params[k].0 != name
    decreases |params|
  {
    if |params| == 0 then None
    else if params[0].0 == name then Some(params[0].1)
    else ParamGet(params[1..], name)
  }

  lemma {:induction false} ParamGetAppend(a: Params, b: Params, name: string)
    ensures ParamGet(a + b, name) == if ParamGet(a, name).Some? then ParamGet(a, name) else ParamGet(b, name)
    decreases |a|
  {
    if |a| > 0 {
      assert (a + b)[1..] == a[1..] + b;
      ParamGetAppend(a[1..], b, name);
    } else {
      assert a + b == b;
    }
  }

  /** The pair for one filter, present only when the filter is set. */
  function Pair(f: Filters, k: FilterKey): Params {
    if Get(f, k) != "" then [(KeyName(k), Get(f, k))] else []
  }

  /** The query of the listing request: category, platform and genre, each only when set. */
  function ServerParams(f: Filters): (r: Params)
    ensures forall k :: 0 <= k < |r| ==> r[k].1 != ""
    ensures forall k :: 0 <= k < |r| ==>
              r[k] in [(KeyName(Category), f.category), (KeyName(Platform), f.platform),
                       (KeyName(Genre), f.genre)]
  {
    Pair(f, Category) + Pair(f, Platform) + Pair(f, Genre)
  }

  /** The listing request as the backend reads it: the three server-side filters and the
      route's default window, since the page sends no `limit` or `skip`. The backend reads
      back from the sent parameters exactly the page's category, platform and genre. */
  function ServerQuery(f: Filters): (q: ServerCatalog.ProductQuery)
    ensures q.limit == ServerCatalog.DefaultLimit && q.skip == 0 && q.featured.None?
    ensures forall k :: k in [Category, Platform, Genre] ==>
              ParamGet(ServerParams(f), KeyName(k)) == (if Get(f, k) == "" then None else Some(Get(f, k)))
    ensures q.category == OrElse(ParamGet(ServerParams(f), KeyName(Category)), "")
    ensures q.platform == OrElse(ParamGet(ServerParams(f), KeyName(Platform)), "")
    ensures q.genre == OrElse(ParamGet(ServerParams(f), KeyName(Genre)), "")
  {
    forall k | k in [Category, Platform, Genre]
      ensures ParamGet(ServerParams(f), KeyName(k)) == (if Get(f, k) == "" then None else Some(Get(f, k)))
    {
      ServerParamsGet(f, k);
    }
    ServerCatalog.ProductQuery(f.category, f.platform, f.genre, None, ServerCatalog.DefaultLimit, 0)
  }

  /** The search text, the price bounds and the sort never reach the server: they are
      applied on the page. */
  lemma ClientSideNotSent(f: Filters, k: FilterKey)
    requires k in [Search, PriceMin, PriceMax, SortBy]
    ensures ParamGet(ServerParams(f), KeyName(k)).None?
  {
    KeyNameInjective(k, Category);
    KeyNameInjective(k, Platform);
    KeyNameInjective(k, Genre);
  }

  lemma ServerParamsGet(f: Filters, k: FilterKey)
    requires k in [Category, Platform, Genre]
    ensures ParamGet(ServerParams(f), KeyName(k)) == (if Get(f, k) == "" then None else Some(Get(f, k)))
  {
    ParamGetAppend(Pair(f, Category) + Pair(f, Platform), Pair(f, Genre), KeyName(k));
    ParamGetAppend(Pair(f, Category), Pair(f, Platform), KeyName(k));
    KeyNameInjective(k, Category);
    KeyNameInjective(k, Platform);
    KeyNameInjective(k, Genre);
  }

  /** Case-insensitive search in the title or the description. */
  predicate MatchesSearch(p: Product, term: string) {
    Contains(Lower(p.title), Lower(term)) || Contains(Lower(p.description), Lower(term))
  }

  /** The price bounds go through `parseFloat`, supplied here as `parse`; a bound that does
      not parse is `NaN`, and every comparison with `NaN` is false. */
  predicate AtLeast(p: Product, bound: string, parse: string -> Option<real>) {
    parse(bound).Some? && p.price >= parse(bound).value
  }

  predicate AtMost(p: Product, bound: string, parse: string -> Option<real>) {
    parse(bound).Some? && p.price <= parse(bound).value
  }

  /** Each client-side test keeps everything while its filter is empty, exactly as the
      skipped `filter` call does. */
  function SearchTest(term: string): Product -> bool {
    p => term == "" || MatchesSearch(p, term)
  }

  function MinTest(bound: string, parse: string -> Option<real>): Product -> bool {
    p => bound == "" || AtLeast(p, bound, parse)
  }

  function MaxTest(bound: string, parse: string -> Option<real>): Product -> bool {
    p => bound == "" || AtMost(p, bound, parse)
  }

  /** A fetched product is on screen: it passes the search and both price bounds. */
  predicate Shown(p: Product, f: Filters, parse: string -> Option<real>) {
    && (f.search == "" || MatchesSearch(p, f.search))
    && (f.priceMin == "" || AtLeast(p, f.priceMin, parse))
    && (f.priceMax == "" || AtMost(p, f.priceMax, parse))
  }

  function ShownTest(f: Filters, parse: string -> Option<real>): Product -> bool {
    p => Shown(p, f, parse)
  }

  /** Membership in a filtered catalogue list. */
  lemma FilterMembers(s: seq<Product>, test: Product -> bool)
    ensures forall x :: x in Seqs.Filter(s, test) <==> x in s && test(x)
  {
    forall x | x in s && test(x) ensures x in Seqs.Filter(s, test) {
      var i :| 0 <= i < |s| && s[i] == x;
    }
    forall x | x in Seqs.Filter(s, test) ensures x in s && test(x) {
      var r := Seqs.Filter(s, test);
      var i :| 0 <= i < |r| && r[i] == x;
    }
  }

  /** The three client-side filters in the order `loadProducts` applies them. They act as
      one filter: the fetched products that pass every test, in their fetched order. */
  function Selected(fetched: seq<Product>, f: Filters, parse: string -> Option<real>): (r: seq<Product>)
    ensures forall x :: x in r <==> x in fetched && Shown(x, f, parse)
    ensures r == Seqs.Filter(fetched, ShownTest(f, parse))
    ensures Seqs.IsSubsequence(r, fetched)
  {
    var a := Seqs.Filter(fetched, SearchTest(f.search));
    var b := Seqs.Filter(a, MinTest(f.priceMin, parse));
    var searchMin: Product -> bool := p => SearchTest(f.search)(p) && MinTest(f.priceMin, parse)(p);
    Seqs.FilterFilter(fetched, SearchTest(f.search), MinTest(f.priceMin, parse), searchMin);
    Seqs.FilterFilter(fetched, searchMin, MaxTest(f.priceMax, parse), ShownTest(f, parse));
    FilterMembers(fetched, ShownTest(f, parse));
    Seqs.FilterIsSubsequence(fetched, ShownTest(f, parse));
    Seqs.Filter(b, MaxTest(f.priceMax, parse))
  }

  /** The client-side part of `loadProducts`: search, minimum price, maximum price, sort. */
  function Visible(fetched: seq<Product>, f: Filters, parse: string -> Option<real>): (r: seq<Product>)
    ensures Sorted(ModeOf(f.sortBy), r)
    ensures forall k :: 0 <= k < |r| ==> r[k] in fetched && Shown(r[k], f, parse)
    ensures forall k :: 0 <= k < |fetched| && Shown(fetched[k], f, parse) ==> fetched[k] in r
  {
    var c := Selected(fetched, f, parse);
    SortMembers(ModeOf(f.sortBy), c);
    Sort(ModeOf(f.sortBy), c)
  }

  /** What the page shows is the stable sort of exactly the fetched products that pass
      every test, with their multiplicities. */
  lemma VisibleIsSortedSelection(fetched: seq<Product>, f: Filters, parse: string -> Option<real>)
    ensures Visible(fetched, f, parse) == Sort(ModeOf(f.sortBy), Seqs.Filter(fetched, ShownTest(f, parse)))
    ensures multiset(Visible(fetched, f, parse)) == multiset(Seqs.Filter(fetched, ShownTest(f, parse)))
  {
    var c := Selected(fetched, f, parse);
    assert c == Seqs.Filter(fetched, ShownTest(f, parse));
  }

  /** With no search and no price bound every fetched product is shown, only reordered. */
  lemma UnfilteredShowsAll(fetched: seq<Product>, f: Filters, parse: string -> Option<real>)
    requires f.search == "" && f.priceMin == "" && f.priceMax == ""
    ensures multiset(Visible(fetched, f, parse)) == multiset(fetched)
  {
    VisibleIsSortedSelection(fetched, f, parse);
    Seqs.FilterAll(fetched, ShownTest(f, parse));
  }

  /** The backend's answer to the listing request. */
  datatype Fetch = Fetched(products: seq<Product>) | FetchFailed

  datatype Listing = Listing(products: seq<Product>, error: Option<string>)

  const LoadError := "Errore nel caricamento dei prodotti"

  /** `loadProducts`: a failed request keeps the products already on screen and raises
      the error toast; otherwise the screen shows the filtered and sorted answer. */
  function LoadProducts(onScreen: seq<Product>, f: Filters, fetch: Fetch,
                        parse: string -> Option<real>): (r: Listing)
    ensures fetch.FetchFailed? ==> r == Listing(onScreen, Some(LoadError))
    ensures fetch.Fetched? ==> r.error.None? && Sorted(ModeOf(f.sortBy), r.products)
    ensures fetch.Fetched? ==> forall k :: 0 <= k < |r.products| ==>
              r.products[k] in fetch.products && Shown(r.products[k], f, parse)
    ensures fetch.Fetched? ==>
              forall k :: 0 <= k < |fetch.products| && Shown(fetch.products[k], f, parse) ==>
                fetch.products[k] in r.products
  {
    match fetch
    case FetchFailed => Listing(onScreen, Some(LoadError))
    case Fetched(products) => Listing(Visible(products, f, parse), None)
  }

  /** End to end, with the backend's listing as the answer: at most twenty products, each
      a catalogue product that satisfies all six filters of the page. */
  lemma ListingMeetsEveryFilter(db: seq<Product>, f: Filters, parse: string -> Option<real>)
    ensures ServerCatalog.GetProducts(db, ServerQuery(f)).Ok?
    ensures var shown := Visible(ServerCatalog.GetProducts(db, ServerQuery(f)).value, f, parse);
            |shown| <= 20
            && forall k :: 0 <= k < |shown| ==>
                 shown[k] in db && Shown(shown[k], f, parse)
                 && (f.category == "" || shown[k].categoryId == f.category)
                 && (f.platform == "" || f.platform in shown[k].platform)
                 && (f.genre == "" || f.genre in shown[k].genre)
  {
    var q := ServerQuery(f);
    assert q == ServerCatalog.ProductQuery(f.category, f.platform, f.genre, None, 20, 0);
    var fetched := ServerCatalog.GetProducts(db, q).value;
    var shown := Visible(fetched, f, parse);
    VisibleIsSortedSelection(fetched, f, parse);
    assert |shown| == |Seqs.Filter(fetched, ShownTest(f, parse))| <= |fetched|;
    forall k | 0 <= k < |shown|
      ensures shown[k] in db && ServerCatalog.Matches(shown[k], q)
    {
      FetchedMatches(db, q, shown[k]);
    }
  }

  lemma FetchedMatches(db: seq<Product>, q: ServerCatalog.ProductQuery, x: Product)
    requires ServerCatalog.GetProducts(db, q).Ok? && x in ServerCatalog.GetProducts(db, q).value
    ensures x in db && ServerCatalog.Matches(x, q)
  {
    var fetched := ServerCatalog.GetProducts(db, q).value;
    var j :| 0 <= j < |fetched| && fetched[j] == x;
  }

  /** The address bar: one pair per set filter, in key order. */
  function ParamsFrom(f: Filters, keys: seq<FilterKey>): Params
    decreases |keys|
  {
    if |keys| == 0 then [] else Pair(f, keys[0]) + ParamsFrom(f, keys[1..])
  }

  lemma {:induction false} ParamsFromGet(f: Filters, keys: seq<FilterKey>, k: FilterKey)
    ensures ParamGet(ParamsFrom(f, keys), KeyName(k)) ==
            if k in keys && Get(f, k) != "" then Some(Get(f, k)) else None
    decreases |keys|
  {
    if |keys| > 0 {
      ParamsFromGet(f, keys[1..], k);
      ParamGetAppend(Pair(f, keys[0]), ParamsFrom(f, keys[1..]), KeyName(k));
      KeyNameInjective(keys[0], k);
      assert k in keys <==> k == keys[0] || k in keys[1..];
    }
  }

  lemma {:induction false} ParamsFromValues(f: Filters, keys: seq<FilterKey>)
    ensures forall i :: 0 <= i < |ParamsFrom(f, keys)| ==> ParamsFrom(f, keys)[i].1 != ""
    decreases |keys|
  {
    if |keys| > 0 {
      ParamsFromValues(f, keys[1..]);
    }
  }

  /** The pair is some filter's name with that filter's value. */
  predicate IsFilterPair(f: Filters, keys: seq<FilterKey>, kv: (string, string)) {
    exists k :: k in keys && kv == (KeyName(k), Get(f, k))
  }

  lemma {:induction false} ParamsFromPairs(f: Filters, keys: seq<FilterKey>)
    ensures forall i :: 0 <= i < |ParamsFrom(f, keys)| ==> IsFilterPair(f, keys, ParamsFrom(f, keys)[i])
    decreases |keys|
  {
    if |keys| > 0 {
      ParamsFromPairs(f, keys[1..]);
      var head: Params, rest: Params := Pair(f, keys[0]), ParamsFrom(f, keys[1..]);
      assert ParamsFrom(f, keys) == head + rest;
      forall i | 0 <= i < |head + rest| ensures IsFilterPair(f, keys, (head + rest)[i]) {
        if i < |head| {
          assert (head + rest)[i] == (KeyName(keys[0]), Get(f, keys[0]));
        } else {
          assert (head + rest)[i] == rest[i - |head|];
          var k :| k in keys[1..] && rest[i - |head|] == (KeyName(k), Get(f, k));
          assert k in keys;
        }
      }
    }
  }

  /** Distinct keys give pairs with distinct names. */
  lemma {:induction false} ParamsFromDistinct(f: Filters, keys: seq<FilterKey>)
    requires forall i, j :: 0 <= i < j < |keys| ==> keys[i] != keys[j]
    ensures forall i, j :: 0 <= i < j < |ParamsFrom(f, keys)| ==>
              ParamsFrom(f, keys)[i].0 != ParamsFrom(f, keys)[j].0
    decreases |keys|
  {
    if |keys| > 0 {
      var tail := keys[1..];
      ParamsFromDistinct(f, tail);
      ParamsFromGet(f, tail, keys[0]);
      if Get(f, keys[0]) != "" {
        FrontNameFresh((KeyName(keys[0]), Get(f, keys[0])), ParamsFrom(f, tail));
      }
    }
  }

  /** A pair whose name the rest lacks keeps the names distinct. */
  lemma FrontNameFresh(x: (string, string), rest: Params)
    requires forall j :: 0 <= j < |rest| ==> rest[j].0 != x.0
    requires forall i, j :: 0 <= i < j < |rest| ==> rest[i].0 != rest[j].0
    ensures forall i, j :: 0 <= i < j < |[x] + rest| ==> ([x] + rest)[i].0 != ([x] + rest)[j].0
  {
    var all := [x] + rest;
    assert forall j :: 1 <= j < |all| ==> all[j] == rest[j - 1];
  }

  /** The query string `handleFilterChange` writes: exactly the set filters, each once,
      and nothing else. */
  function UrlParams(f: Filters): (r: Params)
    ensures forall k :: ParamGet(r, KeyName(k)) == if Get(f, k) == "" then None else Some(Get(f, k))
    ensures forall i :: 0 <= i < |r| ==> r[i].1 != ""
    ensures forall i :: 0 <= i < |r| ==> IsFilterPair(f, Keys, r[i])
    ensures forall i, j :: 0 <= i < j < |r| ==> r[i].0 != r[j].0
  {
    ParamsFromPairs(f, Keys);
    ParamsFromDistinct(f, Keys);
    forall k ensures ParamGet(ParamsFrom(f, Keys), KeyName(k)) == if Get(f, k) == "" then None else Some(Get(f, k)) {
      EveryKeyParam(f, k);
    }
    ParamsFromValues(f, Keys);
    ParamsFrom(f, Keys)
  }

  lemma EveryKeyParam(f: Filters, k: FilterKey)
    ensures ParamGet(ParamsFrom(f, Keys), KeyName(k)) == if Get(f, k) == "" then None else Some(Get(f, k))
  {
    ParamsFromGet(f, Keys, k);
    assert k in Keys;
  }

  /** `searchParams.get(name) || fallback`: a missing or empty value gives the fallback. */
  function OrElse(value: Option<string>, fallback: string): (r: string)
    ensures value.Some? && value.value != "" ==> r == value.value
    ensures value.None? || value.value == "" ==> r == fallback
  {
    if value.Some? && value.value != "" then value.value else fallback
  }

  /** The filters the page starts from: every filter read from the address bar, the sort
      defaulting to title order. */
  function InitialFilters(params: Params): (f: Filters)
    ensures f.sortBy != ""
    ensures f.sortBy == OrElse(ParamGet(params, KeyName(SortBy)), "title")
    ensures forall k :: k != SortBy ==> Get(f, k) == OrElse(ParamGet(params, KeyName(k)), "")
  {
    var f := Filters(Read(params, Search), Read(params, Category), Read(params, Platform),
                     Read(params, Genre), Read(params, PriceMin), Read(params, PriceMax),
                     Read(params, SortBy));
    assert forall k :: Get(f, k) == Read(params, k);
    f
  }

  /** One filter's starting value: its parameter, or the filter's default. */
  function Read(params: Params, k: FilterKey): string {
    OrElse(ParamGet(params, KeyName(k)), if k == SortBy then "title" else "")
  }

  /** Reloading the page restores the filters from the address bar; only an empty sort
      comes back as title order. */
  lemma UrlRoundTrip(f: Filters)
    ensures f.sortBy != "" ==> InitialFilters(UrlParams(f)) == f
    ensures f.sortBy == "" ==> InitialFilters(UrlParams(f)) == f.(sortBy := "title")
  {
    RoundTripKey(f, Search);
    RoundTripKey(f, Category);
    RoundTripKey(f, Platform);
    RoundTripKey(f, Genre);
    RoundTripKey(f, PriceMin);
    RoundTripKey(f, PriceMax);
    RoundTripKey(f, SortBy);
  }

  lemma RoundTripKey(f: Filters, k: FilterKey)
    ensures Get(InitialFilters(UrlParams(f)), k) == if k == SortBy && f.sortBy == "" then "title" else Get(f, k)
  {
    var r := UrlParams(f);
    assert ParamGet(r, KeyName(k)) == if Get(f, k) == "" then None else Some(Get(f, k));
  }

  datatype FilterChange = FilterChange(filters: Filters, params: Params)

  /** `handleFilterChange(key, value)`: the new filters, and the address bar rewritten from
      them. */
  function HandleFilterChange(f: Filters, k: FilterKey, v: string): (r: FilterChange)
    ensures Get(r.filters, k) == v && forall j :: j != k ==> Get(r.filters, j) == Get(f, j)
    ensures forall j :: ParamGet(r.params, KeyName(j)) == if Get(r.filters, j) == "" then None else Some(Get(r.filters, j))
  {
    var g := Set(f, k, v);
    FilterChange(g, UrlParams(g))
  }

  /** A filter change survives a reload of the page. */
  lemma FilterChangeSurvivesReload(f: Filters, k: FilterKey, v: string)
    requires Get(Set(f, k, v), SortBy) != ""
    ensures InitialFilters(HandleFilterChange(f, k, v).params) == HandleFilterChange(f, k, v).filters
  {
    UrlRoundTrip(Set(f, k, v));
  }

  /** `clearFilters`: everything empty, title order, and an empty query string. */
  function ClearFilters(): (r: FilterChange)
    ensures r.params == []
    ensures forall k :: k != SortBy ==> Get(r.filters, k) == ""
    ensures ModeOf(r.filters.sortBy) == ByTitle
  {
    FilterChange(Filters("", "", "", "", "", "", "title"), [])
  }

  /** After clearing, a reload starts from the same cleared filters, and the page shows
      every fetched product in title order. */
  lemma ClearedFilters(fetched: seq<Product>, parse: string -> Option<real>)
    ensures InitialFilters(ClearFilters().params) == ClearFilters().filters
    ensures multiset(Visible(fetched, ClearFilters().filters, parse)) == multiset(fetched)
  {
    UnfilteredShowsAll(fetched, ClearFilters().filters, parse);
  }

  datatype WishlistCall = WishlistRemove(productId: ProductId) | WishlistAdd(productId: ProductId)

  datatype Toggled = Toggled(ids: seq<ProductId>, calls: seq<WishlistCall>, message: string)

  const SignInRequired := "Devi essere registrato per aggiungere alla wishlist"
  const RemovedMessage := "Rimosso dalla wishlist"
  const AddedMessage := "Aggiunto alla wishlist"
  const WishlistError := "Errore nella gestione della wishlist"

  /** `toggleWishlist(productId)`: refused without a call when signed out; otherwise a
      removal when the heart is filled and an add when it is not, and the local ids
      follow only when the request went through. */
  function ToggleWishlist(ids: seq<ProductId>, authenticated: bool, pid: ProductId, resp: Response)
    : (r: Toggled)
    ensures !authenticated ==> r == Toggled(ids, [], SignInRequired)
    ensures authenticated ==> r.calls == [if pid in ids then WishlistRemove(pid) else WishlistAdd(pid)]
    ensures resp.Failed? ==> r.ids == ids
    ensures authenticated && resp.Failed? ==> r.message == WishlistError
    ensures authenticated && resp.Done? && pid in ids ==>
              r.message == RemovedMessage && pid !in r.ids
              && (forall k :: 0 <= k < |ids| && ids[k] != pid ==> ids[k] in r.ids)
              && (forall k :: 0 <= k < |r.ids| ==> r.ids[k] in ids)
    ensures authenticated && resp.Done? && pid !in ids ==> r == Toggled(ids + [pid], r.calls, AddedMessage)
  {
    if !authenticated then Toggled(ids, [], SignInRequired)
    else if pid in ids then
      match resp
      case Failed(_) => Toggled(ids, [WishlistRemove(pid)], WishlistError)
      case Done => Toggled(Seqs.Filter(ids, ServerWishlist.IsNot(pid)), [WishlistRemove(pid)], RemovedMessage)
    else
      match resp
      case Failed(_) => Toggled(ids, [WishlistAdd(pid)], WishlistError)
      case Done => Toggled(ids + [pid], [WishlistAdd(pid)], AddedMessage)
  }

  /** Two successful clicks on an empty heart fill it and empty it again, restoring the ids. */
  lemma ToggleTwiceRestores(ids: seq<ProductId>, pid: ProductId)
    requires pid !in ids
    ensures var once := ToggleWishlist(ids, true, pid, Done);
            pid in once.ids && ToggleWishlist(once.ids, true, pid, Done).ids == ids
  {
    var keep := ServerWishlist.IsNot(pid);
    Seqs.FilterAppend(ids, [pid], keep);
    Seqs.FilterAll(ids, keep);
    assert Seqs.Filter([pid], keep) == [];
  }

  /** The icons of `renderStars(rating)`. */
  datatype Stars = Stars(full: nat, half: bool, empty: nat)

  function Ceil(x: real): int {
    -((-x).Floor)
  }

  /** `Math.floor(rating)` filled stars, a half star when `rating % 1` is not zero, and
      `5 - Math.ceil(rating)` empty ones; a negative count draws nothing. */
  function RenderStars(rating: real): (s: Stars)
    ensures rating >= 0.0 ==> s.full as real <= rating < s.full as real + 1.0
    ensures rating < 1.0 ==> s.full == 0
    ensures s.half <==> rating != rating.Floor as real
    ensures rating <= 5.0 ==> s.full + (if s.half then 1 else 0) + s.empty >= 5
  {
    var full := if rating.Floor < 0 then 0 else rating.Floor;
    var empty := if 5 - Ceil(rating) < 0 then 0 else 5 - Ceil(rating);
    Stars(full, rating != rating.Floor as real, empty)
  }

  /** Exactly five icons are drawn precisely for ratings from 0 to 5. */
  lemma FiveStarsExactly(rating: real)
    ensures var s := RenderStars(rating);
            s.full + (if s.half then 1 else 0) + s.empty == 5 <==> 0.0 <= rating <= 5.0
  {
  }
}
