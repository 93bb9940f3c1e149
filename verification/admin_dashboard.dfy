/** The admin dashboard: who may open it, the list inputs for platforms and genres with
    their text form, the product table's search and stock column, the featured preview,
    and the product form's reset, edit, save and delete. */
module AdminDashboard {
  import opened Common
  import opened Domain
  import opened Text
  import Seqs
  import ServerAuth
  import ServerCatalog

  /** The dashboard renders its content, and loads anything, only for a signed-in admin. */
  predicate Opens(authenticated: bool, isAdmin: bool) {
    authenticated && isAdmin
  }

  datatype AdminCall =
    | ListProducts(limit: int)
    | ListCategories
    | CreateProduct
    | UpdateProduct(productId: ProductId)
    | DeleteProduct(productId: ProductId)

  /** The `[isAuthenticated, isAdmin]` effect: the products (at most a hundred) and the
      categories, or nothing at all. */
  function InitialLoads(authenticated: bool, isAdmin: bool): (r: seq<AdminCall>)
    ensures r != [] <==> Opens(authenticated, isAdmin)
    ensures r != [] ==> r == [ListProducts(100), ListCategories]
  {
    if authenticated && isAdmin then [ListProducts(100), ListCategories] else []
  }

  /** The page's gate agrees with the backend's: a signed-in account passes it exactly
      when the admin routes accept it. */
  lemma GateMatchesBackend(user: ServerAuth.User)
    ensures Opens(true, user.isAdmin) <==> ServerAuth.RequireAdmin(user).Ok?
  {
  }

  /** The admin listing's request, `limit=100`, as the backend reads it. */
  function AdminQuery(): ServerCatalog.ProductQuery {
    ServerCatalog.ProductQuery("", "", "", None, 100, 0)
  }

  /** The dashboard sees at most a hundred products, and a catalogue of up to a hundred
      products in full. */
  lemma AdminListing(db: seq<Product>)
    ensures ServerCatalog.GetProducts(db, AdminQuery()).Ok?
    ensures |ServerCatalog.GetProducts(db, AdminQuery()).value| <= 100
    ensures |db| <= 100 ==> ServerCatalog.GetProducts(db, AdminQuery()).value == db
  {
    assert forall k :: 0 <= k < |db| ==> ServerCatalog.MatchesQuery(AdminQuery())(db[k]);
    Seqs.FilterAll(db, ServerCatalog.MatchesQuery(AdminQuery()));
  }

  /** The platform and genre inputs: a list until the admin edits them as text. */
  datatype ListField = Items(items: seq<string>) | Typed(text: string)

  /** `s.split(',').map(p => p.trim())`. */
  function Pieces(s: string): (r: seq<string>)
    ensures |r| >= 1 && |r| == |Split(s, ',')|
    ensures forall k :: 0 <= k < |r| ==> r[k] == Trim(Split(s, ',')[k])
    ensures forall k :: 0 <= k < |r| ==> IsTrimmed(r[k]) && ',' !in r[k]
  {
    var parts := Split(s, ',');
    seq(|parts|, k requires 0 <= k < |parts| => Trim(parts[k]))
  }

  /** The list a submit sends: a list passes through, text is cut at the commas. */
  function ParseList(v: ListField): (r: seq<string>)
    ensures v.Items? ==> r == v.items
    ensures v.Typed? ==> |r| >= 1 && |r| == |Split(v.text, ',')|
    ensures v.Typed? ==> forall k :: 0 <= k < |r| ==> r[k] == Trim(Split(v.text, ',')[k])
  {
    match v
    case Items(xs) => xs
    case Typed(t) => Pieces(t)
  }

  /** What editing a product puts into the input: the list joined with ", ". */
  function FormatList(xs: seq<string>): ListField {
    Typed(Join(xs, ", "))
  }

  /** The pieces of a ", "-join before trimming: every piece after the first starts with
      the space of the separator. */
  function PadTail(xs: seq<string>): (r: seq<string>)
    requires |xs| >= 1
    ensures |r| == |xs| && r[0] == xs[0]
    ensures forall k :: 1 <= k < |xs| ==> r[k] == " " + xs[k]
  {
    [xs[0]] + seq(|xs| - 1, k requires 0 <= k < |xs| - 1 => " " + xs[k + 1])
  }

  lemma JoinPrefixFirst(p: string, ys: seq<string>, sep: string)
    requires |ys| >= 1
    ensures Join(ys[0 := p + ys[0]], sep) == p + Join(ys, sep)
  {
    if |ys| > 1 {
      assert ys[0 := p + ys[0]][1..] == ys[1..];
    }
  }

  lemma {:induction false} JoinCommaSpace(xs: seq<string>)
    requires |xs| >= 1
    ensures Join(xs, ", ") == Join(PadTail(xs), ",")
    decreases |xs|
  {
    if |xs| > 1 {
      JoinCommaSpace(xs[1..]);
      var tail := PadTail(xs[1..]);
      assert PadTail(xs)[1..] == tail[0 := " " + tail[0]];
      JoinPrefixFirst(" ", tail, ",");
    }
  }

  /** Cutting a ", "-join at its commas gives the entries, each after the first with the
      separator's space in front. */
  lemma SplitFormatted(xs: seq<string>)
    requires |xs| >= 1
    requires forall k :: 0 <= k < |xs| ==> ',' !in xs[k]
    ensures Split(Join(xs, ", "), ',') == PadTail(xs)
  {
    var padded := PadTail(xs);
    JoinCommaSpace(xs);
    forall k | 0 <= k < |padded| ensures ',' !in padded[k] {
      if k > 0 {
        assert padded[k] == [' '] + xs[k];
      }
    }
    assert "," == [','];
    SplitJoin(padded, ',');
  }

  lemma TrimPadTail(xs: seq<string>)
    requires |xs| >= 1
    requires forall k :: 0 <= k < |xs| ==> IsTrimmed(xs[k])
    ensures forall k :: 0 <= k < |xs| ==> Trim(PadTail(xs)[k]) == xs[k]
  {
    forall k | 0 <= k < |xs| ensures Trim(PadTail(xs)[k]) == xs[k] {
      if k == 0 {
        TrimTrimmed(xs[0]);
      } else {
        assert IsBlank(" ");
        TrimPadded(" ", xs[k]);
      }
    }
  }

  /** Editing a product and saving it untouched keeps its platforms and genres, as long as
      the list is not empty and no entry holds a comma or surrounding white space. */
  lemma ListRoundTrip(xs: seq<string>)
    requires |xs| >= 1
    requires forall k :: 0 <= k < |xs| ==> ',' !in xs[k] && IsTrimmed(xs[k])
    ensures ParseList(FormatList(xs)) == xs
  {
    SplitFormatted(xs);
    TrimPadTail(xs);
    var r := ParseList(FormatList(xs));
    assert |r| == |xs|;
    assert forall k :: 0 <= k < |xs| ==> r[k] == Trim(PadTail(xs)[k]);
  }

  /** The empty list does not survive: its text is "", which parses as one empty entry. */
  lemma EmptyListComesBackAsOneBlank()
    ensures ParseList(FormatList([])) == [""]
  {
    assert Split("", ',') == [""];
    assert Trim("") == "";
  }

  /** The product table's search: by title or by developer, case-insensitively. */
  predicate AdminMatches(p: Product, term: string) {
    Contains(Lower(p.title), Lower(term)) || Contains(Lower(p.developer), Lower(term))
  }

  function AdminTest(term: string): Product -> bool {
    p => AdminMatches(p, term)
  }

  function AdminSearch(products: seq<Product>, term: string): (r: seq<Product>)
    ensures forall k :: 0 <= k < |r| ==> r[k] in products && AdminMatches(r[k], term)
    ensures forall k :: 0 <= k < |products| && AdminMatches(products[k], term) ==> products[k] in r
    ensures Seqs.IsSubsequence(r, products)
  {
    Seqs.FilterIsSubsequence(products, AdminTest(term));
    Seqs.Filter(products, AdminTest(term))
  }

  /** An empty search box lists every product. */
  lemma EmptySearchKeepsAll(products: seq<Product>)
    ensures AdminSearch(products, "") == products
  {
    forall k | 0 <= k < |products| ensures AdminTest("")(products[k]) {
      ContainsEmpty(Lower(products[k].title));
    }
    Seqs.FilterAll(products, AdminTest(""));
  }

  /** The stock column. */
  function StockLabel(inStock: int): string {
    if inStock > 0 then NatToString(inStock) + " pezzi" else "Esaurito"
  }

  /** The stock column reads back: a positive stock shows its own count before " pezzi",
      and every other stock shows "Esaurito", which no count produces. */
  lemma StockLabelReadsBack(inStock: int)
    ensures inStock > 0 ==>
              exists digits :: StockLabel(inStock) == digits + " pezzi" && IsDigits(digits)
                               && |digits| >= 1 && digits[0] != '0' && DigitsValue(digits) == inStock
    ensures StockLabel(inStock) == "Esaurito" <==> inStock <= 0
  {
    if inStock > 0 {
      var digits := NatToString(inStock);
      NatToStringValue(inStock);
      assert StockLabel(inStock)[0] == digits[0];
    }
  }

  function IsFeatured(): Product -> bool {
    (p: Product) => p.featured
  }

  /** `products.filter(p => p.featured).slice(0, 3)`: the first three featured products,
      in list order. */
  function FeaturedPreview(products: seq<Product>): (r: seq<Product>)
    ensures |r| <= 3
    ensures forall k :: 0 <= k < |r| ==> r[k].featured && r[k] in products
    ensures var all := Seqs.Filter(products, IsFeatured());
            |r| == (if |all| < 3 then |all| else 3) && r == all[..|r|]
  {
    var all := Seqs.Filter(products, IsFeatured());
    if |all| <= 3 then all else all[..3]
  }

  /** The product form. Prices, stock and dates are the text of their inputs. */
  datatype ProductForm = ProductForm(
    title: string,
    description: string,
    price: string,
    imageUrl: string,
    categoryId: string,
    platform: ListField,
    genre: ListField,
    rating: string,
    releaseDate: string,
    developer: string,
    publisher: string,
    inStock: string,
    featured: bool)

  /** `resetProductForm`: empty text, empty lists, rating "E", not featured. */
  const BlankForm := ProductForm("", "", "", "", "", Items([]), Items([]), "E", "", "", "", "", false)

  /** A reset form has no text in any input, rating "E", no featured flag, and lists
      that a save sends as empty lists, unlike the text an edited empty list becomes. */
  lemma ResetFormDefaults()
    ensures ParseList(BlankForm.platform) == [] && ParseList(BlankForm.genre) == []
    ensures BlankForm.title == BlankForm.description == BlankForm.price == BlankForm.imageUrl == ""
    ensures BlankForm.categoryId == BlankForm.releaseDate == BlankForm.developer == ""
    ensures BlankForm.publisher == BlankForm.inStock == ""
    ensures BlankForm.rating == "E" && !BlankForm.featured
    ensures ParseList(BlankForm.platform) != ParseList(FormatList([]))
  {
    EmptyListComesBackAsOneBlank();
  }

  /** `handleEditProduct(product)`: the product's fields, its lists as ", "-joined text,
      and its release date as the date input's text, supplied by `dateText`. */
  function EditForm(p: Product, show: real -> string, showInt: int -> string, dateText: int -> string)
    : (f: ProductForm)
    ensures f.platform == FormatList(p.platform) && f.genre == FormatList(p.genre)
    ensures f.title == p.title && f.developer == p.developer && f.featured == p.featured
  {
    ProductForm(p.title, p.description, show(p.price), p.imageUrl, p.categoryId,
                FormatList(p.platform), FormatList(p.genre), p.rating, dateText(p.releaseDate),
                p.developer, p.publisher, showInt(p.inStock), p.featured)
  }

  /** The body a save sends. A price or stock that does not parse is `None` (`NaN`). */
  datatype ProductData = ProductData(
    title: string,
    description: string,
    price: Option<real>,
    imageUrl: string,
    categoryId: string,
    platform: seq<string>,
    genre: seq<string>,
    rating: string,
    releaseDate: int,
    developer: string,
    publisher: string,
    inStock: Option<int>,
    featured: bool)

  /** The number and date conversions of the submit, supplied by the caller:
      `parseFloat`, `parseInt`, and `new Date(...).toISOString()`, which throws on a date
      that does not parse. */
  datatype Conversions = Conversions(
    parseReal: string -> Option<real>,
    parseInt: string -> Option<int>,
    parseDate: string -> Option<int>)

  datatype Editor = Editor(form: ProductForm, editing: Option<ProductId>, open: bool)

  datatype Saving = Saving(editor: Editor, calls: seq<AdminCall>, message: string, sent: Option<ProductData>)

  const SaveFallback := "Errore nel salvare il prodotto"
  const Created := "Prodotto creato con successo!"
  const Updated := "Prodotto aggiornato con successo!"

  /** `handleProductSubmit`. A date that does not parse throws before any request: no
      call and the fallback message. Otherwise the body goes to the update route when a
      product is being edited and to the create route when not; on success the editor
      closes and resets and the list is reloaded, on failure the editor stays as it was. */
  function SubmitProduct(e: Editor, conv: Conversions, resp: Response): (r: Saving)
    ensures conv.parseDate(e.form.releaseDate).None? ==>
              r == Saving(e, [], SaveFallback, None)
    ensures r.sent.Some? ==>
              r.sent.value.platform == ParseList(e.form.platform)
              && r.sent.value.genre == ParseList(e.form.genre)
              && r.sent.value.title == e.form.title
              && r.sent.value.price == conv.parseReal(e.form.price)
              && r.sent.value.inStock == conv.parseInt(e.form.inStock)
    ensures r.sent.Some? <==> conv.parseDate(e.form.releaseDate).Some?
    ensures r.sent.Some? ==>
              |r.calls| >= 1
              && r.calls[0] == (if e.editing.Some? then UpdateProduct(e.editing.value) else CreateProduct)
    ensures r.sent.Some? && resp.Done? ==>
              r.editor == Editor(BlankForm, None, false) && r.calls[1..] == [ListProducts(100)]
              && r.message == (if e.editing.Some? then Updated else Created)
    ensures resp.Failed? ==> r.editor == e && |r.calls| <= 1
    ensures r.sent.Some? && resp.Failed? ==> r.message == ErrorText(resp.detail, SaveFallback)
  {
    match conv.parseDate(e.form.releaseDate)
    case None => Saving(e, [], SaveFallback, None)
    case Some(date) =>
      var f := e.form;
      var data := ProductData(f.title, f.description, conv.parseReal(f.price), f.imageUrl,
                              f.categoryId, ParseList(f.platform), ParseList(f.genre), f.rating,
                              date, f.developer, f.publisher, conv.parseInt(f.inStock), f.featured);
      var call := if e.editing.Some? then UpdateProduct(e.editing.value) else CreateProduct;
      match resp
      case Failed(detail) => Saving(e, [call], ErrorText(detail, SaveFallback), Some(data))
      case Done =>
        Saving(Editor(BlankForm, None, false), [call, ListProducts(100)],
               if e.editing.Some? then Updated else Created, Some(data))
  }

  const Deleted := "Prodotto eliminato con successo!"
  const DeleteError := "Errore nell'eliminazione del prodotto"

  datatype Deletion = Deletion(calls: seq<AdminCall>, message: Option<string>)

  /** `handleDeleteProduct`: nothing unless the admin confirms; then the removal, and a
      reload only after it succeeded. */
  function HandleDelete(pid: ProductId, confirmed: bool, resp: Response): (r: Deletion)
    ensures !confirmed ==> r == Deletion([], None)
    ensures confirmed ==> |r.calls| >= 1 && r.calls[0] == DeleteProduct(pid) && r.message.Some?
    ensures confirmed && resp.Done? ==> r == Deletion([DeleteProduct(pid), ListProducts(100)], Some(Deleted))
    ensures confirmed && resp.Failed? ==> r == Deletion([DeleteProduct(pid)], Some(DeleteError))
  {
    if !confirmed then Deletion([], None)
    else match resp
      case Done => Deletion([DeleteProduct(pid), ListProducts(100)], Some(Deleted))
      case Failed(_) => Deletion([DeleteProduct(pid)], Some(DeleteError))
  }

  /** Editing a product and saving it untouched sends its own lists, title and stock
      back to the update route of that product, when its lists are non-empty, their
      entries trimmed and comma-free, and the date input reads back as its date. */
  lemma EditThenSave(p: Product, show: real -> string, showInt: int -> string,
                     dateText: int -> string, conv: Conversions, resp: Response)
    requires |p.platform| >= 1 && |p.genre| >= 1
    requires forall k :: 0 <= k < |p.platform| ==> ',' !in p.platform[k] && IsTrimmed(p.platform[k])
    requires forall k :: 0 <= k < |p.genre| ==> ',' !in p.genre[k] && IsTrimmed(p.genre[k])
    requires conv.parseDate(dateText(p.releaseDate)) == Some(p.releaseDate)
    ensures var r := SubmitProduct(Editor(EditForm(p, show, showInt, dateText), Some(p.id), true), conv, resp);
            && r.sent.Some?
            && r.sent.value.platform == p.platform && r.sent.value.genre == p.genre
            && r.sent.value.title == p.title && r.sent.value.releaseDate == p.releaseDate
            && r.calls[0] == UpdateProduct(p.id)
  {
    ListRoundTrip(p.platform);
    ListRoundTrip(p.genre);
  }

  /** A confirmed delete that the backend accepts takes the product out of the listing
      the page reloads, when ids are unique. */
  lemma DeleteLeavesListing(db: seq<Product>, user: ServerAuth.User, pid: ProductId)
    requires ServerCatalog.UniqueIds(db)
    requires ServerCatalog.DeleteProduct(db, user, pid).Ok?
    ensures HandleDelete(pid, true, Done).calls == [DeleteProduct(pid), ListProducts(100)]
    ensures var listing := ServerCatalog.GetProducts(ServerCatalog.DeleteProduct(db, user, pid).value, AdminQuery());
            listing.Ok? && forall k :: 0 <= k < |listing.value| ==> listing.value[k].id != pid
  {
    ServerCatalog.DeleteThenGet(db, user, pid);
  }
}
