# Sito storefront — a Dafny model

Sito is a video-game web shop. Its FastAPI backend keeps users, products, categories,
carts, wishlists and reviews in MongoDB collections. Its React storefront reads and
changes them over JSON routes. This project models the logic of both halves as pure
functions over immutable data and proves what that logic guarantees:

- **Backend routes** (`backend/server.py`):
  - registration with its duplicate check, login, token resolution and the admin gate;
  - the filtered and windowed product listing, and product and category administration;
  - the cart (add, update, remove, and the priced view);
  - the wishlist (idempotent add, remove, and the resolved view);
  - reviews, with one review per user and the recomputed average rating.
  
  Each route is a function from the stored documents and the request to the document
  written back or the HTTP error raised.
- **Cart store** (`CartContext.js`):
  - the client's snapshot of the server cart, with count and total derived from the items;
  - add, update, remove and the one-by-one `clearCart`, each as a transition that
    also reports the API calls it issued.
- **Catalogue page** (`Products.js`):
  - the seven filters and their mirror in the address bar;
  - the server-side part of the listing query, then the client-side search, price bounds
    and stable sort;
  - the wishlist heart and the star rating.
- **Cart page** (`Cart.js`): the quantity controls.
- **Sign-up and sign-in forms** (`Register.js`, `Login.js`): the field rules, the
  e-mail pattern, the error map, what a submit sends and where it leads.
- **Admin dashboard** (`AdminDashboard.js`):
  - the gate;
  - the comma-separated list inputs and their round trip through editing;
  - the table search, the stock column and the featured preview;
  - save and delete.
- **Header** (`Header.js`): the cart badge, the search box and the session-dependent links.

Outside inputs become parameters:

- Every server answer a page depends on: `Response`, `Snapshot`, `Fetch`, and
  `removal: nat -> Response` for the k-th removal of `clearCart`.
- `parseFloat`, `parseInt` and date parsing.
- `encodeURIComponent`.
- Password hashing and verification.
- Fresh ids and the clock.

A MongoDB collection is a sequence in its natural order. `find_one` is the first match.

## Model

| member | source | states |
|---|---|---|
| `Common.ErrorText` | frontend/src/contexts/CartContext.js:76 | a non-empty `detail` from the server is shown; otherwise the operation's fallback text |
| `Domain.FindProductIndex` | backend/server.py:226 | the position of the first product with the id, with no earlier match; none exactly when no product has the id |
| `Domain.FindProduct` | backend/server.py:273 | the product found is in the catalogue and has the id; none exactly when no product has it |
| `ServerAuth.Register` | backend/server.py:149-169 | 400 exactly when the username or the email is taken; otherwise one non-admin account holding the hashed password is appended |
| `ServerAuth.RegisterKeepsUnique` | backend/server.py:152-167 | registration never lets two accounts share a username or an email |
| `ServerAuth.FindUser` | backend/server.py:173 | the account found has the username; none exactly when no account has it |
| `ServerAuth.Login` | backend/server.py:171-184 | success names the user and needs an account whose hash verifies; an unknown username and every failure is 401 "Incorrect username or password" |
| `ServerAuth.LoginExact` | backend/server.py:173-179 | with unique usernames, login succeeds exactly when the password verifies against that account's hash |
| `ServerAuth.CurrentUser` | backend/server.py:124-140 | a token that does not decode, or that names no account, is 401 "Could not validate credentials"; a subject naming an account resolves to the first account with that username |
| `ServerAuth.LoginThenCurrentUser` | backend/server.py:180-184 | with unique usernames, the token a successful login issues resolves to the account whose password verified |
| `ServerAuth.RequireAdmin` | backend/server.py:198-199 | passes exactly the accounts with the admin flag; others get 403 "Admin access required" |
| `ServerCatalog.Window` | backend/server.py:221 | the skip/limit cursor returns the run of the input that starts after `skip` elements, as long as what remains or the magnitude of a non-zero limit, whichever is smaller |
| `ServerCatalog.GetProducts` | backend/server.py:207-222 | a negative skip is a 500; otherwise the skip/limit window of the matching products in catalogue order: each one in the catalogue and meeting every supplied filter |
| `ServerCatalog.GetProductsComplete` | backend/server.py:211-221 | with skip 0 and a wide enough limit, every matching product is returned |
| `ServerCatalog.DefaultListingBounded` | backend/server.py:208-210 | with the defaults the route succeeds with at most twenty products |
| `ServerCatalog.GetProduct` | backend/server.py:224-229 | the product with the id, or 404 exactly when none has it |
| `ServerCatalog.CreateProduct` | backend/server.py:231-239 | 403 "Admin access required" exactly for non-admins; otherwise the product is appended under the fresh id |
| `ServerCatalog.CreateThenGet` | backend/server.py:231-239 | a product created under an unused id keeps ids unique and is what the lookup by that id returns |
| `ServerCatalog.UpdateProduct` | backend/server.py:241-250 | 403 for non-admins; 404 exactly when no product has the id; otherwise only the first product with the id is replaced, keeping its id |
| `ServerCatalog.UpdateThenGet` | backend/server.py:241-250 | after an update the lookup by the id answers the new body, and unique ids stay unique |
| `ServerCatalog.DeleteProduct` | backend/server.py:252-260 | 403 for non-admins; 404 exactly when no product has the id; otherwise the first product with the id is removed and the rest keep their order |
| `ServerCatalog.DeleteThenGet` | backend/server.py:252-260 | with unique ids, the deleted product's lookup is 404 and the remaining ids stay unique |
| `ServerCatalog.CreateCategory` | backend/server.py:196-204 | 403 "Admin access required" exactly for non-admins; otherwise the category is appended under the fresh id |
| `ServerCatalog.CategoryCreatedOnce` | backend/server.py:201-203 | a category created under an unused id is the only one with it and carries the submitted fields |
| `ServerCart.FindLine` | backend/server.py:293-297 | the first line for the product; none exactly when no line is for it |
| `ServerCart.AddToCart` | backend/server.py:285-310 | an absent product gets one appended line; otherwise only its first line grows by the requested amount |
| `ServerCart.UpdateCartItem` | backend/server.py:312-326 | 404 "Cart not found" without a cart and "Item not found in cart" without a line; otherwise only the first line for the product takes the new quantity |
| `ServerCart.Without` | backend/server.py:334 | keeps, in order, exactly the lines for other products; a product with no line changes nothing |
| `ServerCart.RemoveFromCart` | backend/server.py:328-336 | 404 exactly when there is no cart; otherwise every line for the product is dropped |
| `ServerCart.AddKeepsDistinct` | backend/server.py:292-302 | adding never creates a second line for a product |
| `ServerCart.UpdateKeepsDistinct` | backend/server.py:318-321 | updating keeps at most one line per product |
| `ServerCart.WithoutKeepsDistinct` | backend/server.py:334 | removing keeps at most one line per product |
| `ServerCart.AddTotalQuantity` | backend/server.py:299-302 | adding raises the cart's total quantity by exactly the requested amount |
| `ServerCart.Entry` | backend/server.py:273-280 | a line whose product exists gets that product, its quantity, and price times quantity; a deleted product gives no entry |
| `ServerCart.PricedFromCatalogue` | backend/server.py:272-280 | the view has at most one entry per line, and each is a catalogue product priced at its current price |
| `ServerCart.PricedAllMissing` | backend/server.py:273-274 | lines whose products were all deleted give an empty view |
| `ServerCart.PricedAllPresent` | backend/server.py:272-280 | when every product exists, the view has one entry per line, in line order, with the line's product and quantity |
| `ServerCart.GetCart` | backend/server.py:263-283 | no cart is an empty view with total 0; otherwise the loop yields the catalogue-priced view and a total equal to the sum of its subtotals |
| `ServerCart.PriceLines` | backend/server.py:270-283 | the accumulating loop computes the priced view and the sum of its subtotals |
| `ServerWishlist.AddToWishlist` | backend/server.py:354-373 | "already in wishlist" exactly when the id is listed; otherwise the id is appended |
| `ServerWishlist.AddIdempotent` | backend/server.py:362-364 | a second add of the same product answers "already in wishlist" and leaves the document as the first add left it |
| `ServerWishlist.AddKeepsNoDuplicates` | backend/server.py:362-366 | the wishlist never lists a product twice |
| `ServerWishlist.RemoveFromWishlist` | backend/server.py:375-383 | 404 exactly when there is no wishlist; otherwise the id is gone and every other id is kept, in order |
| `ServerWishlist.RemoveUndoesAdd` | backend/server.py:366 | removing a product that an add just appended restores the previous list |
| `ServerWishlist.GetWishlist` | backend/server.py:339-352 | no wishlist gives an empty list; otherwise one product for each listed id that still resolves, in list order |
| `ServerWishlist.Resolve` | backend/server.py:346-350 | one entry per resolving id, in the order of the ids, each the product that id finds |
| `ServerReviews.Ratings` | backend/server.py:407 | exactly the ratings of the reviews for the product, in collection order |
| `ServerReviews.Mean` | backend/server.py:408 | the mean times the count is the sum of the ratings |
| `ServerReviews.WithStats` | backend/server.py:408-412 | the new average times the count is the sum, the count is the number of ratings, and no other field changes |
| `ServerReviews.CreateReview` | backend/server.py:391-414 | 400 exactly for a second review by the same user of the product; otherwise the review is appended under the caller's id, and only the first product with the id gets the new statistics |
| `ServerReviews.Restat` | backend/server.py:409-412 | only the first product with the id takes the statistics; without such a product the catalogue is unchanged |
| `ServerReviews.CreateKeepsOnePerUser` | backend/server.py:394-396 | storing a review keeps the one-review-per-user rule |
| `ServerReviews.CreateAddsOneRating` | backend/server.py:403-407 | each accepted review adds exactly its own rating to the product's ratings |
| `ServerReviews.MeanWithin` | backend/server.py:408 | the mean lies between the lowest and the highest allowed rating |
| `CartStore.WithItems` | frontend/src/contexts/CartContext.js:36-42 | after new items the count is the sum of quantities and the total the sum of subtotals |
| `CartStore.LoadCart` | frontend/src/contexts/CartContext.js:44-58 | no call when signed out; otherwise one fetch, whose items replace the store and whose failure leaves it untouched |
| `CartStore.AuthChanged` | frontend/src/contexts/CartContext.js:26-34 | signing out empties the store with no call; signing in loads the cart |
| `CartStore.Mutate` | frontend/src/contexts/CartContext.js:82-98 | refused with no call when signed out; success makes the call, then one reload; failure reports the error text, with no reload and the store unchanged |
| `CartStore.AddToCart` | frontend/src/contexts/CartContext.js:60-80 | succeeds exactly when signed in and the add went through; the POST comes first and the reload only after success |
| `CartStore.AddOne` | frontend/src/contexts/CartContext.js:60 | the default quantity sent is one |
| `CartStore.UpdateCartItem` | frontend/src/contexts/CartContext.js:82-99 | succeeds exactly when signed in and the PUT went through; the reload only after success |
| `CartStore.RemoveFromCart` | frontend/src/contexts/CartContext.js:101-114 | succeeds exactly when signed in and the DELETE went through; the reload only after success |
| `CartStore.Deletes` | frontend/src/contexts/CartContext.js:121-123 | one removal per item, in item order |
| `CartStore.FirstFailure` | frontend/src/contexts/CartContext.js:119-123 | the first failing removal, with all earlier ones done; none when all succeed |
| `CartStore.ClearCart` | frontend/src/contexts/CartContext.js:116-132 | all removals succeeding give every removal and then one reload; a failure stops at the failing item, skips the reload and keeps the store |
| `CartStore.OperationsKeepConsistent` | frontend/src/contexts/CartContext.js:36-42 | every operation keeps count and total in agreement with the items |
| `CartStore.ApplyRemovalsKeeps` | frontend/src/contexts/CartContext.js:121-123 | after a series of server removals, exactly the lines for products not removed remain |
| `CartStore.RemovedIdsOfDeletes` | frontend/src/contexts/CartContext.js:121-123 | the removals sent name the items' product ids, in order |
| `CartStore.CarriedIds` | frontend/src/contexts/CartContext.js:119-123 | a failed clear carried out exactly the removals of the items before the failing one |
| `CartStore.ClearCartPartial` | frontend/src/contexts/CartContext.js:119-128 | a failed clear leaves on the server every line whose product is not among the items before the failing one |
| `CartPage.QuantityRoute` | frontend/src/pages/Cart.js:11-17 | a quantity below one is a removal; anything else is an update to that quantity |
| `CartPage.HandleQuantityChange` | frontend/src/pages/Cart.js:11-17 | the first call is the removal or the update chosen by the quantity; no update sends less than one; success follows the server's answer |
| `CartPage.Minus` | frontend/src/pages/Cart.js:147 | the minus button on the last unit removes the line; otherwise it requests one less |
| `CartPage.Plus` | frontend/src/pages/Cart.js:158 | the plus button requests one more for every non-negative quantity |
| `CartPage.PageKeepsQuantitiesPositive` | frontend/src/pages/Cart.js:11-17 | driven from the storefront, the server cart never holds a line below one unit |
| `ProductsPage.Set` | frontend/src/pages/Products.js:127 | the key takes the value and every other filter is unchanged |
| `ProductsPage.ParamIndex` | frontend/src/pages/Products.js:28 | the position of the first pair with the name, no earlier pair having it; none exactly when no pair has it |
| `ProductsPage.ParamGet` | frontend/src/pages/Products.js:28 | the value of the first pair with the name, no earlier pair having it; none exactly when no pair has it |
| `ProductsPage.ServerParams` | frontend/src/pages/Products.js:57-61 | only the category, platform and genre are sent, each with the filter's own non-empty value |
| `ProductsPage.ClientSideNotSent` | frontend/src/pages/Products.js:57-61 | the search, the price bounds and the sort are never sent to the server |
| `ProductsPage.ServerQuery` | frontend/src/pages/Products.js:57-63 | the backend reads back exactly the page's category, platform and genre, with the default window |
| `ProductsPage.Selected` | frontend/src/pages/Products.js:66-81 | the three client-side filters act as one: exactly the fetched products that pass the search and both price bounds, in fetched order |
| `ProductsPage.Visible` | frontend/src/pages/Products.js:66-97 | the shown list is sorted by the chosen mode, holds only fetched products that pass every test, and holds every one that does |
| `ProductsPage.VisibleIsSortedSelection` | frontend/src/pages/Products.js:66-97 | the screen is the stable sort of the single combined selection, with multiplicities |
| `ProductsPage.UnfilteredShowsAll` | frontend/src/pages/Products.js:67-81 | with no search and no bound every fetched product is shown, only reordered |
| `ProductsPage.LoadProducts` | frontend/src/pages/Products.js:54-106 | a failed fetch keeps the products on screen and shows the error; otherwise the filtered and sorted answer |
| `ProductsPage.ListingMeetsEveryFilter` | frontend/src/pages/Products.js:57-81 | end to end, at most twenty products, each a catalogue product meeting all six filters |
| `ProductsPage.UrlParams` | frontend/src/pages/Products.js:131-134 | the address bar holds a pair for exactly the filters that are set, with their values, each name once and no other pair |
| `ProductsPage.ParamsFromPairs` | frontend/src/pages/Products.js:131-134 | every pair written is some filter's name with that filter's value |
| `ProductsPage.ParamsFromDistinct` | frontend/src/pages/Products.js:131-134 | distinct filter keys give pairs with distinct names |
| `ProductsPage.OrElse` | frontend/src/pages/Products.js:28-34 | a missing or empty parameter gives the fallback |
| `ProductsPage.InitialFilters` | frontend/src/pages/Products.js:27-35 | every filter is read from its parameter, an empty or missing one giving ""; the sort defaults to "title" |
| `ProductsPage.UrlRoundTrip` | frontend/src/pages/Products.js:27-35 | reloading restores the filters from the address bar; only an empty sort comes back as title order |
| `ProductsPage.HandleFilterChange` | frontend/src/pages/Products.js:126-136 | one filter changes and the address bar is rewritten from the new filters |
| `ProductsPage.FilterChangeSurvivesReload` | frontend/src/pages/Products.js:126-135 | a filter change survives a reload of the page |
| `ProductsPage.ClearFilters` | frontend/src/pages/Products.js:138-150 | every filter is empty, the sort is title order, and the query string is empty |
| `ProductsPage.ClearedFilters` | frontend/src/pages/Products.js:138-150 | after clearing, a reload gives the same filters and every fetched product is shown |
| `ProductsPage.ToggleWishlist` | frontend/src/pages/Products.js:152-173 | refused when signed out; a filled heart removes and an empty one adds; the local ids change only when the request went through |
| `ProductsPage.ToggleTwiceRestores` | frontend/src/pages/Products.js:159-168 | two successful clicks on an empty heart restore the ids |
| `ProductsPage.RenderStars` | frontend/src/pages/Products.js:182-200 | the filled stars are the floor of a non-negative rating; a half star exactly for a fractional rating; at least five icons up to 5 |
| `ProductsPage.FiveStarsExactly` | frontend/src/pages/Products.js:182-198 | exactly five icons are drawn precisely for ratings from 0 to 5 |
| `Sorting.ModeOf` | frontend/src/pages/Products.js:85-96 | each of "price_asc", "price_desc", "rating" and "newest" selects its own mode, and every other value title order |
| `Sorting.TitleLe` | frontend/src/pages/Products.js:95 | title order: lexicographic on character codes |
| `Sorting.Before` | frontend/src/pages/Products.js:84-97 | the comparator of each mode: price up or down, rating and date down, title up |
| `Sorting.TitleLeTotal` | frontend/src/pages/Products.js:95 | any two titles are comparable |
| `Sorting.TitleLeTransitive` | frontend/src/pages/Products.js:95 | title order is transitive |
| `Sorting.TitleLeAntisymmetric` | frontend/src/pages/Products.js:95 | only equal titles compare equal |
| `Sorting.BeforeTotal` | frontend/src/pages/Products.js:84-96 | every mode's comparator orders any two products one way or the other |
| `Sorting.BeforeTransitive` | frontend/src/pages/Products.js:84-96 | every mode's comparator is transitive |
| `Sorting.Insert` | frontend/src/pages/Products.js:84-97 | inserting into a sorted list keeps it sorted and adds exactly the element |
| `Sorting.Sort` | frontend/src/pages/Products.js:84-97 | the result is a sorted permutation of the input |
| `Sorting.SortMembers` | frontend/src/pages/Products.js:84 | sorting neither adds nor drops a product |
| `Sorting.SortOrders` | frontend/src/pages/Products.js:85-96 | prices ascend or descend, ratings and dates descend, titles ascend, as the mode says |
| `Sorting.SortStable` | frontend/src/pages/Products.js:84-97 | products that tie keep their original relative order |
| `Text.Trim` | frontend/src/components/Header.js:26 | the result is a slice of the input with no white space at either end; empty exactly for a blank input |
| `Text.TrimTrimmed` | frontend/src/pages/AdminDashboard.js:100 | trimming leaves a trimmed string alone |
| `Text.TrimPadded` | frontend/src/pages/AdminDashboard.js:100 | leading white space never survives a trim |
| `Text.Lower` | frontend/src/pages/Products.js:68 | lowers each character in place, keeping the length |
| `Text.LowerIsLower` | frontend/src/pages/Products.js:68 | no upper-case letter is left, and lowering twice is lowering once |
| `Text.ContainsEmpty` | frontend/src/pages/AdminDashboard.js:164 | every string contains the empty string |
| `Text.IndexOf` | frontend/src/pages/Register.js:48 | the first occurrence of the character; none exactly when absent |
| `Text.Split` | frontend/src/pages/AdminDashboard.js:100 | at least one piece, and no piece holds the separator |
| `Text.JoinSplit` | frontend/src/pages/AdminDashboard.js:100 | joining the pieces of a split restores the string |
| `Text.SplitJoin` | frontend/src/pages/AdminDashboard.js:126 | splitting a join of separator-free pieces gives the pieces back |
| `Text.NatToString` | frontend/src/components/Header.js:105 | the decimal text of a count: digits only, with no leading zero |
| `Text.NatToStringValue` | frontend/src/pages/AdminDashboard.js:341 | reading the digits back yields the number |
| `Text.NatToStringInjective` | frontend/src/pages/AdminDashboard.js:341 | distinct numbers render to distinct text |
| `Forms.ClearError` | frontend/src/pages/Register.js:29-34 | typing blanks only the edited field's shown error and keeps every other entry |
| `RegisterForm.Set` | frontend/src/pages/Register.js:24-27 | the edited field takes the value; the others are unchanged |
| `RegisterForm.CheckEmail` | frontend/src/pages/Register.js:48 | the address test read directly: no white space, one `@` after the first character, and a `.` with a character on each side after it |
| `RegisterForm.CheckEmailIsPattern` | frontend/src/pages/Register.js:48 | the direct test decides the address pattern exactly |
| `RegisterForm.CheckEmailSound` | frontend/src/pages/Register.js:48 | whatever the direct test accepts fits the pattern |
| `RegisterForm.CheckEmailComplete` | frontend/src/pages/Register.js:48 | whatever fits the pattern passes the direct test |
| `RegisterForm.Validate` | frontend/src/pages/Register.js:37-70 | each field has an error exactly when its rule fails, with the rule's message; blank checks use the trimmed text and length checks the raw text in UTF-16 code units |
| `RegisterForm.EmojiLengths` | frontend/src/pages/Register.js:42-58 | a letter and an emoji make a long enough username, three emoji a long enough password |
| `Text.CodeUnits` | frontend/src/pages/Register.js:42 | `length` counts UTF-16 code units: between one and two per character, zero only for the empty string |
| `Text.CodeUnitsBasicPlane` | frontend/src/pages/Register.js:58 | within the Basic Multilingual Plane `length` is the number of characters |
| `Text.CodeUnitsOfEmoji` | frontend/src/pages/Register.js:42 | a character beyond U+FFFF counts twice |
| `RegisterForm.EmailRule` | frontend/src/pages/Register.js:46-50 | the address fails exactly off the pattern, with "Email richiesta" when blank |
| `RegisterForm.PatternNotBlank` | frontend/src/pages/Register.js:46-48 | an address that fits the pattern is never blank |
| `RegisterForm.ValidExactly` | frontend/src/pages/Register.js:68-69 | the form is valid exactly when every rule holds, lengths in UTF-16 code units |
| `RegisterForm.HandleChange` | frontend/src/pages/Register.js:22-35 | the field takes the value, and only its shown error is blanked |
| `RegisterForm.HandleSubmit` | frontend/src/pages/Register.js:72-90 | an invalid form sends nothing; a valid one sends the four fields, without the confirmation, with a username of at least 3 and a password of at least 6 code units; success goes to /login |
| `LoginForm.Set` | frontend/src/pages/Login.js:23-26 | the edited field takes the value; the other is unchanged |
| `LoginForm.Validate` | frontend/src/pages/Login.js:36-49 | a username error exactly when it is blank after trimming, a password error exactly when it is empty |
| `LoginForm.ValidExactly` | frontend/src/pages/Login.js:47-48 | the form is accepted exactly with a visible username and a non-empty password |
| `LoginForm.RedirectTarget` | frontend/src/pages/Login.js:19 | the originating page when known and non-empty, else "/" |
| `LoginForm.HandleChange` | frontend/src/pages/Login.js:21-34 | the field takes the value, and only its shown error is blanked |
| `LoginForm.HandleSubmit` | frontend/src/pages/Login.js:51-64 | an invalid form sends nothing; a valid one sends the credentials as typed; success returns to the originating page |
| `AdminDashboard.Opens` | frontend/src/pages/AdminDashboard.js:54 | the page opens only for a signed-in admin |
| `AdminDashboard.InitialLoads` | frontend/src/pages/AdminDashboard.js:47-52 | a signed-in admin loads up to a hundred products and the categories; anyone else loads nothing |
| `AdminDashboard.GateMatchesBackend` | frontend/src/pages/AdminDashboard.js:54 | a signed-in account passes the page's gate exactly when the backend's admin routes accept it |
| `AdminDashboard.AdminListing` | frontend/src/pages/AdminDashboard.js:73 | at most a hundred products, and a catalogue of up to a hundred in full |
| `AdminDashboard.Pieces` | frontend/src/pages/AdminDashboard.js:100 | one trimmed, comma-free entry per comma-separated piece |
| `AdminDashboard.ParseList` | frontend/src/pages/AdminDashboard.js:100-101 | a list passes through; text becomes its trimmed comma-separated pieces |
| `AdminDashboard.SplitFormatted` | frontend/src/pages/AdminDashboard.js:126 | cutting a ", "-join at its commas gives the entries, each after the first with one leading space |
| `AdminDashboard.TrimPadTail` | frontend/src/pages/AdminDashboard.js:100 | trimming those pieces gives the entries back |
| `AdminDashboard.FormatList` | frontend/src/pages/AdminDashboard.js:126-127 | editing turns a list into its entries joined with ", " |
| `AdminDashboard.ListRoundTrip` | frontend/src/pages/AdminDashboard.js:100-127 | editing and saving a product untouched keeps a non-empty list of comma-free, trimmed entries |
| `AdminDashboard.EmptyListComesBackAsOneBlank` | frontend/src/pages/AdminDashboard.js:126 | an empty list comes back from the editor as one empty entry |
| `AdminDashboard.AdminSearch` | frontend/src/pages/AdminDashboard.js:163-166 | in order, exactly the products whose title or developer contains the term, ignoring case |
| `AdminDashboard.EmptySearchKeepsAll` | frontend/src/pages/AdminDashboard.js:163-166 | an empty search lists every product |
| `AdminDashboard.StockLabel` | frontend/src/pages/AdminDashboard.js:337-341 | "N pezzi" for a positive stock, "Esaurito" otherwise |
| `AdminDashboard.StockLabelReadsBack` | frontend/src/pages/AdminDashboard.js:341 | a positive stock shows its own count, without a leading zero, before " pezzi"; every other stock shows "Esaurito" |
| `AdminDashboard.FeaturedPreview` | frontend/src/pages/AdminDashboard.js:258 | the first three featured products, in list order |
| `AdminDashboard.ResetFormDefaults` | frontend/src/pages/AdminDashboard.js:145-161 | a reset form has empty text inputs, rating "E", no featured flag, and lists that a save sends as empty lists |
| `AdminDashboard.EditForm` | frontend/src/pages/AdminDashboard.js:122-131 | the lists become ", "-joined text; title, developer and featured flag are kept |
| `AdminDashboard.SubmitProduct` | frontend/src/pages/AdminDashboard.js:92-120 | a bad date sends nothing; otherwise the parsed body goes to update when editing and to create when not; success closes and resets the editor and reloads |
| `AdminDashboard.HandleDelete` | frontend/src/pages/AdminDashboard.js:133-143 | nothing without confirmation; otherwise the removal, and a reload only after it succeeded |
| `AdminDashboard.EditThenSave` | frontend/src/pages/AdminDashboard.js:92-131 | saving an edited product untouched sends its own lists, title and date to its update route |
| `AdminDashboard.DeleteLeavesListing` | frontend/src/pages/AdminDashboard.js:133-143 | with unique ids, a delete the backend accepts takes the product out of the reloaded listing |
| `Header.Badge` | frontend/src/components/Header.js:103-105 | no badge for an empty cart, the count up to 99 in one or two digits without a leading zero, "99+" beyond |
| `Header.BadgeReadsBack` | frontend/src/components/Header.js:105 | up to 99 the badge spells the exact count; every larger count shares one badge |
| `Header.BadgeFollowsStore` | frontend/src/components/Header.js:103 | with the store settled, the badge shows exactly when the items hold at least one unit |
| `Header.HandleSearch` | frontend/src/components/Header.js:24-30 | a blank query does nothing; otherwise the box is cleared and the catalogue opens with the encoded trimmed query |
| `Header.SearchTargets` | frontend/src/components/Header.js:26-27 | under an injective encoding, two queries lead to the same address exactly when they are equal once trimmed |
| `Header.SearchLandsOnCatalogue` | frontend/src/components/Header.js:27 | the catalogue opened by a search starts with the trimmed query, title order and no other filter |
| `Header.SessionLinks` | frontend/src/components/Header.js:111-170 | wishlist, profile and logout need a session; admin also needs the admin flag; sign-in shows exactly when signed out |

## Left out

- HTTP, FastAPI dependency injection, MongoDB I/O and pydantic validation are not modelled. Each handler is a function over the stored documents.
- Password hashing, password verification and JWT encoding and decoding are foreign calls. They appear as parameters; the token is reduced to its subject.
- Token expiry, the clock and uuid generation are parameters.
- `GET /api/categories` and `GET /api/products/{id}/reviews` only read a collection. They are not modelled beyond `ServerReviews.Ratings`.
- Prices, ratings and averages are exact reals. Floating-point rounding and `toFixed` formatting are not modelled.
- Sorting.TitleLe: `localeCompare` is modelled as code-point order, because the browser's collation tables are not available.
- Text.Lower: only ASCII letters are lowered, because Unicode case mapping tables are not modelled.
- Text.Trim: white space is the fixed set of characters JavaScript's `trim` and `\s` use. There is no Unicode database behind it.
- `encodeURIComponent`, `parseFloat`, `parseInt` and `new Date(...)` are parameters.
- Sorting by release date compares an abstract integer timestamp.
- Loading flags, toasts beyond their message text, rendering, routing and React's scheduling are not modelled. This includes the render between `setCartItems` and the count effect, which shows a stale count.
- The cart store is modelled as its consumers see it after the count effect. The load's `total` field is not read, because the effect overwrites it.
- Concurrency between overlapping requests is not modelled.
- AuthContext is not part of this model. Its `isAuthenticated` and `isAdmin` flags and its login and register results are inputs.
- Header.SearchLandsOnCatalogue: holds for a catalogue that mounts fresh. The catalogue reads its filters once, when it mounts, so a header search made while already on /products changes the address and leaves the listing as it was; that case is not modelled.
- `handleLogout` in the header is not modelled: it only calls AuthContext's `logout`, then navigates to "/".
- Not modelled: `loadCategories` on the catalogue and admin pages, and the catalogue's `loadWishlist`. Each only copies a server list into page state.
- Not modelled: the catalogue's filter-panel toggles, the admin tab switch, and the category links in the header menu. All are pure presentation.
- AdminDashboard.EditForm: states only the lists, title, developer and featured flag. The other fields are copied or passed through the caller's display functions.
- The model follows the code as written:
  - `clearCart` stops at the first failed removal, does not reload, and leaves the local items as they were.
  - A failed `loadProducts` keeps the products already on screen.
  - A mutation reports success even when the reload after it fails.
