/** The wishlist routes of the backend (`/api/wishlist`, `/api/wishlist/add`,
    `/api/wishlist/remove/{id}`) over the current user's stored wishlist document. */
module ServerWishlist {
  import opened Common
  import opened Domain
  import Seqs

  /** The user's wishlist document, if one exists: its product ids in insertion order. */
  type StoredWishlist = Option<seq<ProductId>>

  function Ids(stored: StoredWishlist): seq<ProductId> {
    if stored.Some? then stored.value else []
  }

  predicate NoDuplicates(ids: seq<ProductId>) {
    forall i, j :: 0 <= i < j < |ids| ==> ids[i] != ids[j]
  }

  /** What `POST /api/wishlist/add` does: nothing when the product is already listed,
      otherwise it writes the list with the id appended. */
  datatype AddReply = AlreadyInWishlist | Added(items: seq<ProductId>)

  function AddToWishlist(stored: StoredWishlist, pid: ProductId): (r: AddReply)
    ensures r.AlreadyInWishlist? <==> pid in Ids(stored)
    ensures r.Added? ==> r.items == Ids(stored) + [pid]
  {
    if pid in Ids(stored) then AlreadyInWishlist else Added(Ids(stored) + [pid])
  }

  /** The stored document once the add has run. */
  function AfterAdd(stored: StoredWishlist, pid: ProductId): StoredWishlist {
    match AddToWishlist(stored, pid)
    case AlreadyInWishlist => stored
    case Added(items) => Some(items)
  }

  /** Adding is idempotent: a second add of the same product answers "already in
      wishlist" and leaves the document as the first add left it. */
  lemma AddIdempotent(stored: StoredWishlist, pid: ProductId)
    ensures pid in Ids(AfterAdd(stored, pid))
    ensures AddToWishlist(AfterAdd(stored, pid), pid) == AlreadyInWishlist
    ensures AfterAdd(AfterAdd(stored, pid), pid) == AfterAdd(stored, pid)
  {
    if pid !in Ids(stored) {
      assert Ids(AfterAdd(stored, pid))[|Ids(stored)|] == pid;
    }
  }

  /** The wishlist never lists a product twice. */
  lemma AddKeepsNoDuplicates(stored: StoredWishlist, pid: ProductId)
    requires NoDuplicates(Ids(stored))
    ensures NoDuplicates(Ids(AfterAdd(stored, pid)))
  {
  }

  function IsNot(pid: ProductId): ProductId -> bool {
    x => x != pid
  }

  /** `DELETE /api/wishlist/remove/{id}`: the ids other than `pid`, in order; no
      wishlist document is a 404. */
  function RemoveFromWishlist(stored: StoredWishlist, pid: ProductId): (r: Result<seq<ProductId>>)
    ensures r.Err? <==> stored.None?
    ensures r.Err? ==> r.error == HttpError(NotFound, "Wishlist not found")
    ensures r.Ok? ==> pid !in r.value
    ensures r.Ok? ==> forall k :: 0 <= k < |stored.value| && stored.value[k] != pid ==> stored.value[k] in r.value
    ensures r.Ok? ==> forall k :: 0 <= k < |r.value| ==> r.value[k] in stored.value
    ensures r.Ok? ==> Seqs.IsSubsequence(r.value, stored.value)
  {
    match stored
    case None => Err(HttpError(NotFound, "Wishlist not found"))
    case Some(ids) =>
      Seqs.FilterIsSubsequence(ids, IsNot(pid));
      Ok(Seqs.Filter(ids, IsNot(pid)))
  }

  /** Removing a product that a fresh add just appended restores the previous list. */
  lemma RemoveUndoesAdd(stored: StoredWishlist, pid: ProductId)
    requires pid !in Ids(stored)
    ensures RemoveFromWishlist(AfterAdd(stored, pid), pid) == Ok(Ids(stored))
  {
    var ids := Ids(stored);
    assert AfterAdd(stored, pid) == Some(ids + [pid]);
    Seqs.FilterAppend(ids, [pid], IsNot(pid));
    Seqs.FilterAll(ids, IsNot(pid));
    assert [pid][1..] == [];
    assert Seqs.Filter([pid], IsNot(pid)) == Seqs.Filter([], IsNot(pid)) == [];
    assert Seqs.Filter(ids + [pid], IsNot(pid)) == ids;
  }

  /** `GET /api/wishlist`: the listed products that still exist, in list order. */
  function GetWishlist(stored: StoredWishlist, db: seq<Product>): (r: seq<Product>)
    ensures stored.None? ==> r == []
    ensures |r| <= |Ids(stored)|
    ensures forall k :: 0 <= k < |r| ==> r[k] in db && r[k].id in Ids(stored)
    ensures forall k :: 0 <= k < |Ids(stored)| && FindProduct(db, Ids(stored)[k]).Some? ==>
              FindProduct(db, Ids(stored)[k]).value in r
    ensures var found := Seqs.Filter(Ids(stored), Resolves(db));
            |r| == |found| && forall k :: 0 <= k < |r| ==> FindProduct(db, found[k]) == Some(r[k])
  {
    Resolve(Ids(stored), db)
  }

  /** The id still names a product of the catalogue. */
  function Resolves(db: seq<Product>): ProductId -> bool {
    id => FindProduct(db, id).Some?
  }

  /** The loop of `GET /api/wishlist`: one product for each id that still resolves, in
      the order of the ids. */
  function Resolve(ids: seq<ProductId>, db: seq<Product>): (r: seq<Product>)
    ensures |r| <= |ids|
    ensures var found := Seqs.Filter(ids, Resolves(db));
            |r| == |found| && forall k :: 0 <= k < |r| ==> FindProduct(db, found[k]) == Some(r[k])
    ensures forall k :: 0 <= k < |r| ==> r[k] in db && r[k].id in ids
    ensures forall k :: 0 <= k < |ids| && FindProduct(db, ids[k]).Some? ==> FindProduct(db, ids[k]).value in r
    decreases |ids|
  {
    if |ids| == 0 then []
    else
      var rest := Resolve(ids[1..], db);
      var found := Seqs.Filter(ids[1..], Resolves(db));
      assert Seqs.Filter(ids, Resolves(db)) ==
             if FindProduct(db, ids[0]).Some? then [ids[0]] + found else found;
      match FindProduct(db, ids[0])
      case None => rest
      case Some(p) => [p] + rest
  }
}
