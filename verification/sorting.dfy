/** The catalogue's five sort modes and a stable sort over them. The browser's
    `Array.prototype.sort` is stable, so its output under a comparator that is a total
    preorder is determined uniquely; insertion sort computes that same output. */
module Sorting {
  import opened Domain
  import Seqs

  datatype SortMode = ByTitle | PriceAsc | PriceDesc | ByRating | Newest

  /** The `switch (filters.sortBy)`: four named modes, and title order for anything else. */
  function ModeOf(sortBy: string): (m: SortMode)
    ensures m == ByTitle <==> sortBy !in {"price_asc", "price_desc", "rating", "newest"}
    ensures m == PriceAsc <==> sortBy == "price_asc"
    ensures m == PriceDesc <==> sortBy == "price_desc"
    ensures m == ByRating <==> sortBy == "rating"
    ensures m == Newest <==> sortBy == "newest"
  {
    if sortBy == "price_asc" then PriceAsc
    else if sortBy == "price_desc" then PriceDesc
    else if sortBy == "rating" then ByRating
    else if sortBy == "newest" then Newest
    else ByTitle
  }

  /** Title order: lexicographic on character codes, standing in for `localeCompare`. */
  predicate TitleLe(a: string, b: string)
    decreases |a|
  {
    |a| == 0 || (|b| > 0 && (a[0] < b[0] || (a[0] == b[0] && TitleLe(a[1..], b[1..]))))
  }

  lemma {:induction false} TitleLeTotal(a: string, b: string)
    ensures TitleLe(a, b) || TitleLe(b, a)
    decreases |a|
  {
    if |a| > 0 && |b| > 0 && a[0] == b[0] {
      TitleLeTotal(a[1..], b[1..]);
    }
  }

  lemma {:induction false} TitleLeTransitive(a: string, b: string, c: string)
    requires TitleLe(a, b) && TitleLe(b, c)
    ensures TitleLe(a, c)
    decreases |a|
  {
    if |a| > 0 && a[0] == b[0] && b[0] == c[0] {
      TitleLeTransitive(a[1..], b[1..], c[1..]);
    }
  }

  /** Only equal titles compare equal. */
  lemma {:induction false} TitleLeAntisymmetric(a: string, b: string)
    requires TitleLe(a, b) && TitleLe(b, a)
    ensures a == b
    decreases |a|
  {
    if |a| > 0 {
      TitleLeAntisymmetric(a[1..], b[1..]);
      assert a == [a[0]] + a[1..] && b == [b[0]] + b[1..];
    }
  }

  /** `a` may stay ahead of `b`: the mode's comparator of `(a, b)` is not positive. */
  predicate Before(m: SortMode, a: Product, b: Product) {
    match m
    case ByTitle => TitleLe(a.title, b.title)
    case PriceAsc => a.price <= b.price
    case PriceDesc => a.price >= b.price
    case ByRating => a.averageRating >= b.averageRating
    case Newest => a.releaseDate >= b.releaseDate
  }

  lemma BeforeTotal(m: SortMode, a: Product, b: Product)
    ensures Before(m, a, b) || Before(m, b, a)
  {
    if m == ByTitle {
      TitleLeTotal(a.title, b.title);
    }
  }

  lemma BeforeTransitive(m: SortMode, a: Product, b: Product, c: Product)
    requires Before(m, a, b) && Before(m, b, c)
    ensures Before(m, a, c)
  {
    if m == ByTitle {
      TitleLeTransitive(a.title, b.title, c.title);
    }
  }

  /** Every earlier element may stay ahead of every later one. */
  predicate Sorted(m: SortMode, s: seq<Product>) {
    forall i, j :: 0 <= i < j < |s| ==> Before(m, s[i], s[j])
  }

  /** Places `x` ahead of the first element it may precede. */
  function Insert(m: SortMode, x: Product, s: seq<Product>): (r: seq<Product>)
    requires Sorted(m, s)
    ensures multiset(r) == multiset(s) + multiset{x}
    ensures Sorted(m, r)
    decreases |s|
  {
    if |s| == 0 then [x]
    else if Before(m, x, s[0]) then
      AheadOfAll(m, x, s);
      ConsSorted(m, x, s);
      [x] + s
    else
      BeforeTotal(m, x, s[0]);
      assert Sorted(m, s[1..]);
      var tail := Insert(m, x, s[1..]);
      HeadAheadOfTail(m, s, x, tail);
      ConsSorted(m, s[0], tail);
      assert s == [s[0]] + s[1..];
      [s[0]] + tail
  }

  /** What may precede the head of a sorted sequence may precede all of it. */
  lemma AheadOfAll(m: SortMode, x: Product, s: seq<Product>)
    requires Sorted(m, s) && |s| > 0 && Before(m, x, s[0])
    ensures forall j :: 0 <= j < |s| ==> Before(m, x, s[j])
  {
    forall j | 0 < j < |s| ensures Before(m, x, s[j]) {
      BeforeTransitive(m, x, s[0], s[j]);
    }
  }

  lemma ConsSorted(m: SortMode, y: Product, t: seq<Product>)
    requires Sorted(m, t) && forall j :: 0 <= j < |t| ==> Before(m, y, t[j])
    ensures Sorted(m, [y] + t)
  {
    var r := [y] + t;
    forall i, j | 0 <= i < j < |r| ensures Before(m, r[i], r[j]) {
      assert r[j] == t[j - 1];
      if i > 0 {
        assert r[i] == t[i - 1];
      }
    }
  }

  /** The head of a sorted sequence may precede everything the tail holds after `x` is
      inserted into it, when it may precede `x`. */
  lemma HeadAheadOfTail(m: SortMode, s: seq<Product>, x: Product, tail: seq<Product>)
    requires Sorted(m, s) && |s| > 0 && Before(m, s[0], x)
    requires multiset(tail) == multiset(s[1..]) + multiset{x}
    ensures forall j :: 0 <= j < |tail| ==> Before(m, s[0], tail[j])
  {
    forall j | 0 <= j < |tail| ensures Before(m, s[0], tail[j]) {
      assert tail[j] in multiset(tail);
      if tail[j] != x {
        assert tail[j] in multiset(s[1..]);
        var k :| 0 <= k < |s[1..]| && s[1..][k] == tail[j];
        assert s[k + 1] == tail[j];
      }
    }
  }

  /** The stable sort of `s` under mode `m`. */
  function Sort(m: SortMode, s: seq<Product>): (r: seq<Product>)
    ensures multiset(r) == multiset(s)
    ensures |r| == |s|
    ensures Sorted(m, r)
    decreases |s|
  {
    if |s| == 0 then []
    else
      assert s == [s[0]] + s[1..];
      var r := Insert(m, s[0], Sort(m, s[1..]));
      assert |r| == |multiset(r)|;
      r
  }

  /** Sorting neither adds nor drops a product. */
  lemma SortMembers(m: SortMode, s: seq<Product>)
    ensures forall x :: x in Sort(m, s) <==> x in s
  {
    var r := Sort(m, s);
    assert forall x :: x in r <==> x in multiset(r);
    assert forall x :: x in s <==> x in multiset(s);
  }

  /** What each mode's order means for prices, ratings, dates and titles. */
  lemma SortOrders(m: SortMode, s: seq<Product>)
    ensures var r := Sort(m, s);
            forall i, j :: 0 <= i < j < |r| ==>
              && (m == PriceAsc ==> r[i].price <= r[j].price)
              && (m == PriceDesc ==> r[i].price >= r[j].price)
              && (m == ByRating ==> r[i].averageRating >= r[j].averageRating)
              && (m == Newest ==> r[i].releaseDate >= r[j].releaseDate)
              && (m == ByTitle ==> TitleLe(r[i].title, r[j].title))
  {
    var r := Sort(m, s);
    assert forall i, j :: 0 <= i < j < |r| ==> Before(m, r[i], r[j]);
  }

  /** The products that tie with `key` under mode `m`. */
  function TiesWith(m: SortMode, key: Product): Product -> bool {
    p => Before(m, p, key) && Before(m, key, p)
  }

  /** Two products that both tie with `key` may precede each other. */
  lemma TiesAreMutual(m: SortMode, key: Product, a: Product, b: Product)
    ensures TiesWith(m, key)(a) && TiesWith(m, key)(b) ==> Before(m, a, b)
  {
    if TiesWith(m, key)(a) && TiesWith(m, key)(b) {
      BeforeTransitive(m, a, key, b);
    }
  }

  lemma {:induction false} InsertKeepsTies(m: SortMode, x: Product, s: seq<Product>, key: Product)
    requires Sorted(m, s)
    ensures Seqs.Filter(Insert(m, x, s), TiesWith(m, key)) ==
            (if TiesWith(m, key)(x) then [x] else []) + Seqs.Filter(s, TiesWith(m, key))
    decreases |s|
  {
    var tie := TiesWith(m, key);
    var front := if tie(x) then [x] else [];
    if |s| == 0 {
      assert Seqs.Filter([x], tie) == front + Seqs.Filter([], tie);
    } else if Before(m, x, s[0]) {
      assert Insert(m, x, s) == [x] + s;
      Seqs.FilterAppend([x], s, tie);
      assert Seqs.Filter([x], tie) == front;
    } else {
      assert Sorted(m, s[1..]);
      var tail := Insert(m, x, s[1..]);
      InsertKeepsTies(m, x, s[1..], key);
      assert Insert(m, x, s) == [s[0]] + tail;
      InsertBehindHead(m, x, s, tail, key);
    }
  }

  lemma InsertBehindHead(m: SortMode, x: Product, s: seq<Product>, tail: seq<Product>, key: Product)
    requires |s| > 0 && !Before(m, x, s[0])
    requires Seqs.Filter(tail, TiesWith(m, key)) ==
             (if TiesWith(m, key)(x) then [x] else []) + Seqs.Filter(s[1..], TiesWith(m, key))
    ensures Seqs.Filter([s[0]] + tail, TiesWith(m, key)) ==
            (if TiesWith(m, key)(x) then [x] else []) + Seqs.Filter(s, TiesWith(m, key))
  {
    var tie := TiesWith(m, key);
    var front := if tie(x) then [x] else [];
    var head := Seqs.Filter([s[0]], tie);
    Seqs.FilterAppend([s[0]], tail, tie);
    assert s == [s[0]] + s[1..];
    Seqs.FilterAppend([s[0]], s[1..], tie);
    TiesAreMutual(m, key, x, s[0]);
    assert head == [] || front == [];
  }

  /** Stability: among products that tie under the mode, the sorted output keeps their
      original relative order. */
  lemma {:induction false} SortStable(m: SortMode, s: seq<Product>, key: Product)
    ensures Seqs.Filter(Sort(m, s), TiesWith(m, key)) == Seqs.Filter(s, TiesWith(m, key))
    decreases |s|
  {
    if |s| > 0 {
      SortStable(m, s[1..], key);
      InsertKeepsTies(m, s[0], Sort(m, s[1..]), key);
    }
  }
}
