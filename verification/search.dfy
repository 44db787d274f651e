/** `searchProducts` (backend/src/services/prisma/product.service.ts): filter
    the product table, order it by one column, cut out one page, and
    optionally keep only the fields a suggestion list shows. */
module Search {
  import opened Wrappers
  import opened Js
  import opened Listing
  import opened Store

  /** The search arguments; `None` is an argument the caller left out. */
  datatype SearchArgs = SearchArgs(
    query: Option<string>,
    categoryId: Option<int>,
    minPrice: Option<real>,
    maxPrice: Option<real>,
    brand: Option<string>,
    sortBy: Option<string>,
    sortOrder: Option<string>,
    page: Option<int>,
    limit: Option<int>,
    suggestionsOnly: Option<bool>)

  const DefaultSortBy: string := "created_at"
  const DefaultSortOrder: string := "desc"
  const DefaultPage: int := 1
  const DefaultLimit: int := 12

  function SortByOf(a: SearchArgs): string { if a.sortBy.Some? then a.sortBy.value else DefaultSortBy }
  function SortOrderOf(a: SearchArgs): string { if a.sortOrder.Some? then a.sortOrder.value else DefaultSortOrder }
  function PageOf(a: SearchArgs): int { if a.page.Some? then a.page.value else DefaultPage }
  function LimitOf(a: SearchArgs): int { if a.limit.Some? then a.limit.value else DefaultLimit }

  /** `skip = (page - 1) * limit`. */
  function SkipOf(a: SearchArgs): int { (PageOf(a) - 1) * LimitOf(a) }

  /** The scalar columns of the product table `orderBy` accepts. */
  datatype Column =
    | IdColumn | TitleColumn | DescriptionColumn | PriceColumn | DiscountColumn | StockColumn
    | BrandColumn | SellerColumn | CategoryColumn | ActiveColumn | CreatedColumn

  function ColumnNamed(name: string): Option<Column> {
    match name
    case "id" => Some(IdColumn)
    case "title" => Some(TitleColumn)
    case "description" => Some(DescriptionColumn)
    case "price" => Some(PriceColumn)
    case "discount" => Some(DiscountColumn)
    case "stock" => Some(StockColumn)
    case "brand" => Some(BrandColumn)
    case "seller_id" => Some(SellerColumn)
    case "category_id" => Some(CategoryColumn)
    case "is_active" => Some(ActiveColumn)
    case "created_at" => Some(CreatedColumn)
    case _ => None
  }

  /** `true` for a descending order. */
  function Descending(order: string): Option<bool> {
    match order
    case "asc" => Some(false)
    case "desc" => Some(true)
    case _ => None
  }

  function ColumnValue(c: Column, r: Row<Product>): Key {
    var p := r.rec;
    match c
    case IdColumn => KInt(r.id)
    case TitleColumn => KStr(p.title)
    case DescriptionColumn => KStr(p.description)
    case PriceColumn => KReal(p.price)
    case DiscountColumn => KReal(p.discount)
    case StockColumn => KInt(p.stock)
    case BrandColumn => KStr(p.brand)
    case SellerColumn => KInt(p.sellerId)
    case CategoryColumn => KInt(p.categoryId)
    case ActiveColumn => KBool(p.isActive)
    case CreatedColumn => KInt(p.createdAt)
  }

  /** The `where` filter the arguments build. Text filters are case-insensitive
      substring tests; the category and brand filters apply only to truthy
      arguments; the price bounds apply whenever given and are inclusive. */
  predicate Matches(a: SearchArgs, p: Product) {
    && p.isActive
    && (TruthyString(a.query) ==>
          || ContainsInsensitive(p.title, a.query.value)
          || ContainsInsensitive(p.description, a.query.value)
          || ContainsInsensitive(p.brand, a.query.value))
    && (a.categoryId.Some? && a.categoryId.value != 0 ==> p.categoryId == a.categoryId.value)
    && (a.minPrice.Some? ==> p.price >= a.minPrice.value)
    && (a.maxPrice.Some? ==> p.price <= a.maxPrice.value)
    && (TruthyString(a.brand) ==> ContainsInsensitive(p.brand, a.brand.value))
  }

  /** A search result: the whole product, or the suggestion projection. */
  datatype Hit = Full(id: int, product: Product) | Suggestion(id: int, title: string, brand: string)

  function Project(rows: seq<Row<Product>>, suggestionsOnly: bool): (hits: seq<Hit>)
    ensures |hits| == |rows|
    ensures forall i :: 0 <= i < |rows| ==>
      hits[i] == if suggestionsOnly then Suggestion(rows[i].id, rows[i].rec.title, rows[i].rec.brand)
                 else Full(rows[i].id, rows[i].rec)
  {
    if |rows| == 0 then []
    else Project(rows[..|rows| - 1], suggestionsOnly)
         + [if suggestionsOnly then Suggestion(rows[|rows| - 1].id, rows[|rows| - 1].rec.title, rows[|rows| - 1].rec.brand)
            else Full(rows[|rows| - 1].id, rows[|rows| - 1].rec)]
  }

  /** Every matching row of the table, ordered as requested. */
  function Ordered(db: Db, a: SearchArgs, c: Column, desc: bool): seq<Row<Product>> {
    Sort((r: Row<Product>) => ColumnValue(c, r), desc, Scan(db.products, (p: Product) => Matches(a, p), db.nextId))
  }

  /** `skip`/`take`; a negative `take` counts from the end of the ordering:
      it skips `skip` rows from the end and keeps the `-take` rows before
      them, in their original order. */
  function Page<T>(s: seq<T>, skip: nat, take: int): (r: seq<T>)
    ensures |r| <= if take >= 0 then take else -take
    ensures forall x :: x in r ==> x in s
    ensures skip >= |s| ==> r == []
    ensures skip < |s| ==> |r| == Min(if take >= 0 then take else -take, |s| - skip)
    ensures take >= 0 && skip < |s| ==> r == s[skip..skip + |r|]
    ensures take < 0 && skip < |s| ==> r == s[|s| - skip - |r|..|s| - skip]
  {
    if take >= 0 then Window(s, skip, take)
    else
      var w := Reverse(Window(Reverse(s), skip, -take));
      assert forall x :: x in w ==> x in s by {
        forall x | x in w ensures x in s {
          var i :| 0 <= i < |w| && w[i] == x;
        }
      }
      if skip < |s| then ReversedWindowIsSlice(s, skip, -take); w else w
  }

  function Min(a: int, b: int): int { if a <= b then a else b }

  /** The window of the reversed sequence, reversed back, is the slice that
      ends `skip` rows before the end. */
  lemma ReversedWindowIsSlice<T>(s: seq<T>, skip: nat, n: nat)
    requires skip < |s|
    ensures var w := Reverse(Window(Reverse(s), skip, n));
      w == s[|s| - skip - |w|..|s| - skip]
  {
    var rs := Reverse(s);
    var v := Window(rs, skip, n);
    var w := Reverse(v);
    var m := |w|;
    assert |v| == m && m <= |s| - skip;
    assert v == rs[skip..skip + m];
    var t := s[|s| - skip - m..|s| - skip];
    assert |t| == m;
    forall i | 0 <= i < m ensures w[i] == t[i] {
      calc {
        w[i];
        v[m - 1 - i];
        rs[skip + m - 1 - i];
        s[|s| - skip - m + i];
      }
    }
    assert w == t;
  }

  /** `searchProducts`. An unknown sort column, an order other than "asc" or
      "desc", or a negative skip is rejected by the database client. */
  function SearchProducts(db: Db, a: SearchArgs): (r: Result<seq<Hit>>)
    ensures r.Ok? <==> ColumnNamed(SortByOf(a)).Some? && Descending(SortOrderOf(a)).Some? && SkipOf(a) >= 0
    ensures r.Ok? ==> forall h :: h in r.value ==>
      h.id in db.products && Matches(a, db.products[h.id])
      && (if a.suggestionsOnly == Some(true)
          then h == Suggestion(h.id, db.products[h.id].title, db.products[h.id].brand)
          else h == Full(h.id, db.products[h.id]))
    ensures r.Ok? ==> |r.value| <= if LimitOf(a) >= 0 then LimitOf(a) else -LimitOf(a)
  {
    match ColumnNamed(SortByOf(a))
    case None => Err(Error(Thrown, "Invalid orderBy argument"))
    case Some(c) =>
      match Descending(SortOrderOf(a))
      case None => Err(Error(Thrown, "Invalid orderBy argument"))
      case Some(desc) =>
        if SkipOf(a) < 0 then Err(Error(Thrown, "Invalid skip argument"))
        else
          var ordered := Ordered(db, a, c, desc);
          var page := Page(ordered, SkipOf(a), LimitOf(a));
          OrderedRowsMatch(db, a, c, desc);
          Ok(Project(page, a.suggestionsOnly == Some(true)))
  }

  /** The ordering is sorted by the column and holds only current matching products. */
  lemma OrderedRowsMatch(db: Db, a: SearchArgs, c: Column, desc: bool)
    ensures var o := Ordered(db, a, c, desc);
      && Sorted((r: Row<Product>) => ColumnValue(c, r), desc, o)
      && (forall r :: r in o ==> r.id in db.products && db.products[r.id] == r.rec && Matches(a, r.rec))
  {
    var scanned := Scan(db.products, (p: Product) => Matches(a, p), db.nextId);
    var o := Ordered(db, a, c, desc);
    forall r | r in o
      ensures r.id in db.products && db.products[r.id] == r.rec && Matches(a, r.rec)
    {
      assert r in multiset(o);
      assert r in multiset(scanned);
      var i :| 0 <= i < |scanned| && scanned[i] == r;
    }
  }

  /** No product appears twice in the ordering. */
  lemma OrderedIdsDistinct(db: Db, a: SearchArgs, c: Column, desc: bool)
    ensures var o := Ordered(db, a, c, desc);
      forall i, j :: 0 <= i < j < |o| ==> o[i].id != o[j].id
  {
    var scanned := Scan(db.products, (p: Product) => Matches(a, p), db.nextId);
    var o := Ordered(db, a, c, desc);
    OrderedRowsMatch(db, a, c, desc);
    forall i, j | 0 <= i < j < |o| ensures o[i].id != o[j].id {
      if o[i].id == o[j].id {
        assert o[i] in o && o[j] in o;
        assert o[i] == o[j];
        RepeatCountsTwice(o, i, j);
        assert forall x, y :: 0 <= x < y < |scanned| ==> scanned[x] != scanned[y];
        DistinctOccursOnce(scanned, o[i]);
        assert false;
      }
    }
  }

  /** In a consistent store no matching product is missed before paging. */
  lemma OrderedIsComplete(db: Db, a: SearchArgs, c: Column, desc: bool, id: int)
    requires Valid(db)
    requires id in db.products && Matches(a, db.products[id])
    ensures Row(id, db.products[id]) in Ordered(db, a, c, desc)
  {
    var scanned := Scan(db.products, (p: Product) => Matches(a, p), db.nextId);
    assert Row(id, db.products[id]) in multiset(scanned);
  }

  /** With a non-negative limit the result is the requested window of the
      ordering: page `p` starts after the first `(p - 1) * limit` matches. */
  lemma SearchIsWindowOfOrdering(db: Db, a: SearchArgs)
    requires SearchProducts(db, a).Ok? && LimitOf(a) >= 0
    ensures var o := Ordered(db, a, ColumnNamed(SortByOf(a)).value, Descending(SortOrderOf(a)).value);
      var w := Window(o, SkipOf(a), LimitOf(a));
      && |SearchProducts(db, a).value| == |w|
      && (SkipOf(a) <= |o| ==> w == o[SkipOf(a)..SkipOf(a) + |w|])
      && forall i :: 0 <= i < |w| ==> SearchProducts(db, a).value[i].id == w[i].id
  {
  }

  /** Consecutive pages of the same search follow each other in the ordering:
      page `p + 1` starts where page `p` ends. */
  lemma ConsecutivePagesAdjoin(o: seq<Row<Product>>, a: SearchArgs, page: int)
    requires page >= 1 && LimitOf(a) >= 0
    ensures var l := LimitOf(a);
      var here := SkipOf(a.(page := Some(page)));
      var next := SkipOf(a.(page := Some(page + 1)));
      && here >= 0 && next == here + l
      && Window(o, here, l) + Window(o, next, l) == Window(o, here, 2 * l)
  {
    var l := LimitOf(a);
    assert LimitOf(a.(page := Some(page))) == l && LimitOf(a.(page := Some(page + 1))) == l;
    assert SkipOf(a.(page := Some(page))) == (page - 1) * l;
    assert SkipOf(a.(page := Some(page + 1))) == page * l;
    assert page * l == (page - 1) * l + l;
    WindowsAdjoin(o, (page - 1) * l, l);
  }

  /** A search that passes its argument checks projects one page of the ordering. */
  lemma SearchProductsPage(db: Db, a: SearchArgs, c: Column, desc: bool)
    requires ColumnNamed(SortByOf(a)) == Some(c) && Descending(SortOrderOf(a)) == Some(desc) && SkipOf(a) >= 0
    ensures SearchProducts(db, a) == Ok(Project(Page(Ordered(db, a, c, desc), SkipOf(a), LimitOf(a)), a.suggestionsOnly == Some(true)))
  {
  }

  /** The suggestion list is the full result, projected, in the same order. */
  lemma SuggestionsProjectFullResult(db: Db, a: SearchArgs)
    requires SearchProducts(db, a.(suggestionsOnly := None)).Ok?
    ensures var full := SearchProducts(db, a.(suggestionsOnly := None)).value;
      var sugg := SearchProducts(db, a.(suggestionsOnly := Some(true))).value;
      && |sugg| == |full|
      && forall i :: 0 <= i < |full| ==>
           sugg[i] == Suggestion(full[i].id, full[i].product.title, full[i].product.brand)
  {
    var a0 := a.(suggestionsOnly := None);
    var a1 := a.(suggestionsOnly := Some(true));
    var c := ColumnNamed(SortByOf(a)).value;
    var desc := Descending(SortOrderOf(a)).value;
    var o := Ordered(db, a0, c, desc);
    assert Ordered(db, a1, c, desc) == o by {
      ScanAgrees(db.products, (p: Product) => Matches(a0, p), (p: Product) => Matches(a1, p), db.nextId);
    }
    var pg := Page(o, SkipOf(a), LimitOf(a));
    SearchProductsPage(db, a0, c, desc);
    SearchProductsPage(db, a1, c, desc);
    var full := Project(pg, false);
    var sugg := Project(pg, true);
    forall i | 0 <= i < |full|
      ensures sugg[i] == Suggestion(full[i].id, full[i].product.title, full[i].product.brand)
    {
      assert full[i] == Full(pg[i].id, pg[i].rec);
    }
  }

  /** The price bounds are inclusive: a product priced exactly at both bounds passes them. */
  lemma PriceBoundsInclusive(a: SearchArgs, p: Product)
    requires p.isActive && a.query.None? && a.categoryId.None? && a.brand.None?
    requires a.minPrice == Some(p.price) && a.maxPrice == Some(p.price)
    ensures Matches(a, p)
  {
  }

  /** Only active products are ever returned, whatever the filters. */
  lemma InactiveNeverMatches(a: SearchArgs, p: Product)
    requires !p.isActive
    ensures !Matches(a, p)
  {
  }

  /** The text query ignores letter case. */
  lemma QueryIgnoresCase(a: SearchArgs, p: Product, q: string)
    ensures Matches(a.(query := Some(q)), p) == Matches(a.(query := Some(ToLower(q))), p)
  {
    assert ToLower(ToLower(q)) == ToLower(q);
  }

  /** A product whose title is the query, in any letter case, matches the query filter. */
  lemma TitleMatchesItself(a: SearchArgs, p: Product)
    requires p.isActive && a.categoryId.None? && a.minPrice.None? && a.maxPrice.None? && a.brand.None?
    requires a.query == Some(p.title)
    ensures Matches(a, p)
  {
    ContainsSelf(ToLower(p.title));
  }
}
