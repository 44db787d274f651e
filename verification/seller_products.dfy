/** The seller's catalogue resolvers (backend/src/controllers/seller/product.controller.ts)
    and the category-name lookup they use (backend/src/services/seller/product.service.ts).
    Every resolver runs `requireAuth` and `requireSeller` before touching the
    store, and passes the caller's id as the seller id of the write. */
module SellerProducts {
  import opened Wrappers
  import opened Js
  import opened Auth
  import opened Listing
  import opened Store
  import opened Catalog
  import opened ProductValidators

  /** The first position of `x` in `s`. */
  function IndexOf(s: seq<string>, x: string): (k: nat)
    requires x in s
    ensures k < |s| && s[k] == x
    ensures forall j :: 0 <= j < k ==> s[j] != x
  {
    if s[0] == x then 0 else 1 + IndexOf(s[1..], x)
  }

  /** `checkCategoryExist`: the id at the position of the first category
      named exactly `category`. Reading past the end of the id list yields
      undefined, which is `None` here; a name that is not listed throws a
      GraphQLError that carries no code. */
  function CheckCategoryExist(category: string, names: seq<string>, ids: seq<int>): (r: Result<Option<int>>)
    ensures r.Ok? <==> category in names
    ensures r.Ok? ==> r.value == if IndexOf(names, category) < |ids| then Some(ids[IndexOf(names, category)]) else None
    ensures r.Err? ==> r.error == Error(Uncoded, "This category is not found")
  {
    if category in names then
      var k := IndexOf(names, category);
      Ok(if k < |ids| then Some(ids[k]) else None)
    else Err(Error(Uncoded, "This category is not found"))
  }

  /** With parallel lists of equal length, the id found names a category of that name. */
  lemma CategoryLookupFindsNamedCategory(table: map<int, Category>, category: string, names: seq<string>, ids: seq<int>)
    requires |names| == |ids|
    requires forall i :: 0 <= i < |ids| ==> ids[i] in table && table[ids[i]].name == names[i]
    requires category in names
    ensures CheckCategoryExist(category, names, ids).Ok?
    ensures CheckCategoryExist(category, names, ids).value.Some?
    ensures var id := CheckCategoryExist(category, names, ids).value.value;
      id in table && table[id].name == category
  {
  }

  /** When a name occurs twice, the first occurrence decides. */
  lemma FirstMatchingCategoryWins(category: string, names: seq<string>, ids: seq<int>, i: nat, j: nat)
    requires i < j < |names| == |ids|
    requires names[i] == category && names[j] == category
    requires forall k :: 0 <= k < i ==> names[k] != category
    ensures CheckCategoryExist(category, names, ids) == Ok(Some(ids[i]))
  {
    assert IndexOf(names, category) == i;
  }

  /** The category table as `findCategories` lists it, in id order. */
  function CategoryRows(db: Db): seq<Row<Category>> {
    Scan(db.categories, (c: Category) => true, db.nextId)
  }

  function CategoryNames(rows: seq<Row<Category>>): (names: seq<string>)
    ensures |names| == |rows| && forall i :: 0 <= i < |rows| ==> names[i] == rows[i].rec.name
  {
    seq(|rows|, i requires 0 <= i < |rows| => rows[i].rec.name)
  }

  function CategoryIds(rows: seq<Row<Category>>): (ids: seq<int>)
    ensures |ids| == |rows| && forall i :: 0 <= i < |rows| ==> ids[i] == rows[i].id
  {
    seq(|rows|, i requires 0 <= i < |rows| => rows[i].id)
  }

  /** The id `addProduct` resolves a category name to. */
  function ResolveCategory(db: Db, category: string): (r: Result<Option<int>>)
    ensures r.Ok? && r.value.Some? ==> r.value.value in db.categories && db.categories[r.value.value].name == category
  {
    var rows := CategoryRows(db);
    var r := CheckCategoryExist(category, CategoryNames(rows), CategoryIds(rows));
    if category in CategoryNames(rows) then
      CategoryLookupFindsNamedCategory(db.categories, category, CategoryNames(rows), CategoryIds(rows));
      r
    else r
  }

  /** In a consistent store every existing category name resolves to an id. */
  lemma ExistingCategoryResolves(db: Db, id: int)
    requires Valid(db) && id in db.categories
    ensures ResolveCategory(db, db.categories[id].name).Ok?
    ensures ResolveCategory(db, db.categories[id].name).value.Some?
  {
    var rows := CategoryRows(db);
    var i :| 0 <= i < |rows| && rows[i] == Row(id, db.categories[id]);
    assert CategoryNames(rows)[i] == db.categories[id].name;
  }

  /** A name no category has is refused before any write. */
  lemma UnknownCategoryIsRefused(db: Db, category: string)
    requires forall id :: id in db.categories ==> db.categories[id].name != category
    ensures ResolveCategory(db, category) == Err(Error(Uncoded, "This category is not found"))
  {
    var rows := CategoryRows(db);
    assert category !in CategoryNames(rows) by {
      forall i | 0 <= i < |rows| ensures CategoryNames(rows)[i] != category {
        assert rows[i].id in db.categories;
      }
    }
  }

  /** The validator's view of typed product data. */
  function AsInput(info: ProductInfo): ProductInput {
    ProductInput(Str(info.title), Str(info.description), Num(info.price), Num(info.discount),
                 Num(info.stock as real), Str(info.categoryName), Str(info.brand))
  }

  /** Typed data holds no strings in number fields, so Joi's numeric-string
      conversion is never consulted. */
  function NoNumericStrings(s: string): Option<real> { None }

  /** `addProductResolver`, reading the product from the mutation's `data`
      argument: guards, validation, category lookup, then the insert. */
  function AddProduct(db: Db, ctx: Context, info: ProductInfo, now: int): (s: Step<()>)
    ensures !Admits(OnlyRole(Seller), ctx) ==> s.db == db && s.result.Err? && s.result.error.code == Refusal(ctx)
    ensures s.result.Err? ==> s.db == db
    ensures s.result.Ok? ==>
      && ctx.user.Some? && ctx.user.value.role == Seller
      && ValidateProductData(AsInput(info), NoNumericStrings).Ok?
      && db.nextId in s.db.products
      && var p := s.db.products[db.nextId];
         p.sellerId == ctx.user.value.id && p.categoryId in db.categories
         && db.categories[p.categoryId].name == info.categoryName
         && p.title == info.title && p.stock == info.stock && p.isActive
    ensures s.result.Ok? <==>
      && Admits(OnlyRole(Seller), ctx)
      && ValidateProductData(AsInput(info), NoNumericStrings).Ok?
      && ResolveCategory(db, info.categoryName).Ok? && ResolveCategory(db, info.categoryName).value.Some?
      && ctx.user.value.id in db.users && db.nextId !in db.products
    ensures s.result.Ok? ==>
      s.db == db.(products := db.products[db.nextId := Product(info.title, info.description, info.price, info.discount,
                    info.stock, info.brand, ctx.user.value.id, ResolveCategory(db, info.categoryName).value.value, true, now)],
                  nextId := db.nextId + 1)
  {
    match AuthWithRole(ctx, Seller)
    case Err(e) => Step(db, Err(e))
    case Ok(user) =>
      match ValidateProductData(AsInput(info), NoNumericStrings)
      case Err(e) => Step(db, Err(e))
      case Ok(_) =>
        match ResolveCategory(db, info.categoryName)
        case Err(e) => Step(db, Err(e))
        case Ok(None) => Step(db, Err(Error(InternalServerError, "Error in creating new product")))
        case Ok(Some(categoryId)) => CreateProduct(db, info, user.id, categoryId, now)
  }

  /** A signed-in seller with well-formed data naming an existing category
      gets the product created, owned by them. */
  lemma AddProductSucceeds(db: Db, ctx: Context, info: ProductInfo, now: int, categoryId: int)
    requires Valid(db)
    requires ctx.user.Some? && ctx.user.value.role == Seller && ctx.user.value.id in db.users
    requires WellFormedProduct(AsInput(info), NoNumericStrings)
    requires categoryId in db.categories && db.categories[categoryId].name == info.categoryName
    ensures AddProduct(db, ctx, info, now).result.Ok?
    ensures Owns(AddProduct(db, ctx, info, now).db, db.nextId, ctx.user.value.id)
  {
    ExistingCategoryResolves(db, categoryId);
    ValidateProductDataAcceptsExactly(AsInput(info), NoNumericStrings);
  }

  /** Invalid data is refused before the categories are read: nothing is created. */
  lemma InvalidProductCreatesNothing(db: Db, ctx: Context, info: ProductInfo, now: int)
    requires !WellFormedProduct(AsInput(info), NoNumericStrings)
    ensures AddProduct(db, ctx, info, now).result.Err?
    ensures AddProduct(db, ctx, info, now).db == db
  {
    ValidateProductDataAcceptsExactly(AsInput(info), NoNumericStrings);
  }

  /** `addProductResolver` as written: it reads the product from the request
      context, which the server builds from the request, the response and the
      user only. The data is therefore undefined and the validator's first
      field access throws a TypeError. */
  function AddProductAsWritten(db: Db, ctx: Context, now: int): (s: Step<()>)
    ensures s.db == db && s.result.Err?
  {
    match AuthWithRole(ctx, Seller)
    case Err(e) => Step(db, Err(e))
    case Ok(_) => Step(db, Err(Error(Thrown, "Cannot read properties of undefined (reading 'title')")))
  }

  /** As written, no call of `addProduct` ever creates a product, not even a
      seller's with data the corrected resolver accepts. */
  lemma AddProductAsWrittenNeverCreates(db: Db, ctx: Context, info: ProductInfo, now: int, categoryId: int)
    requires Valid(db)
    requires ctx.user.Some? && ctx.user.value.role == Seller && ctx.user.value.id in db.users
    requires WellFormedProduct(AsInput(info), NoNumericStrings)
    requires categoryId in db.categories && db.categories[categoryId].name == info.categoryName
    ensures AddProduct(db, ctx, info, now).result.Ok?
    ensures AddProductAsWritten(db, ctx, now).result == Err(Error(Thrown, "Cannot read properties of undefined (reading 'title')"))
    ensures AddProductAsWritten(db, ctx, now).db == db
  {
    AddProductSucceeds(db, ctx, info, now, categoryId);
  }

  /** `deleteProductResovler`: deletes the product only if the caller sells it. */
  function DeleteProductAs(db: Db, ctx: Context, productId: int): (s: Step<Product>)
    ensures !Admits(OnlyRole(Seller), ctx) ==> s.db == db && s.result.Err? && s.result.error.code == Refusal(ctx)
    ensures s.result.Ok? <==> Admits(OnlyRole(Seller), ctx) && Owns(db, productId, ctx.user.value.id)
    ensures s.result.Ok? ==> productId !in s.db.products && s.db == db.(products := s.db.products)
    ensures s.result.Ok? ==> s.db.products == db.products - {productId} && s.result.value == db.products[productId]
    ensures s.result.Err? ==> s.db == db
  {
    match AuthWithRole(ctx, Seller)
    case Err(e) => Step(db, Err(e))
    case Ok(user) => DeleteProduct(db, productId, user.id)
  }

  /** One of the six `productUpdateResolver` fields, with its new value. */
  datatype FieldUpdate =
    | NewTitle(title: string)
    | NewDescription(description: string)
    | NewPrice(price: real)
    | NewDiscount(discount: real)
    | NewStock(stock: int)
    | NewBrand(brand: string)

  /** The patch an update resolver passes: that one field and nothing else. */
  function PatchOf(u: FieldUpdate): ProductPatch {
    match u
    case NewTitle(t) => ProductPatch(Some(t), None, None, None, None, None)
    case NewDescription(d) => ProductPatch(None, Some(d), None, None, None, None)
    case NewPrice(p) => ProductPatch(None, None, Some(p), None, None, None)
    case NewDiscount(d) => ProductPatch(None, None, None, Some(d), None, None)
    case NewStock(s) => ProductPatch(None, None, None, None, Some(s), None)
    case NewBrand(b) => ProductPatch(None, None, None, None, None, Some(b))
  }

  /** Whether `q` is `p` with exactly the field `u` names set to `u`'s value. */
  predicate Applied(p: Product, u: FieldUpdate, q: Product) {
    match u
    case NewTitle(t) => q == p.(title := t)
    case NewDescription(d) => q == p.(description := d)
    case NewPrice(x) => q == p.(price := x)
    case NewDiscount(x) => q == p.(discount := x)
    case NewStock(x) => q == p.(stock := x)
    case NewBrand(b) => q == p.(brand := b)
  }

  /** A `productUpdateResolver` field: updates one field of a product the
      caller sells, with no validation of the new value. */
  function UpdateProductField(db: Db, ctx: Context, u: FieldUpdate, productId: int): (s: Step<Product>)
    ensures !Admits(OnlyRole(Seller), ctx) ==> s.db == db && s.result.Err? && s.result.error.code == Refusal(ctx)
    ensures s.result.Ok? <==> Admits(OnlyRole(Seller), ctx) && Owns(db, productId, ctx.user.value.id)
    ensures s.result.Ok? ==>
      && Applied(db.products[productId], u, s.result.value)
      && s.db == db.(products := db.products[productId := s.result.value])
    ensures s.result.Err? ==> s.db == db
  {
    match AuthWithRole(ctx, Seller)
    case Err(e) => Step(db, Err(e))
    case Ok(user) => UpdateProduct(db, PatchOf(u), productId, user.id)
  }

  /** The update resolvers accept values the validator of new products
      rejects: a negative stock, or an empty title. */
  lemma UpdatesAreNotValidated(db: Db, ctx: Context, productId: int)
    requires ctx.user.Some? && ctx.user.value.role == Seller && Owns(db, productId, ctx.user.value.id)
    ensures UpdateProductField(db, ctx, NewStock(-1), productId).result.value.stock == -1
    ensures UpdateProductField(db, ctx, NewTitle(""), productId).result.value.title == ""
    ensures ValidateTitle(Str("")).Err?
  {
  }
}
