/** The product table's service functions (backend/src/services/prisma/product.service.ts,
    apart from `searchProducts`, which is in module Search). Writes are
    scoped by the pair (product id, seller id). */
module Catalog {
  import opened Wrappers
  import opened Store

  /** The fields a seller submits for a new product. */
  datatype ProductInfo = ProductInfo(
    title: string,
    description: string,
    price: real,
    discount: real,
    stock: int,
    categoryName: string,
    brand: string)

  /** The `data` of an update: only the fields that are present change. */
  datatype ProductPatch = ProductPatch(
    title: Option<string>,
    description: Option<string>,
    price: Option<real>,
    discount: Option<real>,
    stock: Option<int>,
    brand: Option<string>)

  function Get<T>(o: Option<T>, current: T): T {
    match o
    case Some(v) => v
    case None => current
  }

  function Patched(p: Product, patch: ProductPatch): (q: Product)
    ensures q.sellerId == p.sellerId && q.categoryId == p.categoryId
    ensures q.isActive == p.isActive && q.createdAt == p.createdAt
  {
    p.(title := Get(patch.title, p.title),
       description := Get(patch.description, p.description),
       price := Get(patch.price, p.price),
       discount := Get(patch.discount, p.discount),
       stock := Get(patch.stock, p.stock),
       brand := Get(patch.brand, p.brand))
  }

  /** A patch that sets only the stock. */
  function StockPatch(stock: int): ProductPatch {
    ProductPatch(None, None, None, None, Some(stock), None)
  }

  /** The row a `(product id, seller id)` filter selects, if any. */
  predicate Owns(db: Db, productId: int, sellerId: int) {
    productId in db.products && db.products[productId].sellerId == sellerId
  }

  /** `findProduct`: the product with that id, or NOT_FOUND. */
  function FindProduct(db: Db, productId: int): (r: Result<Product>)
    ensures r.Ok? <==> productId in db.products
    ensures r.Ok? ==> r.value == db.products[productId]
    ensures r.Err? ==> r.error == Error(NotFound, "Product not found")
  {
    if productId in db.products then Ok(db.products[productId])
    else Err(Error(NotFound, "Product not found"))
  }

  /** `createProduct`: inserts an active product owned by `sellerId` in
      `categoryId` and returns nothing. A rejected insert (a missing seller
      or category row, a taken id) becomes INTERNAL_SERVER_ERROR. */
  function CreateProduct(db: Db, info: ProductInfo, sellerId: int, categoryId: int, now: int): (s: Step<()>)
    ensures s.result.Ok? <==> sellerId in db.users && categoryId in db.categories && db.nextId !in db.products
    ensures s.result.Ok? ==>
      s.db == db.(products := s.db.products, nextId := db.nextId + 1)
      && s.db.products.Keys == db.products.Keys + {db.nextId}
      && (forall k :: k in db.products ==> s.db.products[k] == db.products[k])
      && s.db.products[db.nextId] == Product(info.title, info.description, info.price, info.discount,
                                             info.stock, info.brand, sellerId, categoryId, true, now)
    ensures s.result.Err? ==> s.db == db && s.result.error == Error(InternalServerError, "Error in creating new product")
  {
    if sellerId !in db.users || categoryId !in db.categories || db.nextId in db.products then
      Step(db, Err(Error(InternalServerError, "Error in creating new product")))
    else
      var p := Product(info.title, info.description, info.price, info.discount, info.stock, info.brand,
                       sellerId, categoryId, true, now);
      Step(db.(products := db.products[db.nextId := p], nextId := db.nextId + 1), Ok(()))
  }

  /** `updateProduct`: applies `patch` to the product only when both its id
      and its seller match; otherwise INTERNAL_SERVER_ERROR and no change. */
  function UpdateProduct(db: Db, patch: ProductPatch, productId: int, sellerId: int): (s: Step<Product>)
    ensures s.result.Ok? <==> Owns(db, productId, sellerId)
    ensures s.result.Ok? ==>
      s.db == db.(products := db.products[productId := s.result.value])
      && s.result.value == Patched(db.products[productId], patch)
    ensures s.result.Err? ==> s.db == db && s.result.error == Error(InternalServerError, "Error in updating product")
  {
    if Owns(db, productId, sellerId) then
      var q := Patched(db.products[productId], patch);
      Step(db.(products := db.products[productId := q]), Ok(q))
    else
      Step(db, Err(Error(InternalServerError, "Error in updating product")))
  }

  /** `deleteProduct`: removes the product only when both its id and its
      seller match, returning the deleted row. */
  function DeleteProduct(db: Db, productId: int, sellerId: int): (s: Step<Product>)
    ensures s.result.Ok? <==> Owns(db, productId, sellerId)
    ensures s.result.Ok? ==>
      s.db == db.(products := s.db.products)
      && s.db.products.Keys == db.products.Keys - {productId}
      && (forall k :: k in s.db.products ==> s.db.products[k] == db.products[k])
      && s.result.value == db.products[productId]
    ensures s.result.Err? ==> s.db == db && s.result.error == Error(InternalServerError, "Error in deleting product")
  {
    if Owns(db, productId, sellerId) then
      Step(db.(products := db.products - {productId}), Ok(db.products[productId]))
    else
      Step(db, Err(Error(InternalServerError, "Error in deleting product")))
  }

  /** `findProductsByCategory`: the active products of one category. */
  function FindProductsByCategory(db: Db, categoryId: int): (r: map<int, Product>)
    ensures forall k :: k in r <==> k in db.products && db.products[k].categoryId == categoryId && db.products[k].isActive
    ensures forall k :: k in r ==> r[k] == db.products[k]
  {
    map k | k in db.products && db.products[k].categoryId == categoryId && db.products[k].isActive :: db.products[k]
  }

  /** `findProductsByUser`: every product, active or not, of one seller. */
  function FindProductsByUser(db: Db, sellerId: int): (r: map<int, Product>)
    ensures forall k :: k in r <==> Owns(db, k, sellerId)
    ensures forall k :: k in r ==> k in db.products && r[k] == db.products[k]
  {
    map k | k in db.products && db.products[k].sellerId == sellerId :: db.products[k]
  }

  /** A created product can be found under the id it was given, active,
      owned by its seller and listed in its category. */
  lemma CreateThenFind(db: Db, info: ProductInfo, sellerId: int, categoryId: int, now: int)
    requires CreateProduct(db, info, sellerId, categoryId, now).result.Ok?
    ensures var db' := CreateProduct(db, info, sellerId, categoryId, now).db;
      && FindProduct(db', db.nextId).Ok?
      && FindProduct(db', db.nextId).value.isActive
      && Owns(db', db.nextId, sellerId)
      && db.nextId in FindProductsByCategory(db', categoryId)
      && db.nextId !in FindProductsByCategory(db, categoryId)
  {
  }

  /** Updating with a patch that sets nothing changes nothing. */
  lemma EmptyPatchIsIdentity(db: Db, productId: int, sellerId: int)
    requires Owns(db, productId, sellerId)
    ensures UpdateProduct(db, ProductPatch(None, None, None, None, None, None), productId, sellerId).db == db
  {
    var p := db.products[productId];
    assert Patched(p, ProductPatch(None, None, None, None, None, None)) == p;
    assert db.products[productId := p] == db.products;
  }

  /** Only the fields present in the patch differ after an update. */
  lemma UpdateChangesOnlyPatchedFields(db: Db, patch: ProductPatch, productId: int, sellerId: int)
    requires Owns(db, productId, sellerId)
    ensures var q := UpdateProduct(db, patch, productId, sellerId).db.products[productId];
      var p := db.products[productId];
      && (patch.title.None? ==> q.title == p.title)
      && (patch.description.None? ==> q.description == p.description)
      && (patch.price.None? ==> q.price == p.price)
      && (patch.discount.None? ==> q.discount == p.discount)
      && (patch.stock.None? ==> q.stock == p.stock)
      && (patch.brand.None? ==> q.brand == p.brand)
      && (patch.stock.Some? ==> q.stock == patch.stock.value)
      && q.sellerId == p.sellerId && q.categoryId == p.categoryId && q.isActive == p.isActive
  {
  }

  /** The catalogue writes keep the store's id discipline. */
  lemma CreateProductPreservesValid(db: Db, info: ProductInfo, sellerId: int, categoryId: int, now: int)
    requires Valid(db)
    ensures Valid(CreateProduct(db, info, sellerId, categoryId, now).db)
  {
    var s := CreateProduct(db, info, sellerId, categoryId, now);
    if s.result.Ok? {
      GrowPreservesValid(db, s.db.(products := db.products), s.db);
    }
  }

  lemma UpdateProductPreservesValid(db: Db, patch: ProductPatch, productId: int, sellerId: int)
    requires Valid(db)
    ensures Valid(UpdateProduct(db, patch, productId, sellerId).db)
  {
  }

  lemma DeleteProductPreservesValid(db: Db, productId: int, sellerId: int)
    requires Valid(db)
    ensures Valid(DeleteProduct(db, productId, sellerId).db)
  {
  }
}
