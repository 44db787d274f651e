/** Carts and the stock reservation made when an item is put into one
    (backend/src/services/prisma/cart.service.ts, backend/src/services/buyer/cart.service.ts,
    backend/src/services/buyer/cartItem.service.ts). Adding an item lowers the
    product's stock at once; removing it gives the quantity back. */
module Carts {
  import opened Wrappers
  import opened Store
  import opened Catalog

  // ---------------------------------------------------------------- cart table

  /** `findCartByUser`: the id of the user's one cart, or NOT_FOUND. */
  function FindCartByUser(db: Db, userId: int): (r: Result<int>)
    ensures r.Ok? <==> userId in db.carts
    ensures r.Ok? ==> r.value == db.carts[userId]
    ensures r.Err? ==> r.error == Error(NotFound, "Cart is not found")
  {
    if userId in db.carts then Ok(db.carts[userId]) else Err(Error(NotFound, "Cart is not found"))
  }

  /** `createCart`: a new cart for the user. The insert is rejected when the
      user already has a cart (unique `user_id`), when the user row is
      missing, or when the id is taken; any rejection becomes INTERNAL_SERVER_ERROR. */
  function CreateCart(db: Db, userId: int): (s: Step<int>)
    ensures s.result.Ok? <==> userId !in db.carts && userId in db.users && !CartIdTaken(db, db.nextId)
    ensures s.result.Ok? ==>
      s.result.value == db.nextId
      && s.db == db.(carts := db.carts[userId := db.nextId], nextId := db.nextId + 1)
    ensures s.result.Err? ==> s.db == db && s.result.error == Error(InternalServerError, "Error in creating cart")
  {
    if userId in db.carts || userId !in db.users || CartIdTaken(db, db.nextId) then
      Step(db, Err(Error(InternalServerError, "Error in creating cart")))
    else
      Step(db.(carts := db.carts[userId := db.nextId], nextId := db.nextId + 1), Ok(db.nextId))
  }

  /** `createCart` keeps the store consistent: the new cart's id is fresh. */
  lemma CreateCartPreservesValid(db: Db, userId: int)
    requires Valid(db)
    ensures Valid(CreateCart(db, userId).db)
  {
    var s := CreateCart(db, userId);
    if s.result.Ok? {
      forall u, v | u in s.db.carts && v in s.db.carts && u != v
        ensures s.db.carts[u] != s.db.carts[v]
      {
        if u == userId {
          assert s.db.carts[v] == db.carts[v];
        } else if v == userId {
          assert s.db.carts[u] == db.carts[u];
        }
      }
    }
  }

  /** After `createCart` succeeds, `findCartByUser` finds exactly that cart. */
  lemma CreateThenFindCart(db: Db, userId: int)
    requires CreateCart(db, userId).result.Ok?
    ensures FindCartByUser(CreateCart(db, userId).db, userId) == Ok(db.nextId)
    ensures FindCartByUser(db, userId).Err?
  {
  }

  /** `findCartItems`: the items of one cart, possibly none; absence is not an error. */
  function FindCartItems(db: Db, cartId: int): (r: map<int, CartItem>)
    ensures forall k :: k in r <==> k in db.cartItems && db.cartItems[k].cartId == cartId
    ensures forall k :: k in r ==> k in db.cartItems && r[k] == db.cartItems[k]
  {
    map k | k in db.cartItems && db.cartItems[k].cartId == cartId :: db.cartItems[k]
  }

  // ------------------------------------------------------------ cart item rows

  /** `createCartItem`, a plain insert. A missing product or cart row, or a
      taken id, makes the insert fail with INTERNAL_SERVER_ERROR. */
  function CreateCartItem(db: Db, productId: int, cartId: int, quantity: int): (s: Step<CartItem>)
    ensures s.result.Ok? <==> productId in db.products && CartIdTaken(db, cartId) && db.nextId !in db.cartItems
    ensures s.result.Ok? ==>
      s.result.value == CartItem(cartId, productId, quantity)
      && s.db == db.(cartItems := db.cartItems[db.nextId := CartItem(cartId, productId, quantity)],
                     nextId := db.nextId + 1)
    ensures s.result.Err? ==> s.db == db && s.result.error == Error(InternalServerError, "Error in creating cart item")
  {
    if productId !in db.products || !CartIdTaken(db, cartId) || db.nextId in db.cartItems then
      Step(db, Err(Error(InternalServerError, "Error in creating cart item")))
    else
      var item := CartItem(cartId, productId, quantity);
      Step(db.(cartItems := db.cartItems[db.nextId := item], nextId := db.nextId + 1), Ok(item))
  }

  /** `deleteCartItems`: a `deleteMany` by id, which never fails. */
  function DeleteCartItems(db: Db, ids: set<int>): (db': Db)
    ensures db' == db.(cartItems := db'.cartItems)
    ensures db'.cartItems.Keys == db.cartItems.Keys - ids
    ensures forall k :: k in db'.cartItems ==> db'.cartItems[k] == db.cartItems[k]
  {
    db.(cartItems := db.cartItems - ids)
  }

  /** The item exists and sits in the cart of `userId`. */
  predicate ItemOfUser(db: Db, itemId: int, userId: int) {
    itemId in db.cartItems && userId in db.carts && db.carts[userId] == db.cartItems[itemId].cartId
  }

  /** `isItemBelongToUser`: the item, when it is in the user's cart; a missing
      item and another user's item give the same NOT_FOUND. Read-only. */
  function IsItemBelongToUser(db: Db, itemId: int, userId: int): (r: Result<CartItem>)
    ensures r.Ok? <==> ItemOfUser(db, itemId, userId)
    ensures r.Ok? ==> r.value == db.cartItems[itemId]
    ensures r.Err? ==> r.error == Error(NotFound, "Cart item not found")
  {
    if ItemOfUser(db, itemId, userId) then Ok(db.cartItems[itemId])
    else Err(Error(NotFound, "Cart item not found"))
  }

  /** Another user's item is reported exactly like an item that does not exist. */
  lemma ForeignItemLooksMissing(db: Db, itemId: int, owner: int, other: int)
    requires Valid(db)
    requires ItemOfUser(db, itemId, owner) && other != owner
    ensures IsItemBelongToUser(db, itemId, other) == IsItemBelongToUser(db.(cartItems := db.cartItems - {itemId}), itemId, other)
  {
  }

  // ------------------------------------------------------- stock reservation

  /** `canAddToCart`: the product must be active and hold at least `quantity`
      units; no lower bound is put on `quantity`. */
  function CanAddToCart(p: Product, quantity: int): (r: Outcome)
    ensures r.Ok? <==> p.isActive && quantity <= p.stock
    ensures r.Err? ==> r.error == Error(InternalServerError, "Process can not be done")
  {
    if !p.isActive || quantity > p.stock then Fail(InternalServerError, "Process can not be done") else Pass()
  }

  /** The state after a successful `addToCart`: one new item in the caller's
      cart, the product's stock lowered by `quantity`, nothing else changed. */
  function Reserved(db: Db, cartId: int, productId: int, quantity: int): Db
    requires productId in db.products
  {
    var p := db.products[productId];
    db.(cartItems := db.cartItems[db.nextId := CartItem(cartId, productId, quantity)],
        products := db.products[productId := p.(stock := p.stock - quantity)],
        nextId := db.nextId + 1)
  }

  /** `addToCart`: returns the caller's cart id. */
  function AddToCart(db: Db, productId: int, userId: int, quantity: int): (s: Step<int>)
    ensures s.result.Err? ==> s.db == db
    ensures s.result.Ok? <==>
      userId in db.carts && productId in db.products
      && CanAddToCart(db.products[productId], quantity).Ok? && db.nextId !in db.cartItems
    ensures s.result.Ok? ==>
      && userId in db.carts && s.result.value == db.carts[userId]
      && productId in db.products && db.nextId !in db.cartItems
      && s.db == Reserved(db, db.carts[userId], productId, quantity)
      && s.db.products[productId].stock >= 0
    ensures s.result.Err? && s.result.error.code == NotFound <==> userId !in db.carts || productId !in db.products
    ensures s.result.Err? && s.result.error.code == InternalServerError <==>
      userId in db.carts && productId in db.products
      && (!CanAddToCart(db.products[productId], quantity).Ok? || db.nextId in db.cartItems)
  {
    match FindCartByUser(db, userId)
    case Err(e) => Step(db, Err(e))
    case Ok(cartId) =>
      match FindProduct(db, productId)
      case Err(e) => Step(db, Err(e))
      case Ok(p) =>
        match CanAddToCart(p, quantity)
        case Err(e) => Step(db, Err(e))
        case Ok(_) =>
          var created := CreateCartItem(db, productId, cartId, quantity);
          if created.result.Err? then Step(created.db, Err(created.result.error))
          else
            Then(UpdateProduct(created.db, StockPatch(p.stock - quantity), productId, p.sellerId), cartId)
  }

  /** `removeFromCart`: deletes one of the caller's items, returns its
      quantity to the product's stock, and returns the caller's cart id. */
  function RemoveFromCart(db: Db, itemId: int, userId: int): (s: Step<int>)
    ensures s.result.Err? ==> s.db == db
    ensures s.result.Ok? <==>
      ItemOfUser(db, itemId, userId) && db.cartItems[itemId].productId in db.products
    ensures s.result.Ok? ==>
      var item := db.cartItems[itemId];
      var p := db.products[item.productId];
      && s.result.value == db.carts[userId]
      && s.db == db.(cartItems := db.cartItems - {itemId},
                     products := db.products[item.productId := p.(stock := p.stock + item.quantity)])
    ensures s.result.Err? ==> s.result.error.code == NotFound
  {
    match FindCartByUser(db, userId)
    case Err(e) => Step(db, Err(e))
    case Ok(_) =>
      match IsItemBelongToUser(db, itemId, userId)
      case Err(e) => Step(db, Err(e))
      case Ok(item) =>
        match FindProduct(db, item.productId)
        case Err(e) => Step(db, Err(e))
        case Ok(p) =>
          var deleted := DeleteCartItems(db, {itemId});
          var updated := UpdateProduct(deleted, StockPatch(p.stock + item.quantity), item.productId, p.sellerId);
          match updated.result
          case Err(e) => Step(updated.db, Err(e))
          case Ok(_) => Step(updated.db, FindCartByUser(updated.db, userId))
  }

  // --------------------------------------------------------- conservation

  /** What one item row contributes to the units of `productId` held in carts. */
  function Held(items: map<int, CartItem>, productId: int, k: int): int {
    if k in items && items[k].productId == productId then items[k].quantity else 0
  }

  /** Units of `productId` held by the items with ids in `[0, n)`. */
  function HeldBelow(items: map<int, CartItem>, productId: int, n: nat): int {
    if n == 0 then 0 else HeldBelow(items, productId, n - 1) + Held(items, productId, n - 1)
  }

  /** Units of a product on the shelf plus units reserved in carts. */
  function Units(db: Db, productId: int): int {
    (if productId in db.products then db.products[productId].stock else 0)
    + HeldBelow(db.cartItems, productId, db.nextId)
  }

  lemma {:induction false} HeldBelowAgree(a: map<int, CartItem>, b: map<int, CartItem>, productId: int, n: nat)
    requires forall k :: 0 <= k < n ==> Held(a, productId, k) == Held(b, productId, k)
    ensures HeldBelow(a, productId, n) == HeldBelow(b, productId, n)
  {
    if n > 0 {
      HeldBelowAgree(a, b, productId, n - 1);
    }
  }

  lemma {:induction false} HeldBelowRemove(items: map<int, CartItem>, productId: int, n: nat, k: int)
    requires 0 <= k < n
    ensures HeldBelow(items - {k}, productId, n) == HeldBelow(items, productId, n) - Held(items, productId, k)
  {
    if k < n - 1 {
      HeldBelowRemove(items, productId, n - 1, k);
    } else {
      HeldBelowAgree(items - {k}, items, productId, n - 1);
    }
  }

  /** `addToCart` moves units from the shelf into a cart: for every product,
      shelf stock plus reserved units is unchanged. */
  lemma AddToCartConservesUnits(db: Db, productId: int, userId: int, quantity: int, x: int)
    requires Valid(db)
    ensures Units(AddToCart(db, productId, userId, quantity).db, x) == Units(db, x)
  {
    var s := AddToCart(db, productId, userId, quantity);
    if s.result.Ok? {
      var n := db.nextId;
      HeldBelowAgree(s.db.cartItems, db.cartItems, x, n);
      assert HeldBelow(s.db.cartItems, x, n + 1)
          == HeldBelow(db.cartItems, x, n) + (if productId == x then quantity else 0);
    }
  }

  /** `removeFromCart` moves units back from a cart to the shelf. */
  lemma RemoveFromCartConservesUnits(db: Db, itemId: int, userId: int, x: int)
    requires Valid(db)
    ensures Units(RemoveFromCart(db, itemId, userId).db, x) == Units(db, x)
  {
    var s := RemoveFromCart(db, itemId, userId);
    if s.result.Ok? {
      HeldBelowRemove(db.cartItems, x, db.nextId, itemId);
    }
  }

  /** Putting an item in the cart and taking it out again restores every
      product's stock and the cart contents; only the id sequence has moved. */
  lemma AddThenRemoveRestores(db: Db, productId: int, userId: int, quantity: int)
    requires Valid(db)
    requires AddToCart(db, productId, userId, quantity).result.Ok?
    ensures var mid := AddToCart(db, productId, userId, quantity).db;
      var s := RemoveFromCart(mid, db.nextId, userId);
      && s.result == Ok(db.carts[userId])
      && s.db == db.(nextId := db.nextId + 1)
  {
    var mid := AddToCart(db, productId, userId, quantity).db;
    assert ItemOfUser(mid, db.nextId, userId);
    var p := db.products[productId];
    assert p.(stock := p.stock - quantity).(stock := p.stock - quantity + quantity) == p;
    assert mid.cartItems - {db.nextId} == db.cartItems;
    assert db.products[productId := p] == db.products;
  }

  /** Adding the same product twice gives two separate items; quantities are never merged. */
  lemma AddToCartNeverMerges(db: Db, productId: int, userId: int, q1: int, q2: int)
    requires Valid(db)
    requires AddToCart(db, productId, userId, q1).result.Ok?
    requires AddToCart(AddToCart(db, productId, userId, q1).db, productId, userId, q2).result.Ok?
    ensures var db2 := AddToCart(AddToCart(db, productId, userId, q1).db, productId, userId, q2).db;
      var items := FindCartItems(db2, db.carts[userId]);
      && db.nextId in items && db.nextId + 1 in items
      && items[db.nextId] == CartItem(db.carts[userId], productId, q1)
      && items[db.nextId + 1] == CartItem(db.carts[userId], productId, q2)
  {
  }

  /** The cart operations keep the store's id discipline. */
  lemma AddToCartPreservesValid(db: Db, productId: int, userId: int, quantity: int)
    requires Valid(db)
    ensures Valid(AddToCart(db, productId, userId, quantity).db)
  {
  }

  lemma RemoveFromCartPreservesValid(db: Db, itemId: int, userId: int)
    requires Valid(db)
    ensures Valid(RemoveFromCart(db, itemId, userId).db)
  {
  }
}
