/** The relational store the services read and write, as immutable finite
    maps from primary key to row. `nextId` stands for the autoincrement
    sequences: a created row takes it as its id. */
module Store {
  import opened Wrappers
  import opened Auth

  datatype User = User(name: string, email: string, phone: string, passwordHash: string, role: Role)

  datatype Product = Product(
    title: string,
    description: string,
    price: real,
    discount: real,
    stock: int,
    brand: string,
    sellerId: int,
    categoryId: int,
    isActive: bool,
    createdAt: int)

  datatype Category = Category(name: string)

  datatype CartItem = CartItem(cartId: int, productId: int, quantity: int)

  datatype Address = Address(
    userId: int,
    fullName: string,
    city: string,
    country: string,
    phone: string,
    isDefault: bool)

  /** Only the reference an order holds to its shipping address matters here. */
  datatype Order = Order(userId: int, addressId: int)

  datatype WishlistEntry = WishlistEntry(userId: int, productId: int, createdAt: int)

  datatype Db = Db(
    users: map<int, User>,
    products: map<int, Product>,
    categories: map<int, Category>,
    carts: map<int, int>,        // user id -> cart id: the unique `user_id` index of the cart table
    cartItems: map<int, CartItem>,
    addresses: map<int, Address>,
    orders: map<int, Order>,
    wishlist: map<int, WishlistEntry>,
    nextId: nat)

  /** A store operation: the state after it and what it returned or threw.
      The services are not transactional, so a failure may follow a write. */
  datatype Step<T> = Step(db: Db, result: Result<T>)

  /** Awaits a write and then returns `v`: a failure of the write propagates. */
  function Then<T, U>(s: Step<T>, v: U): (r: Step<U>)
    ensures r.db == s.db
    ensures r.result.Ok? <==> s.result.Ok?
    ensures r.result.Ok? ==> r.result.value == v
    ensures r.result.Err? ==> r.result.error == s.result.error
  {
    match s.result
    case Ok(_) => Step(s.db, Ok(v))
    case Err(e) => Step(s.db, Err(e))
  }

  /** Whether some user's cart has the id `c`. */
  predicate CartIdTaken(db: Db, c: int) {
    exists u :: u in db.carts && db.carts[u] == c
  }

  predicate KeysBelow<V>(m: map<int, V>, n: int) {
    forall k :: k in m ==> 0 <= k < n
  }

  /** What the database guarantees of every reachable state: ids were handed
      out by the sequence, no two users share a cart (the cart's primary key),
      and the unique (user, product) wishlist key holds. */
  predicate Valid(db: Db) {
    && KeysBelow(db.users, db.nextId)
    && KeysBelow(db.products, db.nextId)
    && KeysBelow(db.categories, db.nextId)
    && KeysBelow(db.cartItems, db.nextId)
    && KeysBelow(db.addresses, db.nextId)
    && KeysBelow(db.orders, db.nextId)
    && KeysBelow(db.wishlist, db.nextId)
    && KeysBelow(db.carts, db.nextId)
    && (forall u :: u in db.carts ==> 0 <= db.carts[u] < db.nextId)
    && (forall u, v :: u in db.carts && v in db.carts && u != v ==> db.carts[u] != db.carts[v])
    && (forall a, b :: a in db.wishlist && b in db.wishlist && a != b ==>
          (db.wishlist[a].userId, db.wishlist[a].productId) != (db.wishlist[b].userId, db.wishlist[b].productId))
  }

  /** The empty store. */
  function Empty(): (db: Db)
    ensures Valid(db)
  {
    Db(map[], map[], map[], map[], map[], map[], map[], map[], 0)
  }

  /** Raising the id sequence keeps a valid store valid. */
  lemma BumpPreservesValid(db: Db, n: nat)
    requires Valid(db) && n >= db.nextId
    ensures Valid(db.(nextId := n))
  {
  }

  /** A valid store, with its sequence raised, stays valid when one table
      gains keys below the new sequence value. */
  lemma GrowPreservesValid(db: Db, bumped: Db, grown: Db)
    requires Valid(db) && bumped == db.(nextId := bumped.nextId) && bumped.nextId >= db.nextId
    requires grown.nextId == bumped.nextId && grown.carts == bumped.carts && grown.wishlist == bumped.wishlist
    requires KeysBelow(grown.users, grown.nextId) && KeysBelow(grown.products, grown.nextId)
    requires KeysBelow(grown.categories, grown.nextId) && KeysBelow(grown.cartItems, grown.nextId)
    requires KeysBelow(grown.addresses, grown.nextId) && KeysBelow(grown.orders, grown.nextId)
    ensures Valid(grown)
  {
    BumpPreservesValid(db, bumped.nextId);
  }
}
