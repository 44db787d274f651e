/** The wishlist (backend/src/services/prisma/wishlist.service.ts) and its
    resolvers (backend/src/controllers/buyer/wishlist.controller.ts): a set of
    (user, product) pairs kept unique by the database, each stamped with the
    time it was added. */
module Wishlist {
  import opened Wrappers
  import opened Auth
  import opened Listing
  import opened Store

  /** Whether the table holds an entry for the pair. */
  predicate Holds(db: Db, userId: int, productId: int) {
    exists k :: k in db.wishlist && db.wishlist[k].userId == userId && db.wishlist[k].productId == productId
  }

  /** `addToWishlist`: inserts the pair. The insert is rejected, and the
      database client throws, when the pair is already there (the unique
      key), when the user or the product does not exist, or when the id is
      taken. */
  function AddToWishlist(db: Db, userId: int, productId: int, now: int): (s: Step<WishlistEntry>)
    ensures s.result.Ok? <==>
      !Holds(db, userId, productId) && userId in db.users && productId in db.products && db.nextId !in db.wishlist
    ensures s.result.Ok? ==>
      && s.result.value == WishlistEntry(userId, productId, now)
      && s.db == db.(wishlist := db.wishlist[db.nextId := s.result.value], nextId := db.nextId + 1)
    ensures s.result.Err? ==> s.db == db && s.result.error.code == Thrown
  {
    if Holds(db, userId, productId) || userId !in db.users || productId !in db.products || db.nextId in db.wishlist then
      Step(db, Err(Error(Thrown, "Wishlist entry rejected by the database")))
    else
      var e := WishlistEntry(userId, productId, now);
      Step(db.(wishlist := db.wishlist[db.nextId := e], nextId := db.nextId + 1), Ok(e))
  }

  /** `removeFromWishlist`: `deleteMany` of the pair's entries; `success`
      reports whether any was deleted. */
  function RemoveFromWishlist(db: Db, userId: int, productId: int): (s: Step<bool>)
    ensures s.result.Ok?
    ensures s.result.value <==> Holds(db, userId, productId)
    ensures s.db == db.(wishlist := s.db.wishlist)
    ensures forall k :: k in s.db.wishlist <==>
      k in db.wishlist && !(db.wishlist[k].userId == userId && db.wishlist[k].productId == productId)
    ensures forall k :: k in s.db.wishlist ==> s.db.wishlist[k] == db.wishlist[k]
  {
    var kept := map k | k in db.wishlist && !(db.wishlist[k].userId == userId && db.wishlist[k].productId == productId)
                  :: db.wishlist[k];
    Step(db.(wishlist := kept), Ok(Holds(db, userId, productId)))
  }

  /** The sort key of `orderBy: { created_at: ... }`. */
  function CreatedAt(r: Row<WishlistEntry>): Key { KInt(r.rec.createdAt) }

  /** `getUserWishlist`: the user's entries, newest first. */
  function GetUserWishlist(db: Db, userId: int): (r: seq<Row<WishlistEntry>>)
    ensures Sorted(CreatedAt, true, r)
    ensures forall x :: x in r ==> x.id in db.wishlist && db.wishlist[x.id] == x.rec && x.rec.userId == userId
  {
    var mine := Scan(db.wishlist, (e: WishlistEntry) => e.userId == userId, db.nextId);
    var r := Sort(CreatedAt, true, mine);
    assert forall x :: x in r ==> x in mine by {
      forall x | x in r ensures x in mine {
        assert x in multiset(r);
      }
    }
    r
  }

  /** In a consistent store the listing misses none of the user's entries. */
  lemma GetUserWishlistIsComplete(db: Db, userId: int, k: int)
    requires Valid(db)
    requires k in db.wishlist && db.wishlist[k].userId == userId
    ensures Row(k, db.wishlist[k]) in GetUserWishlist(db, userId)
  {
    var mine := Scan(db.wishlist, (e: WishlistEntry) => e.userId == userId, db.nextId);
    assert Row(k, db.wishlist[k]) in multiset(mine);
  }

  /** `isInWishlist`: a lookup by the unique (user, product) key. */
  function IsInWishlist(db: Db, userId: int, productId: int): bool {
    Holds(db, userId, productId)
  }

  /** A successful add makes the pair present. */
  lemma AddThenIsIn(db: Db, userId: int, productId: int, now: int)
    requires AddToWishlist(db, userId, productId, now).result.Ok?
    ensures IsInWishlist(AddToWishlist(db, userId, productId, now).db, userId, productId)
    ensures !IsInWishlist(db, userId, productId)
  {
    var db' := AddToWishlist(db, userId, productId, now).db;
    assert db'.wishlist[db.nextId] == WishlistEntry(userId, productId, now);
  }

  /** Adding a pair that is already present fails and changes nothing. */
  lemma DuplicateAddFails(db: Db, userId: int, productId: int, now: int)
    requires IsInWishlist(db, userId, productId)
    ensures AddToWishlist(db, userId, productId, now) == Step(db, Err(Error(Thrown, "Wishlist entry rejected by the database")))
  {
  }

  /** After a remove the pair is absent, and other pairs are untouched. */
  lemma RemoveThenNotIn(db: Db, userId: int, productId: int, u: int, p: int)
    requires (u, p) != (userId, productId)
    ensures !IsInWishlist(RemoveFromWishlist(db, userId, productId).db, userId, productId)
    ensures IsInWishlist(RemoveFromWishlist(db, userId, productId).db, u, p) == IsInWishlist(db, u, p)
  {
    var db' := RemoveFromWishlist(db, userId, productId).db;
    if Holds(db, u, p) {
      var k :| k in db.wishlist && db.wishlist[k].userId == u && db.wishlist[k].productId == p;
      assert k in db'.wishlist;
    }
  }

  /** Removing an absent pair changes nothing and reports no success. */
  lemma RemoveAbsentIsNoop(db: Db, userId: int, productId: int)
    requires !IsInWishlist(db, userId, productId)
    ensures RemoveFromWishlist(db, userId, productId) == Step(db, Ok(false))
  {
    var w := RemoveFromWishlist(db, userId, productId).db.wishlist;
    forall k | k in db.wishlist ensures k in w {
      assert !(db.wishlist[k].userId == userId && db.wishlist[k].productId == productId);
    }
    assert w == db.wishlist;
  }

  /** The wishlist writes keep the store consistent, in particular the
      uniqueness of the (user, product) pair. */
  lemma AddToWishlistPreservesValid(db: Db, userId: int, productId: int, now: int)
    requires Valid(db)
    ensures Valid(AddToWishlist(db, userId, productId, now).db)
  {
    var s := AddToWishlist(db, userId, productId, now);
    if s.result.Ok? {
      var w := s.db.wishlist;
      forall a, b | a in w && b in w && a != b
        ensures (w[a].userId, w[a].productId) != (w[b].userId, w[b].productId)
      {
        if a == db.nextId {
          assert b in db.wishlist;
        } else if b == db.nextId {
          assert a in db.wishlist;
        }
      }
    }
  }

  lemma RemoveFromWishlistPreservesValid(db: Db, userId: int, productId: int)
    requires Valid(db)
    ensures Valid(RemoveFromWishlist(db, userId, productId).db)
  {
  }

  /** The requirement each wishlist resolver enforces. */
  const AddRequirement := SignedIn
  const RemoveRequirement := SignedIn
  const ListRequirement := OnlyRole(Buyer)
  const MembershipRequirement := OnlyRole(Buyer)

  /** `addToWishlistResolver`: any signed-in caller, for their own id. */
  function AddToWishlistResolver(db: Db, ctx: Context, productId: int, now: int): (s: Step<WishlistEntry>)
    ensures !Admits(AddRequirement, ctx) ==> s.db == db && s.result.Err? && s.result.error.code == Refusal(ctx)
    ensures Admits(AddRequirement, ctx) ==> s == AddToWishlist(db, ctx.user.value.id, productId, now)
  {
    match RequireAuth(ctx)
    case Err(e) => Step(db, Err(e))
    case Ok(user) => AddToWishlist(db, user.id, productId, now)
  }

  /** `removeFromWishlistResolver`: any signed-in caller, for their own id. */
  function RemoveFromWishlistResolver(db: Db, ctx: Context, productId: int): (s: Step<bool>)
    ensures !Admits(RemoveRequirement, ctx) ==> s.db == db && s.result.Err? && s.result.error.code == Refusal(ctx)
    ensures Admits(RemoveRequirement, ctx) ==> s == RemoveFromWishlist(db, ctx.user.value.id, productId)
  {
    match RequireAuth(ctx)
    case Err(e) => Step(db, Err(e))
    case Ok(user) => RemoveFromWishlist(db, user.id, productId)
  }

  /** `getUserWishlistResolver`: buyers only, their own list. */
  function GetUserWishlistResolver(db: Db, ctx: Context): (r: Result<seq<Row<WishlistEntry>>>)
    ensures r.Ok? <==> Admits(ListRequirement, ctx)
    ensures r.Err? ==> r.error.code == Refusal(ctx)
    ensures r.Ok? ==> r.value == GetUserWishlist(db, ctx.user.value.id)
  {
    match RequireAuth(ctx)
    case Err(e) => Err(e)
    case Ok(user) =>
      match RequireBuyer(ctx)
      case Err(e) => Err(e)
      case Ok(_) => Ok(GetUserWishlist(db, user.id))
  }

  /** `isInWishlistResolver`: buyers only, about their own list. */
  function IsInWishlistResolver(db: Db, ctx: Context, productId: int): (r: Result<bool>)
    ensures r.Ok? <==> Admits(MembershipRequirement, ctx)
    ensures r.Err? ==> r.error.code == Refusal(ctx)
    ensures r.Ok? ==> r.value == IsInWishlist(db, ctx.user.value.id, productId)
  {
    match RequireAuth(ctx)
    case Err(e) => Err(e)
    case Ok(user) =>
      match RequireBuyer(ctx)
      case Err(e) => Err(e)
      case Ok(_) => Ok(IsInWishlist(db, user.id, productId))
  }

  /** A seller may add to and remove from a wishlist, but may not read it. */
  lemma SellerCanWriteButNotRead(db: Db, id: int, productId: int, now: int)
    ensures var ctx := Context(Some(Identity(id, Seller)));
      && AddToWishlistResolver(db, ctx, productId, now) == AddToWishlist(db, id, productId, now)
      && RemoveFromWishlistResolver(db, ctx, productId).result.Ok?
      && GetUserWishlistResolver(db, ctx) == Err(Error(Forbidden, "Authorization required"))
      && IsInWishlistResolver(db, ctx, productId) == Err(Error(Forbidden, "Authorization required"))
  {
  }
}
