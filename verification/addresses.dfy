/** The address book (backend/src/services/prisma/address.service.ts). Each
    access by id is checked against the requesting user, a user keeps at most
    one default address, and an address an order ships to cannot be deleted. */
module Addresses {
  import opened Wrappers
  import opened Store

  /** The fields of a new address; `isDefault` may be left out. */
  datatype AddressData = AddressData(fullName: string, city: string, country: string, phone: string, isDefault: Option<bool>)

  /** The fields of an update: only those present change. */
  datatype AddressPatch = AddressPatch(
    fullName: Option<string>,
    city: Option<string>,
    country: Option<string>,
    phone: Option<string>,
    isDefault: Option<bool>)

  function Get<T>(o: Option<T>, current: T): T {
    match o
    case Some(v) => v
    case None => current
  }

  function Patched(a: Address, patch: AddressPatch): (b: Address)
    ensures b.userId == a.userId
  {
    a.(fullName := Get(patch.fullName, a.fullName), city := Get(patch.city, a.city),
       country := Get(patch.country, a.country), phone := Get(patch.phone, a.phone),
       isDefault := Get(patch.isDefault, a.isDefault))
  }

  /** No user has two default addresses. */
  predicate AtMostOneDefault(addresses: map<int, Address>) {
    forall a, b ::
      (a in addresses && b in addresses && a != b && addresses[a].userId == addresses[b].userId && addresses[a].isDefault)
      ==> !addresses[b].isDefault
  }

  /** Whether some order ships to the address. */
  predicate UsedByOrder(db: Db, addressId: int) {
    exists o :: o in db.orders && db.orders[o].addressId == addressId
  }

  /** `findAddressByOrder`: the address the order ships to. */
  function FindAddressByOrder(db: Db, orderId: int): (r: Result<Address>)
    ensures r.Ok? <==> orderId in db.orders && db.orders[orderId].addressId in db.addresses
    ensures r.Ok? ==> r.value == db.addresses[db.orders[orderId].addressId]
    ensures r.Err? ==> r.error == Error(NotFound, "Address not found for order")
  {
    if orderId in db.orders && db.orders[orderId].addressId in db.addresses then
      Ok(db.addresses[db.orders[orderId].addressId])
    else Err(Error(NotFound, "Address not found for order"))
  }

  /** `findAddressByUser`: every address of the user, possibly none. */
  function FindAddressByUser(db: Db, userId: int): (r: map<int, Address>)
    ensures forall k :: k in r <==> k in db.addresses && db.addresses[k].userId == userId
    ensures forall k :: k in r ==> r[k] == db.addresses[k]
  {
    map k | k in db.addresses && db.addresses[k].userId == userId :: db.addresses[k]
  }

  /** `findAddressById`: the address, NOT_FOUND when there is none, and
      UNAUTHORIZED when it belongs to another user. */
  function FindAddressById(db: Db, addressId: int, userId: int): (r: Result<Address>)
    ensures r.Ok? <==> addressId in db.addresses && db.addresses[addressId].userId == userId
    ensures r.Ok? ==> r.value == db.addresses[addressId]
    ensures addressId !in db.addresses ==> r == Err(Error(NotFound, "Address not found"))
    ensures addressId in db.addresses && db.addresses[addressId].userId != userId ==>
      r == Err(Error(Unauthorized, "Unauthorized to access this address"))
  {
    if addressId !in db.addresses then Err(Error(NotFound, "Address not found"))
    else if db.addresses[addressId].userId != userId then Err(Error(Unauthorized, "Unauthorized to access this address"))
    else Ok(db.addresses[addressId])
  }

  /** `updateMany` setting `is_default = false` on the user's addresses, except `keep`. */
  function ClearDefaults(addresses: map<int, Address>, userId: int, keep: Option<int>): (r: map<int, Address>)
    ensures r.Keys == addresses.Keys
    ensures forall k :: k in r ==>
      r[k] == if addresses[k].userId == userId && keep != Some(k) then addresses[k].(isDefault := false) else addresses[k]
  {
    map k | k in addresses ::
      if addresses[k].userId == userId && keep != Some(k) then addresses[k].(isDefault := false) else addresses[k]
  }

  /** `createAddress`. A default address first clears the user's other
      defaults; the insert then stores `is_default` as given, false when left
      out. The two writes are separate, so a failed insert (no such user, a
      taken id) keeps the cleared flags and reports INTERNAL_SERVER_ERROR. */
  function CreateAddress(db: Db, userId: int, data: AddressData): (s: Step<Address>)
    ensures s.result.Ok? <==> userId in db.users && db.nextId !in db.addresses
    ensures s.result.Ok? ==>
      && s.result.value == Address(userId, data.fullName, data.city, data.country, data.phone, data.isDefault == Some(true))
      && s.db.addresses.Keys == db.addresses.Keys + {db.nextId}
      && s.db.addresses[db.nextId] == s.result.value
      && s.db == db.(addresses := s.db.addresses, nextId := db.nextId + 1)
    ensures s.result.Err? ==>
      && s.result.error == Error(InternalServerError, "Error creating address")
      && s.db == db.(addresses := s.db.addresses)
      && s.db.addresses.Keys == db.addresses.Keys
    ensures forall k :: k in db.addresses && k in s.db.addresses ==>
      s.db.addresses[k] == if data.isDefault == Some(true) && db.addresses[k].userId == userId
                           then db.addresses[k].(isDefault := false) else db.addresses[k]
  {
    var cleared := if data.isDefault == Some(true) then ClearDefaults(db.addresses, userId, None) else db.addresses;
    if userId !in db.users || db.nextId in cleared then
      Step(db.(addresses := cleared), Err(Error(InternalServerError, "Error creating address")))
    else
      var a := Address(userId, data.fullName, data.city, data.country, data.phone, data.isDefault == Some(true));
      Step(db.(addresses := cleared[db.nextId := a], nextId := db.nextId + 1), Ok(a))
  }

  /** `updateAddress`: after the ownership check, a patch that makes the
      address the default first clears the user's other defaults; then only
      the supplied fields of the address change. A failed ownership check is
      rethrown unchanged, before any write. */
  function UpdateAddress(db: Db, addressId: int, userId: int, patch: AddressPatch): (s: Step<Address>)
    ensures s.result.Ok? <==> FindAddressById(db, addressId, userId).Ok?
    ensures s.result.Err? ==> s.db == db && s.result.error == FindAddressById(db, addressId, userId).error
    ensures s.result.Ok? ==>
      && s.result.value == Patched(db.addresses[addressId], patch)
      && s.db == db.(addresses := s.db.addresses)
      && s.db.addresses.Keys == db.addresses.Keys
      && s.db.addresses[addressId] == s.result.value
      && forall k :: k in db.addresses && k != addressId ==>
           s.db.addresses[k] == if patch.isDefault == Some(true) && db.addresses[k].userId == userId
                                then db.addresses[k].(isDefault := false) else db.addresses[k]
  {
    match FindAddressById(db, addressId, userId)
    case Err(e) => Step(db, Err(e))
    case Ok(existing) =>
      var cleared := if patch.isDefault == Some(true) then ClearDefaults(db.addresses, userId, Some(addressId)) else db.addresses;
      var updated := Patched(cleared[addressId], patch);
      Step(db.(addresses := cleared[addressId := updated]), Ok(updated))
  }

  /** `deleteAddress`: after the ownership check, refuses with BAD_REQUEST an
      address some order ships to, and otherwise deletes exactly that address. */
  function DeleteAddress(db: Db, addressId: int, userId: int): (s: Step<Address>)
    ensures s.result.Ok? <==> FindAddressById(db, addressId, userId).Ok? && !UsedByOrder(db, addressId)
    ensures s.result.Err? ==> s.db == db
    ensures FindAddressById(db, addressId, userId).Err? ==> s.result.error == FindAddressById(db, addressId, userId).error
    ensures FindAddressById(db, addressId, userId).Ok? && UsedByOrder(db, addressId) ==>
      s.result.error == Error(BadRequest, "Cannot delete address that has been used in orders")
    ensures s.result.Ok? ==>
      && s.result.value == db.addresses[addressId]
      && s.db == db.(addresses := db.addresses - {addressId})
  {
    match FindAddressById(db, addressId, userId)
    case Err(e) => Step(db, Err(e))
    case Ok(a) =>
      if UsedByOrder(db, addressId) then
        Step(db, Err(Error(BadRequest, "Cannot delete address that has been used in orders")))
      else Step(db.(addresses := db.addresses - {addressId}), Ok(a))
  }

  /** A new default address is its owner's only default. */
  lemma CreatedDefaultIsOnlyDefault(db: Db, userId: int, data: AddressData)
    requires data.isDefault == Some(true)
    requires CreateAddress(db, userId, data).result.Ok?
    ensures var a := CreateAddress(db, userId, data).db.addresses;
      && a[db.nextId].isDefault
      && forall k :: k in a && k != db.nextId && a[k].userId == userId ==> !a[k].isDefault
  {
  }

  /** An address created without the default flag changes no other address. */
  lemma CreateWithoutDefaultTouchesNothingElse(db: Db, userId: int, data: AddressData)
    requires data.isDefault != Some(true)
    requires CreateAddress(db, userId, data).result.Ok?
    ensures var a := CreateAddress(db, userId, data).db.addresses;
      && !a[db.nextId].isDefault
      && a == db.addresses[db.nextId := a[db.nextId]]
  {
    var a := CreateAddress(db, userId, data).db.addresses;
    assert a == db.addresses[db.nextId := a[db.nextId]];
  }

  /** Making an address the default leaves it its owner's only default, and
      does not touch other users' addresses. */
  lemma UpdatedDefaultIsOnlyDefault(db: Db, addressId: int, userId: int, patch: AddressPatch)
    requires patch.isDefault == Some(true)
    requires UpdateAddress(db, addressId, userId, patch).result.Ok?
    ensures var a := UpdateAddress(db, addressId, userId, patch).db.addresses;
      && a[addressId].isDefault
      && (forall k :: k in a && k != addressId && a[k].userId == userId ==> !a[k].isDefault)
      && (forall k :: k in a && db.addresses[k].userId != userId ==> a[k] == db.addresses[k])
  {
  }

  lemma CreateAddressKeepsOneDefault(db: Db, userId: int, data: AddressData)
    requires AtMostOneDefault(db.addresses)
    ensures AtMostOneDefault(CreateAddress(db, userId, data).db.addresses)
  {
    var a := CreateAddress(db, userId, data).db.addresses;
    forall x, y | x in a && y in a && x != y && a[x].userId == a[y].userId && a[x].isDefault
      ensures !a[y].isDefault
    {
      if x in db.addresses && y in db.addresses {
        assert db.addresses[x].userId == db.addresses[y].userId;
      }
    }
  }

  lemma UpdateAddressKeepsOneDefault(db: Db, addressId: int, userId: int, patch: AddressPatch)
    requires AtMostOneDefault(db.addresses)
    ensures AtMostOneDefault(UpdateAddress(db, addressId, userId, patch).db.addresses)
  {
    var s := UpdateAddress(db, addressId, userId, patch);
    var a := s.db.addresses;
    if s.result.Ok? {
      forall x, y | x in a && y in a && x != y && a[x].userId == a[y].userId && a[x].isDefault
        ensures !a[y].isDefault
      {
        assert db.addresses[x].userId == db.addresses[y].userId;
      }
    }
  }

  lemma DeleteAddressKeepsOneDefault(db: Db, addressId: int, userId: int)
    requires AtMostOneDefault(db.addresses)
    ensures AtMostOneDefault(DeleteAddress(db, addressId, userId).db.addresses)
  {
  }

  /** The address writes keep the store's id discipline. */
  lemma CreateAddressPreservesValid(db: Db, userId: int, data: AddressData)
    requires Valid(db)
    ensures Valid(CreateAddress(db, userId, data).db)
  {
    var c := CreateAddress(db, userId, data);
    if c.result.Ok? {
      GrowPreservesValid(db, c.db.(addresses := db.addresses), c.db);
    }
  }

  lemma UpdateAddressPreservesValid(db: Db, addressId: int, userId: int, patch: AddressPatch)
    requires Valid(db)
    ensures Valid(UpdateAddress(db, addressId, userId, patch).db)
  {
  }

  lemma DeleteAddressPreservesValid(db: Db, addressId: int, userId: int)
    requires Valid(db)
    ensures Valid(DeleteAddress(db, addressId, userId).db)
  {
  }

  /** A read of someone else's address, and every write to it, fails before any write. */
  lemma ForeignAddressIsUntouchable(db: Db, addressId: int, userId: int, patch: AddressPatch)
    requires addressId in db.addresses && db.addresses[addressId].userId != userId
    ensures FindAddressById(db, addressId, userId).error.code == Unauthorized
    ensures UpdateAddress(db, addressId, userId, patch) == Step(db, Err(Error(Unauthorized, "Unauthorized to access this address")))
    ensures DeleteAddress(db, addressId, userId) == Step(db, Err(Error(Unauthorized, "Unauthorized to access this address")))
  {
  }
}
