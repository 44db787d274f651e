/** The user resolvers (backend/src/controllers/user/user.controller.ts) and
    sign-up (backend/src/controllers/user/signup.controller.ts): the role
    gating of the user's sub-fields, the validate-then-write profile updates,
    and account creation followed by the account's cart. */
module Users {
  import opened Wrappers
  import opened Js
  import opened Auth
  import opened Store
  import opened Catalog
  import opened Carts
  import opened Addresses
  import opened UserValidators

  // ------------------------------------------------------------ sub-fields

  /** The sub-fields of a user that have resolvers of their own. */
  datatype UserField = AddressesField | OrdersField | ReviewsField | ProductsField | CartField | PaymentsField

  /** The access policy of the sub-fields: addresses are open to anyone,
      products to sellers, everything else to buyers. */
  function FieldRequirement(f: UserField): Requirement {
    match f
    case AddressesField => Anyone
    case ProductsField => OnlyRole(Seller)
    case _ => OnlyRole(Buyer)
  }

  /** The prologue of a sub-field resolver: the check it makes, and the user
      whose data it then fetches, which is the parent user rather than the caller. */
  function SubFieldOwner(ctx: Context, parentId: int, f: UserField): (r: Result<int>)
    ensures r.Ok? <==> Admits(FieldRequirement(f), ctx)
    ensures r.Err? ==> r.error == Error(Refusal(ctx), if ctx.user.None? then "Authentication required" else "Authorization required")
    ensures r.Ok? ==> r.value == parentId
  {
    if f == AddressesField then Ok(parentId)
    else
      match RequireAuth(ctx)
      case Err(e) => Err(e)
      case Ok(caller) =>
        var role := if f == ProductsField then Seller else Buyer;
        if caller.role != role then Err(Error(Forbidden, "Authorization required"))
        else Ok(parentId)
  }

  /** `userAddressResovler`: the parent user's addresses, with no check at all. */
  function UserAddresses(db: Db, ctx: Context, parentId: int): (r: map<int, Address>)
    ensures forall k :: k in r <==> k in db.addresses && db.addresses[k].userId == parentId
  {
    FindAddressByUser(db, parentId)
  }

  /** `userProductsResolver`: the parent user's products, for a seller caller. */
  function UserProducts(db: Db, ctx: Context, parentId: int): (r: Result<map<int, Product>>)
    ensures r.Ok? <==> Admits(OnlyRole(Seller), ctx)
    ensures r.Ok? ==> forall k :: k in r.value <==> Owns(db, k, parentId)
  {
    var owner :- SubFieldOwner(ctx, parentId, ProductsField);
    Ok(FindProductsByUser(db, owner))
  }

  /** `userCartResovler`: the parent user's cart, for a buyer caller. */
  function UserCart(db: Db, ctx: Context, parentId: int): (r: Result<int>)
    ensures r.Ok? <==> Admits(OnlyRole(Buyer), ctx) && parentId in db.carts
    ensures r.Ok? ==> r.value == db.carts[parentId]
  {
    var owner :- SubFieldOwner(ctx, parentId, CartField);
    FindCartByUser(db, owner)
  }

  /** Every role is shut out of some sub-field, and nobody is shut out of the addresses. */
  lemma SubFieldPolicy(ctx: Context, parentId: int)
    ensures SubFieldOwner(ctx, parentId, AddressesField) == Ok(parentId)
    ensures ctx.user.Some? && ctx.user.value.role == Admin ==>
      forall f :: f != AddressesField ==> SubFieldOwner(ctx, parentId, f).Err?
    ensures ctx.user.Some? && ctx.user.value.role == Seller ==>
      SubFieldOwner(ctx, parentId, ProductsField).Ok? && SubFieldOwner(ctx, parentId, OrdersField).Err?
    ensures ctx.user.Some? && ctx.user.value.role == Buyer ==>
      SubFieldOwner(ctx, parentId, ProductsField).Err? && SubFieldOwner(ctx, parentId, CartField).Ok?
  {
  }

  /** The gated sub-fields check the caller's role but read the parent user's
      data: any buyer can read any user's cart through the parent. */
  lemma BuyerReadsParentsCart(db: Db, callerId: int, parentId: int)
    requires parentId in db.carts
    ensures UserCart(db, Context(Some(Identity(callerId, Buyer))), parentId) == Ok(db.carts[parentId])
  {
  }

  // ------------------------------------------------------- profile updates

  /** `updateUser` on one row: a missing row makes the database client throw. */
  function WriteUser(db: Db, id: int, u: User -> User): (s: Step<User>)
    ensures s.result.Ok? <==> id in db.users
    ensures s.result.Ok? ==> s.result.value == u(db.users[id]) && s.db == db.(users := db.users[id := s.result.value])
    ensures s.result.Err? ==> s.db == db && s.result.error.code == Thrown
  {
    if id in db.users then
      var updated := u(db.users[id]);
      Step(db.(users := db.users[id := updated]), Ok(updated))
    else Step(db, Err(Error(Thrown, "Record to update not found.")))
  }

  /** `userUpdateResolver.name`: the caller's own name, once validated. */
  function UpdateName(db: Db, ctx: Context, name: JsValue): (s: Step<User>)
    ensures s.result.Ok? <==> ctx.user.Some? && ValidateName(name).Ok? && ctx.user.value.id in db.users
    ensures ctx.user.None? ==> s.result == Err(Error(Unauthenticated, "Authentication required"))
    ensures ctx.user.Some? && ValidateName(name).Err? ==> s.result == Err(ValidateName(name).error)
    ensures ctx.user.Some? && ValidateName(name).Ok? && ctx.user.value.id !in db.users ==>
      s.result == Err(Error(Thrown, "Record to update not found."))
    ensures s.result.Err? ==> s.db == db
    ensures s.result.Ok? ==>
      && ctx.user.Some? && ValidateName(name).Ok?
      && ctx.user.value.id in db.users
      && s.db == db.(users := db.users[ctx.user.value.id := db.users[ctx.user.value.id].(name := name.s)])
  {
    match RequireAuth(ctx)
    case Err(e) => Step(db, Err(e))
    case Ok(caller) =>
      match ValidateName(name)
      case Err(e) => Step(db, Err(e))
      case Ok(_) => WriteUser(db, caller.id, (u: User) => u.(name := name.s))
  }

  /** `userUpdateResolver.email`: the caller's own email, once validated. */
  function UpdateEmail(db: Db, ctx: Context, email: JsValue, isEmail: string -> bool): (s: Step<User>)
    ensures s.result.Ok? <==> ctx.user.Some? && ValidateEmail(email, isEmail).Ok? && ctx.user.value.id in db.users
    ensures ctx.user.None? ==> s.result == Err(Error(Unauthenticated, "Authentication required"))
    ensures ctx.user.Some? && ValidateEmail(email, isEmail).Err? ==> s.result == Err(ValidateEmail(email, isEmail).error)
    ensures ctx.user.Some? && ValidateEmail(email, isEmail).Ok? && ctx.user.value.id !in db.users ==>
      s.result == Err(Error(Thrown, "Record to update not found."))
    ensures s.result.Err? ==> s.db == db
    ensures s.result.Ok? ==>
      && ctx.user.Some? && ValidateEmail(email, isEmail).Ok?
      && ctx.user.value.id in db.users
      && s.db == db.(users := db.users[ctx.user.value.id := db.users[ctx.user.value.id].(email := email.s)])
  {
    match RequireAuth(ctx)
    case Err(e) => Step(db, Err(e))
    case Ok(caller) =>
      match ValidateEmail(email, isEmail)
      case Err(e) => Step(db, Err(e))
      case Ok(_) => WriteUser(db, caller.id, (u: User) => u.(email := email.s))
  }

  /** `userUpdateResolver.phone` as written: it validates the number but
      stores the argument, discarding the normalised form the validator returns. */
  function UpdatePhoneAsWritten(db: Db, ctx: Context, phone: JsValue, lib: PhoneLibrary): (s: Step<User>)
    ensures s.result.Ok? <==> ctx.user.Some? && ValidatePhoneNumber(phone, lib).Ok? && ctx.user.value.id in db.users
    ensures ctx.user.None? ==> s.result == Err(Error(Unauthenticated, "Authentication required"))
    ensures ctx.user.Some? && ValidatePhoneNumber(phone, lib).Err? ==> s.result == Err(ValidatePhoneNumber(phone, lib).error)
    ensures ctx.user.Some? && ValidatePhoneNumber(phone, lib).Ok? && ctx.user.value.id !in db.users ==>
      s.result == Err(Error(Thrown, "Record to update not found."))
    ensures s.result.Err? ==> s.db == db
    ensures s.result.Ok? ==>
      && ctx.user.Some? && ValidatePhoneNumber(phone, lib).Ok?
      && ctx.user.value.id in db.users
      && s.db == db.(users := db.users[ctx.user.value.id := db.users[ctx.user.value.id].(phone := phone.s)])
  {
    match RequireAuth(ctx)
    case Err(e) => Step(db, Err(e))
    case Ok(caller) =>
      match ValidatePhoneNumber(phone, lib)
      case Err(e) => Step(db, Err(e))
      case Ok(_) => WriteUser(db, caller.id, (u: User) => u.(phone := phone.s))
  }

  /** The phone update storing the normalised number, as sign-up does. */
  function UpdatePhone(db: Db, ctx: Context, phone: JsValue, lib: PhoneLibrary): (s: Step<User>)
    ensures s.result.Ok? <==> ctx.user.Some? && ValidatePhoneNumber(phone, lib).Ok? && ctx.user.value.id in db.users
    ensures ctx.user.None? ==> s.result == Err(Error(Unauthenticated, "Authentication required"))
    ensures ctx.user.Some? && ValidatePhoneNumber(phone, lib).Err? ==> s.result == Err(ValidatePhoneNumber(phone, lib).error)
    ensures ctx.user.Some? && ValidatePhoneNumber(phone, lib).Ok? && ctx.user.value.id !in db.users ==>
      s.result == Err(Error(Thrown, "Record to update not found."))
    ensures s.result.Err? ==> s.db == db
    ensures s.result.Ok? ==>
      && ctx.user.Some? && ValidatePhoneNumber(phone, lib).Ok?
      && ctx.user.value.id in db.users
      && s.result.value == db.users[ctx.user.value.id].(phone := ValidatePhoneNumber(phone, lib).value)
      && s.db == db.(users := db.users[ctx.user.value.id := s.result.value])
  {
    match RequireAuth(ctx)
    case Err(e) => Step(db, Err(e))
    case Ok(caller) =>
      match ValidatePhoneNumber(phone, lib)
      case Err(e) => Step(db, Err(e))
      case Ok(normalised) => WriteUser(db, caller.id, (u: User) => u.(phone := normalised))
  }

  /** A phone library that recognises one Egyptian number and normalises it
      by dropping its spaces. */
  function SamplePhoneLibrary(): PhoneLibrary {
    PhoneLibrary((s: string) => Some("EGY"), (s: string, c: string) => if s == "+20 100" then Some("+20100") else None)
  }

  /** The discrepancy: for the number "+20 100", which sign-up would store as
      "+20100", the phone update stores the spaced form, while the corrected
      update stores the normalised one. */
  lemma UpdatePhoneStoresRawNumber(db: Db, id: int)
    requires id in db.users
    ensures var ctx := Context(Some(Identity(id, Buyer)));
      && UpdatePhoneAsWritten(db, ctx, Str("+20 100"), SamplePhoneLibrary()).db.users[id].phone == "+20 100"
      && UpdatePhone(db, ctx, Str("+20 100"), SamplePhoneLibrary()).db.users[id].phone == "+20100"
  {
    assert PhonePattern("+20 100") by {
      var s := "+20 100";
      assert s[1] == '2' && s[2] == '0' && s[3] == ' ' && s[4] == '1' && s[5] == '0' && s[6] == '0';
    }
  }

  /** `userUpdateResolver.password`: the caller's row must exist and the
      current password must match its hash (`verify` stands for bcrypt's
      comparison); then the hash of the new password (`hash`) is stored. */
  function UpdatePassword(db: Db, ctx: Context, current: string, replacement: string,
                          verify: (string, string) -> bool, hash: string -> string): (s: Step<User>)
    ensures s.result.Err? ==> s.db == db
    ensures s.result.Ok? ==>
      && ctx.user.Some? && ctx.user.value.id in db.users
      && verify(current, db.users[ctx.user.value.id].passwordHash)
      && s.db == db.(users := db.users[ctx.user.value.id := db.users[ctx.user.value.id].(passwordHash := hash(replacement))])
    ensures s.result.Ok? <==>
      ctx.user.Some? && ctx.user.value.id in db.users && verify(current, db.users[ctx.user.value.id].passwordHash)
    ensures ctx.user.None? ==> s.result == Err(Error(Unauthenticated, "Authentication required"))
    ensures ctx.user.Some? && ctx.user.value.id !in db.users ==> s.result == Err(Error(Thrown, "User is not found"))
    ensures ctx.user.Some? && ctx.user.value.id in db.users && !verify(current, db.users[ctx.user.value.id].passwordHash) ==>
      s.result == Err(Error(Thrown, "Password is not correct"))
  {
    match RequireAuth(ctx)
    case Err(e) => Step(db, Err(e))
    case Ok(caller) =>
      if caller.id !in db.users then Step(db, Err(Error(Thrown, "User is not found")))
      else if !verify(current, db.users[caller.id].passwordHash) then Step(db, Err(Error(Thrown, "Password is not correct")))
      else WriteUser(db, caller.id, (u: User) => u.(passwordHash := hash(replacement)))
  }

  /** When the stored hash is one `verify` accepts for its password, a
      successful change makes the new password the one that verifies. */
  lemma UpdatedPasswordVerifies(db: Db, ctx: Context, current: string, replacement: string,
                                verify: (string, string) -> bool, hash: string -> string)
    requires forall p :: verify(p, hash(p))
    requires UpdatePassword(db, ctx, current, replacement, verify, hash).result.Ok?
    ensures verify(replacement, UpdatePassword(db, ctx, current, replacement, verify, hash).db.users[ctx.user.value.id].passwordHash)
  {
  }

  /** The name update needs a signed-in caller and writes only the caller's row. */
  lemma UpdateNameTouchesOnlyTheCaller(db: Db, ctx: Context, v: JsValue, other: int)
    requires ctx.user.Some? ==> other != ctx.user.value.id
    ensures ctx.user.None? ==> UpdateName(db, ctx, v) == Step(db, Err(Error(Unauthenticated, "Authentication required")))
    ensures other in db.users ==> UpdateName(db, ctx, v).db.users[other] == db.users[other]
  {
    var s := UpdateName(db, ctx, v);
    if s.result.Ok? {
      var id := ctx.user.value.id;
      assert s.db.users == db.users[id := db.users[id].(name := v.s)];
    }
  }

  /** The email update needs a signed-in caller and writes only the caller's row. */
  lemma UpdateEmailTouchesOnlyTheCaller(db: Db, ctx: Context, v: JsValue, isEmail: string -> bool, other: int)
    requires ctx.user.Some? ==> other != ctx.user.value.id
    ensures ctx.user.None? ==> UpdateEmail(db, ctx, v, isEmail) == Step(db, Err(Error(Unauthenticated, "Authentication required")))
    ensures other in db.users ==> UpdateEmail(db, ctx, v, isEmail).db.users[other] == db.users[other]
  {
    var s := UpdateEmail(db, ctx, v, isEmail);
    if s.result.Ok? {
      var id := ctx.user.value.id;
      assert s.db.users == db.users[id := db.users[id].(email := v.s)];
    }
  }

  // ------------------------------------------------------------------ sign-up

  /** `createUser`: inserts the account with its password hashed. The insert
      is rejected when the email is taken (a unique column) or the id is taken. */
  function CreateUser(db: Db, name: string, email: string, phone: string, password: string, role: Role,
                      hash: string -> string): (s: Step<int>)
    ensures s.result.Ok? <==> (forall k :: k in db.users ==> db.users[k].email != email) && db.nextId !in db.users
    ensures s.result.Ok? ==>
      s.result.value == db.nextId
      && s.db == db.(users := db.users[db.nextId := User(name, email, phone, hash(password), role)], nextId := db.nextId + 1)
    ensures s.result.Err? ==> s.db == db && s.result.error == Error(Thrown, "Error in creating user account")
  {
    if (exists k :: k in db.users && db.users[k].email == email) || db.nextId in db.users then
      Step(db, Err(Error(Thrown, "Error in creating user account")))
    else
      Step(db.(users := db.users[db.nextId := User(name, email, phone, hash(password), role)], nextId := db.nextId + 1),
           Ok(db.nextId))
  }

  /** `signupResolver`: validates the form, creates the account from the
      validated form (with its normalised phone) and then the account's cart. */
  function Signup(db: Db, form: SignUpInput, role: Role, isEmail: string -> bool, lib: PhoneLibrary,
                  hash: string -> string): (s: Step<int>)
    ensures s.result.Ok? ==> ValidateSignUp(form, isEmail, lib).result.Ok?
    ensures ValidateSignUp(form, isEmail, lib).result.Err? ==> s == Step(db, ValidateSignUp(form, isEmail, lib).result.PropagateFailure())
    ensures s.result.Ok? ==>
      var u := ValidateSignUp(form, isEmail, lib).input;
      && s.result.value == db.nextId
      && s.db == db.(users := db.users[db.nextId := User(u.name.s, u.email.s, u.phone.s, hash(u.password.s), role)],
                     carts := db.carts[db.nextId := db.nextId + 1],
                     nextId := db.nextId + 2)
    ensures s.result.Err? ==>
      var u := ValidateSignUp(form, isEmail, lib).input;
      || s.db == db
      || s.db == db.(users := db.users[db.nextId := User(u.name.s, u.email.s, u.phone.s, hash(u.password.s), role)],
                     nextId := db.nextId + 1)
  {
    var checked := ValidateSignUp(form, isEmail, lib);
    match checked.result
    case Err(e) => Step(db, Err(e))
    case Ok(_) =>
      var u := checked.input;
      var created := CreateUser(db, u.name.s, u.email.s, u.phone.s, u.password.s, role, hash);
      match created.result
      case Err(e) => Step(created.db, Err(e))
      case Ok(id) => Then(CreateCart(created.db, id), id)
  }

  /** In a consistent store a successful sign-up leaves the new account with
      a cart, and the account's phone is the normalised number. */
  lemma SignupCreatesCart(db: Db, form: SignUpInput, role: Role, isEmail: string -> bool, lib: PhoneLibrary,
                          hash: string -> string)
    requires Valid(db)
    requires ValidateSignUp(form, isEmail, lib).result.Ok?
    requires forall k :: k in db.users ==> db.users[k].email != form.email.s
    ensures var s := Signup(db, form, role, isEmail, lib, hash);
      && s.result == Ok(db.nextId)
      && s.db.users[db.nextId].phone == CheckPhoneNumber(form.phone.s, lib).value
      && FindCartByUser(s.db, db.nextId) == Ok(db.nextId + 1)
  {
    ValidateSignUpAcceptsExactly(form, isEmail, lib);
    var u := ValidateSignUp(form, isEmail, lib).input;
    var created := CreateUser(db, u.name.s, u.email.s, u.phone.s, u.password.s, role, hash);
    assert db.nextId !in db.carts;
    assert !CartIdTaken(created.db, db.nextId + 1) by {
      assert created.db.carts == db.carts;
    }
  }
}
