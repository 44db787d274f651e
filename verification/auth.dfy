/** Authentication and role guards, and the access policy they implement.
    The request context carries the identity decoded from the token, or
    nothing for an anonymous request. */
module Auth {
  import opened Wrappers

  datatype Role = Buyer | Seller | Admin

  datatype Identity = Identity(id: int, role: Role)

  datatype Context = Context(user: Option<Identity>)

  /** `requireAuth`: the caller's identity, or UNAUTHENTICATED for an anonymous request. */
  function RequireAuth(ctx: Context): (r: Result<Identity>)
    ensures r.Ok? <==> ctx.user.Some?
    ensures r.Ok? ==> r.value == ctx.user.value
    ensures r.Err? ==> r.error == Error(Unauthenticated, "Authentication required")
  {
    match ctx.user
    case None => Err(Error(Unauthenticated, "Authentication required"))
    case Some(u) => Ok(u)
  }

  /** The shared body of `requireAdmin`, `requireBuyer` and `requireSeller`.
      They dereference `context.user`, so a prior `requireAuth` must have passed. */
  function RequireRole(ctx: Context, role: Role): (r: Outcome)
    requires ctx.user.Some?
    ensures r.Ok? <==> ctx.user.value.role == role
    ensures r.Err? ==> r.error == Error(Forbidden, "Authorization required")
  {
    if ctx.user.value.role != role then Fail(Forbidden, "Authorization required") else Pass()
  }

  function RequireAdmin(ctx: Context): (r: Outcome)
    requires ctx.user.Some?
    ensures r.Ok? <==> ctx.user.value.role == Admin
    ensures r.Err? ==> r.error.code == Forbidden
  {
    RequireRole(ctx, Admin)
  }

  function RequireBuyer(ctx: Context): (r: Outcome)
    requires ctx.user.Some?
    ensures r.Ok? <==> ctx.user.value.role == Buyer
    ensures r.Err? ==> r.error.code == Forbidden
  {
    RequireRole(ctx, Buyer)
  }

  function RequireSeller(ctx: Context): (r: Outcome)
    requires ctx.user.Some?
    ensures r.Ok? <==> ctx.user.value.role == Seller
    ensures r.Err? ==> r.error.code == Forbidden
  {
    RequireRole(ctx, Seller)
  }

  /** Roles are flat: every signed-in caller passes exactly one of the three role guards. */
  lemma ExactlyOneRoleGuardPasses(ctx: Context)
    requires ctx.user.Some?
    ensures RequireAdmin(ctx).Ok? || RequireBuyer(ctx).Ok? || RequireSeller(ctx).Ok?
    ensures !(RequireAdmin(ctx).Ok? && RequireBuyer(ctx).Ok?)
    ensures !(RequireAdmin(ctx).Ok? && RequireSeller(ctx).Ok?)
    ensures !(RequireBuyer(ctx).Ok? && RequireSeller(ctx).Ok?)
  {
  }

  /** What a resolver demands of its caller: the policy table entries. */
  datatype Requirement = Anyone | SignedIn | OnlyRole(role: Role)

  predicate Admits(req: Requirement, ctx: Context) {
    match req
    case Anyone => true
    case SignedIn => ctx.user.Some?
    case OnlyRole(role) => ctx.user.Some? && ctx.user.value.role == role
  }

  /** The code a caller the policy refuses receives. */
  function Refusal(ctx: Context): Code {
    if ctx.user.None? then Unauthenticated else Forbidden
  }

  /** `requireAuth` followed by a role guard, the prologue of role-gated resolvers. */
  function AuthWithRole(ctx: Context, role: Role): (r: Result<Identity>)
    ensures r.Ok? <==> Admits(OnlyRole(role), ctx)
    ensures r.Ok? ==> r.value == ctx.user.value
    ensures r.Err? ==> r.error.code == Refusal(ctx)
  {
    match RequireAuth(ctx)
    case Err(e) => Err(e)
    case Ok(u) =>
      match RequireRole(ctx, role)
      case Err(e) => Err(e)
      case Ok(_) => Ok(u)
  }

  /** The guard a resolver with requirement `req` runs before touching any data;
      it yields the caller's identity when there is one. */
  function Guard(req: Requirement, ctx: Context): (r: Result<Option<Identity>>)
    ensures r.Ok? <==> Admits(req, ctx)
    ensures r.Ok? && req != Anyone ==> r.value == ctx.user
    ensures r.Err? ==> r.error.code == Refusal(ctx)
  {
    match req
    case Anyone => Ok(ctx.user)
    case SignedIn =>
      (match RequireAuth(ctx)
       case Err(e) => Err(e)
       case Ok(u) => Ok(Some(u)))
    case OnlyRole(role) =>
      (match AuthWithRole(ctx, role)
       case Err(e) => Err(e)
       case Ok(u) => Ok(Some(u)))
  }

  /** `requireAuth` looks only at whether a user is present, never at the role. */
  lemma RequireAuthIgnoresRole(id: int, a: Role, b: Role)
    ensures RequireAuth(Context(Some(Identity(id, a)))).Ok?
    ensures RequireAuth(Context(Some(Identity(id, b)))).Ok?
  {
  }
}
