/** Failure-carrying results shared by every module of the model.
    The backend reports failures as thrown errors; here they are values. */
module Wrappers {

  datatype Option<+T> = None | Some(value: T)

  /** The `code` extension a thrown error carries.
      `Uncoded` is a GraphQLError built without a code, and `Thrown` is any
      other exception (a Prisma client error, a TypeError, a plain Error);
      the GraphQL server reports both of those as internal errors. */
  datatype Code =
    | Unauthenticated
    | Forbidden
    | BadUserInput
    | NotFound
    | BadRequest
    | Unauthorized
    | InternalServerError
    | Uncoded
    | Thrown

  datatype Error = Error(code: Code, message: string)

  datatype Result<+T> = Ok(value: T) | Err(error: Error) {
    predicate IsFailure() { Err? }

    function PropagateFailure<U>(): Result<U>
      requires Err?
    {
      Err(error)
    }

    function Extract(): T
      requires Ok?
    {
      value
    }
  }

  /** The result of a check that returns nothing when it passes. */
  type Outcome = Result<()>

  function Pass(): Outcome { Ok(()) }

  function Fail(code: Code, message: string): Outcome { Err(Error(code, message)) }

  /** The outcome of running checks one after the other, stopping at the
      first that fails. */
  function FirstFailure(checks: seq<Outcome>): (r: Outcome)
    ensures r.Ok? <==> forall i :: 0 <= i < |checks| ==> checks[i].Ok?
    ensures r.Err? ==> exists i :: 0 <= i < |checks| && checks[i] == r && forall j :: 0 <= j < i ==> checks[j].Ok?
  {
    if |checks| == 0 then Pass()
    else if checks[0].Err? then checks[0]
    else
      var rest := FirstFailure(checks[1..]);
      assert forall i :: 1 <= i < |checks| ==> checks[i] == checks[1..][i - 1];
      rest
  }
}
