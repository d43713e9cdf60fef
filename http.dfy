/** Ids and response shapes shared by the Express route handlers.
    Every JSON reply carries `success`; on success a payload, on failure either a
    list of field errors (validation) or a message. */
module Http {

  /** The id of a user as `req.user.id` carries it after authentication, and the
      creation times stored with users and tasks. */
  type UserId = nat
  type Time = int

  datatype Option<+T> = None | Some(value: T)

  /** One entry of express-validator's `errors.array()`: the offending field and its message. */
  datatype FieldError = FieldError(field: string, msg: string)

  datatype Body<+T> =
    | Success(data: T)                      // { success: true, data / token+user }
    | Rejected(errors: seq<FieldError>)     // { success: false, errors }
    | Failure(message: string)              // { success: false, message }

  datatype Reply<+T> = Reply(status: nat, body: Body<T>)

  /** The reply of every `catch (err)` block. */
  function ServerError<T>(): (r: Reply<T>)
    ensures r.status == 500 && r.body.Failure?
  {
    Reply(500, Failure("Server error"))
  }

  /** The 400 reply built from a non-empty validation result. */
  function Invalid<T>(errors: seq<FieldError>): (r: Reply<T>)
    requires errors != []
    ensures r.status == 400 && r.body.Rejected? && r.body.errors == errors
  {
    Reply(400, Rejected(errors))
  }

  /** express-validator's `check(field, msg)`: one error when the check fails, none otherwise. */
  function Check(ok: bool, field: string, msg: string): (r: seq<FieldError>)
    ensures r == [] <==> ok
    ensures !ok ==> r == [FieldError(field, msg)]
  {
    if ok then [] else [FieldError(field, msg)]
  }
}
