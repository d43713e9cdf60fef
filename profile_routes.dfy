/** The profile routes of the authenticated caller: read the profile, change name and
    email. `fault` stands for the database raising an error inside the `try`. */
module ProfileRoutes {
  import opened Http
  import opened UserStore

  /** Another user already has this email; the store's uniqueness of emails then refuses
      the write. */
  predicate EmailHeldByOther(users: Users, caller: UserId, email: string) {
    exists k :: k in users && k != caller && users[k].email == email
  }

  /** GET /api/profile: id, name, email and createdAt of the caller's record. A missing
      record makes the handler read a field of null, which lands in the `catch`. */
  function GetProfile(users: Users, caller: UserId, fault: bool): (reply: Reply<Account>)
    requires WellFormed(users)
    ensures reply.status == 200 <==> !fault && caller in users
    ensures reply.status == 200 ==>
              reply.body == Success(Account(caller, users[caller].name, users[caller].email, users[caller].createdAt))
    ensures reply.status != 200 ==> reply == ServerError()
  {
    if fault || caller !in users then ServerError()
    else Reply(200, Success(AccountOf(users[caller])))
  }

  datatype ProfileBody = ProfileBody(name: string, email: string)

  /** The two checks: name not empty, email valid. */
  function ProfileErrors(env: Env, body: ProfileBody): (errors: seq<FieldError>)
    ensures errors == [] <==> body.name != "" && env.isEmail(body.email)
  {
    Check(body.name != "", "name", "Name is required")
    + Check(env.isEmail(body.email), "email", "Please include a valid email")
  }

  /** PUT /api/profile. Only `{ name, email }` reaches the database, so the password hash,
      the creation time and every other user stay as they were. */
  method UpdateProfile(users: Users, env: Env, caller: UserId, body: ProfileBody, fault: bool)
    returns (reply: Reply<Account>, users': Users)
    requires WellFormed(users) && UniqueEmails(users)
    ensures WellFormed(users') && UniqueEmails(users')
    ensures ProfileErrors(env, body) != [] ==> reply == Invalid(ProfileErrors(env, body)) && users' == users
    ensures ProfileErrors(env, body) == [] && (fault || caller !in users || EmailHeldByOther(users, caller, body.email)) ==>
              reply == ServerError() && users' == users
    ensures reply.status == 200 <==>
              ProfileErrors(env, body) == [] && !fault && caller in users && !EmailHeldByOther(users, caller, body.email)
    ensures reply.status == 200 ==>
              && users'.Keys == users.Keys
              && users'[caller] == users[caller].(name := body.name, email := body.email)
              && (forall k :: k in users && k != caller ==> users'[k] == users[k])
              && reply.body == Success(Account(caller, body.name, body.email, users[caller].createdAt))
    ensures reply.status != 200 ==> users' == users
  {
    var errors := ProfileErrors(env, body);
    if errors != [] {
      return Invalid(errors), users;
    }
    if fault || caller !in users || EmailHeldByOther(users, caller, body.email) {
      return ServerError(), users;
    }
    var updated := users[caller].(name := body.name, email := body.email);
    users' := users[caller := updated];
    reply := Reply(200, Success(AccountOf(updated)));
  }
}
