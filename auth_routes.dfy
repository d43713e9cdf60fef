/** The authentication routes: register, login and /me. `fault` stands for the
    database raising an error inside the handler's `try`, answered with 500. */
module AuthRoutes {
  import opened Http
  import opened UserStore

  datatype RegisterBody = RegisterBody(name: string, email: string, password: string)

  /** `password` is absent when the body has no such field. */
  datatype LoginBody = LoginBody(email: string, password: Option<string>)

  /** The success payload of register and login: a token and the public fields of the user. */
  datatype Session = Session(token: string, user: PublicUser)

  /** The one reply login gives for an unknown email and for a wrong password alike. */
  function InvalidCredentials<T>(): Reply<T> {
    Reply(401, Failure("Invalid credentials"))
  }

  /** The three register checks, in their declared order: name not empty, email valid,
      password of at least 6 characters. */
  function RegisterErrors(env: Env, body: RegisterBody): (errors: seq<FieldError>)
    ensures errors == [] <==> body.name != "" && env.isEmail(body.email) && |body.password| >= 6
    ensures |errors| <= 3
  {
    Check(body.name != "", "name", "Name is required")
    + Check(env.isEmail(body.email), "email", "Please include a valid email")
    + Check(|body.password| >= 6, "password", "Please enter a password with 6 or more characters")
  }

  /** POST /api/auth/register. `newId` and `now` are the id and creation time the database assigns.
      Precedence: 400 with field errors, then 500 on a database error, then 400 "User already
      exists", then creation with 201. */
  method Register(users: Users, env: Env, body: RegisterBody, newId: UserId, now: Time, fault: bool)
    returns (reply: Reply<Session>, users': Users)
    requires WellFormed(users) && UniqueEmails(users)
    requires newId !in users
    ensures WellFormed(users') && UniqueEmails(users')
    ensures RegisterErrors(env, body) != [] ==> reply == Invalid(RegisterErrors(env, body)) && users' == users
    ensures RegisterErrors(env, body) == [] && fault ==> reply == ServerError() && users' == users
    ensures RegisterErrors(env, body) == [] && !fault && EmailTaken(users, body.email) ==>
              reply == Reply(400, Failure("User already exists")) && users' == users
    ensures reply.status == 201 <==> RegisterErrors(env, body) == [] && !fault && !EmailTaken(users, body.email)
    ensures reply.status == 201 ==>
              && users' == users[newId := User(newId, body.name, body.email, env.hash(body.password), now)]
              && |users'| == |users| + 1
              && reply.body == Success(Session(env.sign(newId), PublicUser(newId, body.name, body.email)))
    ensures reply.status != 201 ==> users' == users
  {
    var errors := RegisterErrors(env, body);
    if errors != [] {
      return Invalid(errors), users;
    }
    if fault {
      return ServerError(), users;
    }
    var existing := FindByEmail(users, body.email);
    if existing.Some? {
      return Reply(400, Failure("User already exists")), users;
    }
    var user := User(newId, body.name, body.email, env.hash(body.password), now);
    users' := users[newId := user];
    reply := Reply(201, Success(Session(env.sign(newId), PublicOf(user))));
  }

  /** The two login checks: email valid, password present. */
  function LoginErrors(env: Env, body: LoginBody): (errors: seq<FieldError>)
    ensures errors == [] <==> env.isEmail(body.email) && body.password.Some?
  {
    Check(env.isEmail(body.email), "email", "Please include a valid email")
    + Check(body.password.Some?, "password", "Password is required")
  }

  /** The credentials are right: a user has this email and the password matches its hash. */
  predicate CredentialsMatch(users: Users, env: Env, email: string, password: string) {
    exists k :: k in users && users[k].email == email && env.matchPassword(password, users[k].passwordHash)
  }

  /** POST /api/auth/login. Read-only: it has no store to return. */
  function Login(users: Users, env: Env, body: LoginBody, fault: bool): (reply: Reply<Session>)
    requires UniqueEmails(users)
    ensures LoginErrors(env, body) != [] ==> reply == Invalid(LoginErrors(env, body))
    ensures LoginErrors(env, body) == [] && fault ==> reply == ServerError()
    ensures LoginErrors(env, body) == [] && !fault && !EmailTaken(users, body.email) ==> reply == InvalidCredentials()
    ensures reply.status == 200 <==>
              LoginErrors(env, body) == [] && !fault && CredentialsMatch(users, env, body.email, body.password.value)
    ensures LoginErrors(env, body) == [] && !fault && !CredentialsMatch(users, env, body.email, body.password.value) ==>
              reply == InvalidCredentials()
    ensures forall k :: k in users && users[k].email == body.email && reply.status == 200 ==>
              reply.body == Success(Session(env.sign(k), PublicOf(users[k])))
  {
    if LoginErrors(env, body) != [] then Invalid(LoginErrors(env, body))
    else if fault then ServerError()
    else match FindByEmail(users, body.email)
      case None => InvalidCredentials()
      case Some(k) =>
        if !env.matchPassword(body.password.value, users[k].passwordHash) then InvalidCredentials()
        else Reply(200, Success(Session(env.sign(k), PublicOf(users[k]))))
  }

  /** A caller cannot tell an unknown email from a wrong password: both attempts get the
      very same reply. */
  lemma UnknownEmailLooksLikeWrongPassword(users: Users, env: Env, unknown: LoginBody, wrong: LoginBody)
    requires UniqueEmails(users)
    requires LoginErrors(env, unknown) == [] && LoginErrors(env, wrong) == []
    requires !EmailTaken(users, unknown.email)
    requires EmailTaken(users, wrong.email) && !CredentialsMatch(users, env, wrong.email, wrong.password.value)
    ensures Login(users, env, unknown, false) == Login(users, env, wrong, false)
    ensures Login(users, env, unknown, false).status == 401
  {
  }

  /** GET /api/auth/me: the caller's record without its hash, or null when it is gone.
      The handler has no `try`, so a database error is not answered at all; that path is
      not modelled. */
  function Me(users: Users, caller: UserId): (reply: Reply<Option<Account>>)
    ensures reply.status == 200
    ensures caller in users ==> reply.body == Success(Some(AccountOf(users[caller])))
    ensures caller !in users ==> reply.body == Success(None)
  {
    Reply(200, Success(if caller in users then Some(AccountOf(users[caller])) else None))
  }

  /** Registering, then logging in with the same email and password, yields a token for the
      new user, provided the password matches its own hash. */
  method RegisterThenLogin(users: Users, env: Env, body: RegisterBody, newId: UserId, now: Time)
    returns (registered: Reply<Session>, loggedIn: Reply<Session>)
    requires WellFormed(users) && UniqueEmails(users) && newId !in users
    requires RegisterErrors(env, body) == [] && !EmailTaken(users, body.email)
    requires env.matchPassword(body.password, env.hash(body.password))
    ensures registered.status == 201
    ensures loggedIn == Reply(200, Success(Session(env.sign(newId), PublicUser(newId, body.name, body.email))))
  {
    var users';
    registered, users' := Register(users, env, body, newId, now, false);
    loggedIn := Login(users', env, LoginBody(body.email, Some(body.password)), false);
    assert users'[newId].email == body.email;
  }

  /** A second registration with an email already registered is refused and changes nothing. */
  method RegisterTwice(users: Users, env: Env, first: RegisterBody, second: RegisterBody,
                       id1: UserId, id2: UserId, now: Time)
    returns (r1: Reply<Session>, r2: Reply<Session>, users2: Users)
    requires WellFormed(users) && UniqueEmails(users) && id1 !in users && id2 !in users && id1 != id2
    requires RegisterErrors(env, first) == [] && RegisterErrors(env, second) == []
    requires !EmailTaken(users, first.email) && second.email == first.email
    ensures r1.status == 201
    ensures r2 == Reply(400, Failure("User already exists"))
    ensures |users2| == |users| + 1
  {
    var users1;
    r1, users1 := Register(users, env, first, id1, now, false);
    assert users1[id1].email == second.email;
    r2, users2 := Register(users1, env, second, id2, now, false);
  }
}
