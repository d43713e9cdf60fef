/** The user collection as the account routes see it, and the collaborators the routes
    call but this model does not open: the email syntax check of the validator, password
    hashing and comparison, and token signing. */
module UserStore {
  import opened Http

  /** A stored user; the password is kept only as its hash. */
  datatype User = User(id: UserId, name: string, email: string, passwordHash: string, createdAt: Time)

  type Users = map<UserId, User>

  /** `isEmail` of the validator, the password hash the User model stores, `matchPassword`
      (plain text against stored hash) and `getSignedJwtToken` (a token for a user id).
      None of them is interpreted here. */
  datatype Env = Env(
    isEmail: string -> bool,
    hash: string -> string,
    matchPassword: (string, string) -> bool,
    sign: UserId -> string)

  /** Every stored user carries its own key as its id. */
  predicate WellFormed(users: Users) {
    forall k :: k in users ==> users[k].id == k
  }

  /** At most one user per email address. */
  predicate UniqueEmails(users: Users) {
    forall a, b :: a in users && b in users && users[a].email == users[b].email ==> a == b
  }

  predicate EmailTaken(users: Users, email: string) {
    exists k :: k in users && users[k].email == email
  }

  /** `findOne({ email })`. */
  function FindByEmail(users: Users, email: string): (r: Option<UserId>)
    requires UniqueEmails(users)
    ensures r.None? <==> !EmailTaken(users, email)
    ensures r.Some? ==> r.value in users && users[r.value].email == email
  {
    if EmailTaken(users, email) then
      var k :| k in users && users[k].email == email;
      Some(k)
    else None
  }

  /** The user as the register and login replies show it: no password, no hash. */
  datatype PublicUser = PublicUser(id: UserId, name: string, email: string)

  /** The stored record without its password hash, as the profile reply and /me show it. */
  datatype Account = Account(id: UserId, name: string, email: string, createdAt: Time)

  function PublicOf(u: User): (p: PublicUser)
    ensures p.id == u.id && p.name == u.name && p.email == u.email
  {
    PublicUser(u.id, u.name, u.email)
  }

  function AccountOf(u: User): (a: Account)
    ensures a.id == u.id && a.name == u.name && a.email == u.email && a.createdAt == u.createdAt
  {
    Account(u.id, u.name, u.email, u.createdAt)
  }
}
