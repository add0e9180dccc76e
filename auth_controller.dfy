/**
 * The handlers of `server/controllers/authController.js`. bcrypt and
 * jsonwebtoken are foreign: hashing, comparing and signing are function
 * parameters about which nothing is assumed unless a lemma says so.
 *
 * `login` has no `try`: an absent body, or a password bcrypt refuses to
 * compare, makes the async handler reject, and Express sends nothing; that
 * outcome is `NoResponse`.
 */
module AuthController {
  import opened Base
  import opened Js
  import opened UserStore

  /** The JWT payload `{ id, email }` that `register` and `login` sign. */
  datatype Claims = Claims(id: nat, email: Value)

  /** The `user` object of a response: id, username and email, and no password. */
  datatype PublicUser = PublicUser(id: nat, username: Value, email: Value)

  function Public(u: User): PublicUser {
    PublicUser(u.id, u.username, u.email)
  }

  datatype Body =
    | Message(message: string)
    | Registered(message: string, token: string, user: PublicUser)
    | LoggedIn(token: string, user: PublicUser)
    | Profile(user: PublicUser)

  datatype Outcome = Reply(status: int, body: Body) | NoResponse

  /** The fields the handlers destructure from `req.body`. */
  datatype Credentials = Credentials(username: Value, email: Value, password: Value)

  const MissingBody := Reply(400, Message("Missing request body"))
  const FieldsRequired := Reply(400, Message("All fields are required"))
  const EmailTaken := Reply(400, Message("Email already registered"))
  const InvalidCredentials := Reply(401, Message("Invalid credentials"))
  const UserNotFound := Reply(404, Message("User not found"))

  predicate AllSupplied(c: Credentials) {
    Truthy(c.username) && Truthy(c.email) && Truthy(c.password)
  }

  /** The row `register` stores for credentials it accepts, with the next id. */
  function NewUser(id: nat, c: Credentials, hash: string -> string): User
    requires AllSupplied(c)
  {
    User(id, c.username, c.email, Str(hash(c.password.s)))
  }

  /**
   * `register`: a missing body, then a falsy field, then a taken email are
   * refused with 400 and store nothing; otherwise the row holds the hash of
   * the password, never the password, and the reply carries a token for
   * `{ id, email }` and the public view of the row.
   */
  method Register(users: UserTable, body: Option<Credentials>, hash: string -> string, sign: Claims -> string)
    returns (r: Outcome)
    requires users.Valid()
    modifies users
    ensures users.Valid()
    ensures body.None? ==> r == MissingBody && users.rows == old(users.rows)
    ensures body.Some? && !AllSupplied(body.value) ==> r == FieldsRequired && users.rows == old(users.rows)
    ensures body.Some? && AllSupplied(body.value) && FirstWithEmail(old(users.rows), body.value.email).Some? ==>
      r == EmailTaken && users.rows == old(users.rows)
    ensures body.Some? && AllSupplied(body.value) && FirstWithEmail(old(users.rows), body.value.email).None? ==>
      var u := NewUser(old(users.nextId), body.value, hash);
      && users.rows == old(users.rows) + [u]
      && r == Reply(201, Registered("User registered", sign(Claims(u.id, u.email)), Public(u)))
    ensures UniqueEmails(old(users.rows)) ==> UniqueEmails(users.rows)
  {
    if body.None? {
      return MissingBody;
    }
    var c := body.value;
    if !Truthy(c.username) || !Truthy(c.email) || !Truthy(c.password) {
      return FieldsRequired;
    }
    var existing := users.GetUserByEmail(c.email);
    if existing.Some? {
      return EmailTaken;
    }
    var hashed := hash(c.password.s);
    var user := users.CreateUser(c.username, c.email, Str(hashed));
    var token := sign(Claims(user.id, user.email));
    r := Reply(201, Registered("User registered", token, Public(user)));
  }

  /**
   * `login`: the first row with the email is compared with the password; an
   * unknown email and a wrong password give the same 401, and a success gives
   * 200 with a token for `{ id, email }` and the public view of that row.
   */
  function Login(rows: seq<User>, body: Option<Credentials>, compare: (string, string) -> bool, sign: Claims -> string)
    : (r: Outcome)
    ensures body.None? ==> r == NoResponse
    ensures body.Some? && FirstWithEmail(rows, body.value.email).None? ==> r == InvalidCredentials
    ensures r.Reply? ==> r == InvalidCredentials || r.status == 200
    ensures r.Reply? && r.status == 200 <==>
      && body.Some?
      && FirstWithEmail(rows, body.value.email).Some?
      && var u := FirstWithEmail(rows, body.value.email).value;
      && body.value.password.Str? && u.password.Str? && compare(body.value.password.s, u.password.s)
    ensures r.Reply? && r.status == 200 ==>
      var u := FirstWithEmail(rows, body.value.email).value;
      r.body == LoggedIn(sign(Claims(u.id, u.email)), Public(u))
  {
    if body.None? then NoResponse
    else
      var c := body.value;
      var user := FirstWithEmail(rows, c.email);
      if user.None? then InvalidCredentials
      else if !c.password.Str? || !user.value.password.Str? then NoResponse
      else if !compare(c.password.s, user.value.password.s) then InvalidCredentials
      else
        var u := user.value;
        Reply(200, LoggedIn(sign(Claims(u.id, u.email)), Public(u)))
  }

  /** The two ways a string login can fail give the identical reply, so they cannot be told apart. */
  lemma LoginFailuresIndistinguishable(rows: seq<User>, unknown: Credentials, wrong: Credentials,
                                       compare: (string, string) -> bool, sign: Claims -> string)
    requires forall u :: u in rows ==> !SqlMatches(u.email, unknown.email)
    requires FirstWithEmail(rows, wrong.email).Some? && wrong.password.Str? && FirstWithEmail(rows, wrong.email).value.password.Str?
    requires !compare(wrong.password.s, FirstWithEmail(rows, wrong.email).value.password.s)
    ensures Login(rows, Some(unknown), compare, sign) == Login(rows, Some(wrong), compare, sign) == InvalidCredentials
  {
  }

  /** `getMe`: the principal's email finds a row, answered with its public view, or 404. */
  function GetMe(rows: seq<User>, email: Value): (r: Outcome)
    ensures r == UserNotFound <==> forall u :: u in rows ==> !SqlMatches(u.email, email)
    ensures r != UserNotFound ==> exists u :: u in rows && SqlMatches(u.email, email) && r == Reply(200, Profile(Public(u)))
  {
    var user := FirstWithEmail(rows, email);
    if user.None? then UserNotFound else Reply(200, Profile(Public(user.value)))
  }

  /**
   * Whoever registers can then log in with the same email and password, as
   * far as bcrypt's compare accepts a password against its hash, and `getMe`
   * for the signed email finds the new row.
   */
  lemma {:induction false} RegisterThenLogin(rows: seq<User>, id: nat, c: Credentials,
                                             hash: string -> string, compare: (string, string) -> bool, sign: Claims -> string)
    requires AllSupplied(c) && FirstWithEmail(rows, c.email).None?
    requires compare(c.password.s, hash(c.password.s))
    ensures var u := NewUser(id, c, hash);
      && Login(rows + [u], Some(c), compare, sign) == Reply(200, LoggedIn(sign(Claims(id, c.email)), Public(u)))
      && GetMe(rows + [u], c.email) == Reply(200, Profile(Public(u)))
  {
    var u := NewUser(id, c, hash);
    FirstWithEmailAppended(rows, u, c.email);
  }

  /** In a table `register` has kept free of duplicate emails, `getMe` answers with the one row of that email. */
  lemma GetMeFindsTheRow(rows: seq<User>, i: int)
    requires UniqueEmails(rows) && 0 <= i < |rows| && rows[i].email.Str?
    ensures GetMe(rows, rows[i].email) == Reply(200, Profile(Public(rows[i])))
  {
    FirstWithEmailUnique(rows, i);
  }
}
