/**
 * The user table of `server/models/User.js`: `createUser` inserts one row
 * (`RETURNING *`) and `getUserByEmail` returns the first row of
 * `SELECT * FROM users WHERE email = $1`.
 */
module UserStore {
  import opened Base
  import opened Js

  /** A row of `users`; the `password` column holds what the caller passed, a bcrypt hash. */
  datatype User = User(id: nat, username: Value, email: Value, password: Value)

  /** A stored column is never `undefined`: node-postgres binds that as NULL. */
  predicate Stored(u: User) {
    u.username != Undefined && u.email != Undefined && u.password != Undefined
  }

  /** `column = $1` in a WHERE clause: NULL on either side matches nothing. */
  predicate SqlMatches(column: Value, param: Value) {
    column.Str? && param.Str? && column.s == param.s
  }

  /** The row `getUserByEmail` returns: the first whose email matches, if any. */
  function FirstWithEmail(rows: seq<User>, email: Value): (r: Option<User>)
    ensures r.Some? ==> r.value in rows && SqlMatches(r.value.email, email)
    ensures r.None? <==> forall u :: u in rows ==> !SqlMatches(u.email, email)
  {
    if rows == [] then None
    else if SqlMatches(rows[0].email, email) then Some(rows[0])
    else FirstWithEmail(rows[1..], email)
  }

  /** Looking an email up in rows that end with a new row still finds a row when the new row matches. */
  lemma {:induction false} FirstWithEmailAppended(rows: seq<User>, u: User, email: Value)
    requires SqlMatches(u.email, email)
    ensures FirstWithEmail(rows + [u], email).Some?
    ensures FirstWithEmail(rows, email).None? ==> FirstWithEmail(rows + [u], email) == Some(u)
    ensures FirstWithEmail(rows, email).Some? ==> FirstWithEmail(rows + [u], email) == FirstWithEmail(rows, email)
  {
    if rows != [] {
      assert (rows + [u])[1..] == rows[1..] + [u];
      FirstWithEmailAppended(rows[1..], u, email);
    }
  }

  ghost predicate UniqueIds(rows: seq<User>) {
    forall i, j :: 0 <= i < j < |rows| ==> rows[i].id != rows[j].id
  }

  /** No two rows share an email; `register` keeps the table this way. */
  ghost predicate UniqueEmails(rows: seq<User>) {
    forall i, j :: 0 <= i < j < |rows| ==> rows[i].email != rows[j].email
  }

  class UserTable {
    var rows: seq<User>
    /** The next value of the id sequence. */
    var nextId: nat

    ghost predicate Valid()
      reads this
    {
      && nextId >= 1
      && (forall u :: u in rows ==> 1 <= u.id < nextId && Stored(u))
      && UniqueIds(rows)
    }

    constructor ()
      ensures Valid() && rows == [] && nextId == 1
    {
      rows := [];
      nextId := 1;
    }

    /** `createUser`: one new row with a fresh id holding exactly the given columns, returned. */
    method CreateUser(username: Value, email: Value, hashedPassword: Value) returns (u: User)
      requires Valid()
      modifies this
      ensures Valid()
      ensures u == User(old(nextId), ToSql(username), ToSql(email), ToSql(hashedPassword))
      ensures rows == old(rows) + [u]
      ensures forall v :: v in old(rows) ==> v.id != u.id
    {
      u := User(nextId, ToSql(username), ToSql(email), ToSql(hashedPassword));
      rows := rows + [u];
      nextId := nextId + 1;
    }

    /** `getUserByEmail`: read-only; a row with that email, `None` exactly when there is none. */
    method GetUserByEmail(email: Value) returns (r: Option<User>)
      ensures r == FirstWithEmail(rows, email)
      ensures r.Some? ==> r.value in rows && SqlMatches(r.value.email, email)
      ensures r.None? <==> forall u :: u in rows ==> !SqlMatches(u.email, email)
    {
      r := FirstWithEmail(rows, email);
    }
  }

  /** After `createUser(u, e, h)` with a string email `e`, `getUserByEmail(e)` finds a row with email `e`. */
  lemma CreatedUserFound(rows: seq<User>, u: User, email: string)
    requires u.email == Str(email)
    ensures FirstWithEmail(rows + [u], Str(email)).Some?
    ensures FirstWithEmail(rows + [u], Str(email)).value.email == Str(email)
  {
    FirstWithEmailAppended(rows, u, Str(email));
  }

  /** In a table with distinct emails, the lookup of a row's email finds that very row. */
  lemma {:induction false} FirstWithEmailUnique(rows: seq<User>, i: int)
    requires UniqueEmails(rows) && 0 <= i < |rows| && rows[i].email.Str?
    ensures FirstWithEmail(rows, rows[i].email) == Some(rows[i])
  {
    if i > 0 {
      assert rows[0].email != rows[i].email;
      assert UniqueEmails(rows[1..]) by {
        forall a, b | 0 <= a < b < |rows[1..]| ensures rows[1..][a].email != rows[1..][b].email {
          assert rows[1..][a] == rows[a + 1] && rows[1..][b] == rows[b + 1];
        }
      }
      assert rows[1..][i - 1] == rows[i];
      FirstWithEmailUnique(rows[1..], i - 1);
    }
  }
}
