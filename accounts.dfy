/**
 * The `users` table and the account helpers of `lib/auth.ts`: password
 * hashing and checking, token issuance, user creation and lookup by
 * username. bcrypt and JWT are symbolic: a hash is a value that checks
 * against exactly the password it was made from, and a token is the payload
 * it signs.
 */
module Accounts {
  import opened Wrappers
  import opened Listing
  import opened Ledger

  /** A bcrypt hash, kept symbolic. */
  datatype Hashed = Hashed(of: string)

  /** `hashPassword` */
  function Hash(password: string): Hashed {
    Hashed(password)
  }

  /** `verifyPassword`: `bcrypt.compare`. */
  predicate VerifyPassword(password: string, h: Hashed) {
    h.of == password
  }

  /** A password checks against its own hash and against no other password's. */
  lemma VerifyHash(password: string, other: string)
    ensures VerifyPassword(password, Hash(password))
    ensures other != password ==> !VerifyPassword(other, Hash(password))
  {
  }

  /** The JWT payload `{ userId, username }`; signing and expiry are not modelled. */
  datatype Token = Token(userId: nat, username: string)

  /** One row of `users`; the password is stored hashed only. */
  datatype User = User(id: nat, username: string, name: string, password: Hashed, createdAt: Timestamp)

  /** What a client is shown of a user: no password, no creation time. */
  datatype PublicUser = PublicUser(id: nat, username: string, name: string)

  /** The body of a successful register or login. */
  datatype Session = Session(token: Token, user: PublicUser)

  /** `generateToken` */
  function TokenFor(id: nat, username: string): (t: Token)
    ensures t.userId == id && t.username == username
  {
    Token(id, username)
  }

  function Public(u: User): (p: PublicUser)
    ensures p.id == u.id && p.username == u.username && p.name == u.name
  {
    PublicUser(u.id, u.username, u.name)
  }

  predicate HasUsername(s: seq<User>, username: string) {
    exists i :: 0 <= i < |s| && s[i].username == username
  }

  predicate UserIdBefore(a: User, b: User) {
    a.id < b.id
  }

  predicate DifferentUsername(a: User, b: User) {
    a.username != b.username
  }

  /** Ids grow and stay below the next id; no two users share a username. */
  predicate UsersConsistent(s: seq<User>, nextId: nat) {
    SortedBy(s, UserIdBefore) && SortedBy(s, DifferentUsername) && forall i :: 0 <= i < |s| ==> s[i].id < nextId
  }

  /** `getUserByUsername`: the first row with that username, or none. */
  function FindByUsername(s: seq<User>, username: string): (r: Option<User>)
    ensures r.None? <==> !HasUsername(s, username)
    ensures r.Some? ==> r.value in s && r.value.username == username
  {
    if |s| == 0 then None
    else if s[0].username == username then Some(s[0])
    else
      var r := FindByUsername(s[1..], username);
      assert HasUsername(s, username) <==> HasUsername(s[1..], username) by {
        if HasUsername(s, username) {
          var i :| 0 <= i < |s| && s[i].username == username;
          assert s[1..][i - 1] == s[i];
        }
        if HasUsername(s[1..], username) {
          var i :| 0 <= i < |s[1..]| && s[1..][i].username == username;
          assert s[i + 1] == s[1..][i];
        }
      }
      r
  }

  /** With unique usernames the lookup finds the one user of that name. */
  lemma FindUnique(s: seq<User>, nextId: nat, u: User)
    requires UsersConsistent(s, nextId)
    requires u in s
    ensures FindByUsername(s, u.username) == Some(u)
  {
    var r := FindByUsername(s, u.username);
    var i :| 0 <= i < |s| && s[i] == u;
    var j :| 0 <= j < |s| && s[j] == r.value;
    assert !DifferentUsername(s[i], s[j]);
    assert !(i < j) && !(j < i);
  }

  class UserTable {
    var rows: seq<User>
    var nextId: nat

    ghost predicate Valid()
      reads this
    {
      UsersConsistent(rows, nextId)
    }

    constructor ()
      ensures Valid() && rows == [] && nextId == 1
    {
      rows := [];
      nextId := 1;
    }

    /**
     * `createUser`: hashes the password and inserts the row. Its one caller
     * has checked that the username is free.
     */
    method CreateUser(username: string, password: string, name: string, now: Timestamp) returns (u: PublicUser)
      requires Valid()
      requires !HasUsername(rows, username)
      modifies this
      ensures Valid()
      ensures u == PublicUser(old(nextId), username, name) && nextId == old(nextId) + 1
      ensures rows == old(rows) + [User(u.id, username, name, Hash(password), now)]
    {
      var row := User(nextId, username, name, Hash(password), now);
      forall a, b | 0 <= a < b < |rows + [row]| ensures DifferentUsername((rows + [row])[a], (rows + [row])[b]) {
        if b < |rows| {
          assert DifferentUsername(rows[a], rows[b]);
        }
      }
      rows := rows + [row];
      u := PublicUser(nextId, username, name);
      nextId := nextId + 1;
    }
  }
}
