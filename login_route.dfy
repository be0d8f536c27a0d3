/**
 * `POST /api/auth/login`: look the user up by username, check the password,
 * and answer a token and the public part of the user.
 */
module LoginRoute {
  import opened Wrappers
  import opened Http
  import opened Ledger
  import opened Accounts
  import RegisterRoute

  /** The JSON body; an absent field is "". */
  datatype LoginRequest = LoginRequest(username: string, password: string)

  const MissingCredentialsError := "Username e senha são obrigatórios"
  /** The one 401 message, for an unknown username and for a wrong password alike. */
  const WrongCredentialsError := "Username ou senha incorretos"

  function LoginReply(q: LoginRequest, users: seq<User>): Reply<Session> {
    if q.username == "" || q.password == "" then BadRequest(MissingCredentialsError)
    else
      match FindByUsername(users, q.username)
      case None => Unauthorized(WrongCredentialsError)
      case Some(u) =>
        if !VerifyPassword(q.password, u.password) then Unauthorized(WrongCredentialsError)
        else Ok(Session(TokenFor(u.id, u.username), Public(u)))
  }

  /**
   * A login succeeds exactly when both fields are present and the password
   * checks against the stored hash of a user with that username; the session
   * is that user's.
   */
  lemma LoginSucceedsIff(q: LoginRequest, users: seq<User>, nextId: nat)
    requires UsersConsistent(users, nextId)
    ensures LoginReply(q, users).Ok? <==>
      q.username != "" && q.password != "" && exists u :: u in users && u.username == q.username && VerifyPassword(q.password, u.password)
    ensures LoginReply(q, users).Ok? ==>
      exists u :: u in users && LoginReply(q, users).body == Session(Token(u.id, u.username), PublicUser(u.id, u.username, u.name))
  {
    if q.username != "" && q.password != "" {
      if u :| u in users && u.username == q.username && VerifyPassword(q.password, u.password) {
        FindUnique(users, nextId, u);
      }
    }
  }

  /** Present credentials that fail get the same 401, whether the username is unknown or the password wrong. */
  lemma FailuresLookAlike(q: LoginRequest, users: seq<User>)
    requires q.username != "" && q.password != ""
    requires !LoginReply(q, users).Ok?
    ensures LoginReply(q, users) == Unauthorized(WrongCredentialsError)
  {
  }

  /** Registering and then logging in with the same username and password answers the registered user. */
  lemma RegisterThenLogin(users: seq<User>, nextId: nat, q: RegisterRoute.RegisterRequest, now: Timestamp)
    requires UsersConsistent(users, nextId)
    requires RegisterRoute.RegisterReply(q, users, nextId).Ok?
    ensures var after := users + [User(nextId, q.username, q.name, Hash(q.password), now)];
      LoginReply(LoginRequest(q.username, q.password), after) == RegisterRoute.RegisterReply(q, users, nextId)
  {
    var u := User(nextId, q.username, q.name, Hash(q.password), now);
    var after := users + [u];
    assert FindByUsername(after, q.username) == Some(u) by {
      FindAfterFresh(users, u);
    }
  }

  /** A username no earlier row has is found in the row appended for it. */
  lemma {:induction false} FindAfterFresh(users: seq<User>, u: User)
    requires !HasUsername(users, u.username)
    ensures FindByUsername(users + [u], u.username) == Some(u)
  {
    if |users| > 0 {
      assert (users + [u])[1..] == users[1..] + [u];
      assert users[0].username != u.username;
      assert !HasUsername(users[1..], u.username) by {
        forall i | 0 <= i < |users[1..]| ensures users[1..][i].username != u.username {
          assert users[1..][i] == users[i + 1];
        }
      }
      FindAfterFresh(users[1..], u);
    } else {
      assert users + [u] == [u];
    }
  }
}
