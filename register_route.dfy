/**
 * `POST /api/auth/register`: a chain of checks with early returns, then one
 * new user and a token for it.
 */
module RegisterRoute {
  import opened Wrappers
  import opened Http
  import opened Ledger
  import opened Accounts

  /** The JSON body; an absent field is "". */
  datatype RegisterRequest = RegisterRequest(name: string, username: string, password: string)

  const MissingFieldsError := "Nome, username e senha são obrigatórios"
  const ShortPasswordError := "A senha deve ter pelo menos 6 caracteres"
  const ShortUsernameError := "O username deve ter pelo menos 3 caracteres"
  const TakenUsernameError := "Este username já está em uso"

  /** The reply, check after check: missing field, short password, short username, taken username, else the session. */
  function RegisterReply(q: RegisterRequest, users: seq<User>, nextId: nat): Reply<Session> {
    if q.name == "" || q.username == "" || q.password == "" then BadRequest(MissingFieldsError)
    else if |q.password| < 6 then BadRequest(ShortPasswordError)
    else if |q.username| < 3 then BadRequest(ShortUsernameError)
    else if HasUsername(users, q.username) then Conflict(TakenUsernameError)
    else Ok(Session(TokenFor(nextId, q.username), PublicUser(nextId, q.username, q.name)))
  }

  /** The handler: at most one user is created, and only when every check passes. */
  method Register(table: UserTable, q: RegisterRequest, now: Timestamp) returns (reply: Reply<Session>)
    requires table.Valid()
    modifies table
    ensures table.Valid()
    ensures reply == RegisterReply(q, old(table.rows), old(table.nextId))
    ensures reply.Ok? ==> table.rows == old(table.rows) + [User(reply.body.user.id, q.username, q.name, Hash(q.password), now)]
    ensures !reply.Ok? ==> table.rows == old(table.rows) && table.nextId == old(table.nextId)
  {
    if q.name == "" || q.username == "" || q.password == "" {
      return BadRequest(MissingFieldsError);
    }
    if |q.password| < 6 {
      return BadRequest(ShortPasswordError);
    }
    if |q.username| < 3 {
      return BadRequest(ShortUsernameError);
    }
    if HasUsername(table.rows, q.username) {
      return Conflict(TakenUsernameError);
    }
    var user := table.CreateUser(q.username, q.password, q.name, now);
    var token := TokenFor(user.id, user.username);
    return Ok(Session(token, user));
  }

  /** The password length is checked before the username length: a request failing both hears about the password. */
  lemma PasswordCheckedFirst(q: RegisterRequest, users: seq<User>, nextId: nat)
    requires q.name != "" && q.username != "" && q.password != ""
    requires |q.password| < 6 && |q.username| < 3
    ensures RegisterReply(q, users, nextId) == BadRequest(ShortPasswordError)
  {
  }

  /**
   * A registration succeeds exactly when the three fields are present, the
   * password has at least 6 characters, the username at least 3 and no user
   * has it yet; the token and the user shown carry the new id and username.
   */
  lemma RegisterSucceedsIff(q: RegisterRequest, users: seq<User>, nextId: nat)
    ensures RegisterReply(q, users, nextId).Ok? <==>
      q.name != "" && |q.password| >= 6 && |q.username| >= 3 && !HasUsername(users, q.username)
    ensures RegisterReply(q, users, nextId).Conflict? <==>
      q.name != "" && |q.password| >= 6 && |q.username| >= 3 && HasUsername(users, q.username)
    ensures RegisterReply(q, users, nextId).Ok? ==>
      var s := RegisterReply(q, users, nextId).body;
      s.token.userId == s.user.id == nextId && s.token.username == s.user.username == q.username && s.user.name == q.name
  {
  }
}
