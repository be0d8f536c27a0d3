/**
 * The sign-up page (`app/register/page.tsx`): the checks it makes before
 * sending anything, the request it sends, and the error and loading state
 * every path leaves behind.
 */
module RegisterPage {
  import opened Wrappers
  import opened Http
  import opened Accounts
  import RegisterRoute

  const MismatchError := "As senhas não coincidem"
  const GenericError := "Erro ao criar conta"
  const ConnectionError := "Erro de conexão. Tente novamente."

  /** The four inputs. */
  datatype Fields = Fields(name: string, username: string, password: string, confirmPassword: string)

  /**
   * The client checks, in order: the confirmation matches, the password has
   * 6 characters, the username 3; the message of the first that fails.
   */
  function ClientError(f: Fields): (e: Option<string>)
    ensures e.None? <==> f.password == f.confirmPassword && |f.password| >= 6 && |f.username| >= 3
  {
    if f.password != f.confirmPassword then Some(MismatchError)
    else if |f.password| < 6 then Some(RegisterRoute.ShortPasswordError)
    else if |f.username| < 3 then Some(RegisterRoute.ShortUsernameError)
    else None
  }

  /** Only the first failing check is reported: a mismatch hides the length checks, a short password the short username. */
  lemma ClientCheckOrder(f: Fields)
    ensures f.password != f.confirmPassword ==> ClientError(f) == Some(MismatchError)
    ensures f.password == f.confirmPassword && |f.password| < 6 ==> ClientError(f) == Some(RegisterRoute.ShortPasswordError)
  {
  }

  /** The body sent to `POST /api/auth/register`; the confirmation stays on the page. */
  function RequestOf(f: Fields): (q: RegisterRoute.RegisterRequest)
    ensures q.name == f.name && q.username == f.username && q.password == f.password
  {
    RegisterRoute.RegisterRequest(f.name, f.username, f.password)
  }

  /**
   * With every field filled in and the confirmation matching, the page
   * refuses exactly what the server would refuse as a bad request, with the
   * server's message; what it lets through the server accepts, or refuses
   * only because the username is taken.
   */
  lemma ClientAgreesWithServer(f: Fields, users: seq<User>, nextId: nat)
    requires f.name != "" && f.username != "" && f.password != "" && f.password == f.confirmPassword
    ensures var reply := RegisterRoute.RegisterReply(RequestOf(f), users, nextId);
      && (ClientError(f).Some? <==> reply.BadRequest?)
      && (reply.BadRequest? ==> ClientError(f) == Some(reply.error))
      && (ClientError(f).None? ==> reply.Ok? || reply.Conflict?)
  {
  }

  /** How the request ended: the server's answer, or a network failure. */
  datatype Outcome = Answered(reply: Reply<Session>) | ConnectionFailed

  /** The error shown after a submit: the client's, else the server's (or a generic one), else the connection error; none on success. */
  function SubmitError(f: Fields, outcome: Outcome): string {
    match ClientError(f)
    case Some(e) => e
    case None =>
      match outcome
      case ConnectionFailed => ConnectionError
      case Answered(reply) =>
        if reply.Ok? then "" else if reply.error == "" then GenericError else reply.error
  }

  /** After a request the server refused, the page shows the server's own message. */
  lemma ServerMessageShown(f: Fields, users: seq<User>, nextId: nat)
    requires ClientError(f).None?
    ensures var reply := RegisterRoute.RegisterReply(RequestOf(f), users, nextId);
      !reply.Ok? ==> SubmitError(f, Answered(reply)) == reply.error
    ensures RegisterRoute.RegisterReply(RequestOf(f), users, nextId).Ok? ==>
      SubmitError(f, Answered(RegisterRoute.RegisterReply(RequestOf(f), users, nextId))) == ""
  {
  }

  class Page {
    var fields: Fields
    var loading: bool
    var error: string

    constructor ()
      ensures fields == Fields("", "", "", "") && !loading && error == ""
    {
      fields := Fields("", "", "", "");
      loading := false;
      error := "";
    }

    /**
     * `handleSubmit`, where `outcome` is how the request would end: a
     * request is sent exactly when the client checks pass; the error is
     * cleared first and then set as `SubmitError` says; loading ends on
     * every path.
     */
    method HandleSubmit(outcome: Outcome) returns (sent: Option<RegisterRoute.RegisterRequest>)
      modifies this
      ensures fields == old(fields)
      ensures sent == if ClientError(fields).None? then Some(RequestOf(fields)) else None
      ensures error == SubmitError(fields, outcome)
      ensures !loading
    {
      loading := true;
      error := "";
      if fields.password != fields.confirmPassword {
        error := MismatchError;
        loading := false;
        return None;
      }
      if |fields.password| < 6 {
        error := RegisterRoute.ShortPasswordError;
        loading := false;
        return None;
      }
      if |fields.username| < 3 {
        error := RegisterRoute.ShortUsernameError;
        loading := false;
        return None;
      }
      sent := Some(RequestOf(fields));
      match outcome {
        case ConnectionFailed =>
          error := ConnectionError;
        case Answered(reply) =>
          if !reply.Ok? {
            error := if reply.error == "" then GenericError else reply.error;
          }
      }
      loading := false;
    }
  }
}
