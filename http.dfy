/**
 * What a route handler answers, without the HTTP plumbing: a JSON body with
 * status 200, or an error status with the `error` message of its body.
 */
module Http {

  datatype Reply<T> =
    | Ok(body: T)
    | BadRequest(error: string)    // 400
    | Unauthorized(error: string)  // 401
    | Conflict(error: string)      // 409

  /** The message every handler sends with a 401 when the request carries no valid token. */
  const NotAuthenticated := "Não autenticado"
}
