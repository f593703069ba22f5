/**
 * How a rejected request reaches the client's `catch` blocks: axios either
 * delivered a response with a status (and possibly a body the handler
 * reads), sent the request and got nothing back, or failed before sending.
 */
module Http {
  /**
   * `data` is the part of the error body the handler looks at, "" when it is
   * absent or falsy: the body itself for the profile handlers, its `message`
   * field for sign-up; the other handlers ignore it.
   */
  datatype Failure = Response(status: nat, data: string) | NoResponse | Unexpected

  const NetworkError := "Network error. Please check your connection."
}
