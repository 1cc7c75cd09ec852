/**
 Shared vocabulary of the session service model: optional values, results,
 the success/failure outcome of an opaque collaborator call, client
 identities, and the log of externally visible effects a step performs.
 */
module Common {

  /** A JavaScript value that may be `undefined`/`null`. */
  datatype Option<+T> = None | Some(value: T)

  /** The result of an operation that may throw. */
  datatype Result<+R, +E> = Success(value: R) | Failure(error: E)

  /** What an awaited call into an opaque collaborator (browser close,
      client destroy, message send, file write) did: it resolved, or it
      threw an error carrying a message. */
  datatype Outcome = Ok | Threw(message: string)

  /** Identity of one protocol client object. Two handles share a client
      exactly when they hold the same reference. */
  type ClientRef = nat

  /** A payload pushed to every connected observer (socket.io `emit`). */
  datatype Event =
    | QrEvent(sessionId: string, qr: string)
    | MessageEvent(sessionId: string, from: string, body: string, timestamp: string)

  /** Externally visible effects, in the order the source performs them. */
  datatype Effect =
    | Emit(event: Event)
    | Initialize(client: ClientRef)
    | CloseBrowser(client: ClientRef)
    | Destroy(client: ClientRef)
    | SendMessage(client: ClientRef, chatId: string, text: string)
    | WriteFile(fileName: string, data: string)

  /** JavaScript truthiness of an optional string field of a request body:
      `undefined` and the empty string are falsy. */
  predicate Truthy(s: Option<string>) {
    s.Some? && s.value != ""
  }

  /** Message of the error thrown when a session id is already registered. */
  function AlreadyExists(sessionId: string): string {
    "La sesión " + sessionId + " ya existe."
  }
}
