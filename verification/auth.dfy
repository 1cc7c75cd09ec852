/**
 The `verifyToken` request middleware (middlewares/auth.js): it reads the
 raw `authorization` header, answers 403 when there is none, 401 when the
 token does not verify, and otherwise records the token's session on the
 request and passes it on.
 */
module Auth {
  import opened Common
  import opened Tokens

  const MissingTokenError: string := "Token no proporcionado"
  const InvalidTokenError: string := "Token inválido"

  /** The parts of an incoming request the middleware reads or writes:
      the `authorization` header, `req.sessionId`, and every other field
      (opaque to the middleware). */
  datatype Request = Request(authorization: Option<Token>, sessionId: Option<string>, others: map<string, string>)

  /** Exactly one of: an error response, or one call of `next` with the
      (possibly updated) request. */
  datatype Decision = Reject(status: nat, error: string) | Next(request: Request)

  /** `verifyToken(req, res, next)` with the clock at `nowMs`. The header
      value is verified as it is, without stripping any scheme prefix. */
  function VerifyToken(req: Request, nowMs: nat): (d: Decision)
    ensures !TokenTruthy(req.authorization) <==> d == Reject(403, MissingTokenError)
    ensures TokenTruthy(req.authorization) && Verify(req.authorization.value, nowMs).Failure?
            <==> d == Reject(401, InvalidTokenError)
    ensures d.Next? <==> TokenTruthy(req.authorization) && Verify(req.authorization.value, nowMs).Success?
    ensures d.Next? ==> d.request.authorization == req.authorization && d.request.others == req.others
    ensures d.Next? ==> d.request.sessionId == Some(Verify(req.authorization.value, nowMs).value.sessionId)
  {
    if !TokenTruthy(req.authorization) then Reject(403, MissingTokenError)
    else match Verify(req.authorization.value, nowMs)
      case Failure(_) => Reject(401, InvalidTokenError)
      case Success(claims) => Next(req.(sessionId := Some(claims.sessionId)))
  }

  /** A token minted for a session lets a request through while it is
      valid, tagged with exactly that session; after expiry the request is
      refused with 401 and `req.sessionId` is never set. */
  lemma MintedTokenAuthenticates(req: Request, sessionId: string, issuedMs: nat, nowMs: nat)
    requires req.authorization == Some(Sign(sessionId, issuedMs))
    ensures Seconds(nowMs) < Seconds(issuedMs) + LifetimeSeconds
            ==> VerifyToken(req, nowMs) == Next(req.(sessionId := Some(sessionId)))
    ensures Seconds(nowMs) >= Seconds(issuedMs) + LifetimeSeconds
            ==> VerifyToken(req, nowMs) == Reject(401, InvalidTokenError)
  {
    SignVerify(sessionId, issuedMs, nowMs);
  }

  /** Any non-empty header that is not a token the service signed is
      refused with 401. */
  lemma UnsignedHeaderRejected(req: Request, raw: string, nowMs: nat)
    requires raw != "" && req.authorization == Some(Text(raw))
    ensures VerifyToken(req, nowMs) == Reject(401, InvalidTokenError)
  {
  }
}
