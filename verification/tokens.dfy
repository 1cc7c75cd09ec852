/**
 Access tokens (JSON Web Tokens, RFC 7519) reduced to what the service
 relies on: a token signed by the service carries a `sessionId` claim, an
 issued-at time and an expiry one hour later; verification either yields
 those claims or fails because the text is not a token the service signed
 or because the token has expired. The signature scheme and the shared
 secret are not modelled: a token is either `Signed` by the service or
 arbitrary `Text`. The clock is a parameter in milliseconds, as
 `Date.now()` returns it.
 */
module Tokens {
  import opened Common

  /** `expiresIn: '1h'`. */
  const LifetimeSeconds: nat := 3600

  /** Payload of a minted token: `{ sessionId, iat, exp }`, times in
      seconds since the epoch (NumericDate, section 2 of RFC 7519). */
  datatype Claims = Claims(sessionId: string, iat: nat, exp: nat)

  /** A credential as presented by a caller. */
  datatype Token = Signed(claims: Claims) | Text(raw: string)

  /** Why verification rejected a token. */
  datatype VerifyError = Invalid | Expired

  /** JavaScript truthiness of an optional token: a signed token is never
      the empty string. */
  predicate TokenTruthy(t: Option<Token>) {
    t.Some? && (t.value.Signed? || t.value.raw != "")
  }

  /** `Math.floor(Date.now() / 1000)`: the NumericDate of a clock reading. */
  function Seconds(nowMs: nat): nat {
    nowMs / 1000
  }

  /** `jwt.sign({ sessionId }, secret, { expiresIn: '1h' })` at `nowMs`. */
  function Sign(sessionId: string, nowMs: nat): (t: Token)
    ensures t.Signed? && t.claims.sessionId == sessionId
    ensures t.claims.iat * 1000 <= nowMs < (t.claims.iat + 1) * 1000
    ensures t.claims.exp == t.claims.iat + LifetimeSeconds
  {
    Signed(Claims(sessionId, Seconds(nowMs), Seconds(nowMs) + LifetimeSeconds))
  }

  /** `jwt.verify(token, secret)` at `nowMs`. Per section 4.1.4 of RFC 7519
      the current time must be strictly before `exp`. */
  function Verify(t: Token, nowMs: nat): (r: Result<Claims, VerifyError>)
    ensures r.Success? ==> t.Signed? && r.value == t.claims
    ensures r.Success? <==> t.Signed? && nowMs < t.claims.exp * 1000
    ensures r == Failure(Invalid) <==> t.Text?
  {
    match t
    case Text(_) => Failure(Invalid)
    case Signed(c) => if Seconds(nowMs) >= c.exp then Failure(Expired) else Success(c)
  }

  /** A freshly signed token resolves to the session it was minted for
      until one hour (to the second) after issue, and is reported expired
      from then on. */
  lemma SignVerify(sessionId: string, issuedMs: nat, nowMs: nat)
    ensures var r := Verify(Sign(sessionId, issuedMs), nowMs);
            Seconds(nowMs) < Seconds(issuedMs) + LifetimeSeconds
            <==> r.Success? && r.value.sessionId == sessionId
    ensures var r := Verify(Sign(sessionId, issuedMs), nowMs);
            Seconds(nowMs) >= Seconds(issuedMs) + LifetimeSeconds <==> r == Failure(Expired)
  {
  }

  /** Expiry is final: a token rejected as expired at some time is still
      rejected at every later time, and one accepted is accepted earlier. */
  lemma ExpiryIsMonotone(t: Token, earlierMs: nat, laterMs: nat)
    requires earlierMs <= laterMs
    ensures Verify(t, laterMs).Success? ==> Verify(t, earlierMs) == Verify(t, laterMs)
    ensures Verify(t, earlierMs) == Failure(Expired) ==> Verify(t, laterMs) == Failure(Expired)
  {
  }
}
