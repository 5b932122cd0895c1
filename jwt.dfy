/** A stand-in for `jsonwebtoken`: a token is the claims it carries plus its issue and expiry
    times. Signing cryptography is not modelled; a token either verifies (the signature is ours and
    it has not expired) or it does not. */
module Jwt {
  import opened Wrappers
  import opened Users

  /** `expiresIn: "365d"`, in seconds. */
  const EXPIRES_IN: nat := 365 * 24 * 60 * 60

  /** The claims the core ever puts in a token: `{id}` (password and OTP logins), `{sub, email}`
      (Google sign-in) and `{identifier}` (OTP login when the user store failed). */
  datatype Claims = Claims(id: Option<UserId>, sub: Option<UserId>, email: Slot, identifier: Option<string>)

  datatype Token = Token(claims: Claims, issuedAt: int, expiresAt: int)

  /** `jwt.sign(claims, secret, { expiresIn: "365d" })` at time `now`. */
  function Sign(claims: Claims, now: int): (t: Token)
    ensures t.claims == claims && t.expiresAt - t.issuedAt == EXPIRES_IN
  {
    Token(claims, now, now + EXPIRES_IN)
  }

  function IdClaims(id: UserId): Claims {
    Claims(Some(id), None, Missing, None)
  }

  /** `jwt.verify` accepts a token until (not including) its expiry second. */
  predicate Unexpired(t: Token, now: int) {
    now < t.expiresAt
  }

  /** A freshly signed token stays valid for a whole year and no longer. */
  lemma SignedTokenLifetime(claims: Claims, now: int, later: int)
    ensures Unexpired(Sign(claims, now), later) <==> later < now + EXPIRES_IN
  {
  }
}
