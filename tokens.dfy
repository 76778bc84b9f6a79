/**
 * Signed, expiring tokens as `jsonwebtoken` issues and checks them. The signature is
 * idealised: a token carries the key it was signed with, and only that key verifies it,
 * so a token cannot be forged or altered without the key. Expiry follows the library:
 * `exp` is in whole seconds and a token is rejected from the second `exp` on.
 */
module Tokens {
  import opened Common
  import opened UserModel

  /** What a token asserts: an entry ticket names only a registration; a session names a user and a role. */
  datatype Claims = QrClaims(registrationId: Id) | SessionClaims(id: Id, role: Role)

  datatype Jwt = Jwt(claims: Claims, iat: int, exp: int, key: string)

  /** `expiresIn: "2d"`, in seconds. */
  const QR_TTL: int := 2 * 24 * 60 * 60

  /** `expiresIn: "7d"`, in seconds. */
  const SESSION_TTL: int := 7 * 24 * 60 * 60

  /** `Math.floor(t / 1000)`: the library's clock, in whole seconds. */
  function Seconds(t: Time): int
  {
    t / 1000
  }

  /** `jwt.sign(claims, key, { expiresIn: ttl })` at time `now`. */
  function Sign(claims: Claims, key: string, ttl: int, now: Time): Jwt
  {
    Jwt(claims, Seconds(now), Seconds(now) + ttl, key)
  }

  /** `jwt.verify(token, key)` at time `now`: the claims, or nothing when the key is wrong or the token has expired. */
  function Verify(token: Jwt, key: string, now: Time): Option<Claims>
  {
    if token.key == key && Seconds(now) < token.exp then Some(token.claims) else None
  }

  /** A freshly signed token verifies under its own key, with its own claims, exactly until `ttl` seconds have passed. */
  lemma SignVerify(claims: Claims, key: string, ttl: int, issued: Time, now: Time)
    ensures Verify(Sign(claims, key, ttl, issued), key, now) ==
      if Seconds(now) < Seconds(issued) + ttl then Some(claims) else None
  {
  }

  /** No token verifies under a key other than the one it was signed with: session and ticket keys stay apart. */
  lemma WrongKeyRejected(token: Jwt, key: string, now: Time)
    requires token.key != key
    ensures Verify(token, key, now) == None
  {
  }
}
