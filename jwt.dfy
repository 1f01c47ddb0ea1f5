/** Signed session tokens (RFC 7519), as `jsonwebtoken` issues and checks them.
    A token is kept as what its compact serialisation carries: the claims, the
    issue time, the expiry and the secret it was signed with. Signing is
    deterministic, so two tokens with the same claims signed with the same
    secret in the same second are the same string. */
module Jwt {
  import opened Common

  /** The payloads the account model signs. */
  datatype Claims =
    | AccessClaims(userId: UserId, email: string, username: string)
    | RefreshClaims(userId: UserId)

  /** ACCESS_TOKEN_SECRET, REFRESH_TOKEN_SECRET, or any other key (a forgery). */
  datatype SigningKey = AccessTokenSecret | RefreshTokenSecret | OtherSecret(name: string)

  /** A signed token; `iat` and `exp` are in seconds since the epoch. */
  datatype Token = Token(claims: Claims, iat: int, exp: int, key: SigningKey)

  /** What a client presents where a token is expected: nothing, a string that
      is not a signed token, or a signed token. */
  datatype Presented = Absent | Text(raw: string) | Signed(token: Token)

  datatype VerifyError = Malformed | InvalidSignature | Expired

  datatype Verification = Verified(claims: Claims) | Rejected(reason: VerifyError)

  /** `Math.floor(Date.now() / 1000)`. */
  function Seconds(nowMs: nat): nat {
    nowMs / 1000
  }

  /** `jwt.sign(claims, secret, { expiresIn })`, with `expiresIn` in seconds. */
  function Sign(claims: Claims, key: SigningKey, nowMs: nat, expiresIn: nat): (t: Token)
    ensures t.claims == claims && t.key == key
    ensures t.iat == Seconds(nowMs) && t.exp == Seconds(nowMs) + expiresIn
  {
    Token(claims, Seconds(nowMs), Seconds(nowMs) + expiresIn, key)
  }

  /** `jwt.verify(presented, secret)`: the signature must be by `secret`, and by
      section 4.1.4 of RFC 7519 the current time must be before `exp`. */
  function Verify(presented: Presented, key: SigningKey, nowMs: nat): (v: Verification)
    ensures v.Verified? <==>
              presented.Signed? && presented.token.key == key && Seconds(nowMs) < presented.token.exp
    ensures v.Verified? ==> v.claims == presented.token.claims
    ensures presented.Signed? && presented.token.key != key ==> v == Rejected(InvalidSignature)
  {
    match presented
    case Absent => Rejected(Malformed)
    case Text(_) => Rejected(Malformed)
    case Signed(t) =>
      if t.key != key then Rejected(InvalidSignature)
      else if Seconds(nowMs) >= t.exp then Rejected(Expired)
      else Verified(t.claims)
  }

  /** A token verifies, giving back its claims, exactly under the key it was
      signed with and strictly before its expiry second. */
  lemma VerifySigned(claims: Claims, key: SigningKey, issuedMs: nat, expiresIn: nat,
                     verifyKey: SigningKey, nowMs: nat)
    ensures Verify(Signed(Sign(claims, key, issuedMs, expiresIn)), verifyKey, nowMs) == Verified(claims)
            <==> verifyKey == key && Seconds(nowMs) < Seconds(issuedMs) + expiresIn
  {
  }

  /** Tokens signed in different seconds differ, whatever their claims. */
  lemma SignDiffersAcrossSeconds(c1: Claims, c2: Claims, key: SigningKey, t1: nat, t2: nat, ttl: nat)
    requires Seconds(t1) != Seconds(t2)
    ensures Sign(c1, key, t1, ttl) != Sign(c2, key, t2, ttl)
  {
  }
}
