/**
 * The token service (`jsonwebtoken` with HS256), modelled symbolically.
 *
 * A signature is the term `Hs256(key, payload)`: only a holder of the key can
 * build the one that matches a payload. `Verify` follows the library's order:
 * the signature is checked first, then the expiry (`now >= exp` is expired).
 * Times are in whole seconds, as in the `iat` and `exp` claims.
 */
module Tokens {

  /** `expiresIn: "1h"`. */
  const EXPIRES_IN: nat := 3600

  /** The decoded claims: the signed object `{id, email}` plus the library's `iat` and `exp`. */
  datatype Payload = Payload(id: string, email: string, iat: nat, exp: nat)

  datatype Signature = Hs256(key: string, signed: Payload)

  datatype Token = Token(payload: Payload, signature: Signature)

  /** What `jwt.verify` returns or throws, by error name. */
  datatype JwtOutcome =
    | Decoded(payload: Payload)
    | TokenExpiredError(expiredAt: nat)
    | JsonWebTokenError(message: string)
    | OtherVerifyError(name: string)

  /** `jwt.sign({ id, email }, secret, { expiresIn: "1h" })` at time `now`. */
  function Sign(id: string, email: string, secret: string, now: nat): (t: Token)
    ensures t.payload.id == id && t.payload.email == email
    ensures t.payload.iat == now && t.payload.exp == now + EXPIRES_IN
    ensures Verify(t, secret, now) == Decoded(t.payload)
  {
    var p := Payload(id, email, now, now + EXPIRES_IN);
    Token(p, Hs256(secret, p))
  }

  /** `jwt.verify(token, secret)` at time `now`. */
  function Verify(t: Token, secret: string, now: nat): (o: JwtOutcome)
    ensures o.Decoded? <==> t.signature == Hs256(secret, t.payload) && now < t.payload.exp
    ensures o.Decoded? ==> o.payload == t.payload
    ensures o.TokenExpiredError? <==> t.signature == Hs256(secret, t.payload) && t.payload.exp <= now
    ensures o.JsonWebTokenError? <==> t.signature != Hs256(secret, t.payload)
    ensures !o.OtherVerifyError?
  {
    if t.signature != Hs256(secret, t.payload) then JsonWebTokenError("invalid signature")
    else if now >= t.payload.exp then TokenExpiredError(t.payload.exp)
    else Decoded(t.payload)
  }

  /** A token verifies, with exactly the claims it was issued with, for one hour after issuance. */
  lemma IssuedTokenVerifies(id: string, email: string, secret: string, issuedAt: nat, now: nat)
    requires issuedAt <= now < issuedAt + EXPIRES_IN
    ensures Verify(Sign(id, email, secret, issuedAt), secret, now) == Decoded(Payload(id, email, issuedAt, issuedAt + EXPIRES_IN))
  {
  }

  /** From one hour after issuance on, the same token is reported expired. */
  lemma IssuedTokenExpires(id: string, email: string, secret: string, issuedAt: nat, now: nat)
    requires issuedAt + EXPIRES_IN <= now
    ensures Verify(Sign(id, email, secret, issuedAt), secret, now) == TokenExpiredError(issuedAt + EXPIRES_IN)
  {
  }

  /** A token signed with another key is invalid, however fresh. */
  lemma ForeignKeyRejected(id: string, email: string, secret: string, other: string, issuedAt: nat, now: nat)
    requires other != secret
    ensures Verify(Sign(id, email, other, issuedAt), secret, now).JsonWebTokenError?
  {
  }

  /** Replacing the signature of a genuine token makes it invalid. */
  lemma ForgedSignatureRejected(t: Token, secret: string, forged: Signature, now: nat)
    requires t.signature == Hs256(secret, t.payload)
    requires forged != t.signature
    ensures Verify(Token(t.payload, forged), secret, now).JsonWebTokenError?
  {
  }

  /** Altering the claims under a genuine signature makes the token invalid. */
  lemma AlteredClaimsRejected(t: Token, secret: string, altered: Payload, now: nat)
    requires t.signature == Hs256(secret, t.payload)
    requires altered != t.payload
    ensures Verify(Token(altered, t.signature), secret, now).JsonWebTokenError?
  {
  }
}
