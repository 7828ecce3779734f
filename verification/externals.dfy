/** The libraries the handlers call but which are not part of this model: bcrypt, jsonwebtoken and
    the express-validator sanitizers. Each is an uninterpreted function carried in a record, and the
    few facts the proofs need are stated as predicates over that record. */
module Externals {
  import opened Base

  /** `bcrypt.hash(p, 10)` and `bcrypt.compare(p, h)`. The random salt is folded into `hash`. */
  datatype Crypto = Crypto(hash: string -> string, compare: (string, string) -> bool)

  /** The one fact about bcrypt the model relies on: a password matches its own hash. */
  ghost predicate CryptoSound(c: Crypto) {
    forall p :: c.compare(p, c.hash(p))
  }

  /** The decoded payload of a verified token; `user` is absent when the signed object had none. */
  datatype Payload = Payload(user: Option<Identity>)

  /** What `jwt.verify` does with a token: return the payload, or throw a `JsonWebTokenError`
      (bad signature, malformed, empty) or a `TokenExpiredError`. */
  datatype Verdict = Valid(payload: Payload) | Malformed | Expired

  /** `jwt.sign({user: identity}, SECRET, {expiresIn: '1y'})` and `jwt.verify(token, SECRET)`.
      The clock and the secret are folded into the two functions. */
  datatype Jwt = Jwt(sign: Identity -> string, verify: string -> Verdict)

  /** A freshly signed token verifies to exactly the identity it was signed over, and, being
      base64url segments joined by dots, is non-empty and has no space in it. */
  ghost predicate JwtSound(j: Jwt) {
    forall i :: j.verify(j.sign(i)) == Valid(Payload(Some(i))) && j.sign(i) != "" && ' ' !in j.sign(i)
  }

  /** `jwt.verify` applied to a value that may be missing: jsonwebtoken throws a
      `JsonWebTokenError` ("jwt must be provided") for an absent or empty token. */
  function Verify(j: Jwt, token: Option<string>): (r: Verdict)
    ensures token.None? ==> r == Malformed
    ensures token.Some? && token.value == "" ==> r == Malformed
    ensures token.Some? && token.value != "" ==> r == j.verify(token.value)
  {
    match token
    case None => Malformed
    case Some(t) => if t == "" then Malformed else j.verify(t)
  }

  /** express-validator's `trim()`, `escape()`, `isEmail()` and `normalizeEmail()`. */
  datatype Sanitizers = Sanitizers(
    trim: string -> string,
    escape: string -> string,
    isEmail: string -> bool,
    normalizeEmail: string -> string)

  /** Everything a handler needs from outside the model. */
  datatype Env = Env(crypto: Crypto, jwt: Jwt, sx: Sanitizers)

  /** The output of `cryptoRandomString({length: 10, type: 'url-safe'})`. */
  type RandomToken = t: string | |t| == 10 witness "0000000000"
}
