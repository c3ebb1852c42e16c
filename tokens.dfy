/** JSON Web Tokens as the three handlers that sign them use them. Signing
    and the secrets are not modelled cryptographically: each kind of claims is
    signed with its own server secret (the activation secret, the session
    secret, the reset secret), so a token verifies under exactly the secret of
    the claims it carries. Expiry follows jsonwebtoken: `exp` is in whole
    seconds and a token is expired once the current second reaches it. */
module Tokens {
  import opened Records

  datatype Claims =
    | Activation(user: PendingUser, otp: int)  // register: `{ user, otp }`
    | Session(id: Id)                          // loginUser: `{ _id }`
    | ResetRequest(email: string)              // forgotPassword: `{ email }`

  datatype Secret = ActivationSecret | SessionSecret | ForgotSecret

  function SecretOf(c: Claims): Secret
  {
    match c
    case Activation(_, _) => ActivationSecret
    case Session(_) => SessionSecret
    case ResetRequest(_) => ForgotSecret
  }

  /** A token as a client presents it: either one this server signed, with an
      optional expiry second, or anything else a client can send. */
  datatype Token = Signed(claims: Claims, exp: Option<int>) | Malformed(raw: string)

  datatype JwtError = JwtMalformed | InvalidSignature | JwtExpired

  /** `expiresIn: "5m"` and `expiresIn: "15d"`, in seconds. */
  const ACTIVATION_LIFETIME: nat := 5 * 60
  const SESSION_LIFETIME: nat := 15 * 24 * 60 * 60

  /** jsonwebtoken's clock: `Math.floor(Date.now() / 1000)`. */
  function Seconds(nowMs: int): int
  {
    nowMs / 1000
  }

  /** `jwt.verify(token, secret)`: the claims, or the error it throws. */
  function Verify(t: Token, secret: Secret, nowMs: int): (r: Result<Claims, JwtError>)
    ensures r.Ok? ==> t.Signed? && r.value == t.claims && SecretOf(r.value) == secret
  {
    match t
    case Malformed(_) => Err(JwtMalformed)
    case Signed(claims, exp) =>
      if SecretOf(claims) != secret then Err(InvalidSignature)
      else if exp.Some? && Seconds(nowMs) >= exp.value then Err(JwtExpired)
      else Ok(claims)
  }

  /** `jwt.sign(claims, secretOf(claims), { expiresIn: lifetime })` at time
      `nowMs`; a lifetime of None is a token without expiry. The token
      verifies to its claims under its own secret until its lifetime has
      passed, and never under another secret. */
  function Sign(c: Claims, nowMs: int, lifetime: Option<nat>): (t: Token)
    ensures lifetime.Some? ==>
      forall later :: Seconds(later) < Seconds(nowMs) + lifetime.value ==>
        Verify(t, SecretOf(c), later) == Ok(c)
    ensures forall s: Secret, later :: s != SecretOf(c) ==> Verify(t, s, later) == Err(InvalidSignature)
    ensures lifetime.None? ==> forall later :: Verify(t, SecretOf(c), later) == Ok(c)
    ensures lifetime.Some? ==>
      forall later :: Seconds(later) >= Seconds(nowMs) + lifetime.value ==>
        Verify(t, SecretOf(c), later) == Err(JwtExpired)
  {
    Signed(c, if lifetime.Some? then Some(Seconds(nowMs) + lifetime.value) else None)
  }
}
