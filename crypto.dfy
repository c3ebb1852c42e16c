/** bcrypt and the one-time password, with the randomness taken as an input.
    Salted hashing is not modelled: a digest is determined by its password,
    and comparing a password against a digest succeeds exactly for the
    password the digest was made from. */
module Crypto {
  import opened Records

  /** `bcrypt.hash(password, 10)`: the digest records the password it was
      made from, so different passwords give different digests. */
  function Hash(password: string): (h: Digest)
    ensures h.source == password
  {
    Digest(password)
  }

  /** `bcrypt.compare(password, digest)`. */
  function Matches(password: string, digest: Digest): (ok: bool)
    ensures ok <==> digest.source == password
  {
    digest == Hash(password)
  }

  /** A digest accepts the password it was made from and no other. */
  lemma MatchesOnlyOrigin(password: string, attempt: string)
    ensures Matches(attempt, Hash(password)) <==> attempt == password
  {
  }

  const OTP_RANGE := 1000000

  /** `Math.floor(Math.random() * 1000000)`, given the value `Math.random()`
      returned, which lies in [0, 1). */
  function Otp(random: real): (otp: int)
    requires 0.0 <= random < 1.0
    ensures 0 <= otp <= 999999
  {
    (random * OTP_RANGE as real).Floor
  }
}
