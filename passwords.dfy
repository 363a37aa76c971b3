/**
 * bcrypt, as the user model uses it (`bcrypt.hashpw` with a fresh salt,
 * `bcrypt.checkpw`). The digest is kept symbolic: it records the salt and
 * the password it was derived from, so that checking accepts exactly the
 * original password. Hash collisions are not modelled.
 */
module Passwords {

  /** A bcrypt digest of `preimage` under `salt`. */
  datatype PasswordHash = Bcrypt(salt: string, preimage: string)

  /** `bcrypt.hashpw(password, salt)`. */
  function HashPw(password: string, salt: string): PasswordHash {
    Bcrypt(salt, password)
  }

  /** `bcrypt.checkpw(password, hashed)`. */
  predicate CheckPw(password: string, hashed: PasswordHash) {
    hashed.preimage == password
  }

  /** A digest accepts the password it was made from, and no other. */
  lemma CheckHashed(password: string, candidate: string, salt: string)
    ensures CheckPw(candidate, HashPw(password, salt)) <==> candidate == password
  {
  }
}
