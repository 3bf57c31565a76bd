/** Password hashing as database.py uses bcrypt: get_hashed_password calls
    hashpw with a fresh salt from gensalt, and validate_user calls checkpw
    on the stored hash. The key derivation itself is left abstract: the
    store is given one, and the salt is an input. */
module Passwords {

  type Bytes = seq<bv8>

  /** bcrypt's derivation of a digest from a password and a salt. */
  type KeyDerivation = (string, Bytes) -> Bytes

  /** The value hashpw returns and an account stores: bcrypt keeps the salt
      next to the digest, so checkpw needs nothing else. */
  datatype PasswordHash = PasswordHash(salt: Bytes, digest: Bytes)

  /** get_hashed_password (database.py lines 21-23), with the salt that
      gensalt would draw given as a parameter. */
  function HashPassword(kdf: KeyDerivation, password: string, salt: Bytes): (h: PasswordHash)
    ensures h.salt == salt
  {
    PasswordHash(salt, kdf(password, salt))
  }

  /** checkpw: derive again with the stored salt and compare digests. */
  predicate CheckPassword(kdf: KeyDerivation, password: string, stored: PasswordHash): (ok: bool)
    ensures ok <==> stored == HashPassword(kdf, password, stored.salt)
  {
    kdf(password, stored.salt) == stored.digest
  }

  /** A password always checks against a hash of itself, whatever the salt. */
  lemma CheckAcceptsOwnHash(kdf: KeyDerivation, password: string, salt: Bytes)
    ensures CheckPassword(kdf, password, HashPassword(kdf, password, salt))
  {
  }

  /** The derivation tells passwords apart under each salt. */
  ghost predicate SeparatesPasswords(kdf: KeyDerivation) {
    forall salt, p, q :: kdf(p, salt) == kdf(q, salt) ==> p == q
  }

  /** If the derivation separates passwords, a hash of p accepts p and no
      other password. */
  lemma CheckAcceptsOnlyOwnPassword(kdf: KeyDerivation, p: string, q: string, salt: Bytes)
    requires SeparatesPasswords(kdf)
    ensures CheckPassword(kdf, q, HashPassword(kdf, p, salt)) <==> q == p
  {
  }
}
