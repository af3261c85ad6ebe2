/**
 * The password hasher of the auth service. bcrypt is a foreign call; it is
 * replaced here by a keyed stand-in digest. The salt, which bcrypt draws at
 * random, is an explicit argument, and the hash embeds it, as a bcrypt hash
 * string does, so that verification needs nothing else.
 */
module Hasher {

  datatype PasswordHash = PasswordHash(salt: string, digest: seq<int>)

  /** The key word the salt contributes at position `i`. */
  function SaltWord(salt: string, i: nat): int {
    if |salt| == 0 then 0 else salt[i % |salt|] as int
  }

  function Digest(password: string, salt: string): (d: seq<int>)
    ensures |d| == |password|
  {
    seq(|password|, i requires 0 <= i < |password| => password[i] as int + SaltWord(salt, i))
  }

  /** `hash_password`: the salted hash of `password`. */
  function HashPassword(password: string, salt: string): (h: PasswordHash)
    ensures h.salt == salt
  {
    PasswordHash(salt, Digest(password, salt))
  }

  /** `verify_password`: recompute the digest with the salt the hash carries and compare. */
  function VerifyPassword(password: string, h: PasswordHash): (ok: bool)
    ensures ok <==> h == HashPassword(password, h.salt)
  {
    Digest(password, h.salt) == h.digest
  }

  /** A hash verifies against the password it was made from, whatever the salt. */
  lemma VerifyAfterHash(password: string, salt: string)
    ensures VerifyPassword(password, HashPassword(password, salt))
  {
  }

  /** For a fixed salt the stand-in digest is injective. */
  lemma DigestInjective(p: string, q: string, salt: string)
    ensures Digest(p, salt) == Digest(q, salt) <==> p == q
  {
    if Digest(p, salt) == Digest(q, salt) {
      forall i | 0 <= i < |p|
        ensures p[i] == q[i]
      {
        assert Digest(p, salt)[i] == Digest(q, salt)[i];
      }
    }
  }

  /** No password other than the hashed one verifies against the hash. */
  lemma VerifyRejectsOther(password: string, other: string, salt: string)
    requires other != password
    ensures !VerifyPassword(other, HashPassword(password, salt))
  {
    DigestInjective(other, password, salt);
  }

  /** Two hashes of one password made with different salts differ, yet both verify. */
  lemma SaltedHashesDiffer(password: string, salt1: string, salt2: string)
    requires salt1 != salt2
    ensures HashPassword(password, salt1) != HashPassword(password, salt2)
    ensures VerifyPassword(password, HashPassword(password, salt1))
    ensures VerifyPassword(password, HashPassword(password, salt2))
  {
  }
}
