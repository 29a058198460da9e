/**
 * The foreign calls the authentication service makes, as parameters: the bcrypt
 * password hasher and the JSON Web Token signer (RFC 7519). Nothing about them
 * is assumed except, where a lemma asks for it, that a password always verifies
 * against its own hash.
 */
module Crypto {
  import opened Wrappers
  import opened Users

  /** The cost factor passed to the hasher at signup. */
  const SaltRounds := 10

  /** The random salt the hasher draws for each call. */
  type Salt = seq<int>

  /** `hash(password, rounds, salt)` and `compare(plaintext, hash)`. */
  datatype Bcrypt = Bcrypt(hash: (string, nat, Salt) -> string, compare: (string, string) -> bool)

  /** The token payload `{email, sub}`; `sub` may be undefined. */
  datatype Claims = Claims(email: string, sub: Option<Id>)

  /** `JwtService.sign`: payload to token. */
  type Signer = Claims -> string

  /** The one property assumed of bcrypt: a password verifies against any hash made from it. */
  ghost predicate HashRoundTrip(b: Bcrypt)
  {
    forall p, rounds, salt :: b.compare(p, b.hash(p, rounds, salt))
  }
}
