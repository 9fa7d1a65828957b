/** Session tokens and the cryptographic primitives the server delegates to
    libraries. Hashing, comparison, signing and verification are not modelled:
    they are passed in as function values, and the salt and the clock are
    plain parameters of the operations that use them. */
module Session {
  import opened Common
  import opened UserModel

  type Token = string

  /** The token payload: exactly the user's id, username and role. */
  datatype Claims = Claims(userId: ObjectId, username: string, role: Role)

  /** `expiresIn: '24h'`, in seconds. */
  const TokenLifetime: nat := 24 * 60 * 60

  datatype Crypto = Crypto(
    hash: (string, string) -> string,      // (password, salt) -> stored hash
    compare: (string, string) -> bool,     // (password, stored hash) -> match
    sign: (Claims, nat) -> Token,          // (payload, lifetime) -> token
    verify: Token -> Option<Claims>)       // token -> payload, None when invalid or expired

  /** The payload issued for a user. */
  function ClaimsOf(u: User): (c: Claims)
    ensures c.userId == u.id && c.username == u.username && c.role == u.role
  {
    Claims(u.id, u.username, u.role)
  }

  /** A password matches the hash made from it. */
  ghost predicate HashesMatch(c: Crypto) {
    forall p, s :: c.compare(p, c.hash(p, s))
  }

  /** A freshly signed token verifies to its payload. */
  ghost predicate TokensVerify(c: Crypto) {
    forall claims, ttl :: c.verify(c.sign(claims, ttl)) == Some(claims)
  }
}
