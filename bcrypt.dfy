/** A stand-in for the bcrypt library (`bcryptjs`) that both the passcode utilities and the user
    model call. A hash is the cost prefix, a 22-character salt and a digest of the secret; the
    digest is taken to be the secret itself, an idealised collision-free digest. `Compare` works
    the way `bcrypt.compare` does: it re-hashes the candidate with the salt read back from the
    stored hash and compares the two strings. */
module Bcrypt {

  /** Version and cost factor 10, as `bcrypt.genSalt(10)` produces. */
  const Prefix: string := "$2a$10$"

  /** The random part of `bcrypt.genSalt(10)`. */
  type Salt = s: string | |s| == 22 witness "abcdefghijklmnopqrstuv"

  function Hash(secret: string, salt: Salt): (h: string)
    ensures |h| == |Prefix| + 22 + |secret|
    ensures h[..|Prefix|] == Prefix && h[|Prefix|..|Prefix| + 22] == salt
  {
    Prefix + salt + secret
  }

  /** `bcrypt.compare(candidate, hashed)`. */
  predicate Compare(candidate: string, hashed: string) {
    |hashed| >= |Prefix| + 22 && hashed[..|Prefix|] == Prefix
    && Hash(candidate, hashed[|Prefix|..|Prefix| + 22]) == hashed
  }

  /** Round trip: a secret always matches its own hash, whatever the salt. */
  lemma CompareOwnHash(secret: string, salt: Salt)
    ensures Compare(secret, Hash(secret, salt))
  {
  }

  /** Only the hashed secret matches: a different candidate is refused. */
  lemma {:induction false} CompareOnlyOwnHash(candidate: string, secret: string, salt: Salt)
    ensures Compare(candidate, Hash(secret, salt)) <==> candidate == secret
  {
    var h := Hash(secret, salt);
    if Compare(candidate, h) {
      assert Hash(candidate, salt) == h;
      assert candidate == h[|Prefix| + 22..] == secret;
    }
  }
}
