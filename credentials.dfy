/** The two cryptographic collaborators of the user service, bcrypt and
    JSON Web Tokens, reduced to the one property each that the service relies on. */
module Credentials {
  import opened Common

  /** bcrypt reads at most 72 bytes of a password and ignores the rest. */
  const BcryptMaxLength: nat := 72

  /** The part of a password bcrypt actually hashes. */
  function Significant(password: string): (r: string)
    ensures |r| <= BcryptMaxLength
    ensures |r| <= |password| && r == password[..|r|]
    ensures |password| <= BcryptMaxLength ==> r == password
  {
    if |password| <= BcryptMaxLength then password else password[..BcryptMaxLength]
  }

  /** What `bcrypt.hash(password, 10)` stores: a hash of the password's first 72
      bytes, bound to the salt drawn for that call. The model keeps the secret
      inside a value that is never a string, so no code path can hand it out as
      one; one-wayness and the cost factor are not modelled. */
  datatype PasswordHash = Bcrypt(salt: string, secret: string)

  function Hash(password: string, salt: string): PasswordHash {
    Bcrypt(salt, Significant(password))
  }

  /** `bcrypt.compare(password, hash)`. */
  predicate Matches(password: string, hash: PasswordHash) {
    hash.secret == Significant(password)
  }

  /** A hash accepts the password it was made from, and exactly the passwords that
      agree with it in their first 72 bytes; up to that length, no other. */
  lemma HashAcceptsExactlyItsPassword(password: string, salt: string, attempt: string)
    ensures Matches(password, Hash(password, salt))
    ensures Matches(attempt, Hash(password, salt)) <==> Significant(attempt) == Significant(password)
    ensures |password| <= BcryptMaxLength && |attempt| <= BcryptMaxLength ==>
      (Matches(attempt, Hash(password, salt)) <==> attempt == password)
  {
  }

  /** Two passwords that differ only after their 72nd byte are accepted by the
      same hash. */
  lemma LongPasswordsCollide(prefix: string, a: string, b: string, salt: string)
    requires |prefix| == BcryptMaxLength
    ensures Matches(prefix + b, Hash(prefix + a, salt))
  {
    assert (prefix + a)[..BcryptMaxLength] == prefix;
    assert (prefix + b)[..BcryptMaxLength] == prefix;
  }

  /** The compact serialisation of a token whose payload is `{ userId }`. */
  const TokenPrefix: string := "jwt."

  /** `jwt.sign({ userId }, secret)`: expiry and the signature bytes are not modelled. */
  function Sign(userId: Id): string {
    TokenPrefix + userId
  }

  /** `jwt.verify(token, secret)`, giving the payload's userId, or None when it throws. */
  function Verify(token: string): Option<Id> {
    if |token| >= |TokenPrefix| && token[..|TokenPrefix|] == TokenPrefix
    then Some(token[|TokenPrefix|..])
    else None
  }

  /** A token the service signed verifies to the user it was signed for. */
  lemma VerifySigned(userId: Id)
    ensures Verify(Sign(userId)) == Some(userId)
  {
    assert Sign(userId)[..|TokenPrefix|] == TokenPrefix;
    assert Sign(userId)[|TokenPrefix|..] == userId;
  }

  /** Verification accepts exactly the signed tokens, and signing is injective. */
  lemma VerifyOnlySigned(token: string)
    ensures Verify(token).Some? <==> exists u :: Sign(u) == token
    ensures Verify(token).Some? ==> Sign(Verify(token).value) == token
  {
    if Verify(token).Some? {
      assert Sign(Verify(token).value) == token;
    }
    forall u | Sign(u) == token ensures Verify(token).Some? {
      VerifySigned(u);
    }
  }
}
