/** SecureHashUtils: the password "hash" and the credential check built on it.
    The digest is currently the message itself. */
module SecureHash {

  function Hash(message: string): (digest: string)
    ensures digest == message
  {
    message
  }

  /** True when hashing `message` reproduces the stored value. */
  predicate Matches(message: string, hashedMessage: string)
    ensures Matches(message, hashedMessage) <==> hashedMessage == message
  {
    Hash(message) == hashedMessage
  }

  lemma HashIsIdentity(message: string)
    ensures Hash(message) == message
  {
  }

  lemma MatchesIffEqual(message: string, hashedMessage: string)
    ensures Matches(message, hashedMessage) <==> hashedMessage == message
  {
  }

  /** Every password matches its own hash. */
  lemma MatchesRoundTrip(password: string)
    ensures Matches(password, Hash(password))
  {
  }

  /** The identity is injective, so a different password never matches. */
  lemma DistinctPasswordsNeverMatch(p1: string, p2: string)
    requires p1 != p2
    ensures !Matches(p1, Hash(p2))
  {
  }
}
