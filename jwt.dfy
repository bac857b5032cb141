/** Signed, time-limited tokens, kept symbolic: only the holder of a secret can produce a token under it. */
module Jwt {
  import opened Wrappers

  type UserId = nat

  /** The three signing secrets: the module default, the refresh secret and the magic-link secret. */
  datatype Secret = AccessSecret | RefreshSecret | MagicLinkSecret

  /** A token as presented by a client: a signed claim set, or anything else. */
  datatype Token =
    | Signed(userId: UserId, secret: Secret, issuedAt: int, expiresAt: int)
    | Malformed

  datatype JwtError = InvalidSignature | Expired | MalformedToken

  /** Validity periods in seconds: '1h', '100d' and '15m'. */
  const AccessTtl: int := 60 * 60
  const RefreshTtl: int := 100 * 24 * 60 * 60
  const MagicLinkTtl: int := 15 * 60

  /** `jwtService.sign({ userId }, { expiresIn, secret })` at time `now`. */
  function Sign(userId: UserId, secret: Secret, now: int, ttl: int): (t: Token)
    ensures Verify(t, secret, now + ttl) == Err(Expired)
    ensures forall s :: s != secret ==> Verify(t, s, now) == Err(InvalidSignature)
  {
    Signed(userId, secret, now, now + ttl)
  }

  /** `jwtService.verify(token, { secret })` at time `now`: the token is expired once `now` reaches `exp`. */
  function Verify(t: Token, secret: Secret, now: int): (r: Result<UserId, JwtError>)
    ensures r.Ok? <==> t.Signed? && t.secret == secret && now < t.expiresAt
    ensures r.Ok? ==> r.value == t.userId
  {
    match t
    case Malformed => Err(MalformedToken)
    case Signed(userId, s, _, exp) =>
      if s != secret then Err(InvalidSignature)
      else if now >= exp then Err(Expired)
      else Ok(userId)
  }

  /** A freshly signed token verifies under its own secret until it expires, and under no other. */
  lemma VerifySigned(userId: UserId, secret: Secret, issued: int, ttl: int, s: Secret, now: int)
    ensures Verify(Sign(userId, secret, issued, ttl), s, now) ==
      if s != secret then Err(InvalidSignature)
      else if now < issued + ttl then Ok(userId)
      else Err(Expired)
  {
  }
}
