/** Access tokens. Signing and verification belong to a JWT library that is
    not part of this model: a token is either one this service signed, with
    its claims readable, or something that does not verify (bad signature,
    wrong algorithm, not a JWT at all). */
module Tokens {
  import opened Outcomes

  /** Token lifetime: seven days. */
  const AccessTokenExpireMinutes: int := 60 * 24 * 7

  const MicrosPerSecond: int := 1000000

  /** Instants are microseconds since the epoch; the JWT `exp` claim and the
      library's clock are whole seconds, the fraction dropped. */
  function Seconds(instant: int): int {
    instant / MicrosPerSecond
  }

  /** The claims of a signed token: the subject (a user id), when present,
      and the expiry instant in whole seconds. */
  datatype Claims = Claims(sub: Option<string>, exp: int)

  datatype Token = Signed(claims: Claims) | Unverifiable

  /** The token the service issues for subject `sub` at instant `now`. */
  function IssueToken(sub: string, now: int): (t: Token)
    ensures t.Signed? && t.claims.sub == Some(sub)
    ensures t.claims.exp == Seconds(now) + AccessTokenExpireMinutes * 60
  {
    Signed(Claims(Some(sub), Seconds(now) + AccessTokenExpireMinutes * 60))
  }

  /** Decoding yields the claims of a token that verifies and has not
      expired; anything else is a decoding error. */
  function Decode(t: Token, now: int): (r: Option<Claims>)
    ensures r.Some? <==> t.Signed? && Seconds(now) <= t.claims.exp
    ensures r.Some? ==> r.value == t.claims
  {
    match t
    case Signed(c) => if Seconds(now) <= c.exp then Some(c) else None
    case Unverifiable => None
  }

  /** A freshly issued token decodes to its subject for its whole lifetime,
      and not after. */
  lemma IssuedTokenDecodes(sub: string, issuedAt: int, now: int)
    ensures Decode(IssueToken(sub, issuedAt), now).Some?
        <==> Seconds(now) <= Seconds(issuedAt) + AccessTokenExpireMinutes * 60
    ensures Decode(IssueToken(sub, issuedAt), now).Some? ==>
              Decode(IssueToken(sub, issuedAt), now).value.sub == Some(sub)
  {
  }

  /** Distinct subjects never share a token, nor do issue times in
      different seconds. */
  lemma IssueTokenInjective(a: string, b: string, t1: int, t2: int)
    requires IssueToken(a, t1) == IssueToken(b, t2)
    ensures a == b && Seconds(t1) == Seconds(t2)
  {
  }
}
