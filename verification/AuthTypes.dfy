/** The vocabulary of the cross-tab access-token protocol: credentials, the
    cookie jar, the adoption message, the handoff marker, and the two freshness
    tests every handoff must pass. */
module AuthTypes {
  import opened Wrappers

  type Account = nat
  type Wave = nat
  type TabId = nat
  type RequestId = nat

  /** A bearer. `exp` is the JWT claim in seconds, None when it cannot be decoded. */
  datatype Token = Token(account: Account, serial: nat, exp: Option<int>)

  /** A csrf_token value: the identity of one cookie context. */
  datatype Context = Context(account: Account, nonce: nat)

  /** The origin-global jar: the readable csrf half and the account behind the
      HttpOnly refresh cookie. */
  datatype Cookies = Cookies(csrf: Option<Context>, session: Option<Account>) {
    predicate Valid() {
      csrf.Some? ==> session == Some(csrf.value.account)
    }
  }

  datatype Mint = Mint(wave: Wave, token: Token, context: Option<Context>, sentAt: int, expiresAt: Option<int>)

  datatype Marker = Marker(wave: Wave, context: Option<Context>, at: int)

  const ADOPTION_TTL_MS := 10_000
  const ADOPTION_EXPIRY_MARGIN_MS := 5_000
  const MARKER_SKEW_MS := 50

  /** The advisory decode of a bearer's expiry, in milliseconds. */
  function BearerExpiryMs(token: Token): Option<int> {
    if token.exp.None? then None
    else if token.exp.value <= 0 then Some(0)
    else Some(token.exp.value * 1000)
  }

  /** Is the credential more than the margin away from its expiry, by the
      server-time estimate `now + offset`?  Unknown expiry is usable. */
  predicate BearerUsable(expiresAt: Option<int>, now: int, offset: int) {
    expiresAt.None? || now + offset < expiresAt.value - ADOPTION_EXPIRY_MARGIN_MS
  }

  predicate Fresh(m: Mint, now: int) {
    now - m.sentAt < ADOPTION_TTL_MS
  }

  /** The guard of the immediate adoption check. */
  predicate Adoptable(m: Mint, now: int, offset: int, csrf: Option<Context>, marker: Option<Marker>) {
    && Fresh(m, now)
    && BearerUsable(m.expiresAt, now, offset)
    && m.context == csrf
    && (marker.None? || marker.value.context != csrf || marker.value.wave == m.wave)
  }

  /** The guard an armed resolver applies to each mint it hears. */
  predicate ResolvesWave(m: Mint, marker: Marker, now: int, offset: int) {
    && m.wave == marker.wave
    && m.sentAt >= marker.at - MARKER_SKEW_MS
    && m.context == marker.context
    && Fresh(m, now)
    && BearerUsable(m.expiresAt, now, offset)
  }

  /** Two mints carry the same credential: they may differ in sentAt only. */
  predicate SameCredential(a: Mint, b: Mint) {
    a.wave == b.wave && a.token == b.token && a.context == b.context && a.expiresAt == b.expiresAt
  }
}
