/**
 * The session logic: a cached bearer token with an absolute expiry instant,
 * the expiry test, the decision whether the cached token is used or a new one
 * is requested, and how a token endpoint reply becomes a token.
 * Instants are integers counting microseconds from `datetime.min`
 * (0001-01-01 00:00), the resolution of Python's `datetime`.
 */
module Session {
  import opened Wrappers

  /** The token record `{"access_token": ..., "expires_at": ...}`; the access token may be null. */
  datatype Token = Token(accessToken: Option<string>, expiresAt: int)

  const MicrosPerSecond: int := 1_000_000

  /** `expires_in` when the endpoint does not send one. */
  const DefaultLifetimeSeconds: int := 3600

  /** `is_token_expired`: the token is expired from its expiry instant on. */
  predicate IsTokenExpired(t: Token, now: int) {
    now >= t.expiresAt
  }

  /** The expiry instant itself already counts as expired, and expiry is permanent. */
  lemma ExpiryIsInclusiveAndPermanent(t: Token, now: int, later: int)
    requires now <= later
    ensures IsTokenExpired(t, t.expiresAt)
    ensures !IsTokenExpired(t, t.expiresAt - 1)
    ensures IsTokenExpired(t, now) ==> IsTokenExpired(t, later)
  {
  }

  /**
   * `ensure_token`: the token loaded from the token file (`stored`) is
   * returned as it is when present and not expired; otherwise the result of
   * requesting a new one (`issued`, which may be None) is returned.
   */
  function EnsureToken(stored: Option<Token>, now: int, issued: Option<Token>): (r: Option<Token>)
    ensures stored.Some? && !IsTokenExpired(stored.value, now) ==> r == stored
    ensures stored.None? || IsTokenExpired(stored.value, now) ==> r == issued
  {
    if stored.None? || IsTokenExpired(stored.value, now) then issued else stored
  }

  /** The state `ensure_token` consults when it is called. */
  datatype TokenStore = TokenStore(stored: Option<Token>, now: int, issued: Option<Token>)

  function Ensure(ts: TokenStore): Option<Token> {
    EnsureToken(ts.stored, ts.now, ts.issued)
  }

  /**
   * Whatever `ensure_token` returns is either the stored token, unexpired,
   * or the newly issued one: an expired stored token is never handed out.
   */
  lemma EnsuredTokenIsNeverExpiredStored(ts: TokenStore)
    requires Ensure(ts).Some?
    ensures Ensure(ts) == ts.issued || (Ensure(ts) == ts.stored && !IsTokenExpired(ts.stored.value, ts.now))
  {
  }

  /** The JSON body of a token endpoint reply: `access_token` and `expires_in`, each possibly absent. */
  datatype TokenJson = TokenJson(accessToken: Option<string>, expiresIn: Option<int>)

  /**
   * The token endpoint's reply: the request raised (network, timeout), or a
   * status with a body that is a JSON object or not (then `response.json()`
   * raises).
   */
  datatype TokenReply = Unreachable | Answered(status: int, json: Option<TokenJson>)

  function Lifetime(j: TokenJson): int {
    j.expiresIn.GetOr(DefaultLifetimeSeconds)
  }

  /** The last instant `datetime` can hold, 9999-12-31 23:59:59.999999 (day 3652059 ends there). */
  const MaxInstant: int := 3652059 * 86400 * MicrosPerSecond - 1

  /** `timedelta` refuses more than 999999999 days either way. */
  const MaxTimedeltaDays: int := 999_999_999

  /** `timedelta(seconds=s)` does not raise OverflowError: its floored day count is in range. */
  predicate TimedeltaFits(seconds: int) {
    -MaxTimedeltaDays <= seconds / 86400 <= MaxTimedeltaDays
  }

  /** The instant is one `datetime` can represent (years 1 to 9999). */
  predicate InDatetimeRange(t: int) {
    0 <= t <= MaxInstant
  }

  /**
   * `get_token` after its request: a 200 reply with a JSON body yields a
   * token that lives `expires_in` seconds from now (3600 by default) and
   * keeps whatever `access_token` the body held, null included, provided
   * the lifetime fits a `timedelta`, the expiry instant fits a `datetime`
   * (otherwise OverflowError) and the token file could be written
   * (`saved`); every other case, the exceptions included, yields None.
   */
  function GetToken(reply: TokenReply, now: int, saved: bool): (r: Option<Token>)
    ensures r.Some? <==> && reply.Answered? && reply.status == 200 && reply.json.Some?
                         && TimedeltaFits(Lifetime(reply.json.value))
                         && InDatetimeRange(now + Lifetime(reply.json.value) * MicrosPerSecond)
                         && saved
    ensures r.Some? ==> r.value.accessToken == reply.json.value.accessToken
    ensures r.Some? ==> forall t :: IsTokenExpired(r.value, t) <==> t >= now + Lifetime(reply.json.value) * MicrosPerSecond
  {
    match reply
    case Unreachable => None
    case Answered(status, json) =>
      if status == 200 && json.Some? then
        var expiresAt := now + Lifetime(json.value) * MicrosPerSecond;
        if TimedeltaFits(Lifetime(json.value)) && InDatetimeRange(expiresAt) && saved then
          Some(Token(json.value.accessToken, expiresAt))
        else None
      else None
  }

  /**
   * An `expires_in` of 10^12 seconds (about 31700 years) overflows `datetime`
   * from any instant it can hold: no token, although the endpoint answered 200.
   */
  lemma HugeLifetimeGivesNoToken(now: int, saved: bool)
    requires InDatetimeRange(now)
    ensures GetToken(Answered(200, Some(TokenJson(Some("x"), Some(1_000_000_000_000)))), now, saved).None?
  {
  }

  /**
   * The default lifetime of one hour yields a token from every instant at
   * least an hour before the end of `datetime`'s range, once the token file
   * is written.
   */
  lemma DefaultLifetimeGivesToken(now: int, access: Option<string>)
    requires InDatetimeRange(now) && now + DefaultLifetimeSeconds * MicrosPerSecond <= MaxInstant
    ensures GetToken(Answered(200, Some(TokenJson(access, None))), now, true).Some?
  {
  }

  /**
   * A token freshly issued with a positive lifetime is not expired at the
   * instant `ensure_token` hands it out.
   */
  lemma IssuedTokenIsFresh(stored: Option<Token>, now: int, reply: TokenReply, saved: bool)
    requires reply.Answered? && reply.json.Some? && Lifetime(reply.json.value) > 0
    requires EnsureToken(stored, now, GetToken(reply, now, saved)).Some?
    ensures !IsTokenExpired(EnsureToken(stored, now, GetToken(reply, now, saved)).value, now)
  {
  }

  /** The `Authorization` header value `f"Bearer {access_token}"`; a null token prints as None. */
  function BearerHeader(accessToken: Option<string>): (h: string)
    ensures |h| >= 7 && h[..7] == "Bearer "
    ensures accessToken.Some? ==> h[7..] == accessToken.value
    ensures accessToken.None? ==> h == "Bearer None"
  {
    "Bearer " + accessToken.GetOr("None")
  }
}
