/**
 * Token payloads, the signer the token services call, and the two Passport
 * strategies that turn a verified payload into the request's `user`.
 */
module Jwt {
  import opened Wrappers
  import opened Users

  datatype TokenKind = Access | Refresh

  /**
   * The claims a token carries. `roles` is absent in tokens minted by the
   * older login and refresh services, which sign only `{ email, sub }`.
   */
  datatype Payload = Payload(email: string, roles: Option<seq<RoleId>>, sub: UserId)

  /**
   * `JwtService.sign` as configured for a token kind (its secret and lifespan)
   * at the moment of the call; the signing algorithm itself is not modelled.
   */
  type Signer = (TokenKind, Payload) -> string

  /** The `user` a strategy attaches to the request (`IJwtTokenResponse`). */
  datatype RequestUser = RequestUser(userId: UserId, email: string, roles: Option<seq<RoleId>>, kind: TokenKind)

  /** Where a strategy reads the token from. */
  datatype TokenSource = BearerHeader | CookieNamed(name: string)

  /**
   * The options a strategy hands to `passport-jwt`; `secretOrKey` is given by
   * the configuration key it is read under.
   */
  datatype StrategyOptions = StrategyOptions(source: TokenSource, ignoreExpiration: bool, secretConfigKey: string)

  const AccessStrategyOptions := StrategyOptions(BearerHeader, false, "JWT_ACCESS_KEY")
  const RefreshStrategyOptions := StrategyOptions(CookieNamed("refreshToken"), false, "JWT_REFRESH_KEY")

  /**
   * Both strategies enforce expiry and read their secret under different
   * configuration keys; whether the configured values differ is not decided here.
   */
  lemma StrategiesAreSeparated()
    ensures !AccessStrategyOptions.ignoreExpiration && !RefreshStrategyOptions.ignoreExpiration
    ensures AccessStrategyOptions.secretConfigKey != RefreshStrategyOptions.secretConfigKey
    ensures AccessStrategyOptions.source == BearerHeader
    ensures RefreshStrategyOptions.source == CookieNamed("refreshToken")
  {
  }

  /** `JwtAccessStrategy.validate`. */
  function ValidateAccess(payload: Payload): (u: RequestUser)
    ensures u.userId == payload.sub && u.email == payload.email && u.roles == payload.roles
    ensures u.kind == Access
  {
    RequestUser(payload.sub, payload.email, payload.roles, Access)
  }

  /** `JwtRefreshStrategy.validate`. */
  function ValidateRefresh(payload: Payload): (u: RequestUser)
    ensures u.userId == payload.sub && u.email == payload.email && u.roles == payload.roles
    ensures u.kind == Refresh
  {
    RequestUser(payload.sub, payload.email, payload.roles, Refresh)
  }

  /** The payload the refresh service signs from the request user: `{ email, roles, sub: userId }`. */
  function ClaimsOf(u: RequestUser): Payload
  {
    Payload(u.email, u.roles, u.userId)
  }

  /**
   * What a refresh token carried is exactly what its rotation signs again:
   * the roles snapshot is carried forward, never re-resolved.
   */
  lemma RefreshCarriesClaims(payload: Payload)
    ensures ClaimsOf(ValidateRefresh(payload)) == payload
    ensures ValidateRefresh(payload).roles == payload.roles
  {
  }
}
