/** Refresh rotation: check the presented token, mint a new pair, append the new token, drop the old. */
module UpdateTokens {
  import opened Wrappers
  import opened Http
  import opened Users
  import opened Jwt
  import opened TokenLists
  import opened Sessions
  import opened RefreshTokens
  import opened SignIn
  import opened Roles
  import opened RolesGuard

  const InvalidRefreshToken := PlainError("Invalid refresh token")
  const RefreshFailed := PlainError("Refresh token updated failed")

  /**
   * `if (!tokenInDb)` passes when `find` returned a truthy string: the token
   * is in the user's list and is not the empty string.
   */
  predicate Accepted(users: map<UserId, User>, userId: UserId, token: string)
  {
    Live(users, userId, token) && token != ""
  }

  /** The truthiness test the services apply to the result of `find`. */
  function Truthy(found: Option<string>): (b: bool)
    ensures b <==> found.Some? && found.value != ""
  {
    match found
    case None => false
    case Some(s) => s != ""
  }

  class UpdateTokensService {
    const refreshTokenService: RefreshTokenService

    constructor(refreshTokenService: RefreshTokenService)
      ensures this.refreshTokenService == refreshTokenService
    {
      this.refreshTokenService := refreshTokenService;
    }

    /**
     * `update`: an unknown user is NotFound, a token not in the list is
     * 'Invalid refresh token' (both leave the store unchanged); otherwise a
     * pair is signed from the caller's claims as they are and the new
     * refresh token is appended. The presented token is not removed here.
     */
    method Update(token: string, user: RequestUser, jwt: Signer) returns (r: Result<SignInResponse, Error>)
      modifies refreshTokenService.userModel
      ensures user.userId !in old(refreshTokenService.userModel.users) ==>
        && r == Failure(UserNotFound)
        && refreshTokenService.userModel.users == old(refreshTokenService.userModel.users)
      ensures user.userId in old(refreshTokenService.userModel.users) && !Accepted(old(refreshTokenService.userModel.users), user.userId, token) ==>
        && r == Failure(InvalidRefreshToken)
        && refreshTokenService.userModel.users == old(refreshTokenService.userModel.users)
      ensures r.Success? <==> Accepted(old(refreshTokenService.userModel.users), user.userId, token)
      ensures r.Success? ==>
        && r.value == SignInResponse(jwt(Access, ClaimsOf(user)), jwt(Refresh, ClaimsOf(user)))
        && refreshTokenService.userModel.users == Pushed(old(refreshTokenService.userModel.users), user.userId, r.value.refreshToken)
    {
      var found := refreshTokenService.Find(user.userId, token);
      if found.Failure? {
        return Failure(found.error);
      }
      if !Truthy(found.value) {
        return Failure(InvalidRefreshToken);
      }
      var payload := ClaimsOf(user);
      var accessToken := jwt(Access, payload);
      var refreshToken := refreshTokenService.Generate(jwt, payload);
      var saved := refreshTokenService.Save(user.userId, refreshToken);
      assert saved.Success?;  // the user was found just above
      r := Success(SignInResponse(accessToken, refreshToken));
    }

    /** `removeOld`: exactly the store's `remove`. */
    method RemoveOld(userId: UserId, token: string) returns (r: Result<(), Error>)
      modifies refreshTokenService.userModel
      ensures r.Failure? <==> userId !in old(refreshTokenService.userModel.users)
      ensures r.Failure? ==>
        && r.error == UserNotFound
        && refreshTokenService.userModel.users == old(refreshTokenService.userModel.users)
      ensures r.Success? ==> refreshTokenService.userModel.users == Filtered(old(refreshTokenService.userModel.users), userId, token)
    {
      r := refreshTokenService.Remove(userId, token);
    }
  }

  /** What the refresh endpoint answers: the new pair, and the cookie it sets. */
  datatype RotationReply = RotationReply(body: SignInResponse, cookie: Cookie)

  /** The `@Roles('user')` metadata on the refresh route. */
  const RefreshRouteRoles: Option<seq<string>> := Some(["user"])

  class UpdateTokensController {
    const updateTokensService: UpdateTokensService
    /** The role collection the route's `RolesGuard` resolves role ids against. */
    const roleModel: RoleCollection
    /** REFRESH_TOKEN_LIFESPAN, in days. */
    const refreshTokenLifespan: nat

    constructor(updateTokensService: UpdateTokensService, roleModel: RoleCollection, refreshTokenLifespan: nat)
      ensures this.updateTokensService == updateTokensService
      ensures this.roleModel == roleModel
      ensures this.refreshTokenLifespan == refreshTokenLifespan
    {
      this.updateTokensService := updateTokensService;
      this.roleModel := roleModel;
      this.refreshTokenLifespan := refreshTokenLifespan;
    }

    /**
     * `update`, behind `RolesGuard` with `@Roles('user')`: a request user
     * whose roles claim resolves to no "user" role is Forbidden before the
     * handler runs. Otherwise append the new token first, then remove the
     * presented one. If the check fails nothing is written and the presented
     * token stays live; on success the presented token is gone.
     */
    method Update(refreshToken: string, user: RequestUser, jwt: Signer) returns (r: Result<RotationReply, Error>)
      modifies updateTokensService.refreshTokenService.userModel
      ensures !CanActivate(RefreshRouteRoles, user.roles, roleModel.roles) ==>
        && r == Failure(Forbidden)
        && updateTokensService.refreshTokenService.userModel.users == old(updateTokensService.refreshTokenService.userModel.users)
      ensures r.Success? <==>
        && CanActivate(RefreshRouteRoles, user.roles, roleModel.roles)
        && Accepted(old(updateTokensService.refreshTokenService.userModel.users), user.userId, refreshToken)
      ensures r.Failure? ==>
        && r.error == (if !CanActivate(RefreshRouteRoles, user.roles, roleModel.roles) then Forbidden
                       else if user.userId in old(updateTokensService.refreshTokenService.userModel.users) then InvalidRefreshToken
                       else UserNotFound)
        && updateTokensService.refreshTokenService.userModel.users == old(updateTokensService.refreshTokenService.userModel.users)
      ensures r.Success? ==>
        && r.value.body == SignInResponse(jwt(Access, ClaimsOf(user)), jwt(Refresh, ClaimsOf(user)))
        && r.value.cookie == Cookie("refreshToken", r.value.body.refreshToken, refreshTokenLifespan * 24 * 60 * 60 * 1000, true, true)
        && updateTokensService.refreshTokenService.userModel.users
           == Filtered(Pushed(old(updateTokensService.refreshTokenService.userModel.users), user.userId, r.value.body.refreshToken), user.userId, refreshToken)
      ensures r.Success? ==> !Live(updateTokensService.refreshTokenService.userModel.users, user.userId, refreshToken)
      ensures r.Success? && r.value.body.refreshToken != refreshToken ==>
        Live(updateTokensService.refreshTokenService.userModel.users, user.userId, r.value.body.refreshToken)
    {
      if !CanActivate(RefreshRouteRoles, user.roles, roleModel.roles) {
        return Failure(Forbidden);
      }
      var response := updateTokensService.Update(refreshToken, user, jwt);
      if response.Failure? {
        return Failure(response.error);
      }
      var cookie := Cookie("refreshToken", response.value.refreshToken, refreshTokenLifespan * 24 * 60 * 60 * 1000, true, true);
      ghost var appended := updateTokensService.refreshTokenService.userModel.users;
      var removed := updateTokensService.RemoveOld(user.userId, refreshToken);
      assert removed.Success?;  // the user was found by the update
      FilteredRevokesOnly(appended, user.userId, refreshToken, response.value.refreshToken);
      PushedKeepsSessions(old(updateTokensService.refreshTokenService.userModel.users), user.userId, response.value.refreshToken, refreshToken);
      r := Success(RotationReply(response.value, cookie));
    }
  }

  /**
   * The older `UpdateTokensService` (no roles claim, email echoed back):
   * every failure is rewritten to 'Refresh token updated failed', and the
   * presented token is never removed.
   */
  class LegacyUpdateTokensService {
    const refreshTokenService: RefreshTokenService

    constructor(refreshTokenService: RefreshTokenService)
      ensures this.refreshTokenService == refreshTokenService
    {
      this.refreshTokenService := refreshTokenService;
    }

    method Update(token: string, user: RequestUser, jwt: Signer) returns (r: Result<LoginResponse, Error>)
      modifies refreshTokenService.userModel
      ensures r.Success? <==> Accepted(old(refreshTokenService.userModel.users), user.userId, token)
      ensures r.Failure? ==>
        && r.error == RefreshFailed
        && refreshTokenService.userModel.users == old(refreshTokenService.userModel.users)
      ensures r.Success? ==>
        && var p := Payload(user.email, None, user.userId);
        && r.value == LoginResponse(jwt(Access, p), jwt(Refresh, p), LoginUser(user.email))
        && refreshTokenService.userModel.users == Pushed(old(refreshTokenService.userModel.users), user.userId, r.value.refreshToken)
    {
      var found := refreshTokenService.Find(user.userId, token);
      if found.Failure? || !Truthy(found.value) {
        return Failure(RefreshFailed);
      }
      var payload := Payload(user.email, None, user.userId);
      var accessToken := jwt(Access, payload);
      var refreshToken := refreshTokenService.Generate(jwt, payload);
      var saved := refreshTokenService.Save(user.userId, refreshToken);
      assert saved.Success?;  // the user was found just above
      r := Success(LoginResponse(accessToken, refreshToken, LoginUser(user.email)));
    }
  }
}
