/**
 * End-to-end runs of the token lifecycles over a fresh database: sign-up,
 * sign-in and rotation, where replaying a rotated refresh token is refused;
 * and reset-link, password change, where the reset token is single-use.
 */
module Lifecycle {
  import opened Wrappers
  import opened Http
  import opened Users
  import opened Jwt
  import opened Auth
  import opened Sessions
  import opened RefreshTokens
  import opened SignIn
  import opened UpdateTokens
  import opened ResetPassword
  import opened Roles
  import opened RolesGuard

  /**
   * A new account is given the seeded "user" role, signs in and rotates its
   * refresh token once; presenting the same refresh token a second time is
   * refused as invalid, even with a signature that still verifies.
   * `jwtAtSignIn` and `jwtAtRefresh` are the signers at the two moments; the
   * strategy's output for the first refresh token is its payload, as
   * `ValidateRefresh` gives it. The roles claim is a snapshot taken at
   * sign-in, so the role is withRole before signing in.
   */
  method RotationReplayRefused(email: string, password: string, userId: UserId, hash: string -> string,
                               roleId: RoleId, catalog: seq<Role>,
                               jwtAtSignIn: Signer, jwtAtRefresh: Signer, lifespan: nat)
    returns (first: Result<RotationReply, Error>, replay: Result<RotationReply, Error>)
    requires Role(roleId, "user") in catalog
    requires jwtAtSignIn(Refresh, SignInPayload(userId, NewUser(email, hash(password)).(roles := [roleId]))) != ""
    ensures first.Success?
    ensures first.value.body.refreshToken == jwtAtRefresh(Refresh, SignInPayload(userId, NewUser(email, hash(password)).(roles := [roleId])))
    ensures replay == Failure(InvalidRefreshToken)
  {
    var users := new UserCollection(map[]);
    var signUp := new SignUpService(users);
    var created := signUp.SignUp(CreateUserDto(email, password), userId, hash);
    assert created == Success(NewUser(email, hash(password)));
    assert users.users == map[userId := created.value];
    var roleModel := new RoleCollection(catalog);
    var rolesService := new RolesService(roleModel, users);
    assert IndexOfId(roleModel.roles, roleId).Some?;
    assert created.value.roles == [] && created.value.roles + [roleId] == [roleId];
    var withRole := rolesService.AssignRole(roleId, userId);
    ghost var member := NewUser(email, hash(password)).(roles := [roleId]);
    assert withRole == Success(member);
    assert users.users == map[userId := member];
    var refreshTokens := new RefreshTokenService(users);
    var signIn := new SignInService(refreshTokens);
    var session := signIn.SignIn(userId, withRole.value, jwtAtSignIn);
    assert session.Success?;
    var presented := session.value.refreshToken;
    assert Accepted(users.users, userId, presented);
    var requestUser := ValidateRefresh(SignInPayload(userId, withRole.value));
    assert requestUser.roles == Some([roleId]);
    RefreshCarriesClaims(SignInPayload(userId, withRole.value));
    assert CanActivate(RefreshRouteRoles, requestUser.roles, roleModel.roles) by {
      assert Role(roleId, "user") in catalog && roleId in [roleId] && "user" in ["user"];
    }
    var rotation := new UpdateTokensService(refreshTokens);
    var controller := new UpdateTokensController(rotation, roleModel, lifespan);
    first := controller.Update(presented, requestUser, jwtAtRefresh);
    replay := controller.Update(presented, requestUser, jwtAtRefresh);
  }

  /**
   * A new account has no roles, so its roles claim is present and empty:
   * whatever the role catalog holds, the refresh route's guard refuses its
   * refresh token, and its session is left as it was.
   */
  method RefreshWithoutRoleForbidden(email: string, password: string, userId: UserId, hash: string -> string,
                                     catalog: seq<Role>, jwtAtSignIn: Signer, jwtAtRefresh: Signer, lifespan: nat)
    returns (refused: Result<RotationReply, Error>, stillLive: bool)
    ensures refused == Failure(Forbidden)
    ensures stillLive
  {
    var users := new UserCollection(map[]);
    var signUp := new SignUpService(users);
    var created := signUp.SignUp(CreateUserDto(email, password), userId, hash);
    assert created == Success(NewUser(email, hash(password)));
    ghost var before := users.users;
    assert before == map[userId := created.value];
    var refreshTokens := new RefreshTokenService(users);
    var signIn := new SignInService(refreshTokens);
    var session := signIn.SignIn(userId, created.value, jwtAtSignIn);
    var presented := session.value.refreshToken;
    assert session.Success?;
    ghost var signedIn := users.users;
    assert signedIn == Pushed(before, userId, presented);
    var requestUser := ValidateRefresh(SignInPayload(userId, created.value));
    assert requestUser.roles == Some([]);
    assert !CanActivate(RefreshRouteRoles, requestUser.roles, catalog);
    var roleModel := new RoleCollection(catalog);
    var rotation := new UpdateTokensService(refreshTokens);
    var controller := new UpdateTokensController(rotation, roleModel, lifespan);
    refused := controller.Update(presented, requestUser, jwtAtRefresh);
    assert users.users == signedIn;
    PushedKeepsSessions(before, userId, presented, presented);
    stillLive := Live(users.users, userId, presented);
  }

  /**
   * A reset link is requested and used within three minutes; the password
   * changes, and using the same link again finds no user.
   */
  method ResetTokenSingleUse(userId: UserId, account: User, nonce: string, sentAt: nat, usedAt: int,
                             newPassword: string, hash: string -> string)
    returns (first: Result<User, Error>, again: Result<User, Error>)
    requires '|' !in nonce
    requires usedAt <= sentAt + ResetWindow
    ensures first.Success?
    ensures first.value.password == hash(newPassword) && first.value.resetPasswordToken == None
    ensures again == Failure(NotFound(MsgUserNotFound))
  {
    var users := new UserCollection(map[userId := account]);
    var service := new ResetPasswordService(users);
    var controller := new ResetPasswordController(service);
    assert userId in users.users && users.users[userId].email == account.email;
    var sent := controller.SendPasswordResetLink(account.email, nonce, sentAt);
    var token := MintToken(nonce, sentAt);
    assert users.users == map[userId := account.(resetPasswordToken := Some(token))];
    assert users.users[userId].resetPasswordToken == Some(token);
    MintedTokenValidUntilExpiry(nonce, sentAt, usedAt);
    assert CheckExpiry(token, usedAt).Success?;
    assert ResetTokensUnique(users.users);
    first := service.SetNewPassword(token, newPassword, hash, usedAt);
    assert first.Success?;
    assert forall id :: id in users.users ==> users.users[id].resetPasswordToken != Some(token);
    again := service.SetNewPassword(token, newPassword, hash, usedAt);
  }
}
