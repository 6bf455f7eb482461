/** Sign-in: issue an access/refresh pair and persist the refresh token. */
module SignIn {
  import opened Wrappers
  import opened Http
  import opened Users
  import opened Jwt
  import opened Sessions
  import opened RefreshTokens

  datatype SignInResponse = SignInResponse(accessToken: string, refreshToken: string)

  /** The `user` part of the older login response: the email only. */
  datatype LoginUser = LoginUser(email: string)
  datatype LoginResponse = LoginResponse(accessToken: string, refreshToken: string, user: LoginUser)

  /** The claims sign-in signs: `{ email, roles, sub: _id }`. */
  function SignInPayload(userId: UserId, user: User): (p: Payload)
    ensures p.sub == userId && p.email == user.email && p.roles == Some(user.roles)
  {
    Payload(user.email, Some(user.roles), userId)
  }

  /** The claims the older login signs: `{ email, sub: _id }`, no roles claim. */
  function LoginPayload(userId: UserId, user: User): (p: Payload)
    ensures p.sub == userId && p.email == user.email && p.roles == None
  {
    Payload(user.email, None, userId)
  }

  class SignInService {
    const refreshTokenService: RefreshTokenService

    constructor(refreshTokenService: RefreshTokenService)
      ensures this.refreshTokenService == refreshTokenService
    {
      this.refreshTokenService := refreshTokenService;
    }

    /**
     * `signin`: both tokens are signed from the same payload; only the refresh
     * token is stored, appended to the user's list; what is returned as the
     * refresh token is exactly what was stored.
     */
    method SignIn(userId: UserId, user: User, jwt: Signer) returns (r: Result<SignInResponse, Error>)
      modifies refreshTokenService.userModel
      ensures r.Failure? <==> userId !in old(refreshTokenService.userModel.users)
      ensures r.Failure? ==>
        && r.error == UserNotFound
        && refreshTokenService.userModel.users == old(refreshTokenService.userModel.users)
      ensures r.Success? ==>
        && r.value == SignInResponse(jwt(Access, SignInPayload(userId, user)), jwt(Refresh, SignInPayload(userId, user)))
        && refreshTokenService.userModel.users == Pushed(old(refreshTokenService.userModel.users), userId, r.value.refreshToken)
    {
      var payload := SignInPayload(userId, user);
      var accessToken := jwt(Access, payload);
      var refreshToken := refreshTokenService.Generate(jwt, payload);
      var saved := refreshTokenService.Save(userId, refreshToken);
      if saved.Failure? {
        return Failure(saved.error);
      }
      r := Success(SignInResponse(accessToken, refreshToken));
    }
  }

  /** The older `LoginService`, bound to the older (identical) refresh-token service. */
  class LoginService {
    const refreshTokenService: RefreshTokenService

    constructor(refreshTokenService: RefreshTokenService)
      ensures this.refreshTokenService == refreshTokenService
    {
      this.refreshTokenService := refreshTokenService;
    }

    /** `login`: as sign-in, but without a roles claim and with the email echoed back. */
    method Login(userId: UserId, user: User, jwt: Signer) returns (r: Result<LoginResponse, Error>)
      modifies refreshTokenService.userModel
      ensures r.Failure? <==> userId !in old(refreshTokenService.userModel.users)
      ensures r.Failure? ==>
        && r.error == UserNotFound
        && refreshTokenService.userModel.users == old(refreshTokenService.userModel.users)
      ensures r.Success? ==>
        && r.value == LoginResponse(jwt(Access, LoginPayload(userId, user)), jwt(Refresh, LoginPayload(userId, user)), LoginUser(user.email))
        && refreshTokenService.userModel.users == Pushed(old(refreshTokenService.userModel.users), userId, r.value.refreshToken)
    {
      var payload := LoginPayload(userId, user);
      var accessToken := jwt(Access, payload);
      var refreshToken := refreshTokenService.Generate(jwt, payload);
      var saved := refreshTokenService.Save(userId, refreshToken);
      if saved.Failure? {
        return Failure(saved.error);
      }
      r := Success(LoginResponse(accessToken, refreshToken, LoginUser(user.email)));
    }
  }
}
