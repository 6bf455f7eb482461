/** Sign-out: revoke the current device's refresh token. */
module SignOut {
  import opened Wrappers
  import opened Http
  import opened Users
  import opened Sessions
  import opened RefreshTokens

  class SignOutService {
    const refreshTokenService: RefreshTokenService

    constructor(refreshTokenService: RefreshTokenService)
      ensures this.refreshTokenService == refreshTokenService
    {
      this.refreshTokenService := refreshTokenService;
    }

    /**
     * `signout`: remove every copy of the token from that user's list and
     * echo the token back; an unknown user propagates NotFound.
     */
    method SignOut(userId: UserId, refreshToken: string) returns (r: Result<string, Error>)
      modifies refreshTokenService.userModel
      ensures r.Failure? <==> userId !in old(refreshTokenService.userModel.users)
      ensures r.Failure? ==>
        && r.error == UserNotFound
        && refreshTokenService.userModel.users == old(refreshTokenService.userModel.users)
      ensures r.Success? ==>
        && r.value == refreshToken
        && refreshTokenService.userModel.users == Filtered(old(refreshTokenService.userModel.users), userId, refreshToken)
    {
      var removed := refreshTokenService.Remove(userId, refreshToken);
      if removed.Failure? {
        return Failure(removed.error);
      }
      r := Success(refreshToken);
    }
  }
}
