/** `RefreshTokenService`: the per-user store of live refresh tokens. */
module RefreshTokens {
  import opened Wrappers
  import opened Http
  import opened Users
  import opened Jwt
  import opened TokenLists
  import opened Sessions

  const UserNotFound := NotFound("User not found")

  class RefreshTokenService {
    const userModel: UserCollection

    constructor(userModel: UserCollection)
      ensures this.userModel == userModel
    {
      this.userModel := userModel;
    }

    /** `generate`: sign a refresh token for the payload. */
    function Generate(jwt: Signer, payload: Payload): string
    {
      jwt(Refresh, payload)
    }

    /** `save`: append the token to the user's list; an unknown user is NotFound and nothing changes. */
    method Save(userId: UserId, refreshToken: string) returns (r: Result<(), Error>)
      modifies userModel
      ensures r.Failure? <==> userId !in old(userModel.users)
      ensures r.Failure? ==> r.error == UserNotFound && userModel.users == old(userModel.users)
      ensures r.Success? ==> userModel.users == Pushed(old(userModel.users), userId, refreshToken)
    {
      var found := userModel.FindById(userId);
      if found.None? {
        return Failure(UserNotFound);
      }
      var user := found.value;
      user := user.(refreshTokens := user.refreshTokens + [refreshToken]);
      userModel.Save(userId, user);
      r := Success(());
    }

    /**
     * `remove`: drop every copy of the token from the user's list. A token
     * that is not there is not an error; an unknown user is NotFound.
     */
    method Remove(userId: UserId, refreshToken: string) returns (r: Result<(), Error>)
      modifies userModel
      ensures r.Failure? <==> userId !in old(userModel.users)
      ensures r.Failure? ==> r.error == UserNotFound && userModel.users == old(userModel.users)
      ensures r.Success? ==> userModel.users == Filtered(old(userModel.users), userId, refreshToken)
    {
      var found := userModel.FindById(userId);
      if found.None? {
        return Failure(UserNotFound);
      }
      var user := found.value;
      user := user.(refreshTokens := Without(user.refreshTokens, refreshToken));
      userModel.Save(userId, user);
      r := Success(());
    }

    /** `find`: the token when the user's list holds it exactly, else `undefined`. */
    method Find(userId: UserId, refreshToken: string) returns (r: Result<Option<string>, Error>)
      ensures r.Failure? <==> userId !in userModel.users
      ensures r.Failure? ==> r.error == UserNotFound
      ensures r.Success? ==> (r.value == Some(refreshToken) <==> Live(userModel.users, userId, refreshToken))
      ensures r.Success? ==> (r.value == None <==> !Live(userModel.users, userId, refreshToken))
    {
      var found := userModel.FindById(userId);
      if found.None? {
        return Failure(UserNotFound);
      }
      r := Success(FirstMatch(found.value.refreshTokens, refreshToken));
    }
  }
}
