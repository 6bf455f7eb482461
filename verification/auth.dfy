/** Credential check and sign-up. Hashing and comparison are bcrypt's, passed in. */
module Auth {
  import opened Wrappers
  import opened Http
  import opened Users

  /** A user record with the `password` field taken out. */
  datatype UserView = UserView(email: string, refreshTokens: seq<string>, roles: seq<RoleId>, resetPasswordToken: Option<string>)

  /** `const { password, ...result } = user`. */
  function WithoutPassword(u: User): (v: UserView)
    ensures v.email == u.email && v.refreshTokens == u.refreshTokens
    ensures v.roles == u.roles && v.resetPasswordToken == u.resetPasswordToken
  {
    UserView(u.email, u.refreshTokens, u.roles, u.resetPasswordToken)
  }

  /** The sign-up body. */
  datatype CreateUserDto = CreateUserDto(email: string, password: string)

  class AuthService {
    const userModel: UserCollection

    constructor(userModel: UserCollection)
      ensures this.userModel == userModel
    {
      this.userModel := userModel;
    }

    /**
     * `validateUser`: the record without its password when `compare` accepts
     * the password against the stored digest, `null` when it does not. For
     * an unknown email the digest is read from `null`, so the call fails.
     */
    method ValidateUser(email: string, password: string, compare: (string, string) -> bool)
      returns (r: Result<Option<UserView>, Error>)
      ensures r.Failure? <==> forall id :: id in userModel.users ==> userModel.users[id].email != email
      ensures r.Failure? ==> r.error == TypeError
      ensures r.Success? ==>
        exists id :: id in userModel.users && userModel.users[id].email == email &&
          (if compare(password, userModel.users[id].password)
           then r.value == Some(WithoutPassword(userModel.users[id]))
           else r.value == None)
    {
      var found := userModel.FindByEmail(email);
      if found.None? {
        return Failure(TypeError);
      }
      var user := userModel.users[found.value];
      var validPassword := compare(password, user.password);
      if validPassword {
        r := Success(Some(WithoutPassword(user)));
      } else {
        r := Success(None);
      }
    }
  }

  /** The record `create` stores for a new sign-up: no sessions, no roles, no reset token. */
  function NewUser(email: string, digest: string): (u: User)
    ensures u.email == email && u.password == digest
    ensures u.refreshTokens == [] && u.roles == [] && u.resetPasswordToken == None
  {
    User(email, digest, [], [], None)
  }

  class SignUpService {
    const userModel: UserCollection

    constructor(userModel: UserCollection)
      ensures this.userModel == userModel
    {
      this.userModel := userModel;
    }

    /**
     * `signup`: an email already registered is an HttpException with status
     * 500 and nothing is created; otherwise exactly one record is added, with
     * the email as given and the password replaced by its digest.
     * `newId` is the id the database assigns; `hash` is bcrypt at cost 10.
     */
    method SignUp(user: CreateUserDto, newId: UserId, hash: string -> string) returns (r: Result<User, Error>)
      requires newId !in userModel.users
      modifies userModel
      ensures (exists id :: id in old(userModel.users) && old(userModel.users)[id].email == user.email) ==>
        && r == Failure(HttpError(500, "User with email " + user.email + " already exists."))
        && userModel.users == old(userModel.users)
      ensures (forall id :: id in old(userModel.users) ==> old(userModel.users)[id].email != user.email) ==>
        && r == Success(NewUser(user.email, hash(user.password)))
        && userModel.users == old(userModel.users)[newId := r.value]
      ensures EmailsUnique(old(userModel.users)) ==> EmailsUnique(userModel.users)
    {
      var isExist := userModel.FindByEmail(user.email);
      if isExist.Some? {
        return Failure(HttpError(500, "User with email " + user.email + " already exists."));
      }
      var password := hash(user.password);
      var created := NewUser(user.email, password);
      userModel.Save(newId, created);
      r := Success(created);
    }
  }
}
