/** The `users` collection: identity records and the lookups the core runs on them. */
module Users {
  import opened Wrappers

  type UserId = string
  type RoleId = string

  /**
   * One identity record. `password` holds the bcrypt digest, `refreshTokens`
   * the serialized refresh tokens of the live sessions (one per device, in
   * issue order), `roles` the ids of the assigned catalog roles and
   * `resetPasswordToken` the pending reset token, if any.
   */
  datatype User = User(
    email: string,
    password: string,
    refreshTokens: seq<string>,
    roles: seq<RoleId>,
    resetPasswordToken: Option<string>)

  /** No two records share an email (the unique index on `email`). */
  ghost predicate EmailsUnique(users: map<UserId, User>)
  {
    forall a, b :: a in users && b in users && users[a].email == users[b].email ==> a == b
  }

  /** The Mongo collection of users, keyed by document id. */
  class UserCollection {
    var users: map<UserId, User>

    constructor(users: map<UserId, User>)
      ensures this.users == users
    {
      this.users := users;
    }

    /** `userModel.findById(id)`: the record, or `null`. */
    method FindById(id: UserId) returns (r: Option<User>)
      ensures r.Some? <==> id in users
      ensures r.Some? ==> r.value == users[id]
    {
      if id in users {
        r := Some(users[id]);
      } else {
        r := None;
      }
    }

    /** `document.save()` of a record read by `FindById` and changed in memory. */
    method Save(id: UserId, user: User)
      modifies this
      ensures users == old(users)[id := user]
    {
      users := users[id := user];
    }

    /** `userModel.findOne({ email })`: some record with that email, or `null`. */
    method FindByEmail(email: string) returns (r: Option<UserId>)
      ensures r.Some? ==> r.value in users && users[r.value].email == email
      ensures r.None? <==> forall id :: id in users ==> users[id].email != email
    {
      if exists id :: id in users && users[id].email == email {
        var id :| id in users && users[id].email == email;
        r := Some(id);
      } else {
        r := None;
      }
    }

    /** `userModel.findOne({ resetPasswordToken })`: some record storing exactly that token. */
    method FindByResetToken(token: string) returns (r: Option<UserId>)
      ensures r.Some? ==> r.value in users && users[r.value].resetPasswordToken == Some(token)
      ensures r.None? <==> forall id :: id in users ==> users[id].resetPasswordToken != Some(token)
    {
      if exists id :: id in users && users[id].resetPasswordToken == Some(token) {
        var id :| id in users && users[id].resetPasswordToken == Some(token);
        r := Some(id);
      } else {
        r := None;
      }
    }
  }
}
