/** The role catalog (`roles` collection) and `RolesService`. */
module Roles {
  import opened Wrappers
  import opened Http
  import opened Users

  /** A catalog entry: the document id and the unique role name. */
  datatype Role = Role(id: RoleId, name: string)

  /** The role universe the seeder installs. */
  const SeededRoleNames: seq<string> := ["user", "admin"]

  /** `roleModel.find({ _id: { $in: ids } }).map(role => role.role)`: names in catalog order. */
  function RoleNames(catalog: seq<Role>, ids: seq<RoleId>): (names: seq<string>)
    ensures |names| <= |catalog|
    ensures forall n :: n in names <==> exists r :: r in catalog && r.id in ids && r.name == n
  {
    if catalog == [] then []
    else (if catalog[0].id in ids then [catalog[0].name] else []) + RoleNames(catalog[1..], ids)
  }

  /** Ids that match no catalog entry contribute no names: appending them changes nothing. */
  lemma {:induction false} UnknownIdsGrantNothing(catalog: seq<Role>, ids: seq<RoleId>, unknown: seq<RoleId>)
    requires forall r :: r in catalog ==> r.id !in unknown
    ensures RoleNames(catalog, ids + unknown) == RoleNames(catalog, ids)
  {
    if catalog != [] {
      UnknownIdsGrantNothing(catalog[1..], ids, unknown);
    }
  }

  /** Holding more role ids never resolves to fewer names. */
  lemma {:induction false} RoleNamesMonotone(catalog: seq<Role>, ids: seq<RoleId>, more: seq<RoleId>)
    requires forall id :: id in ids ==> id in more
    ensures forall n :: n in RoleNames(catalog, ids) ==> n in RoleNames(catalog, more)
  {
    if catalog != [] {
      RoleNamesMonotone(catalog[1..], ids, more);
    }
  }

  /** `roleModel.findOne({ role: name })`: the first entry with that name. */
  function FindRoleByName(catalog: seq<Role>, name: string): (r: Option<Role>)
    ensures r.Some? ==> r.value in catalog && r.value.name == name
    ensures r.None? <==> forall x :: x in catalog ==> x.name != name
  {
    if catalog == [] then None
    else if catalog[0].name == name then Some(catalog[0])
    else FindRoleByName(catalog[1..], name)
  }

  /** `roleModel.findById(id)`: the index of the entry with that id. */
  function IndexOfId(catalog: seq<Role>, id: RoleId): (r: Option<nat>)
    ensures r.Some? ==> r.value < |catalog| && catalog[r.value].id == id
    ensures r.None? <==> forall x :: x in catalog ==> x.id != id
  {
    if catalog == [] then None
    else if catalog[0].id == id then Some(0)
    else match IndexOfId(catalog[1..], id)
      case None => None
      case Some(i) => Some(i + 1)
  }

  /** The catalog in natural (insertion) order. */
  class RoleCollection {
    var roles: seq<Role>

    constructor(roles: seq<Role>)
      ensures this.roles == roles
    {
      this.roles := roles;
    }
  }

  class RolesService {
    const roleModel: RoleCollection
    const userModel: UserCollection

    constructor(roleModel: RoleCollection, userModel: UserCollection)
      ensures this.roleModel == roleModel && this.userModel == userModel
    {
      this.roleModel := roleModel;
      this.userModel := userModel;
    }

    /** `findOne`: the role with that name, else NotFound. */
    method FindOne(role: string) returns (r: Result<Role, Error>)
      ensures r.Success? ==> r.value in roleModel.roles && r.value.name == role
      ensures r.Failure? <==> forall x :: x in roleModel.roles ==> x.name != role
      ensures r.Failure? ==> r.error == NotFound(role + " role  not found")
    {
      var found := FindRoleByName(roleModel.roles, role);
      if found.None? {
        return Failure(NotFound(role + " role  not found"));
      }
      r := Success(found.value);
    }

    /** `findByIds`: the names of the catalog roles whose id is listed; unknown ids are dropped. */
    method FindByIds(ids: seq<RoleId>) returns (names: seq<string>)
      ensures forall n :: n in names <==> exists r :: r in roleModel.roles && r.id in ids && r.name == n
    {
      names := RoleNames(roleModel.roles, ids);
    }

    /** `create`: append a new entry; a name already in use violates the unique index. */
    method Create(role: string, newId: RoleId) returns (r: Result<Role, Error>)
      requires forall x :: x in roleModel.roles ==> x.id != newId
      modifies roleModel
      ensures (exists x :: x in old(roleModel.roles) && x.name == role) ==>
        && r == Failure(DuplicateKey)
        && roleModel.roles == old(roleModel.roles)
      ensures (forall x :: x in old(roleModel.roles) ==> x.name != role) ==>
        && r == Success(Role(newId, role))
        && roleModel.roles == old(roleModel.roles) + [Role(newId, role)]
    {
      if FindRoleByName(roleModel.roles, role).Some? {
        return Failure(DuplicateKey);
      }
      roleModel.roles := roleModel.roles + [Role(newId, role)];
      r := Success(Role(newId, role));
    }

    /** `update`: rename the entry in place; an unknown id is NotFound. */
    method Update(roleId: RoleId, role: string) returns (r: Result<Role, Error>)
      modifies roleModel
      ensures IndexOfId(old(roleModel.roles), roleId).None? ==>
        && r == Failure(NotFound("Not Found"))
        && roleModel.roles == old(roleModel.roles)
      ensures r.Success? ==>
        && r.value == Role(roleId, role)
        && var i := IndexOfId(old(roleModel.roles), roleId).value;
        && roleModel.roles == old(roleModel.roles)[i := Role(roleId, role)]
      ensures r.Failure? ==> roleModel.roles == old(roleModel.roles)
      ensures r == Failure(DuplicateKey) <==>
        IndexOfId(old(roleModel.roles), roleId).Some? &&
        exists x :: x in old(roleModel.roles) && x.id != roleId && x.name == role
      ensures r.Success? <==>
        IndexOfId(old(roleModel.roles), roleId).Some? &&
        !(exists x :: x in old(roleModel.roles) && x.id != roleId && x.name == role)
    {
      var i := IndexOfId(roleModel.roles, roleId);
      if i.None? {
        return Failure(NotFound("Not Found"));
      }
      if exists x :: x in roleModel.roles && x.id != roleId && x.name == role {
        return Failure(DuplicateKey);
      }
      roleModel.roles := roleModel.roles[i.value := Role(roleId, role)];
      r := Success(Role(roleId, role));
    }

    /** `delete`: drop the entry; an unknown id is NotFound. */
    method Delete(roleId: RoleId) returns (r: Result<(), Error>)
      modifies roleModel
      ensures r.Failure? <==> IndexOfId(old(roleModel.roles), roleId).None?
      ensures r.Failure? ==>
        && r.error == NotFound("The role was not found.")
        && roleModel.roles == old(roleModel.roles)
      ensures r.Success? ==>
        && var i := IndexOfId(old(roleModel.roles), roleId).value;
        && roleModel.roles == old(roleModel.roles)[..i] + old(roleModel.roles)[i + 1..]
    {
      var i := IndexOfId(roleModel.roles, roleId);
      if i.None? {
        return Failure(NotFound("The role was not found."));
      }
      roleModel.roles := roleModel.roles[..i.value] + roleModel.roles[i.value + 1..];
      r := Success(());
    }

    /**
     * `assignRole`: the user is looked up before the role (each NotFound);
     * a role the user already holds is BadRequest; otherwise the role id is
     * appended to the user's roles.
     */
    method AssignRole(roleId: RoleId, userId: UserId) returns (r: Result<User, Error>)
      modifies userModel
      ensures userId !in old(userModel.users) ==> r == Failure(NotFound("User not found."))
      ensures userId in old(userModel.users) && IndexOfId(roleModel.roles, roleId).None? ==>
        r == Failure(NotFound("Role not found."))
      ensures r.Failure? ==> userModel.users == old(userModel.users)
      ensures userId in old(userModel.users) && IndexOfId(roleModel.roles, roleId).Some? ==>
        var role := roleModel.roles[IndexOfId(roleModel.roles, roleId).value];
        if roleId in old(userModel.users)[userId].roles then
          r == Failure(BadRequest("User aldready have the " + role.name + " role"))
        else
          && r.Success?
          && r.value == old(userModel.users)[userId].(roles := old(userModel.users)[userId].roles + [roleId])
          && userModel.users == old(userModel.users)[userId := r.value]
    {
      var found := userModel.FindById(userId);
      if found.None? {
        return Failure(NotFound("User not found."));
      }
      var user := found.value;
      var i := IndexOfId(roleModel.roles, roleId);
      if i.None? {
        return Failure(NotFound("Role not found."));
      }
      var role := roleModel.roles[i.value];
      if roleId in user.roles {
        return Failure(BadRequest("User aldready have the " + role.name + " role"));
      }
      user := user.(roles := user.roles + [roleId]);
      userModel.Save(userId, user);
      r := Success(user);
    }
  }

  /** A successful assignment grows the list by one and never introduces a duplicate. */
  lemma AssignKeepsRolesDistinct(roles: seq<RoleId>, roleId: RoleId)
    requires roleId !in roles
    requires forall i, j :: 0 <= i < j < |roles| ==> roles[i] != roles[j]
    ensures var after := roles + [roleId];
      |after| == |roles| + 1 && forall i, j :: 0 <= i < j < |after| ==> after[i] != after[j]
  {
  }
}
