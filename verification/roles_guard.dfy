/** `RolesGuard.canActivate`: the allow/deny decision for a route's required roles. */
module RolesGuard {
  import opened Wrappers
  import opened Users
  import opened Roles

  /** `required.some((role) => names.includes(role))`. */
  function SomeIncluded(required: seq<string>, names: seq<string>): (b: bool)
    ensures b <==> exists role :: role in required && role in names
  {
    if required == [] then false
    else required[0] in names || SomeIncluded(required[1..], names)
  }

  /**
   * `canActivate`: no required-roles metadata allows; a request user without
   * a roles claim allows; otherwise allow iff some required name is among the
   * names the user's role ids resolve to in the catalog (OR semantics).
   * Only absence counts as "no": an empty array is present.
   */
  function CanActivate(requiredRoles: Option<seq<string>>, userRoles: Option<seq<RoleId>>, catalog: seq<Role>): (allow: bool)
    ensures requiredRoles.None? ==> allow
    ensures requiredRoles.Some? && userRoles.None? ==> allow
    ensures requiredRoles.Some? && userRoles.Some? ==>
      (allow <==> exists r :: r in catalog && r.id in userRoles.value && r.name in requiredRoles.value)
  {
    if requiredRoles.None? then true
    else if userRoles.None? then true
    else SomeIncluded(requiredRoles.value, RoleNames(catalog, userRoles.value))
  }

  /** A present but empty required-roles list denies every user that has a roles claim. */
  lemma EmptyRequirementDenies(userRoles: seq<RoleId>, catalog: seq<Role>)
    ensures !CanActivate(Some([]), Some(userRoles), catalog)
  {
  }

  /** Adding role ids to a user never turns allow into deny. */
  lemma GuardMonotone(requiredRoles: Option<seq<string>>, roles: seq<RoleId>, more: seq<RoleId>, catalog: seq<Role>)
    requires forall id :: id in roles ==> id in more
    requires CanActivate(requiredRoles, Some(roles), catalog)
    ensures CanActivate(requiredRoles, Some(more), catalog)
  {
    if requiredRoles.Some? {
      RoleNamesMonotone(catalog, roles, more);
      var r :| r in catalog && r.id in roles && r.name in requiredRoles.value;
      assert r.id in more;
    }
  }

  /** Role ids with no catalog entry never change the decision. */
  lemma UnknownIdsDoNotChangeDecision(requiredRoles: Option<seq<string>>, roles: seq<RoleId>, unknown: seq<RoleId>, catalog: seq<Role>)
    requires forall r :: r in catalog ==> r.id !in unknown
    ensures CanActivate(requiredRoles, Some(roles + unknown), catalog) == CanActivate(requiredRoles, Some(roles), catalog)
  {
    UnknownIdsGrantNothing(catalog, roles, unknown);
  }

  /**
   * With the seeded catalog, a "user" is denied where "admin" is required,
   * and a holder of both is admitted where either one is required.
   */
  lemma OrSemantics(userId: RoleId, adminId: RoleId)
    requires userId != adminId
    ensures var catalog := [Role(userId, "user"), Role(adminId, "admin")];
      && !CanActivate(Some(["admin"]), Some([userId]), catalog)
      && CanActivate(Some(["admin"]), Some([userId, adminId]), catalog)
      && CanActivate(Some(["user"]), Some([userId, adminId]), catalog)
  {
    var catalog := [Role(userId, "user"), Role(adminId, "admin")];
    assert catalog[1] in catalog;
    assert catalog[0] in catalog;
  }
}
