/** Roles and the role guard's allow/deny decision. */
module Roles {
  import opened Common

  /** The closed set of roles a user record carries. */
  datatype Role = User | Admin

  /** The guard's decision. `requiredRoles` is the `roles` metadata of the
      route HANDLER (absent when the handler carries no `@Roles`), and
      `userRole` is the role of the user the authentication guard attached to
      the request. Absent metadata admits everyone; present metadata, even an
      empty list, admits exactly the roles it lists. */
  function CanActivate(requiredRoles: Option<seq<Role>>, userRole: Role): (allowed: bool)
    ensures requiredRoles.None? ==> allowed
    ensures requiredRoles.Some? && userRole in requiredRoles.value ==> allowed
    ensures requiredRoles.Some? && userRole !in requiredRoles.value ==> !allowed
  {
    if requiredRoles.None? then true
    else userRole in requiredRoles.value
  }

  /** An empty `@Roles()` list is present metadata, so it shuts everyone out. */
  lemma EmptyRoleListDeniesEveryone(userRole: Role)
    ensures !CanActivate(Some([]), userRole)
  {
  }

  /** An admin-only route turns away a user and lets an admin through. */
  lemma AdminOnlyRoute()
    ensures !CanActivate(Some([Admin]), User)
    ensures CanActivate(Some([Admin]), Admin)
  {
  }

  /** The route handlers of the users controller. */
  datatype UserHandler = GetAll | Create | GetOne | Update | UpdatePartial | Delete | UploadImage

  /** The roles declared on the users controller CLASS. */
  const UserControllerClassRoles: seq<Role> := [User]

  /** The per-handler metadata the guard reads: no handler of the users
      controller declares `@Roles` itself. */
  function HandlerRoles(h: UserHandler): (roles: Option<seq<Role>>)
    ensures roles.None?
  {
    match h
    case GetAll => None
    case Create => None
    case GetOne => None
    case Update => None
    case UpdatePartial => None
    case Delete => None
    case UploadImage => None
  }

  /** Because the guard looks only at handler metadata, the class-level
      `@Roles(User)` has no effect: every role passes on every handler of the
      users controller, although the class list, were it read, would turn an
      admin away. */
  lemma UserControllerAdmitsEveryRole(h: UserHandler, userRole: Role)
    ensures CanActivate(HandlerRoles(h), userRole)
    ensures !CanActivate(Some(UserControllerClassRoles), Admin)
  {
  }
}
