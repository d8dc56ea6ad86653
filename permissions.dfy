/** The permission check and the role table. */
module Permissions {
  import opened Wrappers
  import opened AuthTypes

  /** `groups.some(group => group.permissions.includes(p))`. */
  function GroupsGrant(groups: seq<UserGroup>, p: Permission): (r: bool)
    ensures r <==> exists i :: 0 <= i < |groups| && p in groups[i].permissions
  {
    if groups == [] then false
    else p in groups[0].permissions || GroupsGrant(groups[1..], p)
  }

  /**
   * A missing user has no permission; a super-admin has every permission;
   * anyone else has exactly those granted directly or by one of their groups.
   */
  function HasPermission(user: Option<User>, p: Permission): (r: bool)
    ensures user.None? ==> !r
    ensures user.Some? && user.value.role == SuperAdmin ==> r
    ensures user.Some? && user.value.role != SuperAdmin ==>
      (r <==> p in user.value.permissions || exists g :: g in user.value.groups && p in g.permissions)
  {
    match user
    case None => false
    case Some(u) =>
      if u.role == SuperAdmin then true
      else if p in u.permissions then true
      else GroupsGrant(u.groups, p)
  }

  /** `permissions.every(p => hasPermission(user, p))`. */
  function HasAllPermissions(user: Option<User>, ps: seq<Permission>): (r: bool)
    ensures r <==> forall i :: 0 <= i < |ps| ==> HasPermission(user, ps[i])
  {
    if ps == [] then true
    else HasPermission(user, ps[0]) && HasAllPermissions(user, ps[1..])
  }

  /** `permissions.some(p => hasPermission(user, p))`. */
  function HasAnyPermission(user: Option<User>, ps: seq<Permission>): (r: bool)
    ensures r <==> exists i :: 0 <= i < |ps| && HasPermission(user, ps[i])
  {
    if ps == [] then false
    else HasPermission(user, ps[0]) || HasAnyPermission(user, ps[1..])
  }

  /** The composite checks on an empty list: every holds vacuously, some never does. */
  lemma EmptyPermissionLists(user: Option<User>)
    ensures HasAllPermissions(user, [])
    ensures !HasAnyPermission(user, [])
  {
  }

  /** ROLE_PERMISSIONS (and `getRolePermissions`, whose `|| []` never applies). */
  function RolePermissions(role: UserRole): seq<Permission> {
    match role
    case SuperAdmin => AllPermissions
    case Admin => [UserCreate, UserRead, UserUpdate, MemberCreate, MemberRead, MemberUpdate,
                   MemberDelete, StatsView, StatsExport, SystemLogs]
    case Moderator => [UserRead, MemberRead, MemberUpdate, StatsView]
    case Regular => [MemberRead, StatsView]
  }

  /** The table grows with rank, and the super-admin row holds every permission. */
  lemma RoleTableIsMonotone(p: Permission)
    ensures p in RolePermissions(Regular) ==> p in RolePermissions(Moderator)
    ensures p in RolePermissions(Moderator) ==> p in RolePermissions(Admin)
    ensures p in RolePermissions(Admin) ==> p in RolePermissions(SuperAdmin)
    ensures p in RolePermissions(SuperAdmin)
  {
  }

  /** The admin row lacks exactly the three most dangerous permissions. */
  lemma AdminTableRow(p: Permission)
    ensures p !in RolePermissions(Admin) <==> p == UserDelete || p == SystemConfig || p == SystemBackup
  {
  }

  /**
   * The check never consults the role table: a user without direct or group
   * permissions is refused everything, whatever the table holds for the role,
   * unless the role is super-admin.
   */
  lemma {:induction false} CheckIgnoresRoleTable(u: User, p: Permission)
    requires u.permissions == [] && forall g :: g in u.groups ==> g.permissions == []
    ensures HasPermission(Some(u), p) <==> u.role == SuperAdmin
  {
  }

  /** Granting a permission directly can only add to what the check allows. */
  lemma {:induction false} DirectGrantIsMonotone(u: User, extra: Permission, p: Permission)
    ensures HasPermission(Some(u), p) ==> HasPermission(Some(u.(permissions := u.permissions + [extra])), p)
    ensures HasPermission(Some(u.(permissions := u.permissions + [extra])), extra)
  {
  }
}
