/** The display ranking of roles: a weight per role and the comparator built on it. */
module RoleBadge {
  import opened AuthTypes
  import opened Permissions

  /** The switch's `default: 0` branch cannot be reached with a typed role. */
  function RoleWeight(role: UserRole): (w: int)
    ensures 1 <= w <= 4
    ensures w == 4 <==> role == SuperAdmin
  {
    match role
    case SuperAdmin => 4
    case Admin => 3
    case Moderator => 2
    case Regular => 1
  }

  /** Negative when `a` ranks above `b`, so an ascending sort puts higher roles first. */
  function CompareRoles(a: UserRole, b: UserRole): int {
    RoleWeight(b) - RoleWeight(a)
  }

  /** No two roles share a weight. */
  lemma WeightIsInjective(a: UserRole, b: UserRole)
    ensures RoleWeight(a) == RoleWeight(b) <==> a == b
  {
  }

  /** The comparator is zero exactly on equal roles and changes sign when its arguments swap. */
  lemma CompareIsAntisymmetric(a: UserRole, b: UserRole)
    ensures CompareRoles(a, a) == 0
    ensures CompareRoles(a, b) == -CompareRoles(b, a)
    ensures CompareRoles(a, b) == 0 <==> a == b
  {
    WeightIsInjective(a, b);
  }

  /** The ranking is a strict order. */
  lemma CompareIsTransitive(a: UserRole, b: UserRole, c: UserRole)
    ensures CompareRoles(a, b) < 0 && CompareRoles(b, c) < 0 ==> CompareRoles(a, c) < 0
  {
  }

  /** A super-admin ranks above every other role. */
  lemma SuperAdminRanksFirst(r: UserRole)
    ensures r != SuperAdmin ==> CompareRoles(SuperAdmin, r) < 0
    ensures CompareRoles(SuperAdmin, r) <= 0
  {
  }

  /** The display order: super-admin, admin, moderator, regular user, with weights 4 down to 1. */
  lemma RolesRankInOrder()
    ensures RoleWeight(SuperAdmin) == 4 && RoleWeight(Admin) == 3
    ensures RoleWeight(Moderator) == 2 && RoleWeight(Regular) == 1
    ensures CompareRoles(SuperAdmin, Admin) < 0 && CompareRoles(Admin, Moderator) < 0
    ensures CompareRoles(Moderator, Regular) < 0
  {
  }

  /** A role that ranks higher holds every permission of the role table that a lower one holds. */
  lemma RankFollowsRoleTable(a: UserRole, b: UserRole, p: Permission)
    requires CompareRoles(a, b) <= 0
    ensures p in RolePermissions(b) ==> p in RolePermissions(a)
  {
    RoleTableIsMonotone(p);
  }
}
