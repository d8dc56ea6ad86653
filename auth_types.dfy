/** The user, role and permission records of the authorization model. */
module AuthTypes {
  import opened Wrappers

  /** SUPER_ADMIN, ADMIN, MODERATOR and USER; the last is `Regular` here. */
  datatype UserRole = SuperAdmin | Admin | Moderator | Regular

  datatype Permission =
    | UserCreate | UserRead | UserUpdate | UserDelete
    | MemberCreate | MemberRead | MemberUpdate | MemberDelete
    | SystemConfig | SystemLogs | SystemBackup
    | StatsView | StatsExport

  /** `Object.values(Permission)`: every permission, in declaration order. */
  const AllPermissions: seq<Permission> := [
    UserCreate, UserRead, UserUpdate, UserDelete,
    MemberCreate, MemberRead, MemberUpdate, MemberDelete,
    SystemConfig, SystemLogs, SystemBackup,
    StatsView, StatsExport
  ]

  datatype UserGroup = UserGroup(
    id: string,
    name: string,
    description: string,
    permissions: seq<Permission>,
    createdAt: nat,
    updatedAt: nat)

  /** A user record; timestamps are milliseconds since the epoch. */
  datatype User = User(
    id: string,
    username: string,
    email: Option<string>,
    role: UserRole,
    groups: seq<UserGroup>,
    permissions: seq<Permission>,
    isDefaultPassword: bool,
    lastLoginAt: Option<nat>,
    createdAt: nat,
    updatedAt: nat,
    createdBy: Option<string>,
    requirePasswordChange: Option<bool>)
}
