/**
 * The in-memory user list: one seeded super-admin, then create, list,
 * delete, update and the two password-flag operations. Each operation that
 * names a user finds the first record with that id.
 */
module UserDirectory {
  import opened Wrappers
  import opened AuthTypes
  import Text

  const DefaultAdminUsername: string := "admin"
  const DefaultAdminPassword: string := "admin123"
  const DefaultAdminEmail: string := "admin@snowfall-guild.com"

  /** The record seeded at start-up, created at `now`. */
  function SeedAdmin(now: nat): User {
    User("1", DefaultAdminUsername, Some(DefaultAdminEmail), SuperAdmin, [], AllPermissions,
         true, None, now, now, None, Some(true))
  }

  /** `Omit<User, 'id' | 'createdAt' | 'updatedAt'>`: what a caller supplies to create a user. */
  datatype NewUser = NewUser(
    username: string,
    email: Option<string>,
    role: UserRole,
    groups: seq<UserGroup>,
    permissions: seq<Permission>,
    isDefaultPassword: bool,
    lastLoginAt: Option<nat>,
    createdBy: Option<string>,
    requirePasswordChange: Option<bool>)

  /** The stored record for `data`: its id is `Date.now().toString()`, both timestamps are `now`. */
  function Materialize(data: NewUser, now: nat): User {
    User(Text.NatToString(now), data.username, data.email, data.role, data.groups, data.permissions,
         data.isDefaultPassword, data.lastLoginAt, now, now, data.createdBy, data.requirePasswordChange)
  }

  /**
   * `Partial<User>`: each field is absent (None) or present with its value;
   * for an optional field the value may itself be `undefined` (Some(None)).
   */
  datatype UserPatch = UserPatch(
    id: Option<string>,
    username: Option<string>,
    email: Option<Option<string>>,
    role: Option<UserRole>,
    groups: Option<seq<UserGroup>>,
    permissions: Option<seq<Permission>>,
    isDefaultPassword: Option<bool>,
    lastLoginAt: Option<Option<nat>>,
    createdAt: Option<nat>,
    createdBy: Option<Option<string>>,
    requirePasswordChange: Option<Option<bool>>)

  const EmptyPatch: UserPatch := UserPatch(None, None, None, None, None, None, None, None, None, None, None)

  function Pick<T>(patch: Option<T>, current: T): T {
    if patch.Some? then patch.value else current
  }

  /** `{...user, ...patch, updatedAt: now}`. */
  function ApplyPatch(u: User, p: UserPatch, now: nat): User {
    User(Pick(p.id, u.id), Pick(p.username, u.username), Pick(p.email, u.email), Pick(p.role, u.role),
         Pick(p.groups, u.groups), Pick(p.permissions, u.permissions),
         Pick(p.isDefaultPassword, u.isDefaultPassword), Pick(p.lastLoginAt, u.lastLoginAt),
         Pick(p.createdAt, u.createdAt), now, Pick(p.createdBy, u.createdBy),
         Pick(p.requirePasswordChange, u.requirePasswordChange))
  }

  /** The record after updateUserPassword: only the default-password flag and the timestamp move. */
  function PasswordChanged(u: User, now: nat): User {
    u.(isDefaultPassword := false, updatedAt := now)
  }

  /** The record after resetUserPassword: the new password itself is not stored anywhere. */
  function PasswordReset(u: User, now: nat): User {
    u.(isDefaultPassword := true, requirePasswordChange := Some(true), updatedAt := now)
  }

  /** `users.findIndex(u => u.id === id)`, as an option. */
  function IndexOfId(users: seq<User>, id: string): (r: Option<nat>)
    ensures r.Some? ==> r.value < |users| && users[r.value].id == id
    ensures r.Some? ==> forall j :: 0 <= j < r.value ==> users[j].id != id
    ensures r.None? ==> forall j :: 0 <= j < |users| ==> users[j].id != id
  {
    if users == [] then None
    else if users[0].id == id then Some(0)
    else match IndexOfId(users[1..], id)
      case None => None
      case Some(k) => Some(k + 1)
  }

  class Directory {
    var users: seq<User>

    constructor (now: nat)
      ensures users == [SeedAdmin(now)]
    {
      users := [SeedAdmin(now)];
    }

    /** createUser: appends exactly one record and returns it. */
    method CreateUser(data: NewUser, now: nat) returns (u: User)
      modifies this
      ensures u == Materialize(data, now)
      ensures users == old(users) + [u]
    {
      u := Materialize(data, now);
      users := users + [u];
    }

    /** getAllUsers: a copy of the list. */
    method GetAllUsers() returns (all: seq<User>)
      ensures all == users
    {
      all := users;
    }

    method DeleteUser(id: string) returns (ok: bool)
      modifies this
      ensures ok <==> IndexOfId(old(users), id).Some?
      ensures !ok ==> users == old(users)
      ensures ok ==> var i := IndexOfId(old(users), id).value;
                     users == old(users)[..i] + old(users)[i + 1..]
    {
      var i := IndexOfId(users, id);
      if i.None? {
        return false;
      }
      users := users[..i.value] + users[i.value + 1..];
      ok := true;
    }

    method UpdateUserPassword(id: string, newPassword: string, now: nat) returns (ok: bool)
      modifies this
      ensures ok <==> IndexOfId(old(users), id).Some?
      ensures !ok ==> users == old(users)
      ensures ok ==> var i := IndexOfId(old(users), id).value;
                     users == old(users)[i := PasswordChanged(old(users)[i], now)]
    {
      var i := IndexOfId(users, id);
      if i.None? {
        return false;
      }
      users := users[i.value := PasswordChanged(users[i.value], now)];
      ok := true;
    }

    method ResetUserPassword(id: string, newPassword: string, now: nat) returns (ok: bool)
      modifies this
      ensures ok <==> IndexOfId(old(users), id).Some?
      ensures !ok ==> users == old(users)
      ensures ok ==> var i := IndexOfId(old(users), id).value;
                     users == old(users)[i := PasswordReset(old(users)[i], now)]
    {
      var i := IndexOfId(users, id);
      if i.None? {
        return false;
      }
      users := users[i.value := PasswordReset(users[i.value], now)];
      ok := true;
    }

    method UpdateUser(id: string, patch: UserPatch, now: nat) returns (updated: Option<User>)
      modifies this
      ensures updated.Some? <==> IndexOfId(old(users), id).Some?
      ensures updated.None? ==> users == old(users)
      ensures updated.Some? ==> var i := IndexOfId(old(users), id).value;
                                && updated.value == ApplyPatch(old(users)[i], patch, now)
                                && users == old(users)[i := updated.value]
    {
      var i := IndexOfId(users, id);
      if i.None? {
        return None;
      }
      users := users[i.value := ApplyPatch(users[i.value], patch, now)];
      updated := Some(users[i.value]);
    }
  }

  // ---- properties of the record updates -------------------------------------

  /** A password change keeps everything but the default flag (now false) and the timestamp. */
  lemma PasswordChangeKeepsIdentity(u: User, now: nat)
    ensures PasswordChanged(u, now).(isDefaultPassword := u.isDefaultPassword, updatedAt := u.updatedAt) == u
    ensures PasswordChanged(u, now).updatedAt == now
    ensures !PasswordChanged(u, now).isDefaultPassword
    ensures PasswordChanged(u, now).requirePasswordChange == u.requirePasswordChange
  {
  }

  /** A reset forces both flags on, whichever password the caller supplied. */
  lemma PasswordResetForcesFlags(u: User, now: nat)
    ensures PasswordReset(u, now).isDefaultPassword
    ensures PasswordReset(u, now).requirePasswordChange == Some(true)
    ensures PasswordChanged(PasswordReset(u, now), now).isDefaultPassword == false
  {
  }

  /** An empty patch changes only the update timestamp. */
  lemma EmptyPatchTouchesTimestampOnly(u: User, now: nat)
    ensures ApplyPatch(u, EmptyPatch, now) == u.(updatedAt := now)
  {
  }

  /** Applying a patch twice is the same as applying it once (the fields it sets are overwritten). */
  lemma PatchIsIdempotent(u: User, p: UserPatch, now: nat)
    ensures ApplyPatch(ApplyPatch(u, p, now), p, now) == ApplyPatch(u, p, now)
  {
  }
}
