/**
 * The client-side session state and its reducer, and the two context
 * operations with rules of their own: creating a user with the context's
 * defaults, and the password change with its confirmation guard.
 */
module AuthContext {
  import opened Wrappers
  import opened AuthTypes
  import opened Permissions
  import opened UserDirectory

  datatype AuthState = AuthState(
    isAuthenticated: bool,
    user: Option<User>,
    token: Option<string>,
    loading: bool,
    error: Option<string>)

  datatype AuthAction =
    | LoginStart
    | LoginSuccess(user: User, token: string)
    | LoginFailure(message: string)
    | Logout
    | UpdateUser(user: User)
    | ClearError

  const InitialState := AuthState(false, None, None, false, None)

  function Reduce(s: AuthState, a: AuthAction): AuthState {
    match a
    case LoginStart => s.(loading := true, error := None)
    case LoginSuccess(u, t) => s.(isAuthenticated := true, user := Some(u), token := Some(t), loading := false, error := None)
    case LoginFailure(msg) => s.(isAuthenticated := false, user := None, token := None, loading := false, error := Some(msg))
    case Logout => InitialState
    case UpdateUser(u) => s.(user := Some(u))
    case ClearError => s.(error := None)
  }

  function ReduceAll(s: AuthState, acts: seq<AuthAction>): AuthState
    decreases |acts|
  {
    if acts == [] then s else Reduce(ReduceAll(s, acts[..|acts| - 1]), acts[|acts| - 1])
  }

  /** An authenticated session always has a user and a token. */
  predicate SessionConsistent(s: AuthState) {
    s.isAuthenticated ==> s.user.Some? && s.token.Some?
  }

  lemma ReducePreservesConsistency(s: AuthState, a: AuthAction)
    requires SessionConsistent(s)
    ensures SessionConsistent(Reduce(s, a))
  {
  }

  /** Every state reachable from the initial one is consistent. */
  lemma {:induction false} ReachableStatesAreConsistent(acts: seq<AuthAction>)
    ensures SessionConsistent(ReduceAll(InitialState, acts))
    decreases |acts|
  {
    if acts != [] {
      ReachableStatesAreConsistent(acts[..|acts| - 1]);
      ReducePreservesConsistency(ReduceAll(InitialState, acts[..|acts| - 1]), acts[|acts| - 1]);
    }
  }

  /** Starting a login or clearing the error leaves the session itself alone. */
  lemma LoginStartKeepsSession(s: AuthState)
    ensures var r := Reduce(s, LoginStart);
            r.loading && r.error.None? && r.isAuthenticated == s.isAuthenticated && r.user == s.user && r.token == s.token
    ensures var r := Reduce(s, ClearError);
            r.error.None? && r == s.(error := r.error)
  {
  }

  /** A login attempt ends authenticated with the user and token, or unauthenticated with neither and an error. */
  lemma LoginOutcomes(s: AuthState, u: User, t: string, msg: string)
    ensures var r := Reduce(s, LoginSuccess(u, t));
            r.isAuthenticated && r.user == Some(u) && r.token == Some(t) && !r.loading && r.error.None?
    ensures var r := Reduce(s, LoginFailure(msg));
            !r.isAuthenticated && r.user.None? && r.token.None? && !r.loading && r.error == Some(msg)
    ensures Reduce(Reduce(s, LoginFailure(msg)), Logout) == Reduce(s, Logout)
  {
  }

  /** Logging out forgets the session whatever came before; a user update touches only the user. */
  lemma LogoutForgetsSession(s: AuthState, acts: seq<AuthAction>, u: User)
    ensures ReduceAll(s, acts + [Logout]) == InitialState
    ensures var r := Reduce(s, UpdateUser(u));
            r.user == Some(u) && r == s.(user := r.user)
  {
    assert (acts + [Logout])[..|acts|] == acts;
  }

  // ---- creating a user through the context ----------------------------------

  /** What the user-management form submits. */
  datatype CreateUserRequest = CreateUserRequest(
    username: string,
    email: Option<string>,
    role: UserRole,
    groupIds: seq<string>,
    additionalPermissions: Option<seq<Permission>>,
    initialPassword: Option<string>)

  /**
   * The record the context hands to `createUser`: no groups, no direct
   * permissions (the requested group ids and extra permissions are not
   * used), a default password that has to be changed, created by the
   * current user if there is one.
   */
  function ContextNewUser(request: CreateUserRequest, current: Option<User>): NewUser {
    NewUser(request.username, request.email, request.role, [], [], true, None,
            if current.Some? then Some(current.value.id) else None, Some(true))
  }

  /**
   * So a user created through the context holds a permission exactly when
   * its role is super-admin, whatever the request asked for.
   */
  lemma ContextUserHasOnlyRolePower(request: CreateUserRequest, current: Option<User>, now: nat, p: Permission)
    ensures var u := Materialize(ContextNewUser(request, current), now);
            && u.isDefaultPassword && u.requirePasswordChange == Some(true)
            && (HasPermission(Some(u), p) <==> request.role == SuperAdmin)
  {
  }

  method CreateUserThroughContext(directory: Directory, state: AuthState, request: CreateUserRequest, now: nat)
    returns (u: User)
    modifies directory
    ensures u == Materialize(ContextNewUser(request, state.user), now)
    ensures directory.users == old(directory.users) + [u]
  {
    u := directory.CreateUser(ContextNewUser(request, state.user), now);
  }

  // ---- changing the password ---------------------------------------------------

  datatype ChangePasswordRequest = ChangePasswordRequest(currentPassword: string, newPassword: string, confirmPassword: string)

  /** The four messages `changePassword` can answer with (its exception path cannot arise here). */
  datatype ChangeMessage = NotLoggedIn | PasswordsDiffer | PasswordChangeSucceeded | PasswordChangeFailed

  datatype ChangeResult = ChangeResult(success: bool, message: ChangeMessage)

  /**
   * Without a user, or with a confirmation that differs, nothing is stored
   * and the session stays as it was. Otherwise the directory's record is
   * changed when it exists, and then the session's user loses its
   * default-password flag but keeps its must-change flag.
   */
  method ChangePassword(directory: Directory, state: AuthState, request: ChangePasswordRequest, now: nat)
    returns (result: ChangeResult, next: AuthState)
    modifies directory
    ensures state.user.None? ==>
              result == ChangeResult(false, NotLoggedIn) && next == state && directory.users == old(directory.users)
    ensures state.user.Some? && request.newPassword != request.confirmPassword ==>
              result == ChangeResult(false, PasswordsDiffer) && next == state && directory.users == old(directory.users)
    ensures state.user.Some? && request.newPassword == request.confirmPassword ==>
              var u := state.user.value;
              && (result.success <==> IndexOfId(old(directory.users), u.id).Some?)
              && (result.success ==>
                    && result.message == PasswordChangeSucceeded
                    && next == Reduce(state, UpdateUser(PasswordChanged(u, now)))
                    && !next.user.value.isDefaultPassword
                    && next.user.value.requirePasswordChange == u.requirePasswordChange
                    && var i := IndexOfId(old(directory.users), u.id).value;
                       directory.users == old(directory.users)[i := PasswordChanged(old(directory.users)[i], now)])
              && (!result.success ==>
                    result.message == PasswordChangeFailed && next == state && directory.users == old(directory.users))
  {
    if state.user.None? {
      return ChangeResult(false, NotLoggedIn), state;
    }
    if request.newPassword != request.confirmPassword {
      return ChangeResult(false, PasswordsDiffer), state;
    }
    var ok := directory.UpdateUserPassword(state.user.value.id, request.newPassword, now);
    if ok {
      var updated := state.user.value.(isDefaultPassword := false, updatedAt := now);
      next := Reduce(state, UpdateUser(updated));
      result := ChangeResult(true, PasswordChangeSucceeded);
    } else {
      result := ChangeResult(false, PasswordChangeFailed);
      next := state;
    }
  }
}
