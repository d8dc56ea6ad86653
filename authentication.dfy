/**
 * `authenticateUser`: the super-admin path, taken when a second-factor code
 * is supplied, and the ordinary path, taken when it is absent or empty.
 */
module Authentication {
  import opened Wrappers
  import opened AuthTypes
  import opened Lockout
  import opened UserDirectory

  const SuperAdminCode: string := "oscar4471"

  /** The thrown errors, by kind; each carries what its message reports. */
  datatype AuthError =
    | AccountLocked(blockedUntil: Option<nat>)
    | TooManyAttempts
    | WrongCode(attemptsLeft: int)
    | SuperAdminRequiresCode

  /** A returned value (a user, or null for bad credentials) or a thrown error. */
  datatype AuthOutcome = Returned(user: Option<User>) | Thrown(error: AuthError)

  /** `if (twoFactorCode)`: present and not the empty string. */
  predicate CodeSupplied(code: Option<string>) {
    code.Some? && code.value != ""
  }

  /** `users.find(u => u.role === SUPER_ADMIN)`. */
  function FirstSuperAdmin(users: seq<User>): (r: Option<User>)
    ensures r.Some? ==> r.value in users && r.value.role == SuperAdmin
    ensures r.None? ==> forall u :: u in users ==> u.role != SuperAdmin
    ensures r.Some? ==> exists i :: 0 <= i < |users| && users[i] == r.value && forall j :: 0 <= j < i ==> users[j].role != SuperAdmin
  {
    if users == [] then None
    else if users[0].role == SuperAdmin then Some(users[0])
    else FirstSuperAdmin(users[1..])
  }

  /** `users.find(u => u.username === username && u.role !== SUPER_ADMIN)`. */
  function FindLoginUser(users: seq<User>, username: string): (r: Option<User>)
    ensures r.Some? ==> r.value in users && r.value.username == username && r.value.role != SuperAdmin
    ensures r.None? ==> forall u :: u in users && u.username == username ==> u.role == SuperAdmin
    ensures r.Some? ==> exists i :: 0 <= i < |users| && users[i] == r.value &&
                          forall j :: 0 <= j < i ==> !(users[j].username == username && users[j].role != SuperAdmin)
  {
    if users == [] then None
    else if users[0].username == username && users[0].role != SuperAdmin then Some(users[0])
    else FindLoginUser(users[1..], username)
  }

  /** The super-admin path, after the block check has passed. */
  function CodePath(attempts: seq<Attempt>, users: seq<User>, username: string, password: string,
                    code: string, now: nat): (AuthOutcome, seq<Attempt>)
  {
    if code == SuperAdminCode && username == DefaultAdminUsername && password == DefaultAdminPassword then
      (Returned(FirstSuperAdmin(users)), AfterReset(attempts, username))
    else
      var report := FailureOutcome(attempts, username, now);
      var after := AfterFailure(attempts, username, now);
      if report.blocked then (Thrown(TooManyAttempts), after)
      else (Thrown(WrongCode(MaxFailures - report.failedAttempts)), after)
  }

  /** The ordinary path; the lockout list is not touched. */
  function NoCodePath(users: seq<User>, username: string, password: string): AuthOutcome {
    match FindLoginUser(users, username)
    case None => if username == DefaultAdminUsername then Thrown(SuperAdminRequiresCode) else Returned(None)
    case Some(u) => if u.isDefaultPassword && password == DefaultAdminPassword then Returned(Some(u)) else Returned(None)
  }

  /** The outcome of a login and the lockout list afterwards. */
  function Authenticate(attempts: seq<Attempt>, users: seq<User>, username: string, password: string,
                        code: Option<string>, now: nat): (AuthOutcome, seq<Attempt>)
  {
    if CodeSupplied(code) then
      var status := CheckStatus(attempts, username, now);
      var checked := AfterCheck(attempts, username, now);
      if status.blocked then (Thrown(AccountLocked(status.blockedUntil)), checked)
      else CodePath(checked, users, username, password, code.value, now)
    else
      (NoCodePath(users, username, password), attempts)
  }

  method AuthenticateUser(tracker: Tracker, directory: Directory, username: string, password: string,
                          code: Option<string>, now: nat) returns (outcome: AuthOutcome)
    requires tracker.Valid()
    modifies tracker
    ensures (outcome, tracker.attempts) == Authenticate(old(tracker.attempts), directory.users, username, password, code, now)
    ensures tracker.Valid()
  {
    if CodeSupplied(code) {
      var status := tracker.IsUserBlocked(username, now);
      if status.blocked {
        return Thrown(AccountLocked(status.blockedUntil));
      }
      if code.value == SuperAdminCode && username == DefaultAdminUsername && password == DefaultAdminPassword {
        tracker.ResetFailures(username);
        return Returned(FirstSuperAdmin(directory.users));
      }
      var report := tracker.RecordFailure(username, now);
      if report.blocked {
        return Thrown(TooManyAttempts);
      }
      return Thrown(WrongCode(MaxFailures - report.failedAttempts));
    }
    var user := FindLoginUser(directory.users, username);
    if user.None? {
      if username == DefaultAdminUsername {
        return Thrown(SuperAdminRequiresCode);
      }
      return Returned(None);
    }
    if user.value.isDefaultPassword && password == DefaultAdminPassword {
      return Returned(user);
    }
    outcome := Returned(None);
  }

  // ---- properties -----------------------------------------------------------

  /** While the username is blocked, a code attempt is refused without counting a failure. */
  lemma BlockedAttemptIsNotCounted(attempts: seq<Attempt>, users: seq<User>, username: string,
                                   password: string, code: string, now: nat)
    requires code != "" && CheckStatus(attempts, username, now).blocked
    ensures Authenticate(attempts, users, username, password, Some(code), now) ==
            (Thrown(AccountLocked(CheckStatus(attempts, username, now).blockedUntil)), attempts)
  {
  }

  /** The right code with the default credentials clears the counter and returns the first super-admin. */
  lemma {:induction false} CorrectCodeResets(attempts: seq<Attempt>, users: seq<User>, now: nat)
    requires WellFormed(attempts) && !CheckStatus(attempts, DefaultAdminUsername, now).blocked
    ensures var (outcome, after) := Authenticate(attempts, users, DefaultAdminUsername, DefaultAdminPassword, Some(SuperAdminCode), now);
            && outcome == Returned(FirstSuperAdmin(users))
            && Lookup(after, DefaultAdminUsername).None?
  {
    var checked := AfterCheck(attempts, DefaultAdminUsername, now);
    OperationsPreserveWellFormed(attempts, DefaultAdminUsername, now);
    ResetClearsCounter(checked, DefaultAdminUsername, now);
  }

  /**
   * Any other code attempt on an unblocked username counts one failure and
   * reports the attempts left, or the lockout once five have failed.
   */
  lemma {:induction false} WrongCodeCounts(attempts: seq<Attempt>, users: seq<User>, username: string,
                                           password: string, code: string, now: nat)
    requires code != "" && !CheckStatus(attempts, username, now).blocked
    requires !(code == SuperAdminCode && username == DefaultAdminUsername && password == DefaultAdminPassword)
    ensures var checked := AfterCheck(attempts, username, now);
            var n := FailureOutcome(checked, username, now).failedAttempts;
            var (outcome, after) := Authenticate(attempts, users, username, password, Some(code), now);
            && after == AfterFailure(checked, username, now)
            && Lookup(after, username).Some? && Lookup(after, username).value.failedAttempts == n
            && (n < MaxFailures ==> outcome == Thrown(WrongCode(MaxFailures - n)) && 1 <= MaxFailures - n <= 4)
            && (n >= MaxFailures ==> outcome == Thrown(TooManyAttempts))
  {
    FailureCountsOne(AfterCheck(attempts, username, now), username, now);
  }

  /** Without a code the lockout list is untouched and a super-admin is never returned. */
  lemma {:induction false} NoCodeNeverSuperAdmin(attempts: seq<Attempt>, users: seq<User>, username: string,
                                                 password: string, code: Option<string>, now: nat)
    requires !CodeSupplied(code)
    ensures var (outcome, after) := Authenticate(attempts, users, username, password, code, now);
            && after == attempts
            && (outcome.Returned? && outcome.user.Some? ==>
                  outcome.user.value.role != SuperAdmin && outcome.user.value.username == username
                  && outcome.user.value.isDefaultPassword && password == DefaultAdminPassword)
  {
  }

  /** Without a code, an unmatched `admin` asks for the code and any other unmatched name gets null. */
  lemma NoCodeUnmatched(users: seq<User>, username: string, password: string)
    requires forall u :: u in users && u.username == username ==> u.role == SuperAdmin
    ensures NoCodePath(users, username, password) ==
            if username == DefaultAdminUsername then Thrown(SuperAdminRequiresCode) else Returned(None)
  {
  }

  /** An empty code takes the ordinary path, exactly as an absent one does. */
  lemma EmptyCodeIsNoCode(attempts: seq<Attempt>, users: seq<User>, username: string, password: string, now: nat)
    ensures Authenticate(attempts, users, username, password, Some(""), now) ==
            Authenticate(attempts, users, username, password, None, now)
  {
  }

  /** With the seeded directory and a clear list, the right code logs the seeded admin in; a wrong one leaves 4 tries. */
  lemma {:induction false} SeededAdminScenario(now: nat)
    ensures Authenticate([], [SeedAdmin(now)], "admin", "admin123", Some("oscar4471"), now).0 == Returned(Some(SeedAdmin(now)))
    ensures Authenticate([], [SeedAdmin(now)], "admin", "admin123", Some("wrong"), now).0 == Thrown(WrongCode(4))
  {
    assert IndexOf([], "admin") == None;
  }
}
