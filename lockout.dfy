/**
 * The second-factor lockout tracker: a process-wide list of per-username
 * failure counters. Five failures block the username for 24 hours; the block
 * lapses lazily, on the first check after it has elapsed.
 */
module Lockout {
  import opened Wrappers

  const MaxFailures: nat := 5
  const BlockDurationMs: nat := 24 * 60 * 60 * 1000

  /** One tracked username; `blockedUntil` is a millisecond timestamp. */
  datatype Attempt = Attempt(username: string, failedAttempts: nat, lastFailedAt: nat, blockedUntil: Option<nat>)

  datatype BlockStatus = BlockStatus(blocked: bool, blockedUntil: Option<nat>)

  datatype FailureReport = FailureReport(failedAttempts: nat, blocked: bool, blockedUntil: Option<nat>)

  /** `attempts.findIndex(a => a.username === username)`, as an option. */
  function IndexOf(s: seq<Attempt>, username: string): (r: Option<nat>)
    ensures r.Some? ==> r.value < |s| && s[r.value].username == username
    ensures r.Some? ==> forall j :: 0 <= j < r.value ==> s[j].username != username
    ensures r.None? ==> forall j :: 0 <= j < |s| ==> s[j].username != username
  {
    if s == [] then None
    else if s[0].username == username then Some(0)
    else match IndexOf(s[1..], username)
      case None => None
      case Some(k) => Some(k + 1)
  }

  /** The first match depends only on the usernames, position by position. */
  lemma IndexOfSameUsernames(s: seq<Attempt>, t: seq<Attempt>, username: string)
    requires |s| == |t| && forall k :: 0 <= k < |s| ==> s[k].username == t[k].username
    ensures IndexOf(s, username) == IndexOf(t, username)
  {
    var a, b := IndexOf(s, username), IndexOf(t, username);
    if a.Some? && b.Some? {
      assert !(a.value < b.value) && !(b.value < a.value);
    }
  }

  /** `attempts.find(a => a.username === username)`. */
  function Lookup(s: seq<Attempt>, username: string): Option<Attempt> {
    match IndexOf(s, username)
    case None => None
    case Some(i) => Some(s[i])
  }

  /** The list invariant: one entry per username, and a block only after five failures. */
  ghost predicate WellFormed(s: seq<Attempt>) {
    && (forall i, j :: 0 <= i < j < |s| ==> s[i].username != s[j].username)
    && (forall i :: 0 <= i < |s| && s[i].blockedUntil.Some? ==> s[i].failedAttempts >= MaxFailures)
  }

  // ---- isUserBlocked --------------------------------------------------------

  function CheckStatus(s: seq<Attempt>, username: string, now: nat): BlockStatus {
    match Lookup(s, username)
    case None => BlockStatus(false, None)
    case Some(a) =>
      if a.blockedUntil.None? then BlockStatus(false, None)
      else if now < a.blockedUntil.value then BlockStatus(true, a.blockedUntil)
      else BlockStatus(false, None)
  }

  function AfterCheck(s: seq<Attempt>, username: string, now: nat): seq<Attempt> {
    match IndexOf(s, username)
    case None => s
    case Some(i) =>
      if s[i].blockedUntil.None? || now < s[i].blockedUntil.value then s
      else s[i := s[i].(blockedUntil := None, failedAttempts := 0)]
  }

  // ---- recordTwoFactorFailure ----------------------------------------------

  /** The entry after one more failure at `now`, created if absent. */
  function Failed(prior: Option<Attempt>, username: string, now: nat): Attempt {
    var a := if prior.Some? then prior.value else Attempt(username, 0, now, None);
    var counted := a.(failedAttempts := a.failedAttempts + 1, lastFailedAt := now);
    if counted.failedAttempts >= MaxFailures then counted.(blockedUntil := Some(now + BlockDurationMs))
    else counted
  }

  function AfterFailure(s: seq<Attempt>, username: string, now: nat): seq<Attempt> {
    match IndexOf(s, username)
    case None => s + [Failed(None, username, now)]
    case Some(i) => s[i := Failed(Some(s[i]), username, now)]
  }

  function FailureOutcome(s: seq<Attempt>, username: string, now: nat): FailureReport {
    var a := Failed(Lookup(s, username), username, now);
    if a.failedAttempts >= MaxFailures then FailureReport(a.failedAttempts, true, a.blockedUntil)
    else FailureReport(a.failedAttempts, false, None)
  }

  // ---- resetTwoFactorFailures -----------------------------------------------

  function AfterReset(s: seq<Attempt>, username: string): seq<Attempt> {
    match IndexOf(s, username)
    case None => s
    case Some(i) => s[..i] + s[i + 1..]
  }

  // ---- the tracker object ---------------------------------------------------

  class Tracker {
    var attempts: seq<Attempt>

    /** The list invariant holds of the tracked list. */
    ghost predicate Valid()
      reads this
    {
      WellFormed(attempts)
    }

    constructor ()
      ensures attempts == [] && Valid()
    {
      attempts := [];
    }

    method IsUserBlocked(username: string, now: nat) returns (status: BlockStatus)
      requires Valid()
      modifies this
      ensures status == CheckStatus(old(attempts), username, now)
      ensures attempts == AfterCheck(old(attempts), username, now)
      ensures Valid()
    {
      OperationsPreserveWellFormed(attempts, username, now);
      var i := IndexOf(attempts, username);
      if i.None? || attempts[i.value].blockedUntil.None? {
        return BlockStatus(false, None);
      }
      var attempt := attempts[i.value];
      if now < attempt.blockedUntil.value {
        return BlockStatus(true, attempt.blockedUntil);
      }
      attempts := attempts[i.value := attempt.(blockedUntil := None, failedAttempts := 0)];
      status := BlockStatus(false, None);
    }

    method RecordFailure(username: string, now: nat) returns (report: FailureReport)
      requires Valid()
      modifies this
      ensures report == FailureOutcome(old(attempts), username, now)
      ensures attempts == AfterFailure(old(attempts), username, now)
      ensures Valid()
    {
      OperationsPreserveWellFormed(attempts, username, now);
      var i := IndexOf(attempts, username);
      var index: nat;
      if i.None? {
        attempts := attempts + [Attempt(username, 0, now, None)];
        index := |attempts| - 1;
      } else {
        index := i.value;
      }
      var attempt := attempts[index];
      attempt := attempt.(failedAttempts := attempt.failedAttempts + 1, lastFailedAt := now);
      if attempt.failedAttempts >= MaxFailures {
        attempt := attempt.(blockedUntil := Some(now + BlockDurationMs));
        attempts := attempts[index := attempt];
        return FailureReport(attempt.failedAttempts, true, attempt.blockedUntil);
      }
      attempts := attempts[index := attempt];
      report := FailureReport(attempt.failedAttempts, false, None);
    }

    method ResetFailures(username: string)
      requires Valid()
      modifies this
      ensures attempts == AfterReset(old(attempts), username)
      ensures Valid()
    {
      OperationsPreserveWellFormed(attempts, username, 0);
      var i := IndexOf(attempts, username);
      if i.Some? {
        attempts := attempts[..i.value] + attempts[i.value + 1..];
      }
    }
  }

  // ---- properties -----------------------------------------------------------

  /** Every operation keeps one entry per username, and blocks only after five failures. */
  lemma {:induction false} OperationsPreserveWellFormed(s: seq<Attempt>, username: string, now: nat)
    requires WellFormed(s)
    ensures WellFormed(AfterCheck(s, username, now))
    ensures WellFormed(AfterFailure(s, username, now))
    ensures WellFormed(AfterReset(s, username))
  {
    CheckPreservesWellFormed(s, username, now);
    FailurePreservesWellFormed(s, username, now);
    ResetPreservesWellFormed(s, username);
  }

  lemma CheckPreservesWellFormed(s: seq<Attempt>, username: string, now: nat)
    requires WellFormed(s)
    ensures WellFormed(AfterCheck(s, username, now))
  {
  }

  lemma FailurePreservesWellFormed(s: seq<Attempt>, username: string, now: nat)
    requires WellFormed(s)
    ensures WellFormed(AfterFailure(s, username, now))
  {
  }

  /** The list with entry `k` removed, position by position. */
  lemma RemovedAt(s: seq<Attempt>, k: nat)
    requires k < |s|
    ensures var r := s[..k] + s[k + 1..];
            |r| == |s| - 1 && forall j :: 0 <= j < |r| ==> r[j] == if j < k then s[j] else s[j + 1]
  {
  }

  lemma ResetPreservesWellFormed(s: seq<Attempt>, username: string)
    requires WellFormed(s)
    ensures WellFormed(AfterReset(s, username))
  {
    if IndexOf(s, username).Some? {
      RemovedAt(s, IndexOf(s, username).value);
    }
  }

  /**
   * A failure adds exactly one to the username's counter (starting from
   * zero when it is not tracked), reports a block exactly when the counter
   * reaches five, and then blocks until 24 hours after `now`.
   */
  lemma {:induction false} FailureCountsOne(s: seq<Attempt>, username: string, now: nat)
    ensures Lookup(AfterFailure(s, username, now), username).Some?
    ensures var before := if Lookup(s, username).Some? then Lookup(s, username).value.failedAttempts else 0;
            var a := Lookup(AfterFailure(s, username, now), username).value;
            var rep := FailureOutcome(s, username, now);
            && a.failedAttempts == before + 1
            && rep.failedAttempts == before + 1
            && a.lastFailedAt == now
            && (rep.blocked <==> before + 1 >= MaxFailures)
            && (rep.blocked ==> rep.blockedUntil == Some(now + BlockDurationMs) && a.blockedUntil == rep.blockedUntil)
            && (!rep.blocked ==> a.blockedUntil == if Lookup(s, username).Some? then Lookup(s, username).value.blockedUntil else None)
  {
    var r := AfterFailure(s, username, now);
    if IndexOf(s, username).None? {
      assert r[|s|].username == username;
      assert IndexOf(r, username) == Some(|s|);
    } else {
      IndexOfSameUsernames(s, r, username);
    }
  }

  /** Operations on one username leave every other username's entry alone. */
  lemma OtherUsernamesUntouched(s: seq<Attempt>, username: string, other: string, now: nat)
    requires WellFormed(s) && other != username
    ensures Lookup(AfterCheck(s, username, now), other) == Lookup(s, other)
    ensures Lookup(AfterFailure(s, username, now), other) == Lookup(s, other)
    ensures Lookup(AfterReset(s, username), other) == Lookup(s, other)
  {
    IndexOfSameUsernames(s, AfterCheck(s, username, now), other);
    FailureLeavesOthers(s, username, other, now);
    ResetLeavesOthers(s, username, other);
  }

  lemma FailureLeavesOthers(s: seq<Attempt>, username: string, other: string, now: nat)
    requires other != username
    ensures Lookup(AfterFailure(s, username, now), other) == Lookup(s, other)
  {
    var f := AfterFailure(s, username, now);
    if IndexOf(s, username).Some? {
      IndexOfSameUsernames(s, f, other);
    } else {
      assert f[..|s|] == s;
      var o := IndexOf(s, other);
      if o.Some? {
        assert IndexOf(f, other) == o;
      } else {
        assert IndexOf(f, other).None?;
      }
    }
  }

  lemma ResetLeavesOthers(s: seq<Attempt>, username: string, other: string)
    requires other != username
    ensures Lookup(AfterReset(s, username), other) == Lookup(s, other)
  {
    var i := IndexOf(s, username);
    var o := IndexOf(s, other);
    var r := AfterReset(s, username);
    if i.Some? {
      var k := i.value;
      RemovedAt(s, k);
      if o.Some? {
        var n := if o.value < k then o.value else o.value - 1;
        assert r[n] == s[o.value];
        assert IndexOf(r, other) == Some(n);
      } else {
        assert IndexOf(r, other).None?;
      }
    }
  }

  /** Reset removes the entry, so the username is clear and the next failure reports 1. */
  lemma {:induction false} ResetClearsCounter(s: seq<Attempt>, username: string, now: nat)
    requires WellFormed(s)
    ensures Lookup(AfterReset(s, username), username).None?
    ensures !CheckStatus(AfterReset(s, username), username, now).blocked
    ensures FailureOutcome(AfterReset(s, username), username, now) == FailureReport(1, false, None)
  {
    var r := AfterReset(s, username);
    if IndexOf(s, username).Some? {
      RemovedAt(s, IndexOf(s, username).value);
    }
    assert IndexOf(r, username).None?;
  }

  /** A check after the block has elapsed lifts it and zeroes the counter, keeping the entry. */
  lemma {:induction false} ElapsedBlockIsLifted(s: seq<Attempt>, username: string, now: nat)
    requires Lookup(s, username).Some? && Lookup(s, username).value.blockedUntil.Some?
    requires Lookup(s, username).value.blockedUntil.value <= now
    ensures !CheckStatus(s, username, now).blocked
    ensures Lookup(AfterCheck(s, username, now), username) ==
            Some(Lookup(s, username).value.(blockedUntil := None, failedAttempts := 0))
  {
    IndexOfSameUsernames(s, AfterCheck(s, username, now), username);
  }

  /** Failures recorded one after the other, at the given times. */
  function Failures(s: seq<Attempt>, username: string, times: seq<nat>): seq<Attempt>
    decreases |times|
  {
    if times == [] then s
    else AfterFailure(Failures(s, username, times[..|times| - 1]), username, times[|times| - 1])
  }

  /**
   * From a clear username, `n` consecutive failures leave a counter of `n`;
   * the username is blocked exactly when `n` is at least five, until 24 hours
   * after the last failure.
   */
  lemma {:induction false} ConsecutiveFailures(s: seq<Attempt>, username: string, times: seq<nat>)
    requires Lookup(s, username).None? && times != []
    ensures Lookup(Failures(s, username, times), username).Some?
    ensures var a := Lookup(Failures(s, username, times), username).value;
            && a.failedAttempts == |times|
            && (a.blockedUntil.Some? <==> |times| >= MaxFailures)
            && (|times| >= MaxFailures ==> a.blockedUntil == Some(times[|times| - 1] + BlockDurationMs))
    decreases |times|
  {
    var prefix := times[..|times| - 1];
    var now := times[|times| - 1];
    FailureCountsOne(Failures(s, username, prefix), username, now);
    if prefix != [] {
      ConsecutiveFailures(s, username, prefix);
    }
  }

  /** Five consecutive failures make the next check, within 24 hours of the fifth, report blocked. */
  lemma FiveFailuresBlock(s: seq<Attempt>, username: string, times: seq<nat>, now: nat)
    requires Lookup(s, username).None? && |times| == 5
    requires now < times[4] + BlockDurationMs
    ensures CheckStatus(Failures(s, username, times), username, now) == BlockStatus(true, Some(times[4] + BlockDurationMs))
  {
    ConsecutiveFailures(s, username, times);
  }
}
