/**
 * The token blacklist and the lockout tables. Their repositories (`TokenRepo`,
 * `LockoutRepo`) are not part of this model's source: only the calls the handlers make
 * are modelled, with their effects on a table and, for the two lockout queries, an
 * uninterpreted function of the table.
 */
module TokenRepos {
  import opened Int64
  import opened Model

  /** Every revocation the handlers write is permanent. */
  predicate PermanentRevocations(blacklist: set<JwtBlacklist>) {
    forall b :: b in blacklist ==> b.expiresAt == MaxInt64
  }

  /** `TokenRepo`: the blacklist of revoked token ids. */
  class TokenRepo {
    var blacklist: set<JwtBlacklist>

    constructor (revoked: set<JwtBlacklist>)
      ensures blacklist == revoked
    {
      blacklist := revoked;
    }

    /** `RevokeToken(b)`: adds the record unless the write fails. */
    method RevokeToken(b: JwtBlacklist, fail: bool) returns (err: bool)
      modifies this
      ensures err == fail
      ensures blacklist == if err then old(blacklist) else old(blacklist) + {b}
    {
      err := fail;
      if !err {
        blacklist := blacklist + {b};
      }
    }
  }
}

module LockoutRepos {
  import opened Wrappers
  import opened Int64
  import opened Config
  import opened Model

  /** One write to the lockout tables, in the order the writes happened. */
  datatype LockoutEvent =
    | Failed(attempt: FailedLogin)
    | Locked(lockout: Lockout)
    | Unlocked(userId: int64, ipAddress: string)

  /**
   * The two queries whose implementation is not shown: both read the event log, the
   * pair and the clock, and either can fail.
   */
  datatype LockoutQueries = LockoutQueries(
    isLockedOut: (seq<LockoutEvent>, int64, string, int64) -> Result<bool>,
    countRecentFailures: (seq<LockoutEvent>, int64, string, int64) -> Result<int>
  )

  /** The lockout `HandleLogin` writes at clock reading `now`. */
  function LockoutFor(userId: int64, ip: string, now: int64): Lockout {
    Lockout(0, userId, ip, Add(now, LockoutDuration), "failed logins", now)
  }

  /**
   * Every lockout follows, immediately, a failed attempt of the same pair at the same
   * clock reading, and lasts `LockoutDuration`.
   */
  predicate LockoutsFollowFailures(events: seq<LockoutEvent>) {
    forall i :: 0 <= i < |events| && events[i].Locked? ==>
      && i > 0
      && events[i - 1].Failed?
      && events[i].lockout == LockoutFor(events[i - 1].attempt.userId, events[i - 1].attempt.ipAddress,
                                         events[i - 1].attempt.attemptedAt)
  }

  /** Appending an attempt, or an attempt and its lockout, keeps `LockoutsFollowFailures`. */
  lemma FailureThenLockout(events: seq<LockoutEvent>, f: FailedLogin)
    requires LockoutsFollowFailures(events)
    ensures LockoutsFollowFailures(events + [Failed(f)])
    ensures LockoutsFollowFailures(events + [Failed(f)] + [Locked(LockoutFor(f.userId, f.ipAddress, f.attemptedAt))])
  {
    var e1 := events + [Failed(f)];
    var e2 := e1 + [Locked(LockoutFor(f.userId, f.ipAddress, f.attemptedAt))];
    forall i | 0 <= i < |e2| && e2[i].Locked?
      ensures i > 0 && e2[i - 1].Failed?
      ensures e2[i].lockout == LockoutFor(e2[i - 1].attempt.userId, e2[i - 1].attempt.ipAddress,
                                          e2[i - 1].attempt.attemptedAt)
    {
      if i < |events| {
        assert e2[i] == events[i] && e2[i - 1] == events[i - 1];
      }
    }
  }

  /** Appending an unlock keeps `LockoutsFollowFailures`: an unlock is not a lockout. */
  lemma UnlockKeepsLockouts(events: seq<LockoutEvent>, userId: int64, ip: string)
    requires LockoutsFollowFailures(events)
    ensures LockoutsFollowFailures(events + [Unlocked(userId, ip)])
  {
    var e := events + [Unlocked(userId, ip)];
    forall i | 0 <= i < |e| && e[i].Locked?
      ensures i > 0 && e[i - 1].Failed?
      ensures e[i].lockout == LockoutFor(e[i - 1].attempt.userId, e[i - 1].attempt.ipAddress,
                                         e[i - 1].attempt.attemptedAt)
    {
      assert e[i] == events[i] && e[i - 1] == events[i - 1];
    }
  }

  /** `LockoutRepo`: the failed-login and lockout tables, as one log of writes. */
  class LockoutRepo {
    const queries: LockoutQueries
    var events: seq<LockoutEvent>

    constructor (queries: LockoutQueries, log: seq<LockoutEvent>)
      ensures this.queries == queries && events == log
    {
      this.queries := queries;
      events := log;
    }

    /** `IsLockedOut(userID, ip)`. */
    method IsLockedOut(userId: int64, ip: string, now: int64) returns (r: Result<bool>)
      ensures r == queries.isLockedOut(events, userId, ip, now)
    {
      r := queries.isLockedOut(events, userId, ip, now);
    }

    /** `CountRecentFailures(userID, ip)`. */
    method CountRecentFailures(userId: int64, ip: string, now: int64) returns (r: Result<int>)
      ensures r == queries.countRecentFailures(events, userId, ip, now)
    {
      r := queries.countRecentFailures(events, userId, ip, now);
    }

    /** `AddFailedLogin(f)`: appends the attempt unless the write fails. */
    method AddFailedLogin(f: FailedLogin, fail: bool) returns (err: bool)
      modifies this
      ensures err == fail
      ensures events == if err then old(events) else old(events) + [Failed(f)]
    {
      err := fail;
      if !err {
        events := events + [Failed(f)];
      }
    }

    /** `AddLockout(l)`: appends the lockout unless the write fails. */
    method AddLockout(l: Lockout, fail: bool) returns (err: bool)
      modifies this
      ensures err == fail
      ensures events == if err then old(events) else old(events) + [Locked(l)]
    {
      err := fail;
      if !err {
        events := events + [Locked(l)];
      }
    }

    /** `UnlockAccount(userID, ip)`: records the unlock of the pair unless the write fails. */
    method UnlockAccount(userId: int64, ip: string, fail: bool) returns (err: bool)
      modifies this
      ensures err == fail
      ensures events == if err then old(events) else old(events) + [Unlocked(userId, ip)]
    {
      err := fail;
      if !err {
        events := events + [Unlocked(userId, ip)];
      }
    }
  }
}
