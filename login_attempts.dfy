/** Login throttling (backend/src/main/java/com/flight/service/LoginAttemptService.java).
    The repository of `LoginAttempt` records is a map keyed by the pair
    (ip address, username), the pair `findByIpAddressAndUsername` looks up.
    The clock is the `now` parameter, in seconds. */
module LoginAttempts {
  import opened Wrappers

  const MaxAttempts: int := 5
  /** Thirty minutes. */
  const BlockSeconds: int := 30 * 60

  /** A stored record. `lastAttempt` and `blockExpiration` are `None` while
      they are still null. */
  datatype LoginAttempt = LoginAttempt(
    ipAddress: string,
    username: string,
    attempts: int,
    lastAttempt: Option<int>,
    blocked: bool,
    blockExpiration: Option<int>)

  type Key = (string, string)

  /** A new record: no attempts, not blocked. */
  function Fresh(ip: string, username: string): (r: LoginAttempt)
    ensures r.attempts == 0 && !r.blocked && r.blockExpiration.None?
  {
    LoginAttempt(ip, username, 0, None, false, None)
  }

  /** The record `loginFailed` saves, given the one found, if any: one more
      attempt, and from the fifth on a block until thirty minutes from now. */
  function Fail(found: Option<LoginAttempt>, ip: string, username: string, now: int): (r: LoginAttempt)
    ensures r.attempts == (if found.Some? then found.value.attempts else 0) + 1
    ensures r.lastAttempt == Some(now)
    ensures r.attempts >= MaxAttempts ==> r.blocked && r.blockExpiration == Some(now + BlockSeconds)
    ensures r.attempts < MaxAttempts && found.Some? ==>
      r.blocked == found.value.blocked && r.blockExpiration == found.value.blockExpiration
    ensures r.attempts < MaxAttempts && found.None? ==> !r.blocked
  {
    var base := if found.Some? then found.value else Fresh(ip, username);
    var counted := base.(attempts := base.attempts + 1, lastAttempt := Some(now));
    if counted.attempts >= MaxAttempts then counted.(blocked := true, blockExpiration := Some(now + BlockSeconds))
    else counted
  }

  /** The block on a record has run out: `blockExpiration.isBefore(now)`. */
  predicate BlockOver(r: LoginAttempt, now: int) {
    r.blocked && r.blockExpiration.Some? && r.blockExpiration.value < now
  }

  /** What `isBlocked` answers for a found record, and the record it leaves
      behind: a block that ran out is lifted and the count reset; otherwise
      the answer is the stored flag. */
  function Observe(r: LoginAttempt, now: int): (res: (LoginAttempt, bool))
    ensures BlockOver(r, now) ==> !res.1 && res.0 == r.(blocked := false, attempts := 0)
    ensures !BlockOver(r, now) ==> res.1 == r.blocked && res.0 == r
  {
    if BlockOver(r, now) then (r.(blocked := false, attempts := 0), false) else (r, r.blocked)
  }

  /** `isIpAddressBlocked` counts a record only while its block lasts
      strictly beyond `now`. */
  predicate IpBlocks(r: LoginAttempt, now: int) {
    r.blocked && r.blockExpiration.Some? && r.blockExpiration.value > now
  }

  /** At the very instant a block expires, `isBlocked` still says blocked
      while `isIpAddressBlocked` no longer counts the record. */
  lemma ExpiryInstant(r: LoginAttempt, now: int)
    requires r.blocked && r.blockExpiration == Some(now)
    ensures Observe(r, now).1 && !IpBlocks(r, now)
  {
  }

  /** `n` failures in a row, all at `now`, from the record `found`. */
  function FailTimes(found: Option<LoginAttempt>, ip: string, username: string, now: int, n: nat): LoginAttempt
    requires n >= 1
  {
    if n == 1 then Fail(found, ip, username, now)
    else Fail(Some(FailTimes(found, ip, username, now, n - 1)), ip, username, now)
  }

  /** From no record, `n` failures leave `n` attempts, and the pair is
      blocked exactly from the fifth failure on. */
  lemma {:induction false} FailuresFromNothing(ip: string, username: string, now: int, n: nat)
    requires n >= 1
    ensures FailTimes(None, ip, username, now, n).attempts == n
    ensures FailTimes(None, ip, username, now, n).blocked <==> n >= MaxAttempts
  {
    if n > 1 {
      FailuresFromNothing(ip, username, now, n - 1);
    }
  }

  /** Nothing but `isBlocked` resets the count: a record whose block ran out
      unobserved is blocked again by the very next failure. */
  lemma FailureAfterUnobservedExpiry(r: LoginAttempt, ip: string, username: string, now: int)
    requires r.attempts >= MaxAttempts && BlockOver(r, now)
    ensures Fail(Some(r), ip, username, now).blocked
    ensures Fail(Some(r), ip, username, now).blockExpiration == Some(now + BlockSeconds)
  {
  }

  /** Once `isBlocked` has lifted an expired block, it takes five more
      failures to block the pair again. */
  lemma ObservedExpiryGivesFiveMore(r: LoginAttempt, ip: string, username: string, now: int, n: nat)
    requires BlockOver(r, now) && 1 <= n
    ensures FailTimes(Some(Observe(r, now).0), ip, username, now, n).attempts == n
    ensures FailTimes(Some(Observe(r, now).0), ip, username, now, n).blocked <==> n >= MaxAttempts
  {
    FailuresFromReset(Observe(r, now).0, ip, username, now, n);
  }

  lemma {:induction false} FailuresFromReset(r: LoginAttempt, ip: string, username: string, now: int, n: nat)
    requires r.attempts == 0 && !r.blocked && 1 <= n
    ensures FailTimes(Some(r), ip, username, now, n).attempts == n
    ensures FailTimes(Some(r), ip, username, now, n).blocked <==> n >= MaxAttempts
  {
    if n > 1 {
      FailuresFromReset(r, ip, username, now, n - 1);
    }
  }

  /** `getRemainingAttempts` for the record found, if any: never negative,
      and at most five for any count that is not negative. */
  function Remaining(found: Option<LoginAttempt>): (r: int)
    ensures 0 <= r
    ensures found.None? ==> r == MaxAttempts
    ensures found.Some? && 0 <= found.value.attempts ==>
      r <= MaxAttempts && (r == 0 || r + found.value.attempts == MaxAttempts)
    ensures found.Some? ==> (r == 0 <==> found.value.attempts >= MaxAttempts)
  {
    if found.None? then MaxAttempts
    else if MaxAttempts - found.value.attempts > 0 then MaxAttempts - found.value.attempts
    else 0
  }

  class LoginAttemptService {
    var records: map<Key, LoginAttempt>

    /** Every record sits under its own pair, a blocked record has an
        expiration, and counts are never negative. */
    ghost predicate Valid()
      reads this
    {
      forall k :: k in records ==>
        && records[k].ipAddress == k.0 && records[k].username == k.1
        && (records[k].blocked ==> records[k].blockExpiration.Some?)
        && records[k].attempts >= 0
    }

    constructor ()
      ensures Valid() && records == map[]
    {
      records := map[];
    }

    function Find(ip: string, username: string): (r: Option<LoginAttempt>)
      reads this
      ensures r.Some? <==> (ip, username) in records
      ensures r.Some? ==> r.value == records[(ip, username)]
    {
      if (ip, username) in records then Some(records[(ip, username)]) else None
    }

    /** `loginSucceeded`: the pair's record, if any, is deleted. */
    method LoginSucceeded(ip: string, username: string)
      requires Valid()
      modifies this
      ensures Valid()
      ensures records == old(records) - {(ip, username)}
      ensures Remaining(Find(ip, username)) == MaxAttempts
    {
      records := records - {(ip, username)};
    }

    /** `loginFailed` at instant `now`. */
    method LoginFailed(ip: string, username: string, now: int)
      requires Valid()
      modifies this
      ensures Valid()
      ensures records == old(records)[(ip, username) := Fail(old(Find(ip, username)), ip, username, now)]
    {
      var updated := Fail(Find(ip, username), ip, username, now);
      records := records[(ip, username) := updated];
    }

    /** `isBlocked` at instant `now`: false without a record; a block that
        expired strictly before `now` is lifted, with the count reset, and
        the answer is false; otherwise the answer is the stored flag. */
    method IsBlocked(ip: string, username: string, now: int) returns (blocked: bool)
      requires Valid()
      modifies this
      ensures Valid()
      ensures (ip, username) !in old(records) ==> !blocked && records == old(records)
      ensures (ip, username) in old(records) ==>
        var res := Observe(old(records)[(ip, username)], now);
        blocked == res.1 && records == old(records)[(ip, username) := res.0]
      ensures blocked ==> old(records)[(ip, username)].blocked && !BlockOver(old(records)[(ip, username)], now)
    {
      var found := Find(ip, username);
      if found.None? {
        return false;
      }
      var r := found.value;
      if r.blocked && r.blockExpiration.value < now {
        records := records[(ip, username) := r.(blocked := false, attempts := 0)];
        return false;
      }
      return r.blocked;
    }

    /** `getRemainingAttempts`. */
    method GetRemainingAttempts(ip: string, username: string) returns (remaining: int)
      requires Valid()
      ensures remaining == Remaining(Find(ip, username))
      ensures 0 <= remaining <= MaxAttempts
    {
      remaining := Remaining(Find(ip, username));
    }

    /** `isIpAddressBlocked` at instant `now`: true exactly when some record
        of that address is blocked beyond `now`. */
    method IsIpAddressBlocked(ip: string, now: int) returns (blocked: bool)
      requires Valid()
      ensures blocked <==> exists k :: k in records && k.0 == ip && IpBlocks(records[k], now)
    {
      var todo := records.Keys;
      while todo != {}
        invariant todo <= records.Keys
        invariant forall k :: k in records && k !in todo && k.0 == ip ==> !IpBlocks(records[k], now)
        decreases todo
      {
        var k :| k in todo;
        var r := records[k];
        if k.0 == ip && r.blocked && r.blockExpiration.value > now {
          return true;
        }
        todo := todo - {k};
      }
      return false;
    }
  }
}
