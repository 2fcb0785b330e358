/** The shared failure counter and lock of an account. */
module LockoutPolicy {
  import opened Prelude
  import opened UserEntity

  const MAX_FAILED_LOGIN_ATTEMPTS: int := 7
  const LOCKOUT_DURATION: Time := 10 * MINUTE

  predicate IsLockedOut(lock: Lock, now: Time) { lock.lockedUntil.Some? && lock.lockedUntil.value > now }

  function Failed(lock: Lock, now: Time): Lock {
    if lock.failedCount + 1 < MAX_FAILED_LOGIN_ATTEMPTS then Lock(lock.failedCount + 1, Some(now), lock.lockedUntil)
    else Lock(0, Some(now), Some(now + LOCKOUT_DURATION))
  }

  const Clear: Lock := Lock(0, None, None)

  method RegisterFailedLogin(user: User, now: Time)
    modifies user`failedLoginCount, user`lastFailedLoginAt, user`lockedUntil
    ensures user.LockState() == Failed(old(user.LockState()), now)
  {
    user.failedLoginCount := if user.failedLoginCount + 1 <= MAX_FAILED_LOGIN_ATTEMPTS
                             then user.failedLoginCount + 1 else MAX_FAILED_LOGIN_ATTEMPTS;
    user.lastFailedLoginAt := Some(now);
    if user.failedLoginCount >= MAX_FAILED_LOGIN_ATTEMPTS {
      user.lockedUntil := Some(now + LOCKOUT_DURATION);
      user.failedLoginCount := 0;
    }
  }

  method RegisterSuccessfulLogin(user: User, now: Time)
    modifies user`failedLoginCount, user`lastFailedLoginAt, user`lockedUntil
    ensures user.LockState() == Clear
  {
    user.failedLoginCount := 0;
    user.lastFailedLoginAt := None;
    user.lockedUntil := None;
  }

  // ---------------------------------------------------------------- runs of attempts

  /** One evaluated proof. The two recovery endpoints are lenient: they go on while the account is
      locked and count the attempt as a failure; the other three return at once. */
  datatype Attempt = Attempt(lenient: bool, matches: bool, now: Time)

  predicate Accepted(lock: Lock, a: Attempt) { a.matches && !IsLockedOut(lock, a.now) }

  function Next(lock: Lock, a: Attempt): Lock {
    if Accepted(lock, a) then Clear
    else if IsLockedOut(lock, a.now) && !a.lenient then lock
    else Failed(lock, a.now)
  }

  function After(lock: Lock, attempts: seq<Attempt>): Lock
    decreases |attempts|
  {
    if attempts == [] then lock else After(Next(lock, attempts[0]), attempts[1..])
  }

  ghost predicate Ordered(t: Time, attempts: seq<Attempt>)
    decreases |attempts|
  {
    attempts == [] || (t <= attempts[0].now && Ordered(attempts[0].now, attempts[1..]))
  }

  ghost predicate NoneAccepted(lock: Lock, attempts: seq<Attempt>)
    decreases |attempts|
  {
    attempts == [] || (!Accepted(lock, attempts[0]) && NoneAccepted(Next(lock, attempts[0]), attempts[1..]))
  }

  /** The times of the mismatches that were evaluated while the account was not locked. */
  function OpenFailures(lock: Lock, attempts: seq<Attempt>): seq<Time>
    decreases |attempts|
  {
    if attempts == [] then []
    else (if !attempts[0].matches && !IsLockedOut(lock, attempts[0].now) then [attempts[0].now] else [])
         + OpenFailures(Next(lock, attempts[0]), attempts[1..])
  }

  /** The stored counter and the lock of an account whose last change is not after `t`. */
  ghost predicate Sane(lock: Lock, t: Time) {
    0 <= lock.failedCount < MAX_FAILED_LOGIN_ATTEMPTS
    && (lock.lockedUntil.Some? ==> lock.lockedUntil.value <= t + LOCKOUT_DURATION)
  }

  lemma {:induction false} NextKeepsSane(lock: Lock, t: Time, a: Attempt)
    requires Sane(lock, t) && t <= a.now
    ensures Sane(Next(lock, a), a.now)
    ensures IsLockedOut(lock, a.now) ==> !Accepted(lock, a) && Next(lock, a).lockedUntil.Some?
                                         && lock.lockedUntil.value <= Next(lock, a).lockedUntil.value
  {
  }

  /** While the lock lasts no attempt is accepted and the lock only moves later. */
  lemma {:induction false} LockHolds(lock: Lock, t: Time, attempts: seq<Attempt>)
    requires Sane(lock, t) && Ordered(t, attempts) && lock.lockedUntil.Some?
    requires forall a :: a in attempts ==> a.now < lock.lockedUntil.value
    ensures NoneAccepted(lock, attempts)
    ensures After(lock, attempts).lockedUntil.Some?
            && lock.lockedUntil.value <= After(lock, attempts).lockedUntil.value
    decreases |attempts|
  {
    if attempts != [] {
      assert attempts[0] in attempts;
      NextKeepsSane(lock, t, attempts[0]);
      LockHolds(Next(lock, attempts[0]), attempts[0].now, attempts[1..]);
    }
  }

  /** With the lock at `bound` or later, no open failure comes before `bound`. */
  lemma {:induction false} QuietUntil(lock: Lock, t: Time, bound: Time, attempts: seq<Attempt>)
    requires Ordered(t, attempts) && NoneAccepted(lock, attempts)
    requires lock.lockedUntil.Some? && bound <= lock.lockedUntil.value && bound <= t + LOCKOUT_DURATION
    ensures forall i :: 0 <= i < |OpenFailures(lock, attempts)| ==> bound <= OpenFailures(lock, attempts)[i]
    decreases |attempts|
  {
    if attempts != [] {
      QuietUntil(Next(lock, attempts[0]), attempts[0].now, bound, attempts[1..]);
    }
  }

  /** Starting with `failedCount` failures already counted, the open failure after the next
      `7 - failedCount` comes at least ten minutes after `t`. */
  lemma {:induction false} LockComesBy(lock: Lock, t: Time, attempts: seq<Attempt>, n: nat)
    requires 0 <= lock.failedCount < MAX_FAILED_LOGIN_ATTEMPTS
    requires Ordered(t, attempts) && NoneAccepted(lock, attempts)
    requires MAX_FAILED_LOGIN_ATTEMPTS - lock.failedCount <= n < |OpenFailures(lock, attempts)|
    ensures t + LOCKOUT_DURATION <= OpenFailures(lock, attempts)[n]
    decreases |attempts|
  {
    var a := attempts[0];
    var next := Next(lock, a);
    var isOpen := !a.matches && !IsLockedOut(lock, a.now);
    assert OpenFailures(lock, attempts) ==
           (if isOpen then [a.now] else []) + OpenFailures(next, attempts[1..]);
    var m := if isOpen then n - 1 else n;
    if next == Failed(lock, a.now) && next.failedCount == 0 {
      QuietUntil(next, a.now, a.now + LOCKOUT_DURATION, attempts[1..]);
    } else {
      LockComesBy(next, a.now, attempts[1..], m);
    }
  }

  /** Any eight open failures with no success between them span at least ten minutes, although
      recovery attempts made during a lock also move the counter. */
  lemma {:induction false} EightSpanTenMinutes(lock: Lock, t: Time, attempts: seq<Attempt>, i: nat)
    requires Sane(lock, t) && Ordered(t, attempts) && NoneAccepted(lock, attempts)
    requires i + 7 < |OpenFailures(lock, attempts)|
    ensures OpenFailures(lock, attempts)[i] + LOCKOUT_DURATION <= OpenFailures(lock, attempts)[i + 7]
    decreases |attempts|
  {
    var a := attempts[0];
    var isOpen := !a.matches && !IsLockedOut(lock, a.now);
    assert OpenFailures(lock, attempts) ==
           (if isOpen then [a.now] else []) + OpenFailures(Next(lock, a), attempts[1..]);
    NextKeepsSane(lock, t, a);
    if isOpen && i == 0 {
      LockComesBy(lock, a.now, attempts, 7);
    } else {
      EightSpanTenMinutes(Next(lock, a), a.now, attempts[1..], if isOpen then i - 1 else i);
    }
  }

  /** So `n` open failures take at least ten minutes for every full seven after the first. */
  lemma {:induction false} AttemptRate(lock: Lock, t: Time, attempts: seq<Attempt>, n: nat)
    requires Sane(lock, t) && Ordered(t, attempts) && NoneAccepted(lock, attempts)
    requires n < |OpenFailures(lock, attempts)|
    ensures OpenFailures(lock, attempts)[n] - OpenFailures(lock, attempts)[0] >= n / 7 * LOCKOUT_DURATION
    decreases n
  {
    OpenFailuresOrdered(lock, t, attempts);
    if 7 <= n {
      EightSpanTenMinutes(lock, t, attempts, n - 7);
      AttemptRate(lock, t, attempts, n - 7);
      assert n / 7 == (n - 7) / 7 + 1;
    }
  }

  lemma {:induction false} OpenFailuresOrdered(lock: Lock, t: Time, attempts: seq<Attempt>)
    requires Ordered(t, attempts)
    ensures forall i :: 0 <= i < |OpenFailures(lock, attempts)| ==> t <= OpenFailures(lock, attempts)[i]
    ensures forall i, j :: 0 <= i < j < |OpenFailures(lock, attempts)| ==>
              OpenFailures(lock, attempts)[i] <= OpenFailures(lock, attempts)[j]
    decreases |attempts|
  {
    if attempts != [] {
      OpenFailuresOrdered(Next(lock, attempts[0]), attempts[0].now, attempts[1..]);
    }
  }
}
