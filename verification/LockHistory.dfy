/** The lock of an account told from its evaluated attempts: seven failures, ten minutes. */
module LockHistory {
  import opened Prelude
  import opened UserEntity
  import opened LockoutPolicy
  import AuthService
  import AuthRuns

  /** The failures counted since the last success, the last of them, and the last that was a seventh. */
  datatype History = History(failures: nat, last: Option<Time>, seventh: Option<Time>)

  const Fresh: History := History(0, None, None)

  /** The account is locked for the 600 seconds that follow a seventh failure. */
  predicate Locked(h: History, now: Time) { h.seventh.Some? && now < h.seventh.value + 6_000_000_000 }

  function Recall(h: History, attempts: seq<Attempt>): History
    decreases |attempts|
  {
    if attempts == [] then h else Recall(Remember(h, attempts[0]), attempts[1..])
  }

  function Remember(h: History, a: Attempt): History {
    if a.matches && !Locked(h, a.now) then Fresh
    else if Locked(h, a.now) && !a.lenient then h
    else History(h.failures + 1, Some(a.now), if (h.failures + 1) % 7 == 0 then Some(a.now) else h.seventh)
  }

  /** The stored columns say what the history says. */
  predicate Tells(lock: Lock, h: History) {
    && lock.failedCount == h.failures % 7 && lock.lastFailedAt == h.last
    && lock.lockedUntil == (if h.seventh.None? then None else Some(h.seventh.value + 6_000_000_000))
  }

  lemma {:induction false} TellsLocked(lock: Lock, h: History, now: Time)
    requires Tells(lock, h)
    ensures IsLockedOut(lock, now) <==> Locked(h, now)
  {
  }

  /** Over every run of attempts, in whatever clock order, the stored counter, date and lock are those of the
      history, and an attempt is accepted exactly when it matches outside the ten minutes. */
  lemma {:induction false} LockIsItsHistory(lock: Lock, h: History, attempts: seq<Attempt>)
    requires Tells(lock, h)
    ensures Tells(After(lock, attempts), Recall(h, attempts))
    ensures forall a: Attempt ::
              Accepted(After(lock, attempts), a) <==> a.matches && !Locked(Recall(h, attempts), a.now)
    decreases |attempts|
  {
    if attempts != [] {
      TellsLocked(lock, h, attempts[0].now);
      LockIsItsHistory(Next(lock, attempts[0]), Remember(h, attempts[0]), attempts[1..]);
    } else {
      forall a: Attempt ensures Accepted(lock, a) <==> a.matches && !Locked(h, a.now) {
        TellsLocked(lock, h, a.now);
      }
    }
  }

  /** From a clear account, fewer than seven failures never lock it. */
  lemma {:induction false} UnderSeven(h: History, attempts: seq<Attempt>)
    requires h.seventh.None? && h.failures + |attempts| <= 6
    ensures Recall(h, attempts).seventh.None?
    ensures (forall a :: a in attempts ==> !a.matches) ==> Recall(h, attempts).failures == h.failures + |attempts|
    decreases |attempts|
  {
    if attempts != [] {
      assert attempts[0] in attempts;
      assert forall a :: a in attempts[1..] ==> a in attempts;
      UnderSeven(Remember(h, attempts[0]), attempts[1..]);
    }
  }

  /** Any run of at most six attempts on a clear account, at whichever endpoints, leaves it open: a matching
      attempt is accepted at any time and clears it. */
  lemma {:induction false} SixFailuresLeaveItOpen(attempts: seq<Attempt>, lenient: bool, now: Time)
    requires |attempts| <= 6
    ensures After(Clear, attempts).lockedUntil == None
    ensures Accepted(After(Clear, attempts), Attempt(lenient, true, now))
    ensures After(Clear, attempts + [Attempt(lenient, true, now)]) == Lock(0, None, None)
  {
    LockIsItsHistory(Clear, Fresh, attempts);
    UnderSeven(Fresh, attempts);
    AfterOneMore(Clear, attempts, Attempt(lenient, true, now));
  }

  lemma {:induction false} AfterOneMore(lock: Lock, attempts: seq<Attempt>, a: Attempt)
    ensures After(lock, attempts + [a]) == Next(After(lock, attempts), a)
    decreases |attempts|
  {
    if attempts == [] {
      assert [a][1..] == [];
    } else {
      assert (attempts + [a])[1..] == attempts[1..] + [a];
      AfterOneMore(Next(lock, attempts[0]), attempts[1..], a);
    }
  }

  /** The seventh mismatch on a clear account locks it for 600 seconds and restarts the counter; until then a
      matching attempt is refused, and from then on accepted. */
  lemma {:induction false} SeventhFailureLocks(attempts: seq<Attempt>, a: Attempt, later: Attempt)
    requires |attempts| == 6 && !a.matches && forall x :: x in attempts ==> !x.matches
    ensures var locked := After(Clear, attempts + [a]);
            && locked == Lock(0, Some(a.now), Some(a.now + 6_000_000_000))
            && (Accepted(locked, later) <==> later.matches && a.now + 6_000_000_000 <= later.now)
  {
    LockIsItsHistory(Clear, Fresh, attempts);
    UnderSeven(Fresh, attempts);
    AfterOneMore(Clear, attempts, a);
  }

  /** Attempts that count as failures since the last success or the last lock, counting on from `n`. */
  function Streak(lock: Lock, n: nat, attempts: seq<Attempt>): nat
    decreases |attempts|
  {
    if attempts == [] then n
    else
      var a := attempts[0];
      Streak(Next(lock, a),
             if Accepted(lock, a) then 0
             else if IsLockedOut(lock, a.now) && !a.lenient then n
             else if n == 6 then 0 else n + 1,
             attempts[1..])
  }

  lemma {:induction false} CounterIsStreak(lock: Lock, attempts: seq<Attempt>)
    requires 0 <= lock.failedCount <= 6
    ensures After(lock, attempts).failedCount == Streak(lock, lock.failedCount, attempts) <= 6
    decreases |attempts|
  {
    if attempts != [] {
      CounterIsStreak(Next(lock, attempts[0]), attempts[1..]);
    }
  }

  /** The attempt counts as a failure. */
  predicate Counts(lock: Lock, a: Attempt) { !Accepted(lock, a) && (a.lenient || !IsLockedOut(lock, a.now)) }

  /** Over runs: the attempt that is a seventh failure since the last success or the last lock, and no other,
      sets the lock; an earlier failure only counts, an attempt that does not count changes nothing. */
  lemma {:induction false} LocksExactlyAtTheSeventh(lock: Lock, attempts: seq<Attempt>, a: Attempt)
    requires 0 <= lock.failedCount <= 6
    ensures var before, after := After(lock, attempts), After(lock, attempts + [a]);
            var streak := Streak(lock, lock.failedCount, attempts);
            && streak <= 6
            && (Counts(before, a) && streak == 6 ==> after == Lock(0, Some(a.now), Some(a.now + 6_000_000_000)))
            && (Counts(before, a) && streak < 6 ==> after == Lock(streak + 1, Some(a.now), before.lockedUntil))
            && (!Counts(before, a) ==> after == if Accepted(before, a) then Lock(0, None, None) else before)
  {
    CounterIsStreak(lock, attempts);
    AfterOneMore(lock, attempts, a);
  }

  /** On the server: the lock of an account that starts clear is the history of its own attempts, over all
      five guarded endpoints. */
  lemma {:induction false} ServerLockIsItsHistory(db: AuthService.Db, events: seq<AuthRuns.Event>, account: Guid)
    requires account in db.users && db.users[account].lock == Clear
    ensures account in AuthRuns.Run(db, events).users
    ensures Tells(AuthRuns.Run(db, events).users[account].lock,
                  Recall(Fresh, AuthRuns.Attempts(db, events, account)))
  {
    AuthRuns.RunCounts(db, 0, events, account);
    LockIsItsHistory(Clear, Fresh, AuthRuns.Attempts(db, events, account));
  }
}
