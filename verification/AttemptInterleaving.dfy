/** Attempts on one account that overlap. A guarded endpoint reads its clock and loads the account, decides
    on what it loaded, and saves the columns that changed over whatever is stored by then. */
module AttemptInterleaving {
  import opened Prelude
  import opened UserEntity
  import opened LockoutPolicy

  /** An attempt between loading the account and saving it. */
  datatype Loaded = Loaded(seen: Lock, attempt: Attempt)

  datatype World = World(lock: Lock, loaded: map<nat, Loaded>)

  datatype Move = Load(id: nat, attempt: Attempt) | Save(id: nat)

  /** The save of an account loaded as `seen` and changed to `changed`. */
  function Written(stored: Lock, seen: Lock, changed: Lock): Lock {
    Lock(if changed.failedCount == seen.failedCount then stored.failedCount else changed.failedCount,
         if changed.lastFailedAt == seen.lastFailedAt then stored.lastFailedAt else changed.lastFailedAt,
         if changed.lockedUntil == seen.lockedUntil then stored.lockedUntil else changed.lockedUntil)
  }

  function Saved(stored: Lock, l: Loaded): Lock { Written(stored, l.seen, LockoutPolicy.Next(l.seen, l.attempt)) }

  function Next(w: World, m: Move): World {
    match m
    case Load(id, a) => if id in w.loaded then w else w.(loaded := w.loaded[id := Loaded(w.lock, a)])
    case Save(id) => if id !in w.loaded then w else World(Saved(w.lock, w.loaded[id]), w.loaded - {id})
  }

  function Run(w: World, moves: seq<Move>): World
    decreases |moves|
  {
    if moves == [] then w else Run(Next(w, moves[0]), moves[1..])
  }

  predicate Saves(w: World, m: Move) { m.Save? && m.id in w.loaded }

  /** The attempts in the order in which they are saved. */
  function Evaluated(w: World, moves: seq<Move>): seq<Attempt>
    decreases |moves|
  {
    if moves == [] then []
    else (if Saves(w, moves[0]) then [w.loaded[moves[0].id].attempt] else []) + Evaluated(Next(w, moves[0]), moves[1..])
  }

  predicate OpenFailure(l: Loaded) { !l.attempt.matches && !IsLockedOut(l.seen, l.attempt.now) }

  /** The times of the mismatches evaluated on an account that was loaded unlocked. */
  function Failures(w: World, moves: seq<Move>): seq<Time>
    decreases |moves|
  {
    if moves == [] then []
    else
      (if Saves(w, moves[0]) && OpenFailure(w.loaded[moves[0].id]) then [w.loaded[moves[0].id].attempt.now] else [])
      + Failures(Next(w, moves[0]), moves[1..])
  }

  // ---------------------------------------------------------------- one save

  /** The save comes out as if the account had only now been loaded: it is evaluated under the same lock and
      leaves the same columns. */
  predicate Current(stored: Lock, l: Loaded) {
    && (IsLockedOut(l.seen, l.attempt.now) <==> IsLockedOut(stored, l.attempt.now))
    && Saved(stored, l) == LockoutPolicy.Next(stored, l.attempt)
  }

  predicate Counter(lock: Lock) { 0 <= lock.failedCount < MAX_FAILED_LOGIN_ATTEMPTS }

  /** A save that finds the account as it was loaded is the attempt done at once. */
  lemma {:induction false} UndisturbedSave(l: Loaded)
    ensures Current(l.seen, l)
  {
  }

  /** Told before the save: a mismatch on an account loaded unlocked comes out as if loaded only now exactly
      when the account is still unlocked, the counter is the one loaded, and a date of its own clock reading,
      which it does not write, is still there. */
  lemma {:induction false} FailureIsCurrentExactly(stored: Lock, l: Loaded)
    requires OpenFailure(l) && Counter(stored) && Counter(l.seen)
    ensures Current(stored, l) <==>
            && !IsLockedOut(stored, l.attempt.now) && stored.failedCount == l.seen.failedCount
            && (l.seen.lastFailedAt == Some(l.attempt.now) ==> stored.lastFailedAt == Some(l.attempt.now))
  {
  }

  /** The same for a match on an account loaded unlocked: what it found clear already must still be clear. */
  lemma {:induction false} SuccessIsCurrentExactly(stored: Lock, l: Loaded)
    requires Accepted(l.seen, l.attempt)
    ensures Current(stored, l) <==>
            && !IsLockedOut(stored, l.attempt.now)
            && (l.seen.failedCount == 0 ==> stored.failedCount == 0)
            && (l.seen.lastFailedAt.None? ==> stored.lastFailedAt.None?)
            && (l.seen.lockedUntil.None? ==> stored.lockedUntil.None?)
  {
  }

  /** And for an account loaded locked: a strict attempt writes nothing, so only the lock must last; a lenient
      one counts as a mismatch. */
  lemma {:induction false} LockedIsCurrentExactly(stored: Lock, l: Loaded)
    requires IsLockedOut(l.seen, l.attempt.now) && Counter(stored) && Counter(l.seen)
    ensures var now := l.attempt.now;
            Current(stored, l) <==>
            && IsLockedOut(stored, now)
            && (l.attempt.lenient ==>
                  && stored.failedCount == l.seen.failedCount
                  && (l.seen.lastFailedAt == Some(now) ==> stored.lastFailedAt == Some(now))
                  && (l.seen.failedCount == MAX_FAILED_LOGIN_ATTEMPTS - 1
                      && l.seen.lockedUntil == Some(now + LOCKOUT_DURATION) ==>
                        stored.lockedUntil == Some(now + LOCKOUT_DURATION)))
  {
  }

  // ---------------------------------------------------------------- runs without harm

  /** Every save comes out as if its account had only then been loaded. */
  ghost predicate AllCurrent(w: World, moves: seq<Move>)
    decreases |moves|
  {
    moves == []
    || ((Saves(w, moves[0]) ==> Current(w.lock, w.loaded[moves[0].id])) && AllCurrent(Next(w, moves[0]), moves[1..]))
  }

  /** The account is loaded only while no other attempt is between its load and its save. */
  ghost predicate OneAtATime(w: World, moves: seq<Move>)
    decreases |moves|
  {
    moves == [] || ((moves[0].Load? ==> w.loaded == map[]) && OneAtATime(Next(w, moves[0]), moves[1..]))
  }

  lemma {:induction false} OneAtATimeIsCurrent(w: World, moves: seq<Move>)
    requires OneAtATime(w, moves)
    requires forall id :: id in w.loaded ==> w.loaded[id].seen == w.lock && w.loaded.Keys == {id}
    ensures AllCurrent(w, moves)
    decreases |moves|
  {
    if moves != [] {
      OneAtATimeIsCurrent(Next(w, moves[0]), moves[1..]);
    }
  }

  /** Such a run is the attempts one after the other, in the order in which they are saved. */
  lemma {:induction false} CurrentRun(w: World, moves: seq<Move>)
    requires AllCurrent(w, moves)
    ensures Run(w, moves).lock == After(w.lock, Evaluated(w, moves))
    ensures Failures(w, moves) == OpenFailures(w.lock, Evaluated(w, moves))
    decreases |moves|
  {
    if moves != [] {
      CurrentRun(Next(w, moves[0]), moves[1..]);
      if Saves(w, moves[0]) {
        assert Evaluated(w, moves)[1..] == Evaluated(Next(w, moves[0]), moves[1..]);
      } else {
        assert Evaluated(w, moves) == Evaluated(Next(w, moves[0]), moves[1..]);
      }
    }
  }

  /** With attempts taking effect in the order of their clocks, none accepted and each coming out as if loaded
      only then, `n` open failures after the first take ten minutes for every full seven. */
  lemma {:induction false} RateWhenCurrent(w: World, t: Time, moves: seq<Move>, n: nat)
    requires AllCurrent(w, moves) && Sane(w.lock, t) && Ordered(t, Evaluated(w, moves))
    requires NoneAccepted(w.lock, Evaluated(w, moves)) && n < |Failures(w, moves)|
    ensures Failures(w, moves)[n] - Failures(w, moves)[0] >= n / 7 * LOCKOUT_DURATION
  {
    CurrentRun(w, moves);
    AttemptRate(w.lock, t, Evaluated(w, moves), n);
  }

  lemma {:induction false} RateOneAtATime(lock: Lock, t: Time, moves: seq<Move>, n: nat)
    requires var w := World(lock, map[]);
             && OneAtATime(w, moves) && Sane(lock, t) && Ordered(t, Evaluated(w, moves))
             && NoneAccepted(lock, Evaluated(w, moves)) && n < |Failures(w, moves)|
    ensures var failures := Failures(World(lock, map[]), moves);
            failures[n] - failures[0] >= n / 7 * LOCKOUT_DURATION
  {
    OneAtATimeIsCurrent(World(lock, map[]), moves);
    RateWhenCurrent(World(lock, map[]), t, moves, n);
  }

  // ---------------------------------------------------------------- a burst

  /** `n` mismatches at one instant: all load the account, then all save it. */
  function Loads(n: nat, a: Attempt): seq<Move> { if n == 0 then [] else Loads(n - 1, a) + [Load(n - 1, a)] }

  function AllSaves(n: nat): seq<Move> { if n == 0 then [] else [Save(n - 1)] + AllSaves(n - 1) }

  /** The same attempt loaded `n` times from a fresh account. */
  function Waiting(n: nat, a: Attempt): (loaded: map<nat, Loaded>)
    ensures forall id: nat :: id in loaded <==> id < n
  {
    if n == 0 then map[] else Waiting(n - 1, a)[n - 1 := Loaded(Clear, a)]
  }

  function Times(n: nat, now: Time): seq<Time> { if n == 0 then [] else [now] + Times(n - 1, now) }

  lemma {:induction false} RunTwo(w: World, xs: seq<Move>, ys: seq<Move>)
    ensures Run(w, xs + ys) == Run(Run(w, xs), ys)
    ensures Failures(w, xs + ys) == Failures(w, xs) + Failures(Run(w, xs), ys)
    decreases |xs|
  {
    if xs == [] {
      assert xs + ys == ys;
    } else {
      assert (xs + ys)[1..] == xs[1..] + ys;
      RunTwo(Next(w, xs[0]), xs[1..], ys);
    }
  }

  lemma {:induction false} AllLoaded(n: nat, a: Attempt)
    ensures Run(World(Clear, map[]), Loads(n, a)) == World(Clear, Waiting(n, a))
    ensures Failures(World(Clear, map[]), Loads(n, a)) == []
  {
    if n != 0 {
      var w := World(Clear, Waiting(n - 1, a));
      AllLoaded(n - 1, a);
      RunTwo(World(Clear, map[]), Loads(n - 1, a), [Load(n - 1, a)]);
      assert [Load(n - 1, a)][1..] == [];
      assert Next(w, Load(n - 1, a)).loaded == Waiting(n, a);
    }
  }

  lemma {:induction false} AllSaved(lock: Lock, n: nat, now: Time)
    requires n != 0 && (lock == Clear || lock == Lock(1, Some(now), None))
    ensures var w := World(lock, Waiting(n, Attempt(false, false, now)));
            && Run(w, AllSaves(n)) == World(Lock(1, Some(now), None), map[])
            && Failures(w, AllSaves(n)) == Times(n, now)
    decreases n
  {
    var a := Attempt(false, false, now);
    var w := World(lock, Waiting(n, a));
    var next := Next(w, Save(n - 1));
    assert AllSaves(n)[1..] == AllSaves(n - 1);
    assert w.loaded - {n - 1} == Waiting(n - 1, a);
    assert next == World(Lock(1, Some(now), None), Waiting(n - 1, a));
    if n != 1 {
      AllSaved(Lock(1, Some(now), None), n - 1, now);
    } else {
      assert next.loaded == map[];
    }
  }

  lemma {:induction false} TimesCount(n: nat, now: Time)
    ensures |Times(n, now)| == n && forall i :: 0 <= i < n ==> Times(n, now)[i] == now
  {
    if n != 0 {
      TimesCount(n - 1, now);
    }
  }

  /** Any number of mismatches on a fresh account at one instant, all evaluated unlocked, count as one. */
  lemma {:induction false} BurstCountsOnce(n: nat, now: Time)
    requires n != 0
    ensures var w, moves := World(Clear, map[]), Loads(n, Attempt(false, false, now)) + AllSaves(n);
            && Run(w, moves) == World(Lock(1, Some(now), None), map[])
            && |Failures(w, moves)| == n
            && forall i :: 0 <= i < n ==> Failures(w, moves)[i] == now
  {
    var w, a := World(Clear, map[]), Attempt(false, false, now);
    AllLoaded(n, a);
    RunTwo(w, Loads(n, a), AllSaves(n));
    AllSaved(Clear, n, now);
    TimesCount(n, now);
    assert Failures(w, Loads(n, a) + AllSaves(n)) == Times(n, now);
  }
}
