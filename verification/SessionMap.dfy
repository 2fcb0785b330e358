/** The plain picture of the token table: a map of live sessions and a log of retired tokens.
    The tombstoned rows refine it, call by call and over whole runs. */
module SessionMap {
  import opened Prelude
  import opened TokenTable

  datatype Session = Session(user: Guid, jtiHash: Digest, expiresAt: Time)

  datatype Retired = Retired(user: Guid, expiresAt: Time, reason: Reason, touchedAt: Time)

  /** Keyed by the hash of the refresh token. */
  datatype Sessions = Sessions(live: map<Digest, Session>, retired: map<Digest, Retired>)

  predicate Taken(s: Sessions, h: Digest) { h in s.live || h in s.retired }

  function Retire(session: Session, reason: Reason, now: Time): Retired {
    Retired(session.user, session.expiresAt, reason, now)
  }

  /** What presenting a refresh token answers. */
  function Answer(s: Sessions, h: Digest, newHash: Digest, now: Time): Status {
    if h in s.live then
      if s.live[h].expiresAt <= now then Invalid
      else if Taken(s, newHash) then Threw
      else Rotated
    else if h in s.retired then
      if s.retired[h].expiresAt <= now then Invalid
      else if now < s.retired[h].touchedAt + GRACE then RecentlyRevoked
      else Revoked
    else Invalid
  }

  function Step(s: Sessions, a: Action): Sessions {
    match a
    case Mint(user, newHash, jtiHash, now) =>
      if Taken(s, newHash) then s
      else s.(live := s.live[newHash := Session(user, jtiHash, now + REFRESH_TTL)])
    case Rotate(h, newHash, jtiHash, now) =>
      (match Answer(s, h, newHash, now)
       case Rotated =>
         Sessions((s.live - {h})[newHash := Session(s.live[h].user, jtiHash, now + REFRESH_TTL)],
                  s.retired[h := Retire(s.live[h], Regular, now)])
       case RecentlyRevoked => s.(retired := s.retired[h := s.retired[h].(touchedAt := now)])
       case _ => s)
    case Revoke(h, now) =>
      if h in s.live then Sessions(s.live - {h}, s.retired[h := Retire(s.live[h], Security, now)]) else s
    case RevokeAll(user, now) =>
      Sessions(map h | h in s.live && s.live[h].user != user :: s.live[h],
               s.retired + (map h | h in s.live && s.live[h].user == user :: Retire(s.live[h], Security, now)))
    case Nothing(_) => s
  }

  function Steps(s: Sessions, actions: seq<Action>): Sessions
    decreases |actions|
  {
    if actions == [] then s else Steps(Step(s, actions[0]), actions[1..])
  }

  ghost predicate Admits(s: Sessions, user: Guid, jtiHash: Digest, now: Time) {
    exists h :: h in s.live && s.live[h].user == user && s.live[h].jtiHash == jtiHash && s.live[h].expiresAt > now
  }

  /** The token hash `h` stands the same way in the table and in the map. */
  ghost predicate ShowsAt(rows: seq<Row>, s: Sessions, h: Digest) {
    if !Known(rows, h) then !Taken(s, h)
    else
      var r := rows[IndexOf(rows, h)];
      if Live(r) then h !in s.retired && h in s.live && s.live[h] == Session(r.user, r.jtiHash, r.expiresAt)
      else h !in s.live && h in s.retired && r.reason.Some?
           && s.retired[h] == Retired(r.user, r.expiresAt, r.reason.value, r.revokedAt.value)
  }

  /** The table `rows` shows exactly the sessions `s`. */
  ghost predicate Shows(rows: seq<Row>, s: Sessions) { forall h :: ShowsAt(rows, s, h) }

  lemma {:induction false} IndexAfterAppend(rows: seq<Row>, r: Row, h: Digest)
    requires !Known(rows, r.tokenHash)
    ensures IndexOf(rows + [r], h) ==
            if Known(rows, h) then IndexOf(rows, h) else if h == r.tokenHash then |rows| else |rows| + 1
  {
    var k := IndexOf(rows + [r], h);
    if k < |rows| {
      assert (rows + [r])[k] == rows[k];
    }
    if Known(rows, h) {
      assert (rows + [r])[IndexOf(rows, h)].tokenHash == h;
    } else if h == r.tokenHash {
      assert (rows + [r])[|rows|].tokenHash == h;
    }
  }

  lemma {:induction false} ShowsAppend(rows: seq<Row>, s: Sessions, r: Row)
    requires Shows(rows, s) && !Known(rows, r.tokenHash) && Live(r)
    ensures Shows(rows + [r], s.(live := s.live[r.tokenHash := Session(r.user, r.jtiHash, r.expiresAt)]))
  {
    var next := s.(live := s.live[r.tokenHash := Session(r.user, r.jtiHash, r.expiresAt)]);
    forall h ensures ShowsAt(rows + [r], next, h) {
      assert ShowsAt(rows, s, h);
      IndexAfterAppend(rows, r, h);
    }
  }

  lemma {:induction false} ShowsBury(rows: seq<Row>, s: Sessions, i: nat, reason: Reason, now: Time)
    requires Shows(rows, s) && UniqueHashes(rows) && i < |rows| && Live(rows[i])
    ensures var h := rows[i].tokenHash;
            h in s.live &&
            Shows(rows[i := Bury(rows[i], reason, now)],
                  Sessions(s.live - {h}, s.retired[h := Retire(s.live[h], reason, now)]))
  {
    var g := rows[i].tokenHash;
    IndexIsUnique(rows, i);
    assert ShowsAt(rows, s, g);
    var after := rows[i := Bury(rows[i], reason, now)];
    var next := Sessions(s.live - {g}, s.retired[g := Retire(s.live[g], reason, now)]);
    forall h ensures ShowsAt(after, next, h) {
      assert ShowsAt(rows, s, h);
      SameHashesSameIndex(rows, after, h);
    }
  }

  lemma {:induction false} ShowsTouch(rows: seq<Row>, s: Sessions, i: nat, now: Time)
    requires Shows(rows, s) && UniqueHashes(rows) && i < |rows| && !Live(rows[i])
    ensures var h := rows[i].tokenHash;
            h in s.retired &&
            Shows(rows[i := rows[i].(revokedAt := Some(now))],
                  s.(retired := s.retired[h := s.retired[h].(touchedAt := now)]))
  {
    var g := rows[i].tokenHash;
    IndexIsUnique(rows, i);
    assert ShowsAt(rows, s, g);
    var after := rows[i := rows[i].(revokedAt := Some(now))];
    var next := s.(retired := s.retired[g := s.retired[g].(touchedAt := now)]);
    forall h ensures ShowsAt(after, next, h) {
      assert ShowsAt(rows, s, h);
      SameHashesSameIndex(rows, after, h);
    }
  }

  lemma {:induction false} ShowsRevokeAll(rows: seq<Row>, s: Sessions, user: Guid, now: Time)
    requires Shows(rows, s)
    ensures Shows(AfterRevokeAll(rows, user, now), Step(s, RevokeAll(user, now)))
  {
    forall h ensures ShowsAt(AfterRevokeAll(rows, user, now), Step(s, RevokeAll(user, now)), h) {
      assert ShowsAt(rows, s, h);
      SameHashesSameIndex(rows, AfterRevokeAll(rows, user, now), h);
    }
  }

  /** The table answers a presented token as the map does. */
  lemma {:induction false} SameAnswer(rows: seq<Row>, s: Sessions, h: Digest, newHash: Digest, now: Time)
    requires Shows(rows, s)
    ensures RotateStatus(rows, h, newHash, now) == Answer(s, h, newHash, now)
  {
    assert ShowsAt(rows, s, newHash) && ShowsAt(rows, s, h);
  }

  /** The access check over the rows is membership in the map of live sessions. */
  lemma {:induction false} SameAdmission(rows: seq<Row>, s: Sessions, user: Guid, jtiHash: Digest, now: Time)
    requires Shows(rows, s) && UniqueHashes(rows)
    ensures Accepts(rows, user, jtiHash, now) <==> Admits(s, user, jtiHash, now)
  {
    if Accepts(rows, user, jtiHash, now) {
      var i :| 0 <= i < |rows| && rows[i].user == user && Live(rows[i])
               && rows[i].expiresAt > now && rows[i].jtiHash == jtiHash;
      IndexIsUnique(rows, i);
      assert ShowsAt(rows, s, rows[i].tokenHash);
    }
    if Admits(s, user, jtiHash, now) {
      var h :| h in s.live && s.live[h].user == user && s.live[h].jtiHash == jtiHash && s.live[h].expiresAt > now;
      assert ShowsAt(rows, s, h);
    }
  }

  lemma {:induction false} RotateRefines(rows: seq<Row>, s: Sessions, h: Digest, newHash: Digest, jtiHash: Digest,
          now: Time)
    requires WellFormed(rows) && Shows(rows, s)
    ensures Shows(AfterRotate(rows, h, newHash, jtiHash, now), Step(s, Rotate(h, newHash, jtiHash, now)))
  {
    SameAnswer(rows, s, h, newHash, now);
    var i := IndexOf(rows, h);
    if RotateStatus(rows, h, newHash, now) == Rotated {
      assert ShowsAt(rows, s, h);
      ShowsBury(rows, s, i, Regular, now);
      var r := Bury(rows[i], Regular, now);
      SameHashesSameIndex(rows, rows[i := r], newHash);
      ShowsAppend(rows[i := r], Sessions(s.live - {h}, s.retired[h := Retire(s.live[h], Regular, now)]),
                  NewRow(rows[i].user, newHash, jtiHash, now));
    } else if RotateStatus(rows, h, newHash, now) == RecentlyRevoked {
      ShowsTouch(rows, s, i, now);
    }
  }

  lemma {:induction false} StepRefines(rows: seq<Row>, s: Sessions, a: Action)
    requires WellFormed(rows) && Shows(rows, s)
    ensures Shows(Apply(rows, a), Step(s, a))
  {
    match a
    case Mint(user, newHash, jtiHash, now) =>
      assert ShowsAt(rows, s, newHash);
      if !Known(rows, newHash) {
        ShowsAppend(rows, s, NewRow(user, newHash, jtiHash, now));
      }
    case Rotate(h, newHash, jtiHash, now) => RotateRefines(rows, s, h, newHash, jtiHash, now);
    case Revoke(h, now) =>
      assert ShowsAt(rows, s, h);
      var i := IndexOf(rows, h);
      if i < |rows| && Live(rows[i]) {
        ShowsBury(rows, s, i, Security, now);
      }
    case RevokeAll(user, now) => ShowsRevokeAll(rows, s, user, now);
    case Nothing(_) =>
  }

  /** Data refinement over every run of the store. */
  lemma {:induction false} RunRefines(rows: seq<Row>, s: Sessions, actions: seq<Action>)
    requires WellFormed(rows) && Shows(rows, s)
    ensures Shows(Run(rows, actions), Steps(s, actions))
    decreases |actions|
  {
    if actions != [] {
      StepRefines(rows, s, actions[0]);
      ApplyKeepsTable(rows, actions[0]);
      RunRefines(Apply(rows, actions[0]), Step(s, actions[0]), actions[1..]);
    }
  }

  /** From the empty table, every later answer and every later access check is the map's. */
  lemma {:induction false} TableIsSessionMap(actions: seq<Action>, h: Digest, newHash: Digest, user: Guid,
          jtiHash: Digest, now: Time)
    ensures var rows := Run([], actions);
            var s := Steps(Sessions(map[], map[]), actions);
            && RotateStatus(rows, h, newHash, now) == Answer(s, h, newHash, now)
            && (Accepts(rows, user, jtiHash, now) <==> Admits(s, user, jtiHash, now))
  {
    var start := Sessions(map[], map[]);
    assert Shows([], start);
    RunRefines([], start, actions);
    RunKeepsTable([], actions);
    SameAnswer(Run([], actions), Steps(start, actions), h, newHash, now);
    SameAdmission(Run([], actions), Steps(start, actions), user, jtiHash, now);
  }
}
