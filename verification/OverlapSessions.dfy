/** The plain picture of the session machine while refreshes overlap: a map of live sessions, a log of
    retired tokens, and for each refresh in flight what it saw of its token. */
module OverlapSessions {
  import opened Prelude
  import opened TokenTable
  import opened SessionMap
  import opened RefreshInterleaving
  import opened RefreshTokenText
  import Auth = AuthService
  import Commands = AuthCommands
  import AuthRuns
  import Store = RefreshTokenStore

  /** What a lookup saw of a token. */
  datatype Glimpse = SeenLive(session: Session) | SeenRetired(entry: Retired)

  datatype Request = Request(hash: Digest, seen: Glimpse, jti: seq<byte>, now: Time)

  datatype Plain = Plain(sessions: Sessions, inFlight: map<nat, Request>)

  datatype PlainMove =
    | Act(action: Action)
    | LookUp(req: nat, token: Option<Digest>, jti: seq<byte>, now: Time)
    | Complete(req: nat, raw: seq<byte>)

  function Look(s: Sessions, h: Digest): Option<Glimpse> {
    if h in s.live then Some(SeenLive(s.live[h]))
    else if h in s.retired then Some(SeenRetired(s.retired[h]))
    else None
  }

  /** A refresh that looked its token up is answered from what it saw; only the new token is checked
      against the present. */
  function LateAnswer(s: Sessions, r: Request, newHash: Digest): Status {
    match r.seen
    case SeenLive(session) =>
      if session.expiresAt <= r.now then Invalid else if Taken(s, newHash) then Threw else Rotated
    case SeenRetired(entry) =>
      if entry.expiresAt <= r.now then Invalid
      else if r.now < entry.touchedAt + GRACE then RecentlyRevoked
      else Revoked
  }

  /** A late rotation retires its token, whatever has become of it, and adds the new session; a late hit in
      the grace window slides the window. */
  function Late(s: Sessions, r: Request, raw: seq<byte>): Sessions {
    match (LateAnswer(s, r, Sha256(raw)), r.seen)
    case (Rotated, SeenLive(session)) =>
      Sessions((s.live - {r.hash})[Sha256(raw) := Session(session.user, Auth.JtiHash(r.jti), r.now + REFRESH_TTL)],
               s.retired[r.hash := Retire(session, Regular, r.now)])
    case (RecentlyRevoked, SeenRetired(entry)) =>
      if r.hash in s.retired && entry.touchedAt != r.now
      then s.(retired := s.retired[r.hash := s.retired[r.hash].(touchedAt := r.now)]) else s
    case _ => s
  }

  function PlainNext(p: Plain, m: PlainMove): Plain {
    match m
    case Act(a) => p.(sessions := SessionMap.Step(p.sessions, a))
    case LookUp(req, token, jti, now) =>
      if token.None? || Look(p.sessions, token.value).None? then p
      else p.(inFlight := p.inFlight[req := Request(token.value, Look(p.sessions, token.value).value, jti, now)])
    case Complete(req, raw) =>
      if req !in p.inFlight then p
      else Plain(Late(p.sessions, p.inFlight[req], raw), p.inFlight - {req})
  }

  function PlainRun(p: Plain, moves: seq<PlainMove>): Plain
    decreases |moves|
  {
    if moves == [] then p else PlainRun(PlainNext(p, moves[0]), moves[1..])
  }

  /** What a move does to the sessions. */
  function AsPlain(w: World, m: Move): PlainMove {
    match m
    case Other(e) => Act(AuthRuns.ActionOf(w.db, e))
    case Begin(req, token, jti, now) => LookUp(req, token, jti, now)
    case Finish(req, raw) => Complete(req, raw)
  }

  function AllPlain(w: World, moves: seq<Move>): seq<PlainMove>
    decreases |moves|
  {
    if moves == [] then []
    else [AsPlain(w, moves[0])] + AllPlain(RefreshInterleaving.Next(w, moves[0]), moves[1..])
  }

  // ---------------------------------------------------------------- refinement

  function GlimpseOf(r: Row): Glimpse
    requires !Live(r) ==> r.reason.Some?
  {
    if Live(r) then SeenLive(Session(r.user, r.jtiHash, r.expiresAt))
    else SeenRetired(Retired(r.user, r.expiresAt, r.reason.value, r.revokedAt.value))
  }

  ghost predicate SameRequest(f: InFlight, r: Request) {
    && (!Live(f.seen) ==> f.seen.reason.Some?)
    && r == Request(f.seen.tokenHash, GlimpseOf(f.seen), f.jti, f.now)
  }

  /** The world's table shows the sessions, and its refreshes in flight saw what the plain ones saw. */
  ghost predicate Pictures(w: World, p: Plain) {
    && Shows(w.db.rows, p.sessions) && p.inFlight.Keys == w.inFlight.Keys
    && forall r :: r in w.inFlight ==> SameRequest(w.inFlight[r], p.inFlight[r])
  }

  /** Writing a revoked row over row `i` retires its token, live or not. */
  lemma {:induction false} ShowsWritten(rows: seq<Row>, s: Sessions, i: nat, r: Row)
    requires Shows(rows, s) && UniqueHashes(rows) && i < |rows|
    requires SameRow(rows[i], r) && r.revokedAt.Some? && r.reason.Some?
    ensures Shows(rows[i := r],
                  Sessions(s.live - {r.tokenHash},
                           s.retired[r.tokenHash := Retired(r.user, r.expiresAt, r.reason.value, r.revokedAt.value)]))
  {
    var after := rows[i := r];
    var next := Sessions(s.live - {r.tokenHash},
                         s.retired[r.tokenHash := Retired(r.user, r.expiresAt, r.reason.value, r.revokedAt.value)]);
    IndexIsUnique(rows, i);
    forall h ensures ShowsAt(after, next, h) {
      assert ShowsAt(rows, s, h);
      SameHashesSameIndex(rows, after, h);
    }
  }

  lemma {:induction false} SameLateAnswer(rows: seq<Row>, s: Sessions, f: InFlight, r: Request, raw: seq<byte>)
    requires Shows(rows, s) && WasStored(rows, f.seen) && SameRequest(f, r)
    ensures FinishStatus(rows, f, raw) == LateAnswer(s, r, Sha256(raw))
  {
    assert ShowsAt(rows, s, Sha256(raw));
  }

  lemma {:induction false} LateRotationShows(rows: seq<Row>, s: Sessions, f: InFlight, r: Request, raw: seq<byte>)
    requires WellFormed(rows) && WasStored(rows, f.seen) && Shows(rows, s) && SameRequest(f, r)
    requires FinishStatus(rows, f, raw) == Rotated
    ensures Shows(FinishedRows(rows, f, raw), Late(s, r, raw))
  {
    var i := IndexOf(rows, f.seen.tokenHash);
    var written := Written(rows[i], f.seen, Bury(f.seen, Regular, f.now));
    SameLateAnswer(rows, s, f, r, raw);
    ShowsWritten(rows, s, i, written);
    SameHashesSameIndex(rows, rows[i := written], Sha256(raw));
    ShowsAppend(rows[i := written],
                Sessions(s.live - {r.hash}, s.retired[r.hash := Retire(r.seen.session, Regular, r.now)]),
                NewRow(f.seen.user, Sha256(raw), Auth.JtiHash(f.jti), f.now));
  }

  lemma {:induction false} LateHitShows(rows: seq<Row>, s: Sessions, f: InFlight, r: Request, raw: seq<byte>)
    requires WellFormed(rows) && WasStored(rows, f.seen) && Shows(rows, s) && SameRequest(f, r)
    requires FinishStatus(rows, f, raw) == RecentlyRevoked
    ensures Shows(FinishedRows(rows, f, raw), Late(s, r, raw))
  {
    var i := IndexOf(rows, f.seen.tokenHash);
    SameLateAnswer(rows, s, f, r, raw);
    assert ShowsAt(rows, s, f.seen.tokenHash);
    if f.seen.revokedAt == Some(f.now) {
      assert FinishedRows(rows, f, raw) == rows;
    } else {
      assert Written(rows[i], f.seen, f.seen.(revokedAt := Some(f.now))) == rows[i].(revokedAt := Some(f.now));
      ShowsTouch(rows, s, i, f.now);
    }
  }

  /** The end of a refresh over the tombstoned rows is the plain operation, with the same answer. */
  lemma {:induction false} LateRefines(rows: seq<Row>, s: Sessions, f: InFlight, r: Request, raw: seq<byte>)
    requires WellFormed(rows) && WasStored(rows, f.seen) && Shows(rows, s) && SameRequest(f, r)
    ensures FinishStatus(rows, f, raw) == LateAnswer(s, r, Sha256(raw))
    ensures Shows(FinishedRows(rows, f, raw), Late(s, r, raw))
  {
    SameLateAnswer(rows, s, f, r, raw);
    match FinishStatus(rows, f, raw)
    case Rotated => LateRotationShows(rows, s, f, r, raw);
    case RecentlyRevoked => LateHitShows(rows, s, f, r, raw);
    case _ =>
  }

  /** The reply to a late refresh, told from what it saw. */
  function LateReply(s: Sessions, r: Request, raw: seq<byte>): Result<Auth.RefreshOk, Commands.Error> {
    match LateAnswer(s, r, Sha256(raw))
    case Rotated => Ok(Auth.RefreshOk(Auth.Access(Owner(r), r.jti), TokenText(raw), r.now + REFRESH_TTL))
    case RecentlyRevoked =>
      Err(if r.seen.SeenRetired? && r.seen.entry.reason == Regular
          then Commands.Error.RecentlyRevoked else Commands.InvalidRefreshToken)
    case Threw => Err(Commands.SaveFailed)
    case _ => Err(Commands.InvalidRefreshToken)
  }

  function Owner(r: Request): Guid { if r.seen.SeenLive? then r.seen.session.user else r.seen.entry.user }

  /** Whether a late refresh goes on to end the sessions of its token's account. */
  predicate LateReuse(s: Sessions, r: Request, newHash: Digest) {
    LateAnswer(s, r, newHash) == Revoked && r.seen.SeenRetired? && r.seen.entry.reason == Regular
  }

  lemma {:induction false} SameLateReply(rows: seq<Row>, s: Sessions, f: InFlight, r: Request, raw: seq<byte>)
    requires Shows(rows, s) && WasStored(rows, f.seen) && SameRequest(f, r)
    ensures var result := Store.SeenRotation(rows, Some(f.seen), raw, f.now);
            && Auth.RefreshReply(result, Auth.Access(f.seen.user, f.jti)) == LateReply(s, r, raw)
            && (result.status == Revoked && result.user == Some(Owner(r)) && result.reason == Some(Regular)
                <==> LateReuse(s, r, Sha256(raw)))
  {
    SameLateAnswer(rows, s, f, r, raw);
  }

  lemma {:induction false} BeginPictures(w: World, p: Plain, m: Move)
    requires Inv(w) && Pictures(w, p) && m.Begin?
    ensures Pictures(RefreshInterleaving.Next(w, m), PlainNext(p, AsPlain(w, m)))
  {
    if m.token.Some? {
      assert ShowsAt(w.db.rows, p.sessions, m.token.value);
    }
  }

  lemma {:induction false} MovePictures(w: World, p: Plain, m: Move)
    requires Inv(w) && Pictures(w, p)
    ensures Pictures(RefreshInterleaving.Next(w, m), PlainNext(p, AsPlain(w, m)))
  {
    match m
    case Other(e) =>
      AuthRuns.StepActs(w.db, e);
      StepRefines(w.db.rows, p.sessions, AuthRuns.ActionOf(w.db, e));
    case Begin(_, _, _, _) => BeginPictures(w, p, m);
    case Finish(req, raw) =>
      if req in w.inFlight {
        assert Waiting(w, w.inFlight[req]);
        LateRefines(w.db.rows, p.sessions, w.inFlight[req], p.inFlight[req], raw);
      }
  }

  /** Data refinement over every run of overlapping refreshes. */
  lemma {:induction false} RunPictures(w: World, p: Plain, moves: seq<Move>)
    requires Inv(w) && Fresh(w, moves) && Pictures(w, p)
    ensures Pictures(RefreshInterleaving.Run(w, moves), PlainRun(p, AllPlain(w, moves)))
    decreases |moves|
  {
    if moves != [] {
      var next := RefreshInterleaving.Next(w, moves[0]);
      MovePictures(w, p, moves[0]);
      NextKeepsInv(w, moves[0]);
      RunPictures(next, PlainNext(p, AsPlain(w, moves[0])), moves[1..]);
      assert AllPlain(w, moves)[1..] == AllPlain(next, moves[1..]);
    }
  }

  /** However refreshes overlap from the empty server on, the access check, the answer to a token presented
      without overlap and the answer to every refresh in flight can be read off the plain picture. */
  lemma {:induction false} OverlappingServerIsPlain(moves: seq<Move>, h: Digest, raw: seq<byte>, user: Guid,
          jtiHash: Digest, now: Time)
    requires Fresh(Empty, moves)
    ensures var w := RefreshInterleaving.Run(Empty, moves);
            var p := PlainRun(Plain(Sessions(map[], map[]), map[]), AllPlain(Empty, moves));
            && (Accepts(w.db.rows, user, jtiHash, now) <==> Admits(p.sessions, user, jtiHash, now))
            && RotateStatus(w.db.rows, h, Sha256(raw), now) == Answer(p.sessions, h, Sha256(raw), now)
            && p.inFlight.Keys == w.inFlight.Keys
            && forall r :: r in w.inFlight ==>
                 FinishStatus(w.db.rows, w.inFlight[r], raw) == LateAnswer(p.sessions, p.inFlight[r], Sha256(raw))
  {
    var w := RefreshInterleaving.Run(Empty, moves);
    var start := Plain(Sessions(map[], map[]), map[]);
    assert Shows([], start.sessions);
    RunKeepsInv(Empty, moves);
    RunPictures(Empty, start, moves);
    var p := PlainRun(start, AllPlain(Empty, moves));
    SameAdmission(w.db.rows, p.sessions, user, jtiHash, now);
    SameAnswer(w.db.rows, p.sessions, h, Sha256(raw), now);
    forall r | r in w.inFlight
      ensures FinishStatus(w.db.rows, w.inFlight[r], raw) == LateAnswer(p.sessions, p.inFlight[r], Sha256(raw))
    {
      assert Waiting(w, w.inFlight[r]);
      SameLateAnswer(w.db.rows, p.sessions, w.inFlight[r], p.inFlight[r], raw);
    }
  }

  // ---------------------------------------------------------------- when a late operation is the plain one

  /** Whether the tombstone dates before and after give the same answer at `now`. */
  predicate SameSideOfGrace(seen: Row, stored: Row, now: Time)
    requires !Live(seen) && !Live(stored)
  {
    now - seen.revokedAt.value < GRACE <==> now - stored.revokedAt.value < GRACE
  }

  /** A refresh is answered as if it had only now looked its token up exactly when the token has expired,
      is still live, or was revoked at the lookup with a date on the same side of the grace window. */
  lemma {:induction false} LateAnswerIsCurrentExactly(rows: seq<Row>, f: InFlight, raw: seq<byte>)
    requires WellFormed(rows) && WasStored(rows, f.seen)
    ensures FinishStatus(rows, f, raw) == RotateStatus(rows, f.seen.tokenHash, Sha256(raw), f.now) <==>
            || f.seen.expiresAt <= f.now
            || (if Live(f.seen) then Live(Stored(rows, f)) else SameSideOfGrace(f.seen, Stored(rows, f), f.now))
  {
  }

  /** For a lookup that found its row live: then, and only then, the whole operation is the plain one. */
  lemma {:induction false} LateRotationIsPlainExactly(rows: seq<Row>, s: Sessions, f: InFlight, r: Request,
          raw: seq<byte>)
    requires WellFormed(rows) && WasStored(rows, f.seen) && Shows(rows, s) && SameRequest(f, r) && Live(f.seen)
    ensures AsIfCurrent(s, r, raw) <==> r.hash in s.live || r.seen.session.expiresAt <= r.now
  {
    assert ShowsAt(rows, s, r.hash);
    LateAnswerIsCurrentExactly(rows, f, raw);
    SameLateAnswer(rows, s, f, r, raw);
    SameAnswer(rows, s, r.hash, Sha256(raw), r.now);
  }

  /** Answer and effect are those of the uninterrupted operation. */
  ghost predicate AsIfCurrent(s: Sessions, r: Request, raw: seq<byte>) {
    && LateAnswer(s, r, Sha256(raw)) == Answer(s, r.hash, Sha256(raw), r.now)
    && Late(s, r, raw) == SessionMap.Step(s, Rotate(r.hash, Sha256(raw), Auth.JtiHash(r.jti), r.now))
  }

  /** For a lookup that found its row revoked: exactly when the token has expired, or the date is on the same
      side of the grace window as then and, where nothing is written because the date is the request's own
      clock reading, still the same. */
  lemma {:induction false} LateHitIsPlainExactly(rows: seq<Row>, s: Sessions, f: InFlight, r: Request, raw: seq<byte>)
    requires WellFormed(rows) && WasStored(rows, f.seen) && Shows(rows, s) && SameRequest(f, r) && !Live(f.seen)
    ensures r.hash in s.retired
    ensures var entry, current := r.seen.entry, s.retired[r.hash];
            AsIfCurrent(s, r, raw) <==>
            || entry.expiresAt <= r.now
            || (&& (r.now < entry.touchedAt + GRACE <==> r.now < current.touchedAt + GRACE)
                && (entry.touchedAt == r.now ==> current.touchedAt == r.now))
  {
    assert ShowsAt(rows, s, r.hash);
    LateAnswerIsCurrentExactly(rows, f, raw);
    SameLateAnswer(rows, s, f, r, raw);
    SameAnswer(rows, s, r.hash, Sha256(raw), r.now);
    if s.retired[r.hash].touchedAt == r.now {
      assert s.retired[r.hash := s.retired[r.hash].(touchedAt := r.now)] == s.retired;
    }
  }
}
