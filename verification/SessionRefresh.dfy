/** A whole refresh, reply and reuse response included, as one operation on the map of live sessions. */
module SessionRefresh {
  import opened Prelude
  import opened TokenTable
  import opened SessionMap
  import opened RefreshTokenText
  import Auth = AuthService
  import Commands = AuthCommands
  import AuthRuns
  import Store = RefreshTokenStore

  /** The account a refresh token belongs to, live or retired. */
  function Owner(s: Sessions, token: Option<Digest>): Option<Guid> {
    match token
    case None => None
    case Some(h) =>
      if h in s.live then Some(s.live[h].user) else if h in s.retired then Some(s.retired[h].user) else None
  }

  /** A token that was replaced by a refresh, is not expired and was last touched five seconds ago. */
  predicate Reused(s: Sessions, h: Digest, now: Time) {
    && h !in s.live && h in s.retired && s.retired[h].reason == Regular
    && now < s.retired[h].expiresAt && GRACE <= now - s.retired[h].touchedAt
  }

  /** A live session is replaced, a hit in the grace window slides it, and reuse of a replaced token ends
      every session of its account. */
  function AfterRefresh(s: Sessions, token: Option<Digest>, jti: seq<byte>, raw: seq<byte>, now: Time): Sessions {
    match Owner(s, token)
    case None => s
    case Some(owner) =>
      var h := token.value;
      if Reused(s, h, now) then SessionMap.Step(s, RevokeAll(owner, now))
      else SessionMap.Step(s, Rotate(h, Sha256(raw), Auth.JtiHash(jti), now))
  }

  function Reply(s: Sessions, token: Option<Digest>, jti: seq<byte>, raw: seq<byte>, now: Time):
    Result<Auth.RefreshOk, Commands.Error>
  {
    match Owner(s, token)
    case None => Err(Commands.InvalidRefreshToken)
    case Some(owner) =>
      match Answer(s, token.value, Sha256(raw), now)
      case Rotated => Ok(Auth.RefreshOk(Auth.Access(owner, jti), TokenText(raw), now + REFRESH_TTL))
      case RecentlyRevoked =>
        Err(if s.retired[token.value].reason == Regular
            then Commands.Error.RecentlyRevoked else Commands.InvalidRefreshToken)
      case Threw => Err(Commands.SaveFailed)
      case _ => Err(Commands.InvalidRefreshToken)
  }

  lemma {:induction false} SameOwner(rows: seq<Row>, s: Sessions, token: Option<Digest>)
    requires Shows(rows, s)
    ensures Store.OwnerOf(rows, token) == Owner(s, token)
  {
    if token.Some? {
      assert ShowsAt(rows, s, token.value);
    }
  }

  lemma {:induction false} SameReuse(rows: seq<Row>, s: Sessions, h: Digest, now: Time)
    requires Shows(rows, s)
    ensures AuthRuns.Reused(rows, Some(h), now) <==> Reused(s, h, now)
  {
    assert ShowsAt(rows, s, h);
  }

  lemma {:induction false} SameReply(db: Auth.Db, s: Sessions, token: Option<Digest>, jti: seq<byte>, raw: seq<byte>,
          now: Time)
    requires Shows(db.rows, s)
    ensures Auth.RefreshToken(db, token, jti, raw, now).1 == Reply(s, token, jti, raw, now)
  {
    SameOwner(db.rows, s, token);
    if Owner(s, token).Some? {
      SameAnswer(db.rows, s, token.value, Sha256(raw), now);
      assert ShowsAt(db.rows, s, token.value);
    }
  }

  lemma {:induction false} RefreshedRows(db: Auth.Db, token: Option<Digest>, jti: seq<byte>, raw: seq<byte>, now: Time)
    requires Store.OwnerOf(db.rows, token).Some?
    ensures Auth.RefreshToken(db, token, jti, raw, now).0.rows
            == if AuthRuns.Reused(db.rows, token, now)
               then Apply(db.rows, RevokeAll(Store.OwnerOf(db.rows, token).value, now))
               else Apply(db.rows, Rotate(token.value, Sha256(raw), Auth.JtiHash(jti), now))
  {
  }

  /** An uninterrupted refresh over the tombstoned rows is the map's refresh: same reply, and the new rows
      show the new sessions. */
  lemma {:induction false} RefreshRefines(db: Auth.Db, s: Sessions, token: Option<Digest>, jti: seq<byte>,
          raw: seq<byte>, now: Time)
    requires WellFormed(db.rows) && Shows(db.rows, s)
    ensures Auth.RefreshToken(db, token, jti, raw, now).1 == Reply(s, token, jti, raw, now)
    ensures Shows(Auth.RefreshToken(db, token, jti, raw, now).0.rows, AfterRefresh(s, token, jti, raw, now))
  {
    SameReply(db, s, token, jti, raw, now);
    SameOwner(db.rows, s, token);
    if Owner(s, token).Some? {
      SameReuse(db.rows, s, token.value, now);
      RefreshedRows(db, token, jti, raw, now);
      StepRefines(db.rows, s, RevokeAll(Owner(s, token).value, now));
      StepRefines(db.rows, s, Rotate(token.value, Sha256(raw), Auth.JtiHash(jti), now));
    }
  }

  /** The same after every run of the server from the empty database. */
  lemma {:induction false} ServerRefreshIsMapRefresh(events: seq<AuthRuns.Event>, token: Option<Digest>, jti: seq<byte>,
          raw: seq<byte>, now: Time)
    ensures var db := AuthRuns.Run(Auth.Db(map[], []), events);
            var s := SessionMap.Steps(Sessions(map[], map[]), AuthRuns.Actions(Auth.Db(map[], []), events));
            && Auth.RefreshToken(db, token, jti, raw, now).1 == Reply(s, token, jti, raw, now)
            && Shows(Auth.RefreshToken(db, token, jti, raw, now).0.rows, AfterRefresh(s, token, jti, raw, now))
  {
    var start := Auth.Db(map[], []);
    var actions := AuthRuns.Actions(start, events);
    assert Shows([], Sessions(map[], map[]));
    AuthRuns.RunActs(start, 0, events);
    RunRefines([], Sessions(map[], map[]), actions);
    RunKeepsTable([], actions);
    RefreshRefines(AuthRuns.Run(start, events), Steps(Sessions(map[], map[]), actions), token, jti, raw, now);
  }
}
