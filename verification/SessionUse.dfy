/** What a client can do with the texts it holds: the refresh token from a sign-in or a refresh, and the
    access token beside it. */
module SessionUse {
  import opened Prelude
  import opened Crypto
  import opened UserEntity
  import opened TokenTable
  import opened AuthCommands
  import opened AuthService
  import opened RefreshTokenText
  import AuthRuns
  import Base64
  import Lineage
  import LockoutPolicy
  import SessionMap
  import SessionRefresh
  import R = RefreshInterleaving
  import Store = RefreshTokenStore

  // ---------------------------------------------------------------- blank texts

  /** A text with a base64url letter in it is not blank. */
  lemma {:induction false} LettersAreNotWhite(c: char)
    requires Base64.Value(Plain(c)).Some?
    ensures !IsWhite(c)
  {
  }

  /** An empty text and one of spaces, tabs and line ends is answered MissingRefreshToken and changes nothing;
      a text with a base64url letter is never answered so. */
  lemma {:induction false} OnlyBlankIsMissing(db: Db, text: string, jti: seq<byte>, raw: seq<byte>, now: Time)
    ensures (forall c :: c in text ==> c == ' ' || c == '\t' || c == '\n' || c == '\r') ==>
              Refresh(db, text, jti, raw, now) == (db, Err(MissingRefreshToken))
    ensures (exists c :: c in text && Base64.Value(Plain(c)).Some?) ==>
              Refresh(db, text, jti, raw, now).1 != Err(MissingRefreshToken)
  {
    if c :| c in text && Base64.Value(Plain(c)).Some? {
      LettersAreNotWhite(c);
    }
  }

  lemma {:induction false} TokenTextIsNotBlank(raw: seq<byte>)
    requires |raw| == 64
    ensures !IsBlank(TokenText(raw)) && TryHashRefreshToken(TokenText(raw)) == Some(Sha256(raw))
  {
    MintedTokenHashesBack(raw);
    var c := TokenText(raw)[0];
    assert c == Base64.Letter(Base64.Pack(raw)[0], true);
    LettersAreNotWhite(c);
  }

  // ---------------------------------------------------------------- refreshing with a text

  /** The text of a token is answered from the map of live sessions, and the new rows show the new sessions. */
  lemma {:induction false} TextRefreshIsMapRefresh(db: Db, s: SessionMap.Sessions, raw: seq<byte>, jti: seq<byte>,
          drawn: seq<byte>, now: Time)
    requires WellFormed(db.rows) && SessionMap.Shows(db.rows, s) && |raw| == 64
    ensures var (after, reply) := Refresh(db, TokenText(raw), jti, drawn, now);
            && reply == SessionRefresh.Reply(s, Some(Sha256(raw)), jti, drawn, now)
            && SessionMap.Shows(after.rows, SessionRefresh.AfterRefresh(s, Some(Sha256(raw)), jti, drawn, now))
            && after.users == db.users
  {
    TokenTextIsNotBlank(raw);
    SessionRefresh.RefreshRefines(db, s, Some(Sha256(raw)), jti, drawn, now);
  }

  /** The text of the token behind row `k` is exchanged exactly when the row is live and unexpired and the new
      token is unused. */
  lemma {:induction false} TextIsExchangedExactly(db: Db, k: nat, raw: seq<byte>, jti: seq<byte>, drawn: seq<byte>,
          now: Time)
    requires WellFormed(db.rows) && k < |db.rows| && db.rows[k].tokenHash == Sha256(raw) && |raw| == 64
    ensures Refresh(db, TokenText(raw), jti, drawn, now).1.Ok? <==>
            Live(db.rows[k]) && now < db.rows[k].expiresAt && forall i :: 0 <= i < |db.rows| ==>
              db.rows[i].tokenHash != Sha256(drawn)
  {
    TokenTextIsNotBlank(raw);
    IndexIsUnique(db.rows, k);
    if Known(db.rows, Sha256(drawn)) {
      assert db.rows[IndexOf(db.rows, Sha256(drawn))].tokenHash == Sha256(drawn);
    }
  }

  /** The access token is accepted and the refresh token leads to a live row of its subject, until `until`. */
  ghost predicate Usable(rows: seq<Row>, access: Access, token: string, until: Time) {
    && (forall t :: t < until ==> Accepts(rows, access.sub, Sha256(access.jti), t))
    && var hash := TryHashRefreshToken(token);
    && hash.Some? && Known(rows, hash.value)
    && var r := rows[IndexOf(rows, hash.value)];
    && Live(r) && r.user == access.sub && r.jtiHash == Sha256(access.jti) && r.expiresAt == until
  }

  /** An access token that one row carries is accepted exactly for that row's account, while the row is live
      and unexpired. */
  lemma {:induction false} AccessLastsExactly(rows: seq<Row>, k: nat, user: Guid, now: Time)
    requires k < |rows| && forall i :: 0 <= i < |rows| && i != k ==> rows[i].jtiHash != rows[k].jtiHash
    ensures Accepts(rows, user, rows[k].jtiHash, now)
            <==> user == rows[k].user && rows[k].revokedAt == None && now < rows[k].expiresAt
  {
    if user == rows[k].user && rows[k].revokedAt == None && now < rows[k].expiresAt {
      assert rows[k].jtiHash == rows[k].jtiHash;
    }
  }

  /** A live row hands its session on: to the account's own new row, whose token and access token are the ones
      replied, for seven days. */
  lemma {:induction false} ExchangeHandsTheSessionOn(db: Db, k: nat, raw: seq<byte>, jti: seq<byte>, drawn: seq<byte>,
          now: Time)
    requires WellFormed(db.rows) && k < |db.rows| && db.rows[k].tokenHash == Sha256(raw) && |raw| == |drawn| == 64
    requires Refresh(db, TokenText(raw), jti, drawn, now).1.Ok?
    ensures var r, (after, reply) := db.rows[k], Refresh(db, TokenText(raw), jti, drawn, now);
            var week := 6_048_000_000_000;
            && after.rows == db.rows[k := r.(revokedAt := Some(now), reason := Some(Regular))]
                             + [Row(r.user, Sha256(drawn), Sha256(jti), now, now + week, None, None)]
            && reply.value == RefreshOk(Access(r.user, jti), TokenText(drawn), now + week)
            && Usable(after.rows, reply.value.access, reply.value.refreshToken, now + week)
            && WellFormed(after.rows)
  {
    hide Usable, TokenText, TryHashRefreshToken, IsBlank;
    TokenTextIsNotBlank(raw);
    IndexIsUnique(db.rows, k);
    ApplyKeepsTable(db.rows, Rotate(Sha256(raw), Sha256(drawn), JtiHash(jti), now));
    var after := Refresh(db, TokenText(raw), jti, drawn, now).0;
    assert after.rows == Apply(db.rows, Rotate(Sha256(raw), Sha256(drawn), JtiHash(jti), now));
    NewestIsUsable(after.rows, jti, drawn);
  }

  lemma {:induction false} NewestIsUsable(rows: seq<Row>, jti: seq<byte>, raw: seq<byte>)
    requires WellFormed(rows) && rows != [] && |raw| == 64
    requires var r := rows[|rows| - 1]; Live(r) && r.tokenHash == Sha256(raw) && r.jtiHash == Sha256(jti)
    ensures var r := rows[|rows| - 1]; Usable(rows, Access(r.user, jti), TokenText(raw), r.expiresAt)
  {
    var r := rows[|rows| - 1];
    TokenTextIsNotBlank(raw);
    IndexIsUnique(rows, |rows| - 1);
    forall t | t < r.expiresAt ensures Accepts(rows, r.user, Sha256(jti), t) {
      assert rows[|rows| - 1].expiresAt > t;
    }
  }

  /** Over every run of overlapping refreshes: the text of a token handed out is exchanged exactly when its row
      is live, seven days have not passed since it was handed out, and the new token is unused. */
  lemma {:induction false} HandedOutTextIsExchangedExactly(w: R.World, m: R.Move, raw: seq<byte>, moves: seq<R.Move>,
          jti: seq<byte>, drawn: seq<byte>, now: Time)
    requires R.Inv(w) && R.Enabled(w, m) && R.Beside(w, m, raw).Some? && R.Fresh(R.Next(w, m), moves) && |raw| == 64
    ensures var db, k := R.Run(R.Next(w, m), moves).db, |w.db.rows|;
            && k < |db.rows| && db.rows[k].user == R.Beside(w, m, raw).value.sub
            && (Refresh(db, TokenText(raw), jti, drawn, now).1.Ok? <==>
                  Live(db.rows[k]) && now < R.HandedOutAt(w, m) + 6_048_000_000_000 && !Known(db.rows, Sha256(drawn)))
  {
    hide R.Inv, R.Enabled, R.Beside, R.Next, R.Run, Refresh;
    var after, k := R.Run(R.Next(w, m), moves), |w.db.rows|;
    R.HandedOutRow(w, m, raw);
    R.NextKeepsInv(w, m);
    R.RowStaysFound(R.Next(w, m), moves, k);
    assert R.SameRow(R.Next(w, m).db.rows[k], after.db.rows[k]);
    TextIsExchangedExactly(after.db, k, raw, jti, drawn, now);
  }

  // ---------------------------------------------------------------- presenting a text again

  /** The text of an exchanged token, presented again: for five seconds it is answered RecentlyRevoked and no
      session ends; from then on, until it expires, it is refused and every session of its account ends. */
  lemma {:induction false} PresentedAgain(db: Db, k: nat, raw: seq<byte>, jti: seq<byte>, drawn: seq<byte>, now: Time)
    requires WellFormed(db.rows) && k < |db.rows| && db.rows[k].tokenHash == Sha256(raw) && |raw| == 64
    requires db.rows[k].reason == Some(Regular) && now < db.rows[k].expiresAt
    ensures var r, (after, reply) := db.rows[k], Refresh(db, TokenText(raw), jti, drawn, now);
            && (now - r.revokedAt.value < 50_000_000 ==>
                  && reply == Err(Error.RecentlyRevoked) && after.rows == db.rows[k := r.(revokedAt := Some(now))])
            && (now - r.revokedAt.value >= 50_000_000 ==>
                  && reply == Err(InvalidRefreshToken) && Lineage.LiveCount(after.rows, r.user) == 0
                  && |after.rows| == |db.rows|
                  && forall i :: 0 <= i < |db.rows| && db.rows[i].user != r.user ==> after.rows[i] == db.rows[i])
  {
    TokenTextIsNotBlank(raw);
    IndexIsUnique(db.rows, k);
    if now - db.rows[k].revokedAt.value >= 50_000_000 {
      AuthRuns.ReuseEndsTheAccountsSessions(db, Sha256(raw), jti, drawn, now);
    }
  }

  // ---------------------------------------------------------------- signing in and out

  /** An accepted sign-in dates the account, clears its counter and opens one session, usable for seven days by
      the tokens it replies with; the wraps it replies with are the account's own. */
  lemma {:induction false} SignInOpensASession(db: Db, cmd: LoginCommand, jti: seq<byte>, raw: seq<byte>, now: Time)
    requires WellFormed(db.rows) && |raw| == 64 && Login(db, cmd, jti, raw, now).1.Ok?
    ensures cmd.account in db.users
    ensures var (after, reply) := Login(db, cmd, jti, raw, now);
            var u, week := db.users[cmd.account], 6_048_000_000_000;
            && after.users == db.users[cmd.account := Account(u.creds, Lock(0, None, None), Some(now))]
            && after.rows == db.rows + [Row(cmd.account, Sha256(raw), Sha256(jti), now, now + week, None, None)]
            && reply.value == LoginOk(Access(cmd.account, jti), TokenText(raw), now + week, u.creds.mkWrapPwd,
                                      u.creds.mkWrapRk)
            && Usable(after.rows, reply.value.access, reply.value.refreshToken, now + week)
  {
    hide Usable, WellFormed, TokenText;
    ApplyKeepsTable(db.rows, Mint(cmd.account, Sha256(raw), JtiHash(jti), now));
    NewestIsUsable(Login(db, cmd, jti, raw, now).0.rows, jti, raw);
  }

  /** A logout with the text of a live token ends that session and no other; afterwards the text is never
      exchanged. A text that leads to no live row changes nothing. */
  lemma {:induction false} SignOutEndsTheSession(db: Db, text: string, now: Time, k: nat)
    requires WellFormed(db.rows) && k < |db.rows| && TryHashRefreshToken(text) == Some(db.rows[k].tokenHash)
    ensures var r, after := db.rows[k], AuthRuns.Step(db, AuthRuns.DoLogout(TryHashRefreshToken(text), now));
            && after.users == db.users
            && after.rows == (if Live(r) then db.rows[k := r.(revokedAt := Some(now), reason := Some(Security))]
                              else db.rows)
            && forall jti, raw, t :: !Refresh(after, text, jti, raw, t).1.Ok?
  {
    IndexIsUnique(db.rows, k);
    var after := AuthRuns.Step(db, AuthRuns.DoLogout(TryHashRefreshToken(text), now));
    ApplyKeepsTable(db.rows, Revoke(db.rows[k].tokenHash, now));
    IndexIsUnique(after.rows, k);
  }

  lemma {:induction false} SignOutOfNothing(db: Db, text: string, now: Time)
    requires var h := TryHashRefreshToken(text);
             h.None? || forall i :: 0 <= i < |db.rows| ==> db.rows[i].tokenHash != h.value
    ensures AuthRuns.Step(db, AuthRuns.DoLogout(TryHashRefreshToken(text), now)) == db
  {
  }
}
