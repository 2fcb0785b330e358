/** Runs of the whole server: any interleaving of endpoint calls, where a refresh is its lookup and
    rotation in one event and its response to reuse in another. */
module AuthRuns {
  import opened Prelude
  import opened Crypto
  import opened UserEntity
  import opened LockoutPolicy
  import opened TokenTable
  import opened AuthCommands
  import opened AuthService
  import Store = RefreshTokenStore
  import Lineage
  import SessionMap

  /** `DoRotate` is a refresh's lookup and rotation with nothing between them, `DoEndSessions` its third
      store call and also logout-all. Refreshes that overlap are the subject of RefreshInterleaving. */
  datatype Event =
    | DoRegister(register: RegisterCommand, salts: Salts, now: Time)
    | DoLogin(login: LoginCommand, jti: seq<byte>, raw: seq<byte>, now: Time)
    | DoRotate(token: Option<Digest>, jti: seq<byte>, raw: seq<byte>, now: Time)
    | DoEndSessions(account: Guid, now: Time)
    | DoLogout(token: Option<Digest>, now: Time)
    | DoGetWraps(wraps: WrapsCommand, now: Time)
    | DoChangePassword(change: ChangePasswordCommand, salts: Salts, now: Time)
    | DoGetRecoveryWraps(account: Guid, rkVerifier: Blob, now: Time)
    | DoRecover(recover: RecoverCommand, salts: Salts, now: Time)

  function Step(db: Db, e: Event): Db {
    match e
    case DoRegister(cmd, s, _) => Register(db, cmd, s).0
    case DoLogin(cmd, jti, raw, now) => Login(db, cmd, jti, raw, now).0
    case DoRotate(token, jti, raw, now) =>
      db.(rows := Apply(db.rows, Store.RotateAction(token, raw, JtiHash(jti), now)))
    case DoEndSessions(account, now) => db.(rows := Apply(db.rows, RevokeAll(account, now)))
    case DoLogout(token, now) => db.(rows := Apply(db.rows, Store.RevokeAction(token, now)))
    case DoGetWraps(cmd, now) => GetWraps(db, cmd, now).0
    case DoChangePassword(cmd, s, now) => ChangePassword(db, cmd, s, now).0
    case DoGetRecoveryWraps(account, rk, now) => GetRecoveryWraps(db, account, rk, now).0
    case DoRecover(cmd, s, now) => Recover(db, cmd, s, now).0
  }

  function Run(db: Db, events: seq<Event>): Db
    decreases |events|
  {
    if events == [] then db else Run(Step(db, events[0]), events[1..])
  }

  ghost predicate Ordered(t: Time, events: seq<Event>)
    decreases |events|
  {
    events == [] || (t <= events[0].now && Ordered(events[0].now, events[1..]))
  }

  /** Whether presenting this token triggers the reuse response. */
  predicate Reused(rows: seq<Row>, token: Option<Digest>, now: Time) {
    && token.Some? && Known(rows, token.value)
    && var row := rows[IndexOf(rows, token.value)];
    && now < row.expiresAt && row.revokedAt.Some? && row.reason == Some(Regular)
    && GRACE <= now - row.revokedAt.value
  }

  /** An uninterrupted refresh of a known token is its rotation, and on reuse the end of all sessions of
      the token's own account; any other token changes nothing. */
  lemma {:induction false} RefreshIsItsStoreCalls(db: Db, token: Option<Digest>, jti: seq<byte>, raw: seq<byte>,
          now: Time)
    ensures Store.OwnerOf(db.rows, token).None? ==> RefreshToken(db, token, jti, raw, now).0 == db
    ensures Store.OwnerOf(db.rows, token).Some? ==>
              var rotate := DoRotate(token, jti, raw, now);
              var end := DoEndSessions(Store.OwnerOf(db.rows, token).value, now);
              RefreshToken(db, token, jti, raw, now).0
              == Run(db, if Reused(db.rows, token, now) then [rotate, end] else [rotate])
  {
    if Store.OwnerOf(db.rows, token).Some? {
      var owner, rotate := Store.OwnerOf(db.rows, token).value, DoRotate(token, jti, raw, now);
      assert Run(db, [rotate]) == Step(db, rotate);
      if Reused(db.rows, token, now) {
        var end := DoEndSessions(owner, now);
        assert [rotate, end][1..] == [end];
        assert Run(Step(db, rotate), [end]) == Step(Step(db, rotate), end);
      }
    }
  }

  // ---------------------------------------------------------------- what a step does to the tokens

  /** Whether a login, an administrative or a recovery proof is accepted by this event. */
  predicate Succeeds(db: Db, e: Event) {
    match e
    case DoLogin(cmd, jti, raw, now) => Login(db, cmd, jti, raw, now).1.Ok?
    case DoGetWraps(cmd, now) => GetWraps(db, cmd, now).1.Ok?
    case DoChangePassword(cmd, s, now) => ChangePassword(db, cmd, s, now).1.Ok?
    case DoGetRecoveryWraps(account, rk, now) => RecoveryAccepted(db, account, rk, now)
    case DoRecover(cmd, s, now) => Recover(db, cmd, s, now).1.Ok?
    case _ => false
  }

  function ActionOf(db: Db, e: Event): Action {
    match e
    case DoLogin(cmd, jti, raw, now) =>
      if Succeeds(db, e) then Mint(cmd.account, Sha256(raw), JtiHash(jti), now) else Nothing(now)
    case DoRotate(token, jti, raw, now) => Store.RotateAction(token, raw, JtiHash(jti), now)
    case DoEndSessions(account, now) => RevokeAll(account, now)
    case DoLogout(token, now) => Store.RevokeAction(token, now)
    case DoChangePassword(cmd, _, now) => if Succeeds(db, e) then RevokeAll(cmd.account, now) else Nothing(now)
    case DoRecover(cmd, _, now) => if Succeeds(db, e) then RevokeAll(cmd.account, now) else Nothing(now)
    case _ => Nothing(e.now)
  }

  function Actions(db: Db, events: seq<Event>): (actions: seq<Action>)
    ensures |actions| == |events|
    decreases |events|
  {
    if events == [] then [] else [ActionOf(db, events[0])] + Actions(Step(db, events[0]), events[1..])
  }

  lemma {:induction false} StepActs(db: Db, e: Event)
    ensures Step(db, e).rows == Apply(db.rows, ActionOf(db, e))
    ensures ActionOf(db, e).now == e.now
  {
  }

  /** Every server run drives the token table through a run of store calls, so what holds of all
      store runs holds of all server runs. */
  lemma {:induction false} RunActs(db: Db, t: Time, events: seq<Event>)
    ensures Run(db, events).rows == TokenTable.Run(db.rows, Actions(db, events))
    ensures Ordered(t, events) ==> TokenTable.Ordered(t, Actions(db, events))
    decreases |events|
  {
    if events != [] {
      StepActs(db, events[0]);
      RunActs(Step(db, events[0]), events[0].now, events[1..]);
      assert Actions(db, events)[1..] == Actions(Step(db, events[0]), events[1..]);
    }
  }

  /** Over every server run, what a refresh token is answered and whether an access token is accepted
      can be read off the plain map of live sessions. */
  lemma {:induction false} ServerIsSessionMap(events: seq<Event>, h: Digest, newHash: Digest, user: Guid,
          jtiHash: Digest, now: Time)
    ensures var start := Db(map[], []);
            var rows := Run(start, events).rows;
            var s := SessionMap.Steps(SessionMap.Sessions(map[], map[]), Actions(start, events));
            && RotateStatus(rows, h, newHash, now) == SessionMap.Answer(s, h, newHash, now)
            && (Accepts(rows, user, jtiHash, now) <==> SessionMap.Admits(s, user, jtiHash, now))
  {
    RunActs(Db(map[], []), 0, events);
    SessionMap.TableIsSessionMap(Actions(Db(map[], []), events), h, newHash, user, jtiHash, now);
  }

  // ---------------------------------------------------------------- permanent cut-off

  /** The account whose sessions this event ends, if it does. */
  function Ends(db: Db, e: Event): Option<Guid> {
    match ActionOf(db, e)
    case RevokeAll(account, _) => Some(account)
    case _ => None
  }

  predicate Issues(e: Event, jtiHash: Digest) { (e.DoLogin? || e.DoRotate?) && JtiHash(e.jti) == jtiHash }

  lemma {:induction false} NewRowsCarryNewJtis(db: Db, events: seq<Event>, jtiHash: Digest)
    requires WellFormed(db.rows) && forall e :: e in events ==> !Issues(e, jtiHash)
    ensures var after := Run(db, events).rows;
            |db.rows| <= |after|
            && forall i :: |db.rows| <= i < |after| ==> after[i].jtiHash != jtiHash
    decreases |events|
  {
    if events != [] {
      var next := Step(db, events[0]);
      assert events[0] in events;
      StepActs(db, events[0]);
      ApplyKeepsTable(db.rows, ActionOf(db, events[0]));
      NewRowsCarryNewJtis(next, events[1..], jtiHash);
      RunActs(next, 0, events[1..]);
      RunKeepsTable(next.rows, Actions(next, events[1..]));
    }
  }

  /** With no refresh interrupted: after a password change, a recovery or a logout-all, no refresh token
      the account held is ever rotated again and no access token it held is ever accepted, however the
      run goes on and whatever its clock readings, provided access tokens get new identifiers. */
  lemma {:induction false} CutOffIsPermanent(db: Db, e: Event, account: Guid, events: seq<Event>, i: nat,
          newHash: Digest, now: Time)
    requires WellFormed(db.rows) && Ends(db, e) == Some(account)
    requires i < |db.rows| && db.rows[i].user == account
    requires forall f :: f in events ==> !Issues(f, db.rows[i].jtiHash)
    ensures var final := Run(Step(db, e), events).rows;
            && RotateStatus(final, db.rows[i].tokenHash, newHash, now) != Rotated
            && !Accepts(final, account, db.rows[i].jtiHash, now)
  {
    var mid := Step(db, e);
    StepActs(db, e);
    ApplyKeepsTable(db.rows, ActionOf(db, e));
    var final := Run(mid, events).rows;
    RunActs(mid, 0, events);
    RunKeepsTable(mid.rows, Actions(mid, events));
    NewRowsCarryNewJtis(mid, events, db.rows[i].jtiHash);
    assert |mid.rows| == |db.rows|;
    assert forall j :: 0 <= j < |db.rows| && db.rows[j].user == account ==> !Live(mid.rows[j]) && !Live(final[j]);
    assert final[i].tokenHash == mid.rows[i].tokenHash == db.rows[i].tokenHash;
    IndexIsUnique(final, i);
    forall j | 0 <= j < |final| && final[j].user == account && final[j].jtiHash == db.rows[i].jtiHash
      ensures !Live(final[j])
    {
      assert j < |db.rows|;
      assert final[j].user == mid.rows[j].user == db.rows[j].user;
    }
  }

  /** The sessions the account can still have afterwards all descend from logins that came later. */
  lemma {:induction false} OnlyLaterLoginsSurvive(t: Lineage.Traced, db: Db, e: Event, account: Guid,
          events: seq<Event>)
    requires Lineage.Chains(t) && t.rows == db.rows && Ends(db, e) == Some(account)
    ensures var end := Lineage.Trace(Lineage.Step(t, ActionOf(db, e)), Actions(Step(db, e), events));
            end.rows == Run(Step(db, e), events).rows && Lineage.LiveSince(end, account, |db.rows|)
  {
    StepActs(db, e);
    RunActs(Step(db, e), 0, events);
    Lineage.OnlyLaterLoginsLive(t, account, e.now, Actions(Step(db, e), events));
  }

  /** The account's successful logins since its sessions were last ended, counting on from `n`. */
  function LoginsSince(db: Db, n: nat, events: seq<Event>, account: Guid): nat
    decreases |events|
  {
    if events == [] then n
    else
      LoginsSince(Step(db, events[0]),
                  if Ends(db, events[0]) == Some(account) then 0
                  else if events[0].DoLogin? && events[0].login.account == account && Succeeds(db, events[0]) then n + 1
                  else n,
                  events[1..], account)
  }

  /** Over every server run an account has at most as many un-revoked rows as it had successful logins
      since its sessions were last ended. */
  lemma {:induction false} NeverMoreSessionsThanLogins(db: Db, n: nat, events: seq<Event>, account: Guid)
    requires Lineage.LiveCount(db.rows, account) <= n
    ensures Lineage.LiveCount(Run(db, events).rows, account) <= LoginsSince(db, n, events, account)
    decreases |events|
  {
    if events != [] {
      var e := events[0];
      StepActs(db, e);
      Lineage.CountAfter(db.rows, ActionOf(db, e), account);
      NeverMoreSessionsThanLogins(Step(db, e),
                                  if Ends(db, e) == Some(account) then 0
                                  else if e.DoLogin? && e.login.account == account && Succeeds(db, e) then n + 1
                                  else n,
                                  events[1..], account);
    }
  }

  // ---------------------------------------------------------------- the lock over server runs

  /** The evaluated proof this event brings to the account's counter. A login whose save fails
      leaves no trace. */
  function AttemptOf(db: Db, e: Event, account: Guid): Option<Attempt> {
    if account !in db.users then None
    else
      var u := db.users[account];
      match e
      case DoLogin(cmd, jti, raw, now) =>
        var a := Attempt(false, LoginMatches(u, cmd.verifier), now);
        if cmd.account != account || ValidateLogin(cmd).Some?
           || (Accepted(u.lock, a) && Known(db.rows, Sha256(raw))) then None
        else Some(a)
      case DoGetWraps(cmd, now) =>
        if cmd.account != account || ValidateWraps(cmd).Some? then None
        else Some(Attempt(false, AdminMatches(u, cmd.adminVerifier), now))
      case DoChangePassword(cmd, _, now) =>
        if cmd.account != account || ValidateChangePassword(cmd).Some? then None
        else Some(Attempt(false, AdminMatches(u, cmd.adminVerifier), now))
      case DoGetRecoveryWraps(a, rk, now) =>
        if a != account then None else Some(Attempt(true, RkMatches(u, rk), now))
      case DoRecover(cmd, _, now) =>
        if cmd.account != account || ValidateRecover(cmd).Some? then None
        else Some(Attempt(true, RkMatches(u, cmd.rkVerifier), now))
      case _ => None
  }

  function Attempts(db: Db, events: seq<Event>, account: Guid): seq<Attempt>
    decreases |events|
  {
    if events == [] then []
    else
      (match AttemptOf(db, events[0], account) case None => [] case Some(a) => [a])
      + Attempts(Step(db, events[0]), events[1..], account)
  }

  /** All five guarded endpoints move one account's counter, lock and credentials only through its
      own attempts, and only an accepted one releases or changes anything. */
  lemma {:induction false} StepCounts(db: Db, e: Event, account: Guid)
    requires account in db.users
    ensures account in Step(db, e).users
    ensures AttemptOf(db, e, account).None? ==> Step(db, e).users[account] == db.users[account]
    ensures AttemptOf(db, e, account).Some? ==>
              var a := AttemptOf(db, e, account).value;
              var before, after := db.users[account], Step(db, e).users[account];
              && after.lock == Next(before.lock, a) && a.now == e.now
              && (!Accepted(before.lock, a) ==> after.creds == before.creds && !Succeeds(db, e))
  {
  }

  lemma {:induction false} RunCounts(db: Db, t: Time, events: seq<Event>, account: Guid)
    requires account in db.users
    ensures account in Run(db, events).users
    ensures Run(db, events).users[account].lock == After(db.users[account].lock, Attempts(db, events, account))
    ensures Ordered(t, events) ==> LockoutPolicy.Ordered(t, Attempts(db, events, account))
    decreases |events|
  {
    if events != [] {
      StepCounts(db, events[0], account);
      RunCounts(Step(db, events[0]), events[0].now, events[1..], account);
      var rest := Attempts(Step(db, events[0]), events[1..], account);
      match AttemptOf(db, events[0], account)
      case None =>
        assert Attempts(db, events, account) == rest;
        OrderedFrom(t, events[0].now, rest);
      case Some(a) =>
        assert Attempts(db, events, account)[1..] == rest;
    }
  }

  lemma {:induction false} OrderedFrom(t: Time, u: Time, attempts: seq<Attempt>)
    ensures t <= u && LockoutPolicy.Ordered(u, attempts) ==> LockoutPolicy.Ordered(t, attempts)
  {
  }

  ghost predicate AllSane(db: Db, t: Time) { forall a :: a in db.users ==> Sane(db.users[a].lock, t) }

  lemma {:induction false} CountersStaySane(db: Db, t: Time, events: seq<Event>)
    requires AllSane(db, t) && Ordered(t, events)
    ensures AllSane(Run(db, events), if events == [] then t else events[|events| - 1].now)
    decreases |events|
  {
    if events != [] {
      forall a | a in Step(db, events[0]).users ensures Sane(Step(db, events[0]).users[a].lock, events[0].now) {
        if a in db.users {
          StepCounts(db, events[0], a);
        }
      }
      CountersStaySane(Step(db, events[0]), events[0].now, events[1..]);
    }
  }

  /** The attempt-rate bound on every server run, over all five endpoints. */
  lemma {:induction false} ServerAttemptRate(db: Db, t: Time, events: seq<Event>, account: Guid, n: nat)
    requires AllSane(db, t) && Ordered(t, events) && account in db.users
    requires NoneAccepted(db.users[account].lock, Attempts(db, events, account))
    requires n < |OpenFailures(db.users[account].lock, Attempts(db, events, account))|
    ensures var failures := OpenFailures(db.users[account].lock, Attempts(db, events, account));
            failures[n] - failures[0] >= n / 7 * LOCKOUT_DURATION
  {
    RunCounts(db, t, events, account);
    AttemptRate(db.users[account].lock, t, Attempts(db, events, account), n);
  }

  /** Whether this event gives something away or takes something over for the account. */
  predicate Releases(db: Db, e: Event, account: Guid) {
    Succeeds(db, e)
    && match e
       case DoLogin(cmd, _, _, _) => cmd.account == account
       case DoGetWraps(cmd, _) => cmd.account == account
       case DoChangePassword(cmd, _, _) => cmd.account == account
       case DoGetRecoveryWraps(a, _, _) => a == account
       case DoRecover(cmd, _, _) => cmd.account == account
       case _ => false
  }

  lemma {:induction false} StepUnderLock(db: Db, t: Time, e: Event, account: Guid)
    requires account in db.users && Sane(db.users[account].lock, t) && t <= e.now
    requires IsLockedOut(db.users[account].lock, e.now)
    ensures !Releases(db, e, account) && account in Step(db, e).users
    ensures var after := Step(db, e).users[account];
            && after.creds == db.users[account].creds && Sane(after.lock, e.now)
            && after.lock.lockedUntil.Some?
            && db.users[account].lock.lockedUntil.value <= after.lock.lockedUntil.value
  {
    StepCounts(db, e, account);
  }

  /** While an account is locked its lock never gets shorter, its credentials stay, and no guarded
      endpoint opens a session, releases its wraps or replaces its credentials. */
  lemma {:induction false} NothingReleasedUnderLock(db: Db, t: Time, events: seq<Event>, account: Guid, until: Time)
    requires account in db.users && Sane(db.users[account].lock, t) && Ordered(t, events)
    requires db.users[account].lock.lockedUntil.Some? && until <= db.users[account].lock.lockedUntil.value
    requires forall e :: e in events ==> e.now < until
    ensures forall i :: 0 <= i < |events| ==> !Releases(Run(db, events[..i]), events[i], account)
    ensures account in Run(db, events).users
    ensures var after := Run(db, events).users[account];
            after.creds == db.users[account].creds
            && after.lock.lockedUntil.Some? && until <= after.lock.lockedUntil.value
    decreases |events|
  {
    if events != [] {
      var e, next := events[0], Step(db, events[0]);
      assert e in events;
      StepUnderLock(db, t, e, account);
      NothingReleasedUnderLock(next, e.now, events[1..], account, until);
      forall i | 0 <= i < |events| ensures !Releases(Run(db, events[..i]), events[i], account) {
        if 0 < i {
          assert events[..i][1..] == events[1..][..i - 1];
          assert events[i] == events[1..][i - 1];
        }
      }
    }
  }

  // ---------------------------------------------------------------- stored shapes and refused recoveries

  ghost predicate Shaped(c: Credentials) {
    && Len(c.verifier) == 32 && Len(c.adminVerifier) == 32 && Len(c.rkVerifier) == 32
    && Len(c.sPwd) == 16 && IsValidWrap(c.mkWrapPwd) && IsValidWrap(c.mkWrapRk)
    && (c.kdfMode == KDF_DEFAULT || c.kdfMode == KDF_STRONG) && c.schemaVer == 1
  }

  ghost predicate AllShaped(db: Db) { forall a :: a in db.users ==> Shaped(db.users[a].creds) }

  lemma {:induction false} NewCredentialsShaped(m: CryptoSet, s: Salts)
    requires IsValidCryptoSet(m, true)
    ensures Shaped(NewCredentials(m, 1, s))
  {
  }

  lemma {:induction false} ChangedCredentialsShaped(c: Credentials, m: CryptoSet, s: Salts)
    requires Shaped(c) && IsValidCryptoSet(m, false)
    ensures Shaped(ChangedCredentials(c, m, 1, s))
  {
  }

  lemma {:induction false} RegisterKeepsShapes(db: Db, cmd: RegisterCommand, s: Salts)
    requires AllShaped(db)
    ensures AllShaped(Register(db, cmd, s).0)
  {
    if ValidateRegister(cmd).None? {
      NewCredentialsShaped(cmd.material, s);
    }
  }

  lemma {:induction false} ChangeKeepsShapes(db: Db, cmd: ChangePasswordCommand, s: Salts, now: Time)
    requires AllShaped(db)
    ensures AllShaped(ChangePassword(db, cmd, s, now).0)
  {
    if ValidateChangePassword(cmd).None? && cmd.account in db.users {
      ChangedCredentialsShaped(db.users[cmd.account].creds, cmd.material, s);
    }
  }

  lemma {:induction false} RecoverKeepsShapes(db: Db, cmd: RecoverCommand, s: Salts, now: Time)
    requires AllShaped(db)
    ensures AllShaped(Recover(db, cmd, s, now).0)
  {
    if ValidateRecover(cmd).None? {
      NewCredentialsShaped(cmd.material, s);
    }
  }

  lemma {:induction false} StepKeepsShapes(db: Db, e: Event)
    requires AllShaped(db)
    ensures AllShaped(Step(db, e))
  {
    match e
    case DoRegister(cmd, s, _) => RegisterKeepsShapes(db, cmd, s);
    case DoChangePassword(cmd, s, now) => ChangeKeepsShapes(db, cmd, s, now);
    case DoRecover(cmd, s, now) => RecoverKeepsShapes(db, cmd, s, now);
    case _ =>
  }

  lemma {:induction false} ShapesHold(db: Db, events: seq<Event>)
    requires AllShaped(db)
    ensures AllShaped(Run(db, events))
    decreases |events|
  {
    if events != [] {
      StepKeepsShapes(db, events[0]);
      ShapesHold(Step(db, events[0]), events[1..]);
    }
  }

  ghost predicate SameLengths(v: EncryptedValue, w: EncryptedValue) {
    Len(v.nonce) == Len(w.nonce) && Len(v.cipherText) == Len(w.cipherText) && Len(v.tag) == Len(w.tag)
  }

  /** A refused recovery proof is answered from the request alone: any two databases, at any two
      times, that refuse it reply alike, whether the account is missing, mismatched or locked. */
  lemma {:induction false} RefusedRecoveriesLookAlike(db: Db, other: Db, account: Guid, rkVerifier: Blob, now: Time,
          later: Time)
    requires !RecoveryAccepted(db, account, rkVerifier, now) && !RecoveryAccepted(other, account, rkVerifier, later)
    ensures GetRecoveryWraps(db, account, rkVerifier, now).1 == GetRecoveryWraps(other, account, rkVerifier, later).1
  {
  }

  /** In every run's state an accepted recovery proof gets wraps of the lengths a refused one gets. */
  lemma {:induction false} RealWrapsHaveFakeLengths(events: seq<Event>, account: Guid, rkVerifier: Blob, now: Time)
    requires RecoveryAccepted(Run(Db(map[], []), events), account, rkVerifier, now)
    ensures var shown := GetRecoveryWraps(Run(Db(map[], []), events), account, rkVerifier, now).1;
            var fake := GetRecoveryWraps(Db(map[], []), account, rkVerifier, now).1;
            SameLengths(shown.mkWrapPwd, fake.mkWrapPwd) && SameLengths(shown.mkWrapRk, fake.mkWrapRk)
            && shown.schemaVer == fake.schemaVer
  {
    ShapesHold(Db(map[], []), events);
  }

  // ---------------------------------------------------------------- reuse

  /** Presenting an unexpired token rotated at least five seconds ago ends every session of its
      account and touches no other account's rows. */
  lemma {:induction false} ReuseEndsTheAccountsSessions(db: Db, h: Digest, jti: seq<byte>, raw: seq<byte>, now: Time)
    requires Reused(db.rows, Some(h), now)
    ensures var row := db.rows[IndexOf(db.rows, h)];
            var after := RefreshToken(db, Some(h), jti, raw, now).0.rows;
            && Lineage.LiveCount(after, row.user) == 0
            && |after| == |db.rows|
            && (forall i :: 0 <= i < |after| && db.rows[i].user != row.user ==> after[i] == db.rows[i])
            && RefreshToken(db, Some(h), jti, raw, now).1 == Err(InvalidRefreshToken)
  {
    Lineage.CountRevokeAll(db.rows, db.rows[IndexOf(db.rows, h)].user, now, db.rows[IndexOf(db.rows, h)].user);
  }

  /** Presenting a revoked token leaves its account without an un-revoked row exactly when it had none
      before or the token is unexpired, was rotated, and was last touched at least five seconds ago. */
  lemma {:induction false} RevokedTokenEndsSessionsExactlyOnReuse(db: Db, h: Digest, jti: seq<byte>, raw: seq<byte>,
          now: Time)
    requires Known(db.rows, h) && !Live(db.rows[IndexOf(db.rows, h)])
    ensures var user := db.rows[IndexOf(db.rows, h)].user;
            var after := RefreshToken(db, Some(h), jti, raw, now).0.rows;
            Lineage.LiveCount(after, user) == 0 <==>
            Lineage.LiveCount(db.rows, user) == 0 || Reused(db.rows, Some(h), now)
  {
    if Reused(db.rows, Some(h), now) {
      ReuseEndsTheAccountsSessions(db, h, jti, raw, now);
    } else {
      UnreusedTokenKeepsTheCount(db, h, jti, raw, now, db.rows[IndexOf(db.rows, h)].user);
    }
  }

  lemma {:induction false} UnreusedTokenKeepsTheCount(db: Db, h: Digest, jti: seq<byte>, raw: seq<byte>, now: Time,
          user: Guid)
    requires Known(db.rows, h) && !Reused(db.rows, Some(h), now)
    ensures Lineage.LiveCount(RefreshToken(db, Some(h), jti, raw, now).0.rows, user) == Lineage.LiveCount(db.rows, user)
  {
    Lineage.RotationConserves(db.rows, h, Sha256(raw), JtiHash(jti), now, user);
  }

  /** A token ended by a logout or a revoke-all never triggers that response. */
  lemma {:induction false} EndedTokenChangesNoOtherRow(db: Db, h: Digest, jti: seq<byte>, raw: seq<byte>, now: Time)
    requires Known(db.rows, h)
    requires var row := db.rows[IndexOf(db.rows, h)]; row.reason == Some(Security) && row.revokedAt.Some?
    ensures var after := RefreshToken(db, Some(h), jti, raw, now).0.rows;
            && |after| == |db.rows|
            && (forall i :: 0 <= i < |after| && i != IndexOf(db.rows, h) ==> after[i] == db.rows[i])
            && RefreshToken(db, Some(h), jti, raw, now).1 == Err(InvalidRefreshToken)
  {
  }
}
