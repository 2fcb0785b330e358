/** What the browser's flows do to the worlds of honest runs, starting from what the device holds. */
module SessionWorlds {
  import opened Prelude
  import opened Crypto
  import opened UserEntity
  import opened AuthCommands
  import LockoutPolicy
  import TokenTable
  import opened KeyLadder
  import opened KeyFlows
  import opened HonestWorlds
  import opened RefreshTokenText
  import Auth = AuthService
  import AuthRuns
  import Lineage
  import W = CryptoWorker

  datatype Bundle = Bundle(account: Guid, sPwd: Blob, kdfMode: int, schemaVer: int,
                           mkWrapPwd: EncryptedValue, mkWrapRk: EncryptedValue)

  datatype LocalPasscode = LocalPasscode(sLocal: Blob, mkWrapLocal: EncryptedValue)

  /** What the device keeps are wraps that were stored at some time, current or not. */
  ghost predicate DeviceHolds(w: World, bundle: Option<Bundle>, passcodes: map<Guid, LocalPasscode>) {
    && (bundle.Some? ==> Obtainable(w, bundle.value.mkWrapPwd))
    && (forall a :: a in passcodes ==> Obtainable(w, passcodes[a].mkWrapLocal))
  }

  lemma {:induction false} DeviceGrows(w: World, v: World, bundle: Option<Bundle>, passcodes: map<Guid, LocalPasscode>)
    requires Grows(w, v) && DeviceHolds(w, bundle, passcodes)
    ensures DeviceHolds(v, bundle, passcodes)
  {
  }

  function BundleKey(b: Bundle, password: string): Blob { W.BaseKey(password, b.sPwd, b.kdfMode) }

  /** The password opens the bundle; nothing but the two decides that. */
  predicate Opens(b: Bundle, password: string) {
    W.OpenPwd(BundleKey(b, password), b.schemaVer, b.account, b.mkWrapPwd).Some?
  }

  /** What opens a bundle opens it in every later world, to the same master key. */
  lemma {:induction false} OpensForGood(w: World, v: World, b: Bundle, password: string)
    requires Reachable(w) && Reachable(v) && Grows(w, v) && Obtainable(w, b.mkWrapPwd) && Opens(b, password)
    ensures b.account in w.mk && b.account in v.mk
    ensures W.OpenPwd(BundleKey(b, password), b.schemaVer, b.account, b.mkWrapPwd)
            == Some(w.mk[b.account]) == Some(v.mk[b.account])
  {
    BundleUnlocks(w, b, password);
  }

  lemma {:induction false} BundleUnlocks(w: World, b: Bundle, password: string)
    requires Reachable(w) && Obtainable(w, b.mkWrapPwd)
    ensures var result := W.OpenPwd(BundleKey(b, password), b.schemaVer, b.account, b.mkWrapPwd);
            result.Some? ==> b.account in w.mk && result == Some(w.mk[b.account])
  {
    OpensToMasterKey(w, ByPassword(BundleKey(b, password), b.schemaVer), b.account, b.mkWrapPwd);
  }

  lemma {:induction false} PasscodeUnlocks(w: World, account: Guid, p: LocalPasscode, passcode: string)
    requires Reachable(w) && Obtainable(w, p.mkWrapLocal)
    ensures var result := W.OpenLocal(W.BaseKey(passcode, p.sLocal, W.KDF_PASSCODE), account, p.mkWrapLocal);
            result.Some? ==> account in w.mk && result == Some(w.mk[account])
  {
    OpensToMasterKey(w, ByPasscode(W.BaseKey(passcode, p.sLocal, W.KDF_PASSCODE)), account, p.mkWrapLocal);
  }

  function LoginKey(db: Auth.Db, account: Guid, password: string): Blob {
    var pre := Auth.PreLoginReply(db, account);
    W.BaseKey(password, pre.sPwd, pre.kdfMode)
  }

  function LoginCmd(db: Auth.Db, account: Guid, password: string): LoginCommand {
    LoginCommand(account, Hkdf(LoginKey(db, account, password), ForVerifier))
  }

  lemma {:induction false} LoginUnlocks(w: World, account: Guid, password: string, jti: seq<byte>, raw: seq<byte>,
          now: Time)
    requires Reachable(w) && Ours(w, account)
    requires Auth.Login(w.db, LoginCmd(w.db, account, password), jti, raw, now).1.Ok?
    ensures var reply := Auth.Login(w.db, LoginCmd(w.db, account, password), jti, raw, now).1.value;
            && account in w.mk && Obtainable(w, reply.mkWrapPwd)
            && W.OpenPwd(LoginKey(w.db, account, password), Auth.PreLoginReply(w.db, account).schemaVer, account,
                         reply.mkWrapPwd) == Some(w.mk[account])
  {
    ReachableIsSound(w);
    AcceptedLoginUnlocks(w, account, LoginKey(w.db, account, password), jti, raw, now);
    LoginReturnsStoredWrap(w.db, LoginCmd(w.db, account, password), jti, raw, now);
    assert Coherent(w, account);
    MatchingProofOpens(w, account, LoginKey(w.db, account, password));
  }

  /** What a client does with an accepted login always succeeds, and what it then keeps is a stored wrap. */
  lemma {:induction false} LoginFlow(w: World, account: Guid, password: string, jti: seq<byte>, raw: seq<byte>,
          now: Time, bundle: Option<Bundle>, passcodes: map<Guid, LocalPasscode>)
    returns (v: World)
    requires Reachable(w) && Ours(w, account) && DeviceHolds(w, bundle, passcodes)
    ensures v == w.(db := Auth.Login(w.db, LoginCmd(w.db, account, password), jti, raw, now).0)
    ensures Reachable(v) && Grows(w, v) && DeviceHolds(v, bundle, passcodes)
    ensures var reply := Auth.Login(w.db, LoginCmd(w.db, account, password), jti, raw, now).1;
            reply.Ok? ==>
              && account in w.mk && Obtainable(v, reply.value.mkWrapPwd)
              && W.OpenPwd(LoginKey(w.db, account, password), Auth.PreLoginReply(w.db, account).schemaVer, account,
                           reply.value.mkWrapPwd) == Some(w.mk[account])
  {
    ReachableCall(w, AuthRuns.DoLogin(LoginCmd(w.db, account, password), jti, raw, now));
    v := w.(db := Auth.Login(w.db, LoginCmd(w.db, account, password), jti, raw, now).0);
    DeviceGrows(w, v, bundle, passcodes);
    if Auth.Login(w.db, LoginCmd(w.db, account, password), jti, raw, now).1.Ok? {
      LoginUnlocks(w, account, password, jti, raw, now);
    }
  }

  /** The account is not locked: it never was, or the lock has ended. */
  predicate Unlocked(db: Auth.Db, account: Guid, now: Time)
    requires account in db.users
  {
    var until := db.users[account].lock.lockedUntil;
    until.None? || until.value <= now
  }

  /** The password, with the salt and mode the account tells, proves itself to an unlocked account, and the drawn
      refresh token is unused. */
  predicate SignsIn(db: Auth.Db, account: Guid, password: string, raw: seq<byte>, now: Time) {
    && account in db.users && Unlocked(db, account, now)
    && Auth.LoginMatches(db.users[account], Hkdf(LoginKey(db, account, password), ForVerifier))
    && !TokenTable.Known(db.rows, Sha256(raw))
  }

  /** The base key proves itself to an unlocked account. */
  predicate Proves(db: Auth.Db, account: Guid, base: Blob, now: Time) {
    && account in db.users && Unlocked(db, account, now)
    && Auth.AdminMatches(db.users[account], Hkdf(base, ForAdmin))
  }

  /** No account's credentials change. */
  ghost predicate SameCreds(db: Auth.Db, after: Auth.Db) {
    && db.users.Keys == after.users.Keys
    && forall a :: a in db.users ==> after.users[a].creds == db.users[a].creds
  }

  lemma {:induction false} LoginExactly(db: Auth.Db, account: Guid, password: string, jti: seq<byte>, raw: seq<byte>,
          now: Time)
    ensures Auth.Login(db, LoginCmd(db, account, password), jti, raw, now).1.Ok?
            <==> SignsIn(db, account, password, raw, now)
    ensures SameCreds(db, Auth.Login(db, LoginCmd(db, account, password), jti, raw, now).0)
    ensures !SignsIn(db, account, password, raw, now) ==>
              Auth.Login(db, LoginCmd(db, account, password), jti, raw, now).0.rows == db.rows
  {
  }

  lemma {:induction false} LoginReply(db: Auth.Db, account: Guid, password: string, jti: seq<byte>, raw: seq<byte>,
          now: Time)
    requires Auth.Login(db, LoginCmd(db, account, password), jti, raw, now).1.Ok?
    ensures var reply := Auth.Login(db, LoginCmd(db, account, password), jti, raw, now).1.value;
            && account in db.users && reply.refreshToken == TokenText(raw)
            && reply.mkWrapPwd == db.users[account].creds.mkWrapPwd
            && reply.mkWrapRk == db.users[account].creds.mkWrapRk
  {
  }

  /** A logout depends on the token rows alone. */
  lemma {:induction false} SameLogout(db: Auth.Db, other: Auth.Db, token: Option<Digest>, now: Time)
    requires db.rows == other.rows
    ensures AuthRuns.Step(db, AuthRuns.DoLogout(token, now)).rows
            == AuthRuns.Step(other, AuthRuns.DoLogout(token, now)).rows
  {
  }

  lemma {:induction false} RemembersAfter(w: World, account: Guid, password: string)
    requires account in w.db.users && account in w.mk
    requires W.OpenPwd(LoginKey(w.db, account, password), Auth.PreLoginReply(w.db, account).schemaVer, account,
                       w.db.users[account].creds.mkWrapPwd) == Some(w.mk[account])
    ensures var told, c := Auth.PreLoginReply(w.db, account), w.db.users[account].creds;
            Remembers(w, account, password,
                      Some(Bundle(account, told.sPwd, told.kdfMode, told.schemaVer, c.mkWrapPwd, c.mkWrapRk)))
  {
  }

  /** What a sign-in leaves on the device: the account's own salt, mode, schema and wraps, which the password
      opens. */
  ghost predicate Remembers(w: World, account: Guid, password: string, bundle: Option<Bundle>) {
    && account in w.db.users && account in w.mk
    && var c := w.db.users[account].creds;
    && bundle == Some(Bundle(account, c.sPwd, c.kdfMode, c.schemaVer, c.mkWrapPwd, c.mkWrapRk))
    && W.OpenPwd(BundleKey(bundle.value, password), c.schemaVer, account, c.mkWrapPwd) == Some(w.mk[account])
  }

  lemma {:induction false} WrapsExactly(db: Auth.Db, account: Guid, base: Blob, now: Time)
    ensures Auth.GetWraps(db, WrapsRequest(account, base), now).1.Ok? <==> Proves(db, account, base, now)
    ensures SameCreds(db, Auth.GetWraps(db, WrapsRequest(account, base), now).0)
    ensures Auth.GetWraps(db, WrapsRequest(account, base), now).0.rows == db.rows
  {
  }

  lemma {:induction false} RecoveryWrapsExactly(db: Auth.Db, account: Guid, rk: Blob, now: Time)
    ensures Auth.RecoveryAccepted(db, account, Proof(rk), now) <==>
            account in db.users && Unlocked(db, account, now) && Auth.RkMatches(db.users[account], Proof(rk))
    ensures SameCreds(db, Auth.GetRecoveryWraps(db, account, Proof(rk), now).0)
    ensures Auth.GetRecoveryWraps(db, account, Proof(rk), now).0.rows == db.rows
  {
  }

  /** The account's recovery side, and all of every other account, stay. */
  ghost predicate SameRecovery(users: map<Guid, Account>, after: map<Guid, Account>, account: Guid) {
    && account in users && users.Keys == after.Keys
    && var c, d := users[account].creds, after[account].creds;
    && d.rkVerifier == c.rkVerifier && d.sRk == c.sRk && d.mkWrapRk == c.mkWrapRk
    && forall a :: a in users && a != account ==> after[a] == users[a]
  }

  lemma {:induction false} RekeyKeepsRecovery(db: Auth.Db, account: Guid, base: Blob, m: CryptoSet, s: Auth.Salts,
          now: Time, later: Time)
    requires m.rkVerifier.None?
    requires var mid := Auth.GetWraps(db, WrapsRequest(account, base), now).0;
             Auth.ChangePassword(mid, RekeyCmd(account, base, m), s, later).1.Ok?
    ensures var mid := Auth.GetWraps(db, WrapsRequest(account, base), now).0;
            SameRecovery(db.users, Auth.ChangePassword(mid, RekeyCmd(account, base, m), s, later).0.users, account)
  {
  }

  /** The account's password side is made from the base key `base`. */
  predicate PasswordIs(users: map<Guid, Account>, account: Guid, base: Blob) {
    && account in users && base.Kdf?
    && var c := users[account].creds;
    && c.verifier == Stored(Hkdf(base, ForVerifier), c.sVerifier)
    && c.adminVerifier == Stored(Hkdf(base, ForAdmin), c.sAdminVerifier)
    && c.sPwd == base.salt && c.kdfMode == base.mode
  }

  /** Then no other base key's proofs match, and a client that knows the password derives this one. */
  lemma {:induction false} OnlyThatPasswordMatches(db: Auth.Db, account: Guid, base: Blob, other: Blob)
    requires PasswordIs(db.users, account, base)
    ensures Auth.LoginMatches(db.users[account], Hkdf(other, ForVerifier)) <==> other == base
    ensures Auth.AdminMatches(db.users[account], Hkdf(other, ForAdmin)) <==> other == base
    ensures base.secret.Phrase? ==> LoginKey(db, account, base.secret.text) == base
    ensures forall now :: Proves(db, account, other, now) <==> Unlocked(db, account, now) && other == base
  {
  }

  /** The account's password signs in, while the account is unlocked and the drawn token is unused, and no other
      does. */
  lemma {:induction false} SignsInExactlyWithThePassword(db: Auth.Db, account: Guid, base: Blob, password: string,
          raw: seq<byte>, now: Time)
    requires PasswordIs(db.users, account, base)
    ensures SignsIn(db, account, password, raw, now) <==>
            && base.secret == Phrase(password) && Unlocked(db, account, now)
            && !TokenTable.Known(db.rows, Sha256(raw))
  {
    OnlyThatPasswordMatches(db, account, base, LoginKey(db, account, password));
  }

  function RekeyCmd(account: Guid, base: Blob, m: CryptoSet): ChangePasswordCommand {
    ChangePasswordCommand(account, Hkdf(base, ForAdmin), m, 1)
  }

  /** The rest of a password change after the accepted proof of the account `signedIn`: the worker opens
      the returned wrap exactly when the bundle belongs to that account, and the server then accepts. */
  lemma {:induction false} RekeyFlow(w: World, signedIn: Guid, b: Bundle, base: Blob, newPassword: string, newMode: int,
          d: W.Draws, salts: Auth.Salts, now: Time, later: Time) returns (v: World)
    requires Reachable(w) && Ours(w, signedIn) && ValidMode(newMode)
    requires Auth.GetWraps(w.db, WrapsRequest(signedIn, base), now).1.Ok?
    ensures var (mid, reply) := Auth.GetWraps(w.db, WrapsRequest(signedIn, base), now);
            var m := W.Rekeyed(base, reply.value.mkWrapPwd, b.schemaVer, b.account, newPassword, newMode, d);
            && (m.Some? <==> b.account == signedIn && b.schemaVer == 1)
            && (m.None? ==> v.db == mid)
            && (m.Some? ==>
                  var cmd := RekeyCmd(signedIn, base, m.value);
                  && Auth.ChangePassword(mid, cmd, salts, later).1.Ok?
                  && v.db == Auth.ChangePassword(mid, cmd, salts, later).0
                  && PasswordIs(v.db.users, signedIn, W.BaseKey(newPassword, W.Salt(d), newMode))
                  && Lineage.LiveCount(v.db.rows, signedIn) == 0 && SameRecovery(w.db.users, v.db.users, signedIn))
    ensures Reachable(v) && Grows(w, v) && v.mk == w.mk
  {
    var (mid, reply) := Auth.GetWraps(w.db, WrapsRequest(signedIn, base), now);
    var wrap := reply.value.mkWrapPwd;
    ReachableIsSound(w);
    AcceptedAdminProofUnlocks(w, signedIn, base, now);
    WrapIsBound(base, 1, signedIn, b.schemaVer, b.account, wrap);
    ReachableWraps(w, WrapsRequest(signedIn, base), now);
    var w1 := w.(db := mid);
    v := w1;
    if b.account == signedIn && b.schemaVer == 1 {
      RekeyGoesThrough(w, signedIn, base, newPassword, newMode, d, salts, now, later);
      v := RekeyWorld(w1, signedIn, base, wrap, newPassword, newMode, d, salts, later);
      var m := W.Rekeyed(base, wrap, 1, signedIn, newPassword, newMode, d).value;
      RekeyKeepsRecovery(w.db, signedIn, base, m, salts, now, later);
    }
  }

  lemma {:induction false} WrapIsBound(base: Blob, schemaVer: int, account: Guid, otherVer: int, other: Guid,
          wrap: EncryptedValue)
    requires W.OpenPwd(base, schemaVer, account, wrap).Some?
    ensures W.OpenPwd(base, otherVer, other, wrap).Some? <==> otherVer == schemaVer && other == account
  {
  }

  /** Building a command and sending it. */
  lemma {:induction false} BuildThenSend(w: World, build: Move, order: Order, salts: Auth.Salts, now: Time)
    returns (v: World)
    requires Reachable(w) && Enabled(w, build) && Next(w, build) == w.(outbox := w.outbox + {order})
    ensures v == Sent(w.(outbox := w.outbox + {order}), order, salts, now)
    ensures Reachable(v) && Grows(w, v) && Ready(w, order)
  {
    var w1 := Next(w, build);
    ReachableNext(w, build);
    ReachableNext(w1, Send(order, salts, now));
    v := Next(w1, Send(order, salts, now));
    ReachableIsSound(w1);
    assert Ready(w1, order);
  }

  lemma {:induction false} ChangedToNewPassword(w: World, cmd: ChangePasswordCommand, base: Blob, salts: Auth.Salts,
          now: Time)
    requires Auth.ChangePassword(w.db, cmd, salts, now).1.Ok? && Ready(w, ToChange(cmd, base))
    ensures var after := Auth.ChangePassword(w.db, cmd, salts, now).0;
            PasswordIs(after.users, cmd.account, base) && Lineage.LiveCount(after.rows, cmd.account) == 0
  {
    ChangeEffect(w.db, cmd, salts, now);
    Lineage.CountRevokeAll(w.db.rows, cmd.account, now, cmd.account);
  }

  lemma {:induction false} RekeyWorld(w: World, account: Guid, base: Blob, wrap: EncryptedValue, newPassword: string,
          newMode: int, d: W.Draws, salts: Auth.Salts, now: Time) returns (v: World)
    requires Reachable(w) && Obtainable(w, wrap)
    requires W.Rekeyed(base, wrap, 1, account, newPassword, newMode, d).Some?
    requires var m := W.Rekeyed(base, wrap, 1, account, newPassword, newMode, d).value;
             Auth.ChangePassword(w.db, RekeyCmd(account, base, m), salts, now).1.Ok?
    ensures var m := W.Rekeyed(base, wrap, 1, account, newPassword, newMode, d).value;
            v.db == Auth.ChangePassword(w.db, RekeyCmd(account, base, m), salts, now).0
    ensures Reachable(v) && Grows(w, v) && v.mk == w.mk
    ensures PasswordIs(v.db.users, account, W.BaseKey(newPassword, W.Salt(d), newMode))
    ensures Lineage.LiveCount(v.db.rows, account) == 0
  {
    var order := RekeyOrder(account, base, wrap, 1, newPassword, newMode, d).value;
    v := BuildThenSend(w, BuildRekey(account, base, wrap, 1, newPassword, newMode, d), order, salts, now);
    ChangedToNewPassword(w, order.change, order.base, salts, now);
  }

  // ---------------------------------------------------------------- recovery

  /** And the recovery verifier is made from the recovery key `rk`. */
  predicate SecretsAre(users: map<Guid, Account>, account: Guid, base: Blob, rk: Blob) {
    PasswordIs(users, account, base) && users[account].creds.rkVerifier == Stored(Proof(rk), users[account].creds.sRk)
  }

  lemma {:induction false} OnlyThatRecoveryKeyMatches(db: Auth.Db, account: Guid, base: Blob, rk: Blob, other: Blob)
    requires SecretsAre(db.users, account, base, rk)
    ensures Auth.RkMatches(db.users[account], Proof(other)) <==> other == rk
  {
  }

  lemma {:induction false} RecoveredToNewSecrets(w: World, cmd: RecoverCommand, base: Blob, rk: Blob, salts: Auth.Salts,
          now: Time)
    requires Auth.Recover(w.db, cmd, salts, now).1.Ok? && Ready(w, ToRecover(cmd, base, rk))
    ensures var after := Auth.Recover(w.db, cmd, salts, now).0;
            SecretsAre(after.users, cmd.account, base, rk) && Lineage.LiveCount(after.rows, cmd.account) == 0
  {
    RecoverEffect(w.db, cmd, salts, now);
    Lineage.CountRevokeAll(w.db.rows, cmd.account, now, cmd.account);
  }

  lemma {:induction false} SentRecovery(w: World, order: Order, salts: Auth.Salts, now: Time)
    requires order.ToRecover?
    ensures Sent(w, order, salts, now).db == Auth.Recover(w.db, order.recover, salts, now).0
    ensures Sent(w, order, salts, now).mk == w.mk
  {
  }

  lemma {:induction false} RecoverWorld(w: World, account: Guid, rk: Blob, wrap: EncryptedValue, newPassword: string,
          newMode: int, d: W.Draws, salts: Auth.Salts, now: Time) returns (v: World)
    requires Reachable(w) && Obtainable(w, wrap)
    requires var r := W.Recovered(rk, wrap, 1, account, newPassword, newMode, d);
             r.Some? && Auth.Recover(w.db, r.value, salts, now).1.Ok?
    ensures v.db == Auth.Recover(w.db, W.Recovered(rk, wrap, 1, account, newPassword, newMode, d).value, salts, now).0
    ensures Reachable(v) && Grows(w, v) && v.mk == w.mk
    ensures SecretsAre(v.db.users, account, W.BaseKey(newPassword, W.Salt(d), newMode), W.NewRk(d))
    ensures Lineage.LiveCount(v.db.rows, account) == 0
  {
    var cmd := W.Recovered(rk, wrap, 1, account, newPassword, newMode, d).value;
    var order := ToRecover(cmd, W.BaseKey(newPassword, W.Salt(d), newMode), W.NewRk(d));
    v := BuildThenSend(w, BuildRecover(account, rk, wrap, 1, newPassword, newMode, d), order, salts, now);
    SentRecovery(w.(outbox := w.outbox + {order}), order, salts, now);
    RecoveredToNewSecrets(w, cmd, order.base, order.rk, salts, now);
  }

  /** A recovery from its proof on: the worker opens the shown wrap exactly when the server accepted
      the proof, and the server then accepts the new material. */
  lemma {:induction false} RecoverFlow(w: World, account: Guid, rk: Blob, newPassword: string, newMode: int, d: W.Draws,
          salts: Auth.Salts, now: Time, later: Time) returns (v: World)
    requires Reachable(w) && Ours(w, account) && ValidMode(newMode)
    ensures var (mid, shown) := Auth.GetRecoveryWraps(w.db, account, Proof(rk), now);
            var r := W.Recovered(rk, shown.mkWrapRk, shown.schemaVer, account, newPassword, newMode, d);
            && (r.Some? <==> Auth.RecoveryAccepted(w.db, account, Proof(rk), now))
            && (r.None? ==> v.db == mid)
            && (r.Some? ==>
                  && Auth.Recover(mid, r.value, salts, later).1.Ok?
                  && v.db == Auth.Recover(mid, r.value, salts, later).0
                  && SecretsAre(v.db.users, account, W.BaseKey(newPassword, W.Salt(d), newMode), W.NewRk(d))
                  && Lineage.LiveCount(v.db.rows, account) == 0)
    ensures Reachable(v) && Grows(w, v) && v.mk == w.mk
  {
    var (mid, shown) := Auth.GetRecoveryWraps(w.db, account, Proof(rk), now);
    ReachableIsSound(w);
    ReachableRecoveryWraps(w, account, Proof(rk), now);
    RecoveryGoesThrough(w, account, rk, newPassword, newMode, d, salts, now, later);
    RecoveryWrapOpensExactlyWhenAccepted(w, account, rk, now);
    v := w.(db := mid);
    if Auth.RecoveryAccepted(w.db, account, Proof(rk), now) {
      AcceptedProofRecovers(w, account, rk, newPassword, newMode, d, salts, now, later);
      v := RecoverWorld(v, account, rk, shown.mkWrapRk, newPassword, newMode, d, salts, later);
    }
  }

  // ---------------------------------------------------------------- registration

  /** With the counter clear and a fresh token, exactly the account's password logs in. */
  lemma {:induction false} LogsInExactlyWithThePassword(db: Auth.Db, account: Guid, base: Blob, password: string,
          jti: seq<byte>, raw: seq<byte>, now: Time)
    requires PasswordIs(db.users, account, base) && !LockoutPolicy.IsLockedOut(db.users[account].lock, now)
    requires !TokenTable.Known(db.rows, Sha256(raw))
    ensures Auth.Login(db, LoginCmd(db, account, password), jti, raw, now).1.Ok? <==> base.secret == Phrase(password)
  {
    OnlyThatPasswordMatches(db, account, base, LoginKey(db, account, password));
  }

  lemma {:induction false} RegisteredIsValid(account: Guid, password: string, mode: int, schemaVer: int, d: W.Draws)
    requires ValidMode(mode)
    ensures ValidateRegister(RegisterOrder(account, password, mode, schemaVer, d).register).None? <==> schemaVer == 1
  {
    W.HonestMaterialIsValid(password, mode, schemaVer, account, W.NewMk(d), d);
  }

  lemma {:induction false} SentRegistration(w: World, order: Order, salts: Auth.Salts, now: Time)
    requires order.ToRegister?
    ensures var (db, reply) := Auth.Register(w.db, order.register, salts);
            && Sent(w, order, salts, now).db == db && db.rows == w.db.rows
            && Sent(w, order, salts, now).mk == if reply.Ok? then w.mk[order.register.account := order.mk] else w.mk
  {
  }

  lemma {:induction false} RegisteredSecrets(w: World, cmd: RegisterCommand, mk: Blob, base: Blob, rk: Blob,
          salts: Auth.Salts)
    requires Auth.Register(w.db, cmd, salts).1.Ok? && Ready(w, ToRegister(cmd, mk, base, rk))
    ensures var users := Auth.Register(w.db, cmd, salts).0.users;
            SecretsAre(users, cmd.account, base, rk) && users[cmd.account].lock == LockoutPolicy.Clear
  {
    RegisterEffect(w.db, cmd, salts);
  }

  /** A registration is accepted exactly for a supported schema and a new account, and then the account
      has the drawn master key, the password and the recovery key. */
  lemma {:induction false} RegisterFlow(w: World, account: Guid, password: string, mode: int, schemaVer: int,
          d: W.Draws, salts: Auth.Salts, now: Time) returns (v: World)
    requires Reachable(w) && ValidMode(mode)
    ensures var cmd := RegisterOrder(account, password, mode, schemaVer, d).register;
            var (db, reply) := Auth.Register(w.db, cmd, salts);
            && v.db == db && v.db.rows == w.db.rows && (reply.Err? ==> db == w.db)
            && (reply.Ok? <==> schemaVer == 1 && account !in w.db.users)
            && (reply.Ok? ==>
                  && account in v.mk && v.mk[account] == W.NewMk(d)
                  && SecretsAre(v.db.users, account, W.BaseKey(password, W.Salt(d), mode), W.NewRk(d))
                  && v.db.users[account].lock == LockoutPolicy.Clear)
    ensures Reachable(v) && Grows(w, v)
  {
    var order := RegisterOrder(account, password, mode, schemaVer, d);
    RegisteredIsValid(account, password, mode, schemaVer, d);
    v := BuildThenSend(w, BuildRegister(account, password, mode, schemaVer, d), order, salts, now);
    SentRegistration(w.(outbox := w.outbox + {order}), order, salts, now);
    if schemaVer == 1 && account !in w.db.users {
      RegisteredSecrets(w, order.register, order.mk, order.base, order.rk, salts);
    }
  }

  lemma {:induction false} RegisteredLogin(w: World, account: Guid, password: string, salt: Blob, mode: int,
          jti: seq<byte>, raw: seq<byte>, now: Time)
    requires PasswordIs(w.db.users, account, W.BaseKey(password, salt, mode))
    requires w.db.users[account].lock == LockoutPolicy.Clear
    ensures Auth.Login(w.db, LoginCmd(w.db, account, password), jti, raw, now).1.Ok?
            <==> !TokenTable.Known(w.db.rows, Sha256(raw))
  {
    if !TokenTable.Known(w.db.rows, Sha256(raw)) {
      LogsInExactlyWithThePassword(w.db, account, W.BaseKey(password, salt, mode), password, jti, raw, now);
    }
  }

  // ---------------------------------------------------------------- passcode

  /** The wrap a passcode activation saves is one the world keeps, so it opens to the master key. */
  lemma {:induction false} ActivateWorld(w: World, account: Guid, base: Blob, wrap: EncryptedValue, schemaVer: int,
          passcode: string, d: W.Draws, value: EncryptedValue) returns (v: World)
    requires Reachable(w) && Obtainable(w, wrap) && W.OpenPwd(base, schemaVer, account, wrap).Some?
    requires W.OpenLocal(W.BaseKey(passcode, W.Salt(d), W.KDF_PASSCODE), account, value)
             == W.OpenPwd(base, schemaVer, account, wrap)
    requires value.nonce == Random(d.nonce, NONCE_LEN)
    ensures Reachable(v) && Grows(w, v) && v.db == w.db && v.mk == w.mk && Obtainable(v, value)
    ensures account in w.mk && W.OpenPwd(base, schemaVer, account, wrap) == Some(w.mk[account])
  {
    ReachableIsSound(w);
    ObtainedOpensToMk(w, ByPassword(base, schemaVer), account, wrap);
    ReachableNext(w, Activate(account, base, wrap, schemaVer, passcode, d));
    v := Next(w, Activate(account, base, wrap, schemaVer, passcode, d));
    var local := W.BaseKey(passcode, W.Salt(d), W.KDF_PASSCODE);
    assert PasscodeWrap(account, local, value.nonce, w.mk[account]) in v.kept;
    OpenInvertsSeal(Hkdf(local, ForPasscodeKek), LocalWrap(account), value, w.mk[account]);
  }

  /** A wraps request, accepted or not; an accepted one is answered with a stored wrap that opens. */
  lemma {:induction false} WrapsWorld(w: World, account: Guid, base: Blob, now: Time) returns (v: World)
    requires Reachable(w) && Ours(w, account)
    ensures v == w.(db := Auth.GetWraps(w.db, WrapsRequest(account, base), now).0)
    ensures Reachable(v) && Grows(w, v)
    ensures var reply := Auth.GetWraps(w.db, WrapsRequest(account, base), now).1;
            reply.Ok? ==>
              Obtainable(v, reply.value.mkWrapPwd) && W.OpenPwd(base, 1, account, reply.value.mkWrapPwd).Some?
  {
    ReachableIsSound(w);
    ReachableWraps(w, WrapsRequest(account, base), now);
    v := w.(db := Auth.GetWraps(w.db, WrapsRequest(account, base), now).0);
    if Auth.GetWraps(w.db, WrapsRequest(account, base), now).1.Ok? {
      AcceptedAdminProofUnlocks(w, account, base, now);
    }
  }

  /** A logout leaves an account without sessions without them. */
  lemma {:induction false} LogoutKeepsEnded(db: Auth.Db, token: Option<Digest>, now: Time, account: Guid)
    requires Lineage.LiveCount(db.rows, account) == 0
    ensures Lineage.LiveCount(AuthRuns.Step(db, AuthRuns.DoLogout(token, now)).rows, account) == 0
  {
    var e := AuthRuns.DoLogout(token, now);
    AuthRuns.StepActs(db, e);
    Lineage.CountAfter(db.rows, AuthRuns.ActionOf(db, e), account);
  }
}
