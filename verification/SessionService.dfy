/** The browser's session: each flow as a sequence of worker calls, requests and saved values. A
    ghost world follows along as the run of honest moves the flow makes. */
module SessionService {
  import opened Prelude
  import opened Crypto
  import opened UserEntity
  import opened AuthCommands
  import opened RefreshTokenText
  import opened KeyLadder
  import opened KeyFlows
  import opened HonestWorlds
  import opened SessionWorlds
  import Auth = AuthService
  import AuthRuns
  import Lineage
  import TokenTable
  import W = CryptoWorker

  class SessionService {
    const api: Auth.AuthService
    const worker: W.CryptoWorker
    var cookie: string
    var bundle: Option<Bundle>
    var savedAccountId: Option<Guid>
    var passcodes: map<Guid, LocalPasscode>
    var accountId: Option<Guid>
    var isUnlocked: bool

    constructor (api: Auth.AuthService, worker: W.CryptoWorker)
      ensures this.api == api && this.worker == worker && bundle.None? && passcodes == map[] && savedAccountId.None?
    {
      this.api, this.worker := api, worker;
      cookie, bundle, savedAccountId, passcodes, accountId, isUnlocked := "", None, None, map[], None, false;
    }

    ghost predicate Valid(w: World)
      reads this, api, api.refreshTokenStore
    {
      && w.db == api.Data() && Reachable(w) && DeviceHolds(w, bundle, passcodes)
      && (savedAccountId.Some? ==> savedAccountId.value in w.mk)
    }

    /** Drops the client's sign-in and ends the session behind the cookie. */
    method SignOut(now: Time, ghost w: World) returns (ghost v: World)
      requires Valid(w)
      modifies this`accountId, this`isUnlocked, api.refreshTokenStore
      ensures Valid(v) && Grows(w, v) && v.mk == w.mk && v.db.users == w.db.users
      ensures v.db.rows == AuthRuns.Step(w.db, AuthRuns.DoLogout(TryHashRefreshToken(cookie), now)).rows
      ensures forall a :: Lineage.LiveCount(w.db.rows, a) == 0 ==> Lineage.LiveCount(v.db.rows, a) == 0
      ensures accountId == None && !isUnlocked
    {
      accountId, isUnlocked := None, false;
      ghost var logout := AuthRuns.DoLogout(TryHashRefreshToken(cookie), now);
      forall a | Lineage.LiveCount(w.db.rows, a) == 0
        ensures Lineage.LiveCount(AuthRuns.Step(w.db, logout).rows, a) == 0
      {
        LogoutKeepsEnded(w.db, TryHashRefreshToken(cookie), now, a);
      }
      ReachableCall(w, logout);
      v := w.(db := AuthRuns.Step(w.db, logout));
      DeviceGrows(w, v, bundle, passcodes);
      api.LogoutAsync(cookie, now);
    }

    /** A sign-in succeeds exactly when the server accepts the login, and then the worker holds the
        account's vault key. */
    method Login(account: Guid, password: string, now: Time, jti: seq<byte>, raw: seq<byte>, ghost w: World)
      returns (ok: bool, ghost v: World)
      requires Valid(w) && Ours(w, account)
      modifies this, worker, api, api.refreshTokenStore
      ensures Valid(v) && Grows(w, v) && v.mk == w.mk
      ensures ok <==> SignsIn(w.db, account, password, raw, now)
      ensures ok ==> Remembers(w, account, password, bundle) && worker.vaultKey == Some(W.VaultKey(w.mk[account]))
      ensures ok ==> v.db == Auth.Login(w.db, LoginCmd(w.db, account, password), jti, raw, now).0
      ensures ok ==> cookie == TokenText(raw) && savedAccountId == Some(account)
      ensures !ok ==> bundle == old(bundle) && savedAccountId == old(savedAccountId)
      ensures !ok ==> v.db.rows == AuthRuns.Step(w.db, AuthRuns.DoLogout(TryHashRefreshToken(old(cookie)), now)).rows
      ensures isUnlocked == ok && accountId == if ok then Some(account) else None
      ensures passcodes == old(passcodes) && SameCreds(w.db, v.db)
    {
      hide Reachable, Auth.Login, AuthRuns.Step, W.OpenPwd, W.VaultKey, SignsIn, Remembers;
      LoginExactly(w.db, account, password, jti, raw, now);
      var preLogin := api.PreLoginAsync(account);
      var verifier := worker.HandleLogin(password, preLogin.sPwd, preLogin.kdfMode);
      var res := api.LoginAsync(LoginCommand(account, verifier), now, jti, raw);
      v := LoginFlow(w, account, password, jti, raw, now, bundle, passcodes);
      if res.Err? {
        SameLogout(w.db, v.db, TryHashRefreshToken(cookie), now);
        v := SignOut(now, v);
        return false, v;
      }
      LoginReply(w.db, account, password, jti, raw, now);
      RemembersAfter(w, account, password);
      cookie := res.value.refreshToken;
      ok := worker.HandleFinalizeLogin(res.value.mkWrapPwd, preLogin.schemaVer, account);
      // A wrap that does not open would sign the client out again; none can come.
      assert ok;
      bundle := Some(Bundle(account, preLogin.sPwd, preLogin.kdfMode, preLogin.schemaVer,
                            res.value.mkWrapPwd, res.value.mkWrapRk));
      savedAccountId := Some(account);
      accountId, isUnlocked := Some(account), true;
    }

    /** A registration goes through exactly for a supported schema and a new account; the sign-in that
        follows succeeds unless the drawn refresh token is in use. No result is the server's refusal. */
    method Register(account: Guid, password: string, kdfMode: int, schemaVer: int, d: W.Draws, salts: Auth.Salts,
            now: Time, jti: seq<byte>, raw: seq<byte>, ghost w: World)
      returns (r: Option<(Blob, bool)>, ghost v: World)
      requires Valid(w) && ValidMode(kdfMode)
      modifies this, worker, api, api.refreshTokenStore
      ensures Valid(v) && Grows(w, v)
      ensures r.Some? <==> schemaVer == 1 && account !in w.db.users
      ensures r.Some? ==>
                && account in v.mk && v.mk[account] == W.NewMk(d) && r.value.0 == W.NewRk(d)
                && SecretsAre(v.db.users, account, W.BaseKey(password, W.Salt(d), kdfMode), r.value.0)
                && (r.value.1 <==> !TokenTable.Known(w.db.rows, Sha256(raw)))
                && (r.value.1 ==> Remembers(v, account, password, bundle) && isUnlocked
                                  && worker.vaultKey == Some(W.VaultKey(v.mk[account])))
                && savedAccountId == Some(account)
      ensures r.None? ==> v.db == w.db && bundle == old(bundle) && savedAccountId == old(savedAccountId)
    {
      hide Reachable, Auth.Register, W.FullMaterial;
      var body, recoveryKey := worker.HandleRegister(account, password, kdfMode, schemaVer, d);
      v := RegisterFlow(w, account, password, kdfMode, schemaVer, d, salts, now);
      DeviceGrows(w, v, bundle, passcodes);
      var registered := api.RegisterAsync(body, salts);
      if registered.Err? {
        return None, v;
      }
      savedAccountId := Some(account);
      var loginSuccess;
      ghost var mid := v;
      RegisteredLogin(mid, account, password, W.Salt(d), kdfMode, jti, raw, now);
      loginSuccess, v := Login(account, password, now, jti, raw, mid);
      r := Some((recoveryKey, loginSuccess));
    }

    /** An unlock from the saved bundle, however outdated, gives the account's vault key or fails; without
        a bundle it is a sign-in of the saved account. */
    method Unlock(password: string, now: Time, jti: seq<byte>, raw: seq<byte>, ghost w: World)
      returns (ok: bool, ghost v: World)
      requires Valid(w)
      modifies this, worker, api, api.refreshTokenStore
      ensures Valid(v) && Grows(w, v) && v.mk == w.mk
      ensures old(bundle).Some? ==>
                var b := old(bundle).value;
                && v == w && bundle == Some(b) && (ok <==> Opens(b, password))
                && (ok ==> b.account in w.mk && worker.vaultKey == Some(W.VaultKey(w.mk[b.account])))
      ensures old(bundle).None? ==>
                (ok <==> old(savedAccountId).Some? && SignsIn(w.db, old(savedAccountId).value, password, raw, now))
      ensures old(bundle).None? && ok ==>
                var account := old(savedAccountId).value;
                && Remembers(w, account, password, bundle) && accountId == Some(account)
                && worker.vaultKey == Some(W.VaultKey(w.mk[account]))
      ensures !ok ==> bundle == old(bundle)
      ensures savedAccountId == old(savedAccountId) && passcodes == old(passcodes) && SameCreds(w.db, v.db)
      ensures ok ==> isUnlocked
    {
      v := w;
      if bundle.Some? {
        var b := bundle.value;
        BundleUnlocks(w, b, password);
        ok := worker.HandleUnlock(password, b.sPwd, b.kdfMode, b.mkWrapPwd, b.schemaVer, b.account);
        isUnlocked := isUnlocked || ok;
      } else if savedAccountId.None? {
        ok := false;
      } else {
        ok, v := Login(savedAccountId.value, password, now, jti, raw, w);
      }
    }

    /** Locking forgets the keys; what the device keeps stays. */
    method Lock()
      modifies this`isUnlocked, worker
      ensures worker.vaultKey == None && worker.pendingLoginBaseKey == None && !isUnlocked
    {
      worker.HandleClearKeys();
      isUnlocked := false;
    }

    /** Succeeds exactly when the passcode opens the saved wrap; a passcode that does not drops the key the
        worker held. */
    method UnlockViaPasscode(passcode: string, ghost w: World) returns (ok: bool)
      requires Valid(w)
      modifies this`isUnlocked, worker
      ensures Valid(w)
      ensures ok <==>
                && savedAccountId.Some? && savedAccountId.value in passcodes
                && var p := passcodes[savedAccountId.value];
                W.OpenLocal(W.BaseKey(passcode, p.sLocal, W.KDF_PASSCODE), savedAccountId.value, p.mkWrapLocal).Some?
      ensures ok ==> worker.vaultKey == Some(W.VaultKey(w.mk[savedAccountId.value])) && isUnlocked
      ensures !ok ==> isUnlocked == old(isUnlocked)
      ensures !ok ==> worker.vaultKey == if savedAccountId.Some? && savedAccountId.value in passcodes
                                         then None else old(worker.vaultKey)
    {
      if savedAccountId.None? || savedAccountId.value !in passcodes {
        return false;
      }
      var account, wrap := savedAccountId.value, passcodes[savedAccountId.value];
      PasscodeUnlocks(w, account, wrap, passcode);
      ok := worker.HandleUnlockViaPasscode(passcode, wrap.sLocal, wrap.mkWrapLocal, account);
      isUnlocked := isUnlocked || ok;
    }

    /** The proof of the current password, and the wraps the server answers it with. */
    method FetchWraps(b: Bundle, password: string, signedIn: Guid, now: Time, ghost w: World)
      returns (adminVerifier: Blob, wraps: Result<Auth.Wraps, Error>, ghost v: World)
      requires Valid(w) && Ours(w, signedIn)
      modifies api
      ensures Valid(v) && Grows(w, v) && v.mk == w.mk
      ensures adminVerifier == Hkdf(BundleKey(b, password), ForAdmin)
      ensures (v.db, wraps) == Auth.GetWraps(w.db, WrapsRequest(signedIn, BundleKey(b, password)), now)
      ensures wraps.Ok? <==> Proves(w.db, signedIn, BundleKey(b, password), now)
      ensures v.db.rows == w.db.rows && SameCreds(w.db, v.db)
      ensures wraps.Ok? ==> Obtainable(v, wraps.value.mkWrapPwd)
                            && W.OpenPwd(BundleKey(b, password), 1, signedIn, wraps.value.mkWrapPwd).Some?
    {
      WrapsExactly(w.db, signedIn, BundleKey(b, password), now);
      adminVerifier := worker.HandleDeriveAdminVerifier(password, b.sPwd, b.kdfMode);
      wraps := api.GetWrapsAsync(WrapsCommand(signedIn, adminVerifier), now);
      v := WrapsWorld(w, signedIn, BundleKey(b, password), now);
      DeviceGrows(w, v, bundle, passcodes);
    }

    /** The saved passcode wrap opens under the passcode to the master key the password opened. */
    method FinishPasscodeSetup(password: string, passcode: string, signedIn: Guid, now: Time, d: W.Draws,
            ghost w: World)
      returns (ok: bool, ghost v: World)
      requires Valid(w) && Ours(w, signedIn)
      modifies this`passcodes, worker, api
      ensures Valid(v) && Grows(w, v) && v.mk == w.mk && worker.vaultKey == old(worker.vaultKey)
      ensures ok <==>
                && bundle.Some? && bundle.value.account == signedIn && bundle.value.schemaVer == 1
                && Proves(w.db, signedIn, BundleKey(bundle.value, password), now)
      ensures ok ==> passcodes.Keys == old(passcodes).Keys + {signedIn}
      ensures forall a :: a in old(passcodes) && a != signedIn ==> a in passcodes && passcodes[a] == old(passcodes)[a]
      ensures v.db.rows == w.db.rows && SameCreds(w.db, v.db)
      ensures ok ==>
                && bundle.value.account in passcodes && bundle.value.account in w.mk
                && W.OpenLocal(W.BaseKey(passcode, passcodes[bundle.value.account].sLocal, W.KDF_PASSCODE),
                               bundle.value.account, passcodes[bundle.value.account].mkWrapLocal)
                   == Some(w.mk[bundle.value.account])
      ensures !ok ==> passcodes == old(passcodes)
    {
      hide Reachable, Auth.GetWraps, W.BaseKey, W.OpenLocal, Proves;
      v := w;
      if bundle.None? {
        return false, v;
      }
      var b := bundle.value;
      var _, wraps, mid := FetchWraps(b, password, signedIn, now, w);
      v := mid;
      if wraps.Err? {
        return false, v;
      }
      WrapIsBound(BundleKey(b, password), 1, signedIn, b.schemaVer, b.account, wraps.value.mkWrapPwd);
      var res := worker.HandleActivatePasscode(password, b.sPwd, b.kdfMode, passcode, b.account, wraps.value.mkWrapPwd,
                                               b.schemaVer, d);
      if res.None? {
        return false, v;
      }
      v := ActivateWorld(mid, b.account, BundleKey(b, password), wraps.value.mkWrapPwd, b.schemaVer, passcode, d,
                         res.value.0);
      DeviceGrows(mid, v, bundle, passcodes);
      passcodes := passcodes[b.account := LocalPasscode(res.value.1, res.value.0)];
      ok := true;
    }

    /** The timed clean-up after a password change. */
    method ForgetVault(account: Guid, now: Time, ghost w: World) returns (ghost v: World)
      requires Valid(w)
      modifies this`bundle, this`passcodes, this`accountId, this`isUnlocked, worker, api.refreshTokenStore
      ensures Valid(v) && Grows(w, v) && v.mk == w.mk && v.db.users == w.db.users
      ensures forall a :: Lineage.LiveCount(w.db.rows, a) == 0 ==> Lineage.LiveCount(v.db.rows, a) == 0
      ensures bundle == None && passcodes == old(passcodes) - {account} && worker.vaultKey == None && !isUnlocked
    {
      bundle := None;
      passcodes := passcodes - {account};
      worker.HandleClearKeys();
      v := SignOut(now, w);
    }

    /** A password change goes through exactly when the server accepts the current password for the
        account the bundle belongs to; afterwards only the new password matches and every session of
        the account has ended. */
    method UpdateMasterKey(oldPassword: string, newPassword: string, kdfMode: int, signedIn: Guid, now: Time,
            later: Time, d: W.Draws, salts: Auth.Salts, ghost w: World)
      returns (ok: bool, ghost v: World)
      requires Valid(w) && Ours(w, signedIn) && ValidMode(kdfMode)
      modifies this, worker, api, api.refreshTokenStore
      ensures Valid(v) && Grows(w, v) && v.mk == w.mk
      ensures ok <==>
                && old(bundle).Some? && old(bundle).value.account == signedIn && old(bundle).value.schemaVer == 1
                && Proves(w.db, signedIn, BundleKey(old(bundle).value, oldPassword), now)
      ensures ok ==>
                && PasswordIs(v.db.users, signedIn, W.BaseKey(newPassword, W.Salt(d), kdfMode))
                && Lineage.LiveCount(v.db.rows, signedIn) == 0
                && bundle == None && signedIn !in passcodes && worker.vaultKey == None && !isUnlocked
                && SameRecovery(w.db.users, v.db.users, signedIn)
      ensures !ok ==>
                && v.db.rows == w.db.rows && SameCreds(w.db, v.db) && bundle == old(bundle)
                && passcodes == old(passcodes) && isUnlocked == old(isUnlocked)
                && worker.vaultKey == old(worker.vaultKey)
    {
      hide Reachable, Auth.GetWraps, Auth.ChangePassword, W.Rekeyed, W.BaseKey;
      hide Proves, SameRecovery, PasswordIs;
      v := w;
      if bundle.None? {
        return false, v;
      }
      var b := bundle.value;
      ghost var base := BundleKey(b, oldPassword);
      var oldAdminVerifier, wraps, mid := FetchWraps(b, oldPassword, signedIn, now, w);
      v := mid;
      if wraps.Err? {
        return false, v;
      }
      v := RekeyFlow(w, signedIn, b, base, newPassword, kdfMode, d, salts, now, later);
      DeviceGrows(w, v, bundle, passcodes);
      var res := worker.HandleExecuteRekey(oldPassword, b.sPwd, b.kdfMode, newPassword, b.account,
                                           wraps.value.mkWrapPwd, b.schemaVer, kdfMode, d);
      if res.None? {
        return false, v;
      }
      var changed := api.ChangePasswordAsync(ChangePasswordCommand(signedIn, oldAdminVerifier, res.value, b.schemaVer),
                                             later, salts);
      // A refusal here would end the flow; none can come.
      assert changed.Ok?;
      v := ForgetVault(b.account, later, v);
      ok := true;
    }

    /** A recovery goes through exactly when the server accepts the recovery key; afterwards only the
        new password and the new recovery key match. */
    method Recover(account: Guid, recoveryKey: Blob, newPassword: string, newKdfMode: int, now: Time, later: Time,
            d: W.Draws, salts: Auth.Salts, ghost w: World)
      returns (newRecoveryKey: Option<Blob>, ghost v: World)
      requires Valid(w) && Ours(w, account) && ValidMode(newKdfMode)
      modifies this`savedAccountId, worker, api, api.refreshTokenStore
      ensures Valid(v) && Grows(w, v) && v.mk == w.mk
      ensures newRecoveryKey.Some? <==>
                && account in w.db.users && Unlocked(w.db, account, now)
                && Auth.RkMatches(w.db.users[account], Proof(recoveryKey))
      ensures newRecoveryKey.Some? ==>
                && SecretsAre(v.db.users, account, W.BaseKey(newPassword, W.Salt(d), newKdfMode), newRecoveryKey.value)
                && Lineage.LiveCount(v.db.rows, account) == 0 && savedAccountId == Some(account)
      ensures newRecoveryKey.None? ==>
                v.db.rows == w.db.rows && SameCreds(w.db, v.db) && savedAccountId == old(savedAccountId)
    {
      hide Reachable, Auth.GetRecoveryWraps, Auth.Recover, W.Recovered;
      RecoveryWrapsExactly(w.db, account, recoveryKey, now);
      var rkVerifier := worker.HandleDeriveRkVerifier(recoveryKey);
      var wraps := api.GetRecoveryWrapsAsync(account, rkVerifier, now);
      v := RecoverFlow(w, account, recoveryKey, newPassword, newKdfMode, d, salts, now, later);
      DeviceGrows(w, v, bundle, passcodes);
      var cmd, newRk := worker.HandleRecover(recoveryKey, newPassword, account, wraps.mkWrapRk, wraps.schemaVer,
                                             newKdfMode, d);
      if cmd.None? {
        return None, v;
      }
      var recovered := api.RecoverAsync(cmd.value, later, salts);
      // A refusal here would end the flow; none can come.
      assert recovered.Ok?;
      savedAccountId := Some(account);
      newRecoveryKey := Some(newRk);
    }
  }
}
