/** The client's flows from end to end: a proof the server accepts always leads to a completed flow. */
module KeyFlows {
  import opened Prelude
  import opened Crypto
  import opened UserEntity
  import opened LockoutPolicy
  import opened AuthCommands
  import opened AuthService
  import opened AuthRuns
  import opened CryptoWorker
  import opened KeyLadder

  predicate ValidMode(mode: int) { mode == KDF_DEFAULT || mode == KDF_STRONG }

  /** Stored wraps have the master key's length, so the master keys have it too. */
  lemma {:induction false} MasterKeyHasItsLength(w: World, account: Guid)
    requires AllSound(w) && AllShaped(w.db) && Coherent(w, account)
    ensures account in w.mk && Len(w.mk[account]) == 32
  {
    var c := w.db.users[account].creds;
    var base, rk :| Fits(w, account, c, base, rk);
    assert Sound(w, Kept(account, ByPassword(base, 1), c.mkWrapPwd));
    OpenInvertsSeal(Hkdf(base, ForKek), PwdWrap(1, account), c.mkWrapPwd, w.mk[account]);
  }

  // ---------------------------------------------------------------- password change

  function WrapsRequest(account: Guid, base: Blob): WrapsCommand { WrapsCommand(account, Hkdf(base, ForAdmin)) }

  /** An accepted proof clears the counter and the lock. */
  lemma {:induction false} AcceptedProofClears(db: Db, cmd: WrapsCommand, now: Time)
    requires GetWraps(db, cmd, now).1.Ok?
    ensures var after := GetWraps(db, cmd, now).0;
            && cmd.account in db.users && after.users == db.users[cmd.account := db.users[cmd.account].(lock := Clear)]
            && AdminMatches(after.users[cmd.account], cmd.adminVerifier)
            && ValidateWraps(cmd).None?
            && GetWraps(db, cmd, now).1.value == StoredWraps(db.users[cmd.account].creds)
  {
  }

  lemma {:induction false} RekeyedIsValid(mk: Blob, current: Blob, wrap: EncryptedValue, account: Guid,
          newPassword: string, newMode: int, d: Draws)
    requires OpenPwd(current, 1, account, wrap) == Some(mk) && Len(mk) == MK_LEN && ValidMode(newMode)
    ensures var m := Rekeyed(current, wrap, 1, account, newPassword, newMode, d);
            m.Some? && IsValidCryptoSet(m.value, false)
  {
    HonestPasswordPartIsValid(BaseKey(newPassword, Salt(d), newMode), newMode, 1, account, mk, d);
  }

  lemma {:induction false} ChangeAccepted(db: Db, cmd: ChangePasswordCommand, salts: Salts, now: Time)
    requires ValidateChangePassword(cmd).None? && cmd.account in db.users && db.users[cmd.account].lock == Clear
    requires AdminMatches(db.users[cmd.account], cmd.adminVerifier)
    ensures ChangePassword(db, cmd, salts, now).1.Ok?
  {
  }

  /** Once the server has answered the proof of the current password with the wraps, the worker opens
      them and the server accepts the change, whatever the two clock readings. */
  lemma {:induction false} RekeyGoesThrough(w: World, account: Guid, base: Blob, newPassword: string, newMode: int,
          d: Draws, salts: Salts, now: Time, later: Time)
    requires Inv(w) && Ours(w, account) && AllShaped(w.db) && ValidMode(newMode)
    requires GetWraps(w.db, WrapsRequest(account, base), now).1.Ok?
    ensures var (mid, reply) := GetWraps(w.db, WrapsRequest(account, base), now);
            var order := RekeyOrder(account, base, reply.value.mkWrapPwd, 1, newPassword, newMode, d);
            order.Some? && order.value.ToChange? && ChangePassword(mid, order.value.change, salts, later).1.Ok?
  {
    var (mid, reply) := GetWraps(w.db, WrapsRequest(account, base), now);
    AcceptedProofClears(w.db, WrapsRequest(account, base), now);
    AcceptedAdminProofUnlocks(w, account, base, now);
    assert Coherent(w, account);
    MasterKeyHasItsLength(w, account);
    RekeyedIsValid(w.mk[account], base, reply.value.mkWrapPwd, account, newPassword, newMode, d);
    var order := RekeyOrder(account, base, reply.value.mkWrapPwd, 1, newPassword, newMode, d);
    ChangeAccepted(mid, order.value.change, salts, later);
  }

  // ---------------------------------------------------------------- recovery

  function Proof(rk: Blob): Blob { Hkdf(rk, ForRkVerifier) }

  lemma {:induction false} RecoverAccepted(db: Db, cmd: RecoverCommand, salts: Salts, now: Time)
    requires ValidateRecover(cmd).None? && cmd.account in db.users && db.users[cmd.account].lock == Clear
    requires RkMatches(db.users[cmd.account], cmd.rkVerifier)
    ensures Recover(db, cmd, salts, now).1.Ok?
  {
  }

  lemma {:induction false} AcceptedRecoveryClears(db: Db, account: Guid, rkVerifier: Blob, now: Time)
    requires RecoveryAccepted(db, account, rkVerifier, now)
    ensures var after := GetRecoveryWraps(db, account, rkVerifier, now).0;
            account in after.users && after.users[account].lock == Clear && RkMatches(after.users[account], rkVerifier)
    ensures GetRecoveryWraps(db, account, rkVerifier, now).1 == StoredWraps(db.users[account].creds)
  {
  }

  lemma {:induction false} RecoveredIsValid(mk: Blob, rk: Blob, wrap: EncryptedValue, account: Guid,
          newPassword: string, newMode: int, d: Draws)
    requires OpenRk(rk, 1, account, wrap) == Some(mk) && Len(mk) == MK_LEN && ValidMode(newMode)
    ensures var order := RecoverOrder(account, rk, wrap, 1, newPassword, newMode, d);
            && order.Some? && order.value.ToRecover? && ValidateRecover(order.value.recover).None?
            && order.value.recover.account == account && order.value.recover.rkVerifier == Proof(rk)
  {
    HonestMaterialIsValid(newPassword, newMode, 1, account, mk, d);
  }

  lemma {:induction false} AcceptedProofRecovers(w: World, account: Guid, rk: Blob, newPassword: string, newMode: int,
          d: Draws, salts: Salts, now: Time, later: Time)
    requires Inv(w) && Ours(w, account) && AllShaped(w.db) && ValidMode(newMode)
    requires RecoveryAccepted(w.db, account, Proof(rk), now)
    ensures var (mid, shown) := GetRecoveryWraps(w.db, account, Proof(rk), now);
            var order := RecoverOrder(account, rk, shown.mkWrapRk, 1, newPassword, newMode, d);
            && shown.schemaVer == 1
            && order.Some? && order.value.ToRecover? && Recover(mid, order.value.recover, salts, later).1.Ok?
  {
    var (mid, shown) := GetRecoveryWraps(w.db, account, Proof(rk), now);
    assert Coherent(w, account);
    MasterKeyHasItsLength(w, account);
    AcceptedRecoveryClears(w.db, account, Proof(rk), now);
    MatchingProofOpens(w, account, rk);
    RecoveredIsValid(w.mk[account], rk, shown.mkWrapRk, account, newPassword, newMode, d);
    var order := RecoverOrder(account, rk, shown.mkWrapRk, 1, newPassword, newMode, d);
    RecoverAccepted(mid, order.value.recover, salts, later);
  }

  /** A client goes on from the recovery wraps exactly when its proof was accepted, and then the
      server accepts the recovery; a refused client stops at the made-up wrap. */
  lemma {:induction false} RecoveryGoesThrough(w: World, account: Guid, rk: Blob, newPassword: string, newMode: int,
          d: Draws, salts: Salts, now: Time, later: Time)
    requires Inv(w) && Ours(w, account) && AllShaped(w.db) && ValidMode(newMode)
    ensures var (mid, shown) := GetRecoveryWraps(w.db, account, Proof(rk), now);
            var order := RecoverOrder(account, rk, shown.mkWrapRk, shown.schemaVer, newPassword, newMode, d);
            && (order.Some? <==> RecoveryAccepted(w.db, account, Proof(rk), now))
            && (order.Some? ==> order.value.ToRecover? && Recover(mid, order.value.recover, salts, later).1.Ok?)
  {
    RecoveryWrapOpensExactlyWhenAccepted(w, account, rk, now);
    if RecoveryAccepted(w.db, account, Proof(rk), now) {
      AcceptedProofRecovers(w, account, rk, newPassword, newMode, d, salts, now, later);
    }
  }
}
