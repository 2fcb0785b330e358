/** Which secrets an account's endpoints accept, what they answer, and what they leave behind. */
module AccountSecrets {
  import opened Prelude
  import opened Crypto
  import opened UserEntity
  import opened AuthCommands
  import opened AuthService
  import opened SessionWorlds
  import opened KeyFlows
  import TokenTable
  import Lineage
  import AuthRuns
  import W = CryptoWorker

  // ---------------------------------------------------------------- accepted exactly for the account's secrets

  /** A sign-in with any base key's proof. */
  lemma {:induction false} LoginAcceptedExactly(db: Db, account: Guid, base: Blob, other: Blob, jti: seq<byte>,
          raw: seq<byte>, now: Time)
    requires PasswordIs(db.users, account, base)
    ensures var reply := Login(db, LoginCommand(account, Hkdf(other, ForVerifier)), jti, raw, now).1;
            var right := Unlocked(db, account, now) && other == base;
            && (reply.Ok? <==> right && !TokenTable.Known(db.rows, Sha256(raw)))
            && (right && TokenTable.Known(db.rows, Sha256(raw)) ==> reply == Err(SaveFailed))
            && (!right ==> reply == Err(InvalidCredentials))
  {
    OnlyThatPasswordMatches(db, account, base, other);
  }

  /** The wraps, with any base key's administrative proof: the account's own, or nothing. */
  lemma {:induction false} WrapsReleasedExactly(db: Db, account: Guid, base: Blob, other: Blob, now: Time)
    requires PasswordIs(db.users, account, base)
    ensures var (after, reply) := GetWraps(db, WrapsRequest(account, other), now);
            var u := db.users[account];
            && (reply.Ok? <==> Unlocked(db, account, now) && other == base)
            && (reply.Ok? ==> reply.value == Wraps(u.creds.mkWrapPwd, u.creds.mkWrapRk, base.mode, u.creds.schemaVer)
                              && after == db.(users := db.users[account := u.(lock := Lock(0, None, None))]))
            && (reply.Err? ==> reply.error == InvalidAdminVerifier)
  {
    OnlyThatPasswordMatches(db, account, base, other);
  }

  /** A password change with material of the right shape. */
  lemma {:induction false} ChangeAcceptedExactly(db: Db, account: Guid, base: Blob, other: Blob, m: CryptoSet, s: Salts,
          now: Time)
    requires PasswordIs(db.users, account, base) && IsValidCryptoSet(m, false)
    ensures var reply := ChangePassword(db, ChangePasswordCommand(account, Hkdf(other, ForAdmin), m, 1), s, now).1;
            && (reply.Ok? <==> Unlocked(db, account, now) && other == base)
            && (reply.Err? ==> reply.error == InvalidAdminVerifier)
  {
    OnlyThatPasswordMatches(db, account, base, other);
  }

  /** The recovery wraps: the account's own for its recovery key, made-up ones for any other. */
  lemma {:induction false} RecoveryWrapsShownExactly(db: Db, account: Guid, base: Blob, rk: Blob, other: Blob,
          now: Time)
    requires SecretsAre(db.users, account, base, rk)
    ensures var (after, shown) := GetRecoveryWraps(db, account, Proof(other), now);
            var u := db.users[account];
            if Unlocked(db, account, now) && other == rk then
              && shown == Wraps(u.creds.mkWrapPwd, u.creds.mkWrapRk, base.mode, u.creds.schemaVer)
              && after == db.(users := db.users[account := u.(lock := Lock(0, None, None))])
            else shown == FakeWraps(account, Proof(other))
  {
    OnlyThatRecoveryKeyMatches(db, account, base, rk, other);
  }

  /** A recovery with material of the right shape. */
  lemma {:induction false} RecoveryAcceptedExactly(db: Db, account: Guid, base: Blob, rk: Blob, other: Blob,
          m: CryptoSet, s: Salts, now: Time)
    requires SecretsAre(db.users, account, base, rk) && IsValidCryptoSet(m, true)
    ensures var reply := Recover(db, RecoverCommand(account, Proof(other), m, 1), s, now).1;
            && (reply.Ok? <==> Unlocked(db, account, now) && other == rk)
            && (reply.Err? ==> reply.error == InvalidRkVerifier)
  {
    OnlyThatRecoveryKeyMatches(db, account, base, rk, other);
  }

  // ---------------------------------------------------------------- what a wrong secret leaves

  /** One more failure on the account and nothing else: the seventh locks for 600 seconds. */
  predicate OneFailure(db: Db, after: Db, account: Guid, now: Time)
    requires account in db.users
  {
    var u := db.users[account];
    after == db.(users := db.users[account := u.(lock :=
      if u.lock.failedCount < 6 then Lock(u.lock.failedCount + 1, Some(now), u.lock.lockedUntil)
      else Lock(0, Some(now), Some(now + 6_000_000_000)))])
  }

  /** A wrong secret at any of the five endpoints counts once against the account. While the account is locked
      it counts at the two recovery endpoints, whatever the secret, and the other three leave no trace. */
  lemma {:induction false} WrongSecretCounts(db: Db, account: Guid, base: Blob, rk: Blob, other: Blob, m: CryptoSet,
          s: Salts, jti: seq<byte>, raw: seq<byte>, now: Time)
    requires SecretsAre(db.users, account, base, rk) && IsValidCryptoSet(m, true) && IsValidCryptoSet(m, false)
    ensures var open := Unlocked(db, account, now);
            var login := Login(db, LoginCommand(account, Hkdf(other, ForVerifier)), jti, raw, now).0;
            var wraps := GetWraps(db, WrapsRequest(account, other), now).0;
            var change := ChangePassword(db, ChangePasswordCommand(account, Hkdf(other, ForAdmin), m, 1), s, now).0;
            && (open && other != base ==>
                  OneFailure(db, login, account, now) && OneFailure(db, wraps, account, now)
                  && OneFailure(db, change, account, now))
            && (!open ==> login == wraps == change == db)
    ensures !Unlocked(db, account, now) || other != rk ==>
              && OneFailure(db, GetRecoveryWraps(db, account, Proof(other), now).0, account, now)
              && OneFailure(db, Recover(db, RecoverCommand(account, Proof(other), m, 1), s, now).0, account, now)
  {
    OnlyThatPasswordMatches(db, account, base, other);
    OnlyThatRecoveryKeyMatches(db, account, base, rk, other);
    assert db.users[account := db.users[account]] == db.users;
  }

  // ---------------------------------------------------------------- what an accepted change leaves

  /** From now on the account answers to exactly these proofs, tells exactly this salt and mode, and hands out
      exactly this wrap. */
  ghost predicate AnswersTo(db: Db, account: Guid, m: CryptoSet) {
    && account in db.users
    && (forall proof :: LoginMatches(db.users[account], proof) <==> proof == m.verifier)
    && (forall proof :: AdminMatches(db.users[account], proof) <==> proof == m.adminVerifier)
    && PreLoginReply(db, account) == PreLogin(m.sPwd, m.kdfMode, 1)
    && db.users[account].creds.mkWrapPwd == m.mkWrapPwd
  }

  ghost predicate RecoversWith(db: Db, account: Guid, proof: Blob, wrap: EncryptedValue) {
    && account in db.users && db.users[account].creds.mkWrapRk == wrap
    && forall p :: RkMatches(db.users[account], p) <==> p == proof
  }

  /** Everything else is as it was. */
  ghost predicate OthersStay(db: Db, after: Db, account: Guid) {
    after.users.Keys == db.users.Keys + {account}
    && forall a :: a in db.users && a != account ==> after.users[a] == db.users[a]
  }

  lemma {:induction false} RegistrationSets(db: Db, cmd: RegisterCommand, s: Salts)
    ensures var (after, reply) := Register(db, cmd, s);
            var m := cmd.material;
            && (reply.Ok? <==> cmd.schemaVer == 1 && IsValidCryptoSet(m, true) && cmd.account !in db.users)
            && (reply.Ok? ==>
                  && cmd.account !in db.users && reply.value == cmd.account
                  && AnswersTo(after, cmd.account, m) && m.rkVerifier.Some? && m.mkWrapRk.Some?
                  && RecoversWith(after, cmd.account, m.rkVerifier.value, m.mkWrapRk.value)
                  && after.users[cmd.account].lock == Lock(0, None, None)
                  && after.users[cmd.account].lastLoginAt == None
                  && OthersStay(db, after, cmd.account) && after.rows == db.rows)
            && (reply.Err? ==> after == db)
            && (cmd.schemaVer != 1 ==> reply == Err(UnsupportedCryptoSchema))
            && (cmd.schemaVer == 1 && !IsValidCryptoSet(m, true) ==> reply == Err(InvalidCryptoBlob))
            && (cmd.schemaVer == 1 && IsValidCryptoSet(m, true) && cmd.account in db.users ==>
                  reply == Err(AccountExists))
  {
  }

  /** A change without both recovery halves leaves the recovery side; either way it ends the account's sessions
      and clears its counter. */
  lemma {:induction false} ChangeSets(db: Db, cmd: ChangePasswordCommand, s: Salts, now: Time)
    requires ChangePassword(db, cmd, s, now).1.Ok?
    ensures var after, m := ChangePassword(db, cmd, s, now).0, cmd.material;
            && cmd.account in db.users && AnswersTo(after, cmd.account, m) && OthersStay(db, after, cmd.account)
            && after.users[cmd.account].lock == Lock(0, None, None)
            && after.users[cmd.account].lastLoginAt == db.users[cmd.account].lastLoginAt
            && (if m.rkVerifier.Some? && m.mkWrapRk.Some?
                then RecoversWith(after, cmd.account, m.rkVerifier.value, m.mkWrapRk.value)
                else
                  && after.users[cmd.account].creds.mkWrapRk == db.users[cmd.account].creds.mkWrapRk
                  && forall p :: RkMatches(after.users[cmd.account], p) <==> RkMatches(db.users[cmd.account], p))
            && EndsSessions(db, after, cmd.account, now)
  {
    SessionsEnd(db.rows, cmd.account, now);
  }

  /** A recovery replaces both sides. */
  lemma {:induction false} RecoverySets(db: Db, cmd: RecoverCommand, s: Salts, now: Time)
    requires Recover(db, cmd, s, now).1.Ok?
    ensures var after, m := Recover(db, cmd, s, now).0, cmd.material;
            && cmd.account in db.users && AnswersTo(after, cmd.account, m) && OthersStay(db, after, cmd.account)
            && after.users[cmd.account].lock == Lock(0, None, None)
            && after.users[cmd.account].lastLoginAt == db.users[cmd.account].lastLoginAt
            && m.rkVerifier.Some? && m.mkWrapRk.Some?
            && RecoversWith(after, cmd.account, m.rkVerifier.value, m.mkWrapRk.value)
            && EndsSessions(db, after, cmd.account, now)
  {
    SessionsEnd(db.rows, cmd.account, now);
  }

  /** The account's live rows are dated and marked Security, all other rows stay. */
  ghost predicate EndsSessions(db: Db, after: Db, account: Guid, now: Time) {
    && |after.rows| == |db.rows|
    && forall i :: 0 <= i < |db.rows| ==>
         after.rows[i] == if db.rows[i].user == account && db.rows[i].revokedAt == None
                          then db.rows[i].(revokedAt := Some(now), reason := Some(TokenTable.Security)) else db.rows[i]
  }

  lemma {:induction false} SessionsEnd(rows: seq<TokenTable.Row>, account: Guid, now: Time)
    ensures EndsSessions(Db(map[], rows), Db(map[], TokenTable.Apply(rows, TokenTable.RevokeAll(account, now))),
                         account, now)
  {
  }

  // ---------------------------------------------------------------- accounts that do not exist

  /** An unknown account is told a salt of its own, of the usual length, and the default mode, the same at any
      time; its sign-ins are refused in the words of a wrong password, and nothing is stored. */
  lemma {:induction false} UnknownLooksKnown(db: Db, later: Db, account: Guid, other: Guid, verifier: Blob,
          jti: seq<byte>, raw: seq<byte>, now: Time)
    requires account !in db.users && account !in later.users
    ensures var told := PreLoginReply(db, account);
            && Len(told.sPwd) == 16 && told.kdfMode == 1 && told.schemaVer == 1
            && told == PreLoginReply(later, account)
            && (other !in db.users && other != account ==> PreLoginReply(db, other).sPwd != told.sPwd)
    ensures Login(db, LoginCommand(account, verifier), jti, raw, now) == (db, Err(InvalidCredentials))
  {
  }

  /** At the other guarded endpoints an unknown account is said to be unknown, but for the recovery wraps,
      which it gets like a wrong proof does; nothing is stored. */
  lemma {:induction false} UnknownIsRefused(db: Db, account: Guid, secret: Blob, m: CryptoSet, s: Salts, now: Time)
    requires account !in db.users && IsValidCryptoSet(m, true) && IsValidCryptoSet(m, false)
    ensures GetWraps(db, WrapsRequest(account, secret), now) == (db, Err(AccountNotFound))
    ensures ChangePassword(db, ChangePasswordCommand(account, Hkdf(secret, ForAdmin), m, 1), s, now)
            == (db, Err(AccountNotFound))
    ensures GetRecoveryWraps(db, account, Proof(secret), now) == (db, FakeWraps(account, Proof(secret)))
    ensures Recover(db, RecoverCommand(account, Proof(secret), m, 1), s, now) == (db, Err(AccountNotFound))
  {
  }

  /** Made-up wraps have the shape of real ones, no part of one half is a part of the other, they differ from
      proof to proof and from account to account, and nothing opens them. */
  lemma {:induction false} MadeUpWraps(account: Guid, proof: Blob, other: Guid, otherProof: Blob, key: Blob, aad: Aad)
    ensures var w := FakeWraps(account, proof);
            && (forall v :: v == w.mkWrapPwd || v == w.mkWrapRk ==>
                  Len(v.nonce) == 12 && Len(v.cipherText) == 32 && Len(v.tag) == 16 && Open(key, aad, v).None?)
            && w.mkWrapPwd.nonce != w.mkWrapRk.nonce && w.mkWrapPwd.cipherText != w.mkWrapRk.cipherText
            && w.mkWrapPwd.tag != w.mkWrapRk.tag
            && w.kdfMode == 1 && w.schemaVer == 1
    ensures var w, v := FakeWraps(account, proof), FakeWraps(other, otherProof);
            account != other || proof != otherProof ==>
              w.mkWrapPwd.cipherText != v.mkWrapPwd.cipherText && w.mkWrapRk.cipherText != v.mkWrapRk.cipherText
  {
  }

  // ---------------------------------------------------------------- malformed commands

  /** A proof of the wrong length or material of the wrong shape is refused before the account is looked at. */
  lemma {:induction false} MalformedIsRefused(db: Db, account: Guid, proof: Blob, m: CryptoSet, schemaVer: int,
          s: Salts, jti: seq<byte>, raw: seq<byte>, now: Time)
    ensures Len(proof) != 32 ==>
              Login(db, LoginCommand(account, proof), jti, raw, now) == (db, Err(InvalidCredentials))
    ensures Len(proof) != 32 ==> GetWraps(db, WrapsCommand(account, proof), now) == (db, Err(InvalidCryptoBlob))
    ensures var bad := Len(proof) != 32 || !IsValidCryptoSet(m, false);
            schemaVer != 1 || bad ==>
              ChangePassword(db, ChangePasswordCommand(account, proof, m, schemaVer), s, now)
              == (db, Err(if schemaVer != 1 then UnsupportedCryptoSchema else InvalidCryptoBlob))
    ensures var bad := Len(proof) != 32 || !IsValidCryptoSet(m, true);
            schemaVer != 1 || bad ==>
              Recover(db, RecoverCommand(account, proof, m, schemaVer), s, now)
              == (db, Err(if schemaVer != 1 then UnsupportedCryptoSchema else InvalidCryptoBlob))
  {
  }

  /** What the shape check lets through, in numbers. */
  lemma {:induction false} ShapesInNumbers(m: CryptoSet, rkRequired: bool)
    ensures IsValidCryptoSet(m, rkRequired) <==>
            && Len(m.verifier) == 32 && Len(m.adminVerifier) == 32 && Len(m.sPwd) == 16 && 1 <= m.kdfMode <= 2
            && Len(m.mkWrapPwd.nonce) == 12 && Len(m.mkWrapPwd.cipherText) == 32 && Len(m.mkWrapPwd.tag) == 16
            && (m.rkVerifier.Some? ==> Len(m.rkVerifier.value) == 32)
            && (m.mkWrapRk.Some? ==>
                  var v := m.mkWrapRk.value; Len(v.nonce) == 12 && Len(v.cipherText) == 32 && Len(v.tag) == 16)
            && (rkRequired ==> m.rkVerifier.Some? && m.mkWrapRk.Some?)
  {
  }
}
