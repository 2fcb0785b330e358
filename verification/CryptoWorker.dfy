/** The crypto worker: its two held keys and its message handlers. Randomness comes in as the
    identities of the generator's outputs. */
module CryptoWorker {
  import opened Prelude
  import opened Crypto
  import opened AuthCommands

  const KDF_PASSCODE: int := 3

  function BaseKey(secret: string, salt: Blob, mode: int): Blob { Kdf(Phrase(secret), salt, mode) }

  function VaultKey(mk: Blob): Blob { Hkdf(mk, ForVault) }

  function WrapPwd(base: Blob, schemaVer: int, account: Guid, nonce: Blob, mk: Blob): EncryptedValue {
    Seal(Hkdf(base, ForKek), nonce, PwdWrap(schemaVer, account), mk)
  }

  function WrapRk(rk: Blob, schemaVer: int, account: Guid, nonce: Blob, mk: Blob): EncryptedValue {
    Seal(Hkdf(rk, ForRkKek), nonce, RkWrap(schemaVer, account), mk)
  }

  function OpenPwd(base: Blob, schemaVer: int, account: Guid, v: EncryptedValue): Option<Blob> {
    Open(Hkdf(base, ForKek), PwdWrap(schemaVer, account), v)
  }

  function OpenRk(rk: Blob, schemaVer: int, account: Guid, v: EncryptedValue): Option<Blob> {
    Open(Hkdf(rk, ForRkKek), RkWrap(schemaVer, account), v)
  }

  function OpenLocal(base: Blob, account: Guid, v: EncryptedValue): Option<Blob> {
    Open(Hkdf(base, ForPasscodeKek), LocalWrap(account), v)
  }

  /** Identities of the random draws of one handler call. */
  datatype Draws = Draws(salt: nat, mk: nat, rk: nat, nonce: nat, nonceRk: nat)

  function Salt(d: Draws): Blob { Random(d.salt, SALT_LEN) }
  function NewMk(d: Draws): Blob { Random(d.mk, MK_LEN) }
  function NewRk(d: Draws): Blob { Random(d.rk, 32) }

  function PasswordPart(base: Blob, salt: Blob, mode: int, wrap: EncryptedValue): CryptoSet {
    CryptoSet(Hkdf(base, ForVerifier), Hkdf(base, ForAdmin), None, salt, mode, wrap, None)
  }

  function WithRecovery(m: CryptoSet, rk: Blob, wrap: EncryptedValue): CryptoSet {
    m.(rkVerifier := Some(Hkdf(rk, ForRkVerifier)), mkWrapRk := Some(wrap))
  }

  /** All of an account's material around one master key. */
  function FullMaterial(password: string, mode: int, schemaVer: int, account: Guid, mk: Blob, d: Draws): CryptoSet {
    var base := BaseKey(password, Salt(d), mode);
    WithRecovery(
      PasswordPart(base, Salt(d), mode, WrapPwd(base, schemaVer, account, Random(d.nonce, NONCE_LEN), mk)),
      NewRk(d), WrapRk(NewRk(d), schemaVer, account, Random(d.nonceRk, NONCE_LEN), mk))
  }

  class CryptoWorker {
    var vaultKey: Option<Blob>
    var pendingLoginBaseKey: Option<Blob>

    constructor ()
      ensures vaultKey == None && pendingLoginBaseKey == None
    {
      vaultKey := None;
      pendingLoginBaseKey := None;
    }

    method HandleRegister(account: Guid, password: string, kdfMode: int, schemaVer: int, d: Draws)
      returns (body: RegisterCommand, recoveryKey: Blob)
      ensures body == RegisterCommand(account, FullMaterial(password, kdfMode, schemaVer, account, NewMk(d), d),
                                      schemaVer)
      ensures recoveryKey == NewRk(d)
    {
      var sPwd := Random(d.salt, SALT_LEN);
      var aad := PwdWrap(schemaVer, account);
      var aadRk := RkWrap(schemaVer, account);
      var hkdfBaseKey := BaseKey(password, sPwd, kdfMode);
      var verifier := Hkdf(hkdfBaseKey, ForVerifier);
      var adminVerifier := Hkdf(hkdfBaseKey, ForAdmin);
      var kekKey := Hkdf(hkdfBaseKey, ForKek);
      var mk := Random(d.mk, MK_LEN);
      var wrapMk := Seal(kekKey, Random(d.nonce, NONCE_LEN), aad, mk);
      recoveryKey := Random(d.rk, 32);
      var vrfRk := Hkdf(recoveryKey, ForRkVerifier);
      var kekRk := Hkdf(recoveryKey, ForRkKek);
      var wrapRk := Seal(kekRk, Random(d.nonceRk, NONCE_LEN), aadRk, mk);
      body := RegisterCommand(account,
                              CryptoSet(verifier, adminVerifier, Some(vrfRk), sPwd, kdfMode, wrapMk, Some(wrapRk)),
                              schemaVer);
    }

    method HandleLogin(password: string, salt: Blob, kdfMode: int) returns (verifier: Blob)
      modifies this`pendingLoginBaseKey
      ensures pendingLoginBaseKey == Some(BaseKey(password, salt, kdfMode))
      ensures verifier == Hkdf(BaseKey(password, salt, kdfMode), ForVerifier)
    {
      pendingLoginBaseKey := None;
      var hkdfBaseKey := BaseKey(password, salt, kdfMode);
      pendingLoginBaseKey := Some(hkdfBaseKey);
      verifier := Hkdf(hkdfBaseKey, ForVerifier);
    }

    /** Without a pending key the held vault key stays; with one, a failure drops both. */
    method HandleFinalizeLogin(wrap: EncryptedValue, schemaVer: int, account: Guid) returns (ok: bool)
      modifies this
      ensures old(pendingLoginBaseKey).None? ==> !ok && vaultKey == old(vaultKey)
      ensures pendingLoginBaseKey == None
      ensures old(pendingLoginBaseKey).Some? ==>
                var mk := OpenPwd(old(pendingLoginBaseKey).value, schemaVer, account, wrap);
                ok == mk.Some? && vaultKey == if mk.Some? then Some(VaultKey(mk.value)) else None
    {
      if pendingLoginBaseKey.None? {
        return false;
      }
      vaultKey := None;
      var aad := PwdWrap(schemaVer, account);
      var kekKey := Hkdf(pendingLoginBaseKey.value, ForKek);
      var mk := Open(kekKey, aad, wrap);
      if mk.Some? {
        vaultKey := Some(Hkdf(mk.value, ForVault));
      }
      pendingLoginBaseKey := None;
      ok := mk.Some?;
    }

    method HandleUnlock(password: string, salt: Blob, kdfMode: int, wrap: EncryptedValue, schemaVer: int, account: Guid)
      returns (ok: bool)
      modifies this
      ensures var mk := OpenPwd(BaseKey(password, salt, kdfMode), schemaVer, account, wrap);
              ok == mk.Some? && vaultKey == if mk.Some? then Some(VaultKey(mk.value)) else None
    {
      var _ := HandleLogin(password, salt, kdfMode);
      ok := HandleFinalizeLogin(wrap, schemaVer, account);
    }

    method HandleClearKeys()
      modifies this
      ensures vaultKey == None && pendingLoginBaseKey == None
    {
      vaultKey := None;
      pendingLoginBaseKey := None;
    }

    method HandleDeriveAdminVerifier(password: string, salt: Blob, kdfMode: int) returns (adminVerifier: Blob)
      ensures adminVerifier == Hkdf(BaseKey(password, salt, kdfMode), ForAdmin)
      ensures forall base, serverSalt :: Stored(adminVerifier, serverSalt) == Stored(Hkdf(base, ForAdmin), serverSalt)
                <==> base == BaseKey(password, salt, kdfMode)
    {
      adminVerifier := Hkdf(BaseKey(password, salt, kdfMode), ForAdmin);
    }

    method HandleActivatePasscode(password: string, masterSalt: Blob, masterKdfMode: int, passcode: string,
            account: Guid, mkWrapPwd: EncryptedValue, schemaVer: int, d: Draws)
      returns (r: Option<(EncryptedValue, Blob)>)
      ensures var mk := OpenPwd(BaseKey(password, masterSalt, masterKdfMode), schemaVer, account, mkWrapPwd);
              && (r.Some? <==> mk.Some?)
              && (r.Some? ==> r.value.1 == Salt(d)
                              && OpenLocal(BaseKey(passcode, Salt(d), KDF_PASSCODE), account, r.value.0) == mk
                              && r.value.0.nonce == Random(d.nonce, NONCE_LEN))
    {
      var localSalt := Random(d.salt, SALT_LEN);
      var aadLocal := LocalWrap(account);
      var aadMaster := PwdWrap(schemaVer, account);
      var kekLocal := Hkdf(BaseKey(passcode, localSalt, KDF_PASSCODE), ForPasscodeKek);
      var kekMaster := Hkdf(BaseKey(password, masterSalt, masterKdfMode), ForKek);
      var mkRaw := Open(kekMaster, aadMaster, mkWrapPwd);
      if mkRaw.None? {
        return None;
      }
      r := Some((Seal(kekLocal, Random(d.nonce, NONCE_LEN), aadLocal, mkRaw.value), localSalt));
    }

    method HandleUnlockViaPasscode(passcode: string, salt: Blob, mkWrapLocal: EncryptedValue, account: Guid)
      returns (ok: bool)
      modifies this`vaultKey
      ensures var mk := OpenLocal(BaseKey(passcode, salt, KDF_PASSCODE), account, mkWrapLocal);
              ok == mk.Some? && vaultKey == if mk.Some? then Some(VaultKey(mk.value)) else None
    {
      vaultKey := None;
      var kekKey := Hkdf(BaseKey(passcode, salt, KDF_PASSCODE), ForPasscodeKek);
      var mk := Open(kekKey, LocalWrap(account), mkWrapLocal);
      if mk.Some? {
        vaultKey := Some(Hkdf(mk.value, ForVault));
      }
      ok := mk.Some?;
    }

    /** The new material seals what the current wrap opens to. */
    method HandleExecuteRekey(currentPassword: string, currentSalt: Blob, currentKdfMode: int, newPassword: string,
            account: Guid, currentMkWrapPwd: EncryptedValue, schemaVer: int, newKdfMode: int, d: Draws)
      returns (r: Option<CryptoSet>)
      ensures r == Rekeyed(BaseKey(currentPassword, currentSalt, currentKdfMode), currentMkWrapPwd, schemaVer, account,
                           newPassword, newKdfMode, d)
    {
      var aad := PwdWrap(schemaVer, account);
      var newSalt := Random(d.salt, SALT_LEN);
      var kekCurrent := Hkdf(BaseKey(currentPassword, currentSalt, currentKdfMode), ForKek);
      var hkdfNew := BaseKey(newPassword, newSalt, newKdfMode);
      var verifier := Hkdf(hkdfNew, ForVerifier);
      var adminVerifier := Hkdf(hkdfNew, ForAdmin);
      var kekNew := Hkdf(hkdfNew, ForKek);
      var mkRaw := Open(kekCurrent, aad, currentMkWrapPwd);
      if mkRaw.None? {
        return None;
      }
      var wrap := Seal(kekNew, Random(d.nonce, NONCE_LEN), aad, mkRaw.value);
      r := Some(CryptoSet(verifier, adminVerifier, None, newSalt, newKdfMode, wrap, None));
    }

    /** Recovery re-wraps the same key under a new password and a new recovery key. */
    method HandleRecover(recoveryKey: Blob, newPassword: string, account: Guid, mkWrapRk: EncryptedValue,
            schemaVer: int, newKdfMode: int, d: Draws)
      returns (r: Option<RecoverCommand>, newRecoveryKey: Blob)
      ensures r == Recovered(recoveryKey, mkWrapRk, schemaVer, account, newPassword, newKdfMode, d)
      ensures newRecoveryKey == NewRk(d)
    {
      newRecoveryKey := Random(d.rk, 32);
      var rkProof := Hkdf(recoveryKey, ForRkVerifier);
      var rkKek := Hkdf(recoveryKey, ForRkKek);
      var aadRk := RkWrap(schemaVer, account);
      var mkRaw := Open(rkKek, aadRk, mkWrapRk);
      if mkRaw.None? {
        r := None;
        return;
      }
      var sPwd := Random(d.salt, SALT_LEN);
      var hkdfBaseKey := BaseKey(newPassword, sPwd, newKdfMode);
      var aadPwd := PwdWrap(schemaVer, account);
      var wrapMkPwd := Seal(Hkdf(hkdfBaseKey, ForKek), Random(d.nonce, NONCE_LEN), aadPwd, mkRaw.value);
      var wrapMkRk := Seal(Hkdf(newRecoveryKey, ForRkKek), Random(d.nonceRk, NONCE_LEN), aadRk, mkRaw.value);
      r := Some(RecoverCommand(account, rkProof,
                               CryptoSet(Hkdf(hkdfBaseKey, ForVerifier), Hkdf(hkdfBaseKey, ForAdmin),
                                         Some(Hkdf(newRecoveryKey, ForRkVerifier)), sPwd, newKdfMode,
                                         wrapMkPwd, Some(wrapMkRk)),
                               schemaVer));
    }

    method HandleDeriveRkVerifier(recoveryKey: Blob) returns (rkVerifier: Blob)
      ensures rkVerifier == Hkdf(recoveryKey, ForRkVerifier)
      ensures forall rk, serverSalt :: Stored(rkVerifier, serverSalt) == Stored(Hkdf(rk, ForRkVerifier), serverSalt)
                <==> rk == recoveryKey
    {
      rkVerifier := Hkdf(recoveryKey, ForRkVerifier);
    }

    /** Entries are sealed under the held vault key only. */
    method HandleEncryptEntry(plain: Blob, aad: Aad, nonce: nat) returns (r: Option<EncryptedValue>)
      ensures r.None? <==> vaultKey.None?
      ensures r.Some? ==> Open(vaultKey.value, aad, r.value) == Some(plain)
      ensures r.Some? ==> r.value.nonce == Random(nonce, NONCE_LEN)
    {
      if vaultKey.None? {
        return None;
      }
      r := Some(Seal(vaultKey.value, Random(nonce, NONCE_LEN), aad, plain));
    }

    method HandleDecryptEntry(v: EncryptedValue, aad: Aad) returns (r: Option<Blob>)
      ensures r == if vaultKey.None? then None else Open(vaultKey.value, aad, v)
    {
      if vaultKey.None? {
        return None;
      }
      r := Open(vaultKey.value, aad, v);
    }
  }

  function Rekeyed(current: Blob, wrap: EncryptedValue, schemaVer: int, account: Guid, newPassword: string,
          newMode: int, d: Draws): Option<CryptoSet>
  {
    match OpenPwd(current, schemaVer, account, wrap)
    case None => None
    case Some(mk) =>
      var base := BaseKey(newPassword, Salt(d), newMode);
      Some(PasswordPart(base, Salt(d), newMode, WrapPwd(base, schemaVer, account, Random(d.nonce, NONCE_LEN), mk)))
  }

  function Recovered(rk: Blob, wrap: EncryptedValue, schemaVer: int, account: Guid, newPassword: string, newMode: int,
          d: Draws): Option<RecoverCommand>
  {
    match OpenRk(rk, schemaVer, account, wrap)
    case None => None
    case Some(mk) =>
      Some(RecoverCommand(account, Hkdf(rk, ForRkVerifier),
                          FullMaterial(newPassword, newMode, schemaVer, account, mk, d), schemaVer))
  }

  lemma {:induction false} HonestPasswordPartIsValid(base: Blob, mode: int, schemaVer: int, account: Guid, mk: Blob,
          d: Draws)
    requires Len(mk) == MK_LEN && (mode == KDF_DEFAULT || mode == KDF_STRONG)
    ensures var wrap := WrapPwd(base, schemaVer, account, Random(d.nonce, NONCE_LEN), mk);
            IsValidWrap(wrap) && IsValidCryptoSet(PasswordPart(base, Salt(d), mode, wrap), false)
  {
  }

  /** Everything an honest client builds around a 32-byte key passes the server's shape check, for
      a registration or recovery and for a password change. */
  lemma {:induction false} HonestMaterialIsValid(password: string, mode: int, schemaVer: int, account: Guid, mk: Blob,
          d: Draws)
    requires Len(mk) == MK_LEN && (mode == KDF_DEFAULT || mode == KDF_STRONG)
    ensures var m := FullMaterial(password, mode, schemaVer, account, mk, d);
            && IsValidCryptoSet(m, true) && IsValidCryptoSet(m, false)
            && IsValidCryptoSet(m.(rkVerifier := None, mkWrapRk := None), false)
  {
    HonestPasswordPartIsValid(BaseKey(password, Salt(d), mode), mode, schemaVer, account, mk, d);
    assert IsValidWrap(WrapRk(NewRk(d), schemaVer, account, Random(d.nonceRk, NONCE_LEN), mk));
  }

  /** Neither a proof nor what a server stores of it. */
  ghost predicate IsNoProof(key: Blob, m: CryptoSet) {
    forall proof :: proof == m.verifier || proof == m.adminVerifier || Some(proof) == m.rkVerifier ==>
      key != proof && !(key.Stored? && key.proof == proof)
  }

  /** The keys behind an account's wraps and entries differ from each other, and none of them is a proof an honest
      client sends or a value a server stores of one. */
  lemma {:induction false} KeysAreNoProofs(password: string, mode: int, schemaVer: int, account: Guid, mk: Blob,
          d: Draws)
    ensures var m := FullMaterial(password, mode, schemaVer, account, mk, d);
            var pwdKey, rkKey := m.mkWrapPwd.cipherText.key, m.mkWrapRk.value.cipherText.key;
            && IsNoProof(pwdKey, m) && IsNoProof(rkKey, m) && IsNoProof(VaultKey(mk), m)
            && pwdKey != rkKey && pwdKey != VaultKey(mk) && rkKey != VaultKey(mk)
            && Open(pwdKey, PwdWrap(schemaVer, account), m.mkWrapPwd) == Some(mk)
            && Open(rkKey, RkWrap(schemaVer, account), m.mkWrapRk.value) == Some(mk)
            && m.verifier != m.adminVerifier
  {
  }
}
