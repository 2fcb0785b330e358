/** Commands of the authentication endpoints and the shape checks they pass first. */
module AuthCommands {
  import opened Prelude
  import opened Crypto

  /** The client-made material of a registration, a password change or a recovery. */
  datatype CryptoSet = CryptoSet(
    verifier: Blob, adminVerifier: Blob, rkVerifier: Option<Blob>,
    sPwd: Blob, kdfMode: int, mkWrapPwd: EncryptedValue, mkWrapRk: Option<EncryptedValue>)

  datatype RegisterCommand = RegisterCommand(account: Guid, material: CryptoSet, schemaVer: int)
  datatype LoginCommand = LoginCommand(account: Guid, verifier: Blob)
  datatype WrapsCommand = WrapsCommand(account: Guid, adminVerifier: Blob)
  datatype ChangePasswordCommand = ChangePasswordCommand(
    account: Guid, adminVerifier: Blob, material: CryptoSet, schemaVer: int)
  datatype RecoverCommand = RecoverCommand(account: Guid, rkVerifier: Blob, material: CryptoSet, schemaVer: int)

  datatype Error =
    | UnsupportedCryptoSchema | InvalidCryptoBlob | AccountExists | InvalidCredentials | AccountNotFound
    | InvalidAdminVerifier | InvalidRkVerifier
    | MissingRefreshToken | InvalidRefreshToken | RecentlyRevoked
    | SaveFailed

  const KDF_DEFAULT: int := 1
  const KDF_STRONG: int := 2

  predicate IsValidEncryptedValue(v: EncryptedValue, minLen: nat, maxLen: nat) {
    Len(v.nonce) == NONCE_LEN && Len(v.tag) == TAG_LEN && minLen <= Len(v.cipherText) <= maxLen
  }

  predicate IsValidWrap(v: EncryptedValue) { IsValidEncryptedValue(v, MK_LEN, MK_LEN) }

  predicate IsValidCryptoSet(m: CryptoSet, rkRequired: bool) {
    && Len(m.verifier) == VERIFIER_LEN && Len(m.adminVerifier) == VERIFIER_LEN && Len(m.sPwd) == SALT_LEN
    && (rkRequired ==> m.rkVerifier.Some? && m.mkWrapRk.Some?)
    && (m.rkVerifier.Some? ==> Len(m.rkVerifier.value) == VERIFIER_LEN)
    && (m.mkWrapRk.Some? ==> IsValidWrap(m.mkWrapRk.value))
    && IsValidWrap(m.mkWrapPwd)
    && (m.kdfMode == KDF_DEFAULT || m.kdfMode == KDF_STRONG)
  }

  function ValidateRegister(cmd: RegisterCommand): Option<Error> {
    if cmd.schemaVer != 1 then Some(UnsupportedCryptoSchema)
    else if IsValidCryptoSet(cmd.material, true) then None
    else Some(InvalidCryptoBlob)
  }

  function ValidateLogin(cmd: LoginCommand): Option<Error> {
    if Len(cmd.verifier) != VERIFIER_LEN then Some(InvalidCredentials) else None
  }

  function ValidateWraps(cmd: WrapsCommand): Option<Error> {
    if Len(cmd.adminVerifier) != VERIFIER_LEN then Some(InvalidCryptoBlob) else None
  }

  function ValidateChangePassword(cmd: ChangePasswordCommand): Option<Error> {
    if cmd.schemaVer != 1 then Some(UnsupportedCryptoSchema)
    else if Len(cmd.adminVerifier) != VERIFIER_LEN then Some(InvalidCryptoBlob)
    else if IsValidCryptoSet(cmd.material, false) then None
    else Some(InvalidCryptoBlob)
  }

  function ValidateRecover(cmd: RecoverCommand): Option<Error> {
    if cmd.schemaVer != 1 then Some(UnsupportedCryptoSchema)
    else if Len(cmd.rkVerifier) != VERIFIER_LEN then Some(InvalidCryptoBlob)
    else if IsValidCryptoSet(cmd.material, true) then None
    else Some(InvalidCryptoBlob)
  }
}
