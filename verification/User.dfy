/** An account as stored, and the entity object a request loads, changes and saves. */
module UserEntity {
  import opened Prelude
  import opened Crypto

  datatype Credentials = Credentials(
    verifier: Blob, sVerifier: Blob,
    adminVerifier: Blob, sAdminVerifier: Blob,
    rkVerifier: Blob, sRk: Blob,
    sPwd: Blob, kdfMode: int,
    mkWrapPwd: EncryptedValue, mkWrapRk: EncryptedValue,
    schemaVer: int)

  datatype Lock = Lock(failedCount: int, lastFailedAt: Option<Time>, lockedUntil: Option<Time>)

  datatype Account = Account(creds: Credentials, lock: Lock, lastLoginAt: Option<Time>)

  class User {
    var verifier: Blob
    var sVerifier: Blob
    var adminVerifier: Blob
    var sAdminVerifier: Blob
    var rkVerifier: Blob
    var sRk: Blob
    var sPwd: Blob
    var kdfMode: int
    var mkWrapPwd: EncryptedValue
    var mkWrapRk: EncryptedValue
    var cryptoSchemaVer: int
    var failedLoginCount: int
    var lastFailedLoginAt: Option<Time>
    var lockedUntil: Option<Time>
    var lastLoginAt: Option<Time>

    function Creds(): Credentials
      reads this
    {
      Credentials(verifier, sVerifier, adminVerifier, sAdminVerifier, rkVerifier, sRk, sPwd, kdfMode,
                  mkWrapPwd, mkWrapRk, cryptoSchemaVer)
    }

    function LockState(): Lock
      reads this
    {
      Lock(failedLoginCount, lastFailedLoginAt, lockedUntil)
    }

    function Row(): Account
      reads this
    {
      Account(Creds(), LockState(), lastLoginAt)
    }

    /** Materialises the stored row. */
    constructor (row: Account)
      ensures Row() == row
    {
      verifier := row.creds.verifier;
      sVerifier := row.creds.sVerifier;
      adminVerifier := row.creds.adminVerifier;
      sAdminVerifier := row.creds.sAdminVerifier;
      rkVerifier := row.creds.rkVerifier;
      sRk := row.creds.sRk;
      sPwd := row.creds.sPwd;
      kdfMode := row.creds.kdfMode;
      mkWrapPwd := row.creds.mkWrapPwd;
      mkWrapRk := row.creds.mkWrapRk;
      cryptoSchemaVer := row.creds.schemaVer;
      failedLoginCount := row.lock.failedCount;
      lastFailedLoginAt := row.lock.lastFailedAt;
      lockedUntil := row.lock.lockedUntil;
      lastLoginAt := row.lastLoginAt;
    }
  }
}
