/** The authentication endpoints over the database: what each does to it, as a function, and the
    service whose methods do it step by step. */
module AuthService {
  import opened Prelude
  import opened Crypto
  import opened UserEntity
  import opened LockoutPolicy
  import opened TokenTable
  import opened RefreshTokenText
  import opened AuthCommands
  import Store = RefreshTokenStore

  datatype Db = Db(users: map<Guid, Account>, rows: seq<Row>)

  /** An access token: its subject and its identifier. */
  datatype Access = Access(sub: Guid, jti: seq<byte>)

  datatype LoginOk = LoginOk(access: Access, refreshToken: string, expiresAt: Time,
                             mkWrapPwd: EncryptedValue, mkWrapRk: EncryptedValue)
  datatype RefreshOk = RefreshOk(access: Access, refreshToken: string, expiresAt: Time)
  datatype Wraps = Wraps(mkWrapPwd: EncryptedValue, mkWrapRk: EncryptedValue, kdfMode: int, schemaVer: int)
  datatype PreLogin = PreLogin(sPwd: Blob, kdfMode: int, schemaVer: int)

  /** Fresh server salts for the stored verifiers. */
  datatype Salts = Salts(verifier: Blob, admin: Blob, rk: Blob)

  function ComputeStoredVerifier(verifier: Blob, salt: Blob): Blob { Stored(verifier, salt) }

  function ComputeFakeSalt(account: Guid): Blob { Fake(account, FakeSalt, SALT_LEN, None) }

  function ComputeFakeWraps(account: Guid, recovery: bool, seed: Blob): EncryptedValue {
    EncryptedValue(Fake(account, FakeNonce(recovery), NONCE_LEN, Some(seed)),
                   Fake(account, FakeCt(recovery), MK_LEN, Some(seed)),
                   Fake(account, FakeTag(recovery), TAG_LEN, Some(seed)))
  }

  function JtiHash(jti: seq<byte>): Digest { Sha256(jti) }

  // ---------------------------------------------------------------- proofs and the shared counter

  function LoginMatches(u: Account, verifier: Blob): bool {
    u.creds.verifier == ComputeStoredVerifier(verifier, u.creds.sVerifier)
  }

  function AdminMatches(u: Account, verifier: Blob): bool {
    u.creds.adminVerifier == ComputeStoredVerifier(verifier, u.creds.sAdminVerifier)
  }

  function RkMatches(u: Account, verifier: Blob): bool {
    u.creds.rkVerifier == ComputeStoredVerifier(verifier, u.creds.sRk)
  }

  /** The database after the attempt `a` on a known account. */
  function Recorded(db: Db, account: Guid, a: Attempt): Db
    requires account in db.users
  {
    var u := db.users[account];
    db.(users := db.users[account := u.(lock := Next(u.lock, a))])
  }

  /** Away from the recovery endpoints a locked account's attempt leaves no trace. */
  lemma {:induction false} LockedLeavesNoTrace(db: Db, account: Guid, a: Attempt)
    requires account in db.users && IsLockedOut(db.users[account].lock, a.now) && !a.lenient
    ensures Recorded(db, account, a) == db
  {
    assert db.users[account := db.users[account]] == db.users;
  }

  // ---------------------------------------------------------------- the endpoints

  function NewCredentials(m: CryptoSet, schemaVer: int, s: Salts): Credentials
    requires m.rkVerifier.Some? && m.mkWrapRk.Some?
  {
    Credentials(ComputeStoredVerifier(m.verifier, s.verifier), s.verifier,
                ComputeStoredVerifier(m.adminVerifier, s.admin), s.admin,
                ComputeStoredVerifier(m.rkVerifier.value, s.rk), s.rk,
                m.sPwd, m.kdfMode, m.mkWrapPwd, m.mkWrapRk.value, schemaVer)
  }

  /** A password change replaces the recovery part only when both of its halves are sent. */
  function ChangedCredentials(c: Credentials, m: CryptoSet, schemaVer: int, s: Salts): Credentials {
    if m.rkVerifier.Some? && m.mkWrapRk.Some? then NewCredentials(m, schemaVer, s)
    else
      Credentials(ComputeStoredVerifier(m.verifier, s.verifier), s.verifier,
                  ComputeStoredVerifier(m.adminVerifier, s.admin), s.admin,
                  c.rkVerifier, c.sRk, m.sPwd, m.kdfMode, m.mkWrapPwd, c.mkWrapRk, schemaVer)
  }

  function Register(db: Db, cmd: RegisterCommand, s: Salts): (Db, Result<Guid, Error>) {
    match ValidateRegister(cmd)
    case Some(e) => (db, Err(e))
    case None =>
      if cmd.account in db.users then (db, Err(AccountExists))
      else
        (db.(users := db.users[cmd.account := Account(NewCredentials(cmd.material, cmd.schemaVer, s), Clear, None)]),
         Ok(cmd.account))
  }

  function PreLoginReply(db: Db, account: Guid): PreLogin {
    if account in db.users then
      var c := db.users[account].creds;
      PreLogin(c.sPwd, c.kdfMode, c.schemaVer)
    else PreLogin(ComputeFakeSalt(account), KDF_DEFAULT, 1)
  }

  function Login(db: Db, cmd: LoginCommand, jti: seq<byte>, raw: seq<byte>, now: Time): (Db, Result<LoginOk, Error>) {
    if ValidateLogin(cmd).Some? || cmd.account !in db.users then (db, Err(InvalidCredentials))
    else
      var u := db.users[cmd.account];
      var a := Attempt(false, LoginMatches(u, cmd.verifier), now);
      if !Accepted(u.lock, a) then (Recorded(db, cmd.account, a), Err(InvalidCredentials))
      else Opened(db, cmd.account, u, jti, raw, now)
  }

  /** A new session of the account `u`, saved together with its cleared counter. */
  function Opened(db: Db, account: Guid, u: Account, jti: seq<byte>, raw: seq<byte>, now: Time):
    (Db, Result<LoginOk, Error>)
  {
    if Known(db.rows, Sha256(raw)) then (db, Err(SaveFailed))
    else
      (Db(db.users[account := u.(lock := Clear, lastLoginAt := Some(now))],
          Apply(db.rows, Mint(account, Sha256(raw), JtiHash(jti), now))),
       Ok(LoginOk(Access(account, jti), TokenText(raw), now + REFRESH_TTL, u.creds.mkWrapPwd, u.creds.mkWrapRk)))
  }

  predicate IsWhite(c: char) {
    var n := c as int;
    9 <= n <= 13 || n == 32 || n == 0x85 || n == 0xA0 || n == 0x1680 || 0x2000 <= n <= 0x200A
    || n == 0x2028 || n == 0x2029 || n == 0x202F || n == 0x205F || n == 0x3000
  }

  predicate IsBlank(text: string) { forall c :: c in text ==> IsWhite(c) }

  /** The third store call of a refresh: reuse of a rotated token ends every session of its account. */
  function AfterReuse(rows: seq<Row>, r: Store.RotationResult, now: Time): seq<Row> {
    if r.status == Revoked && r.user.Some? && r.reason == Some(Regular)
    then Apply(rows, RevokeAll(r.user.value, now)) else rows
  }

  function RefreshReply(r: Store.RotationResult, access: Access): Result<RefreshOk, Error> {
    match r.status
    case Rotated =>
      if r.user.None? || r.token.None? || r.expiresAt.None? then Err(InvalidRefreshToken)
      else Ok(RefreshOk(access, r.token.value, r.expiresAt.value))
    case RecentlyRevoked => Err(if r.reason == Some(Regular) then Error.RecentlyRevoked else InvalidRefreshToken)
    case Threw => Err(SaveFailed)
    case _ => Err(InvalidRefreshToken)
  }

  /** A refresh with nothing between its store calls, of a token known by its digest. */
  function RefreshToken(db: Db, token: Option<Digest>, jti: seq<byte>, raw: seq<byte>, now: Time): (Db,
        Result<RefreshOk, Error>) {
    match Store.OwnerOf(db.rows, token)
    case None => (db, Err(InvalidRefreshToken))
    case Some(user) =>
      var r := Store.Rotation(db.rows, token, raw, now);
      var rows := Apply(db.rows, Store.RotateAction(token, raw, JtiHash(jti), now));
      (db.(rows := AfterReuse(rows, r, now)), RefreshReply(r, Access(user, jti)))
  }

  function Refresh(db: Db, text: string, jti: seq<byte>, raw: seq<byte>, now: Time): (Db, Result<RefreshOk, Error>) {
    if IsBlank(text) then (db, Err(MissingRefreshToken))
    else RefreshToken(db, TryHashRefreshToken(text), jti, raw, now)
  }

  function GetWraps(db: Db, cmd: WrapsCommand, now: Time): (Db, Result<Wraps, Error>) {
    match ValidateWraps(cmd)
    case Some(e) => (db, Err(e))
    case None =>
      if cmd.account !in db.users then (db, Err(AccountNotFound))
      else
        var u := db.users[cmd.account];
        var a := Attempt(false, AdminMatches(u, cmd.adminVerifier), now);
        (Recorded(db, cmd.account, a),
         if Accepted(u.lock, a) then Ok(StoredWraps(u.creds)) else Err(InvalidAdminVerifier))
  }

  function StoredWraps(c: Credentials): Wraps { Wraps(c.mkWrapPwd, c.mkWrapRk, c.kdfMode, c.schemaVer) }

  function ChangePassword(db: Db, cmd: ChangePasswordCommand, s: Salts, now: Time): (Db, Result<(), Error>) {
    match ValidateChangePassword(cmd)
    case Some(e) => (db, Err(e))
    case None =>
      if cmd.account !in db.users then (db, Err(AccountNotFound))
      else
        var u := db.users[cmd.account];
        var a := Attempt(false, AdminMatches(u, cmd.adminVerifier), now);
        if !Accepted(u.lock, a) then (Recorded(db, cmd.account, a), Err(InvalidAdminVerifier))
        else
          (Db(db.users[cmd.account := u.(lock := Clear,
                                          creds := ChangedCredentials(u.creds, cmd.material, cmd.schemaVer, s))],
              Apply(db.rows, RevokeAll(cmd.account, now))),
           Ok(()))
  }

  function FakeWraps(account: Guid, rkVerifier: Blob): Wraps {
    Wraps(ComputeFakeWraps(account, false, rkVerifier), ComputeFakeWraps(account, true, rkVerifier),
          KDF_DEFAULT, 1)
  }

  /** Whether the recovery endpoints accept this proof. */
  predicate RecoveryAccepted(db: Db, account: Guid, rkVerifier: Blob, now: Time) {
    account in db.users
    && Accepted(db.users[account].lock, Attempt(true, RkMatches(db.users[account], rkVerifier), now))
  }

  function GetRecoveryWraps(db: Db, account: Guid, rkVerifier: Blob, now: Time): (Db, Wraps) {
    if account !in db.users then (db, FakeWraps(account, rkVerifier))
    else
      var u := db.users[account];
      var a := Attempt(true, RkMatches(u, rkVerifier), now);
      (Recorded(db, account, a),
       if Accepted(u.lock, a) then StoredWraps(u.creds) else FakeWraps(account, rkVerifier))
  }

  function Recover(db: Db, cmd: RecoverCommand, s: Salts, now: Time): (Db, Result<(), Error>) {
    match ValidateRecover(cmd)
    case Some(e) => (db, Err(e))
    case None =>
      if cmd.account !in db.users then (db, Err(AccountNotFound))
      else
        var u := db.users[cmd.account];
        var a := Attempt(true, RkMatches(u, cmd.rkVerifier), now);
        if !Accepted(u.lock, a) then (Recorded(db, cmd.account, a), Err(InvalidRkVerifier))
        else
          (Db(db.users[cmd.account := u.(lock := Clear, creds := NewCredentials(cmd.material, cmd.schemaVer, s))],
              Apply(db.rows, RevokeAll(cmd.account, now))),
           Ok(()))
  }

  // ---------------------------------------------------------------- the service

  /** The assignments of a password change, field by field. */
  method AssignChanged(user: User, m: CryptoSet, schemaVer: int, salts: Salts)
    modifies user
    ensures user.Creds() == ChangedCredentials(old(user.Creds()), m, schemaVer, salts)
    ensures user.LockState() == old(user.LockState()) && user.lastLoginAt == old(user.lastLoginAt)
  {
    user.verifier := ComputeStoredVerifier(m.verifier, salts.verifier);
    user.sVerifier := salts.verifier;
    user.adminVerifier := ComputeStoredVerifier(m.adminVerifier, salts.admin);
    user.sAdminVerifier := salts.admin;
    user.sPwd := m.sPwd;
    user.kdfMode := m.kdfMode;
    user.mkWrapPwd := m.mkWrapPwd;
    if m.mkWrapRk.Some? && m.rkVerifier.Some? {
      user.mkWrapRk := m.mkWrapRk.value;
      user.rkVerifier := ComputeStoredVerifier(m.rkVerifier.value, salts.rk);
      user.sRk := salts.rk;
    }
    user.cryptoSchemaVer := schemaVer;
  }

  /** The assignments of a recovery: every credential is replaced. */
  method AssignRecovered(user: User, m: CryptoSet, storedVerifier: Blob, storedAdminVerifier: Blob,
          storedRkVerifier: Blob, schemaVer: int, salts: Salts)
    requires m.rkVerifier.Some? && m.mkWrapRk.Some?
    modifies user
    ensures user.Creds() ==
              Credentials(storedVerifier, salts.verifier, storedAdminVerifier, salts.admin, storedRkVerifier, salts.rk,
                          m.sPwd, m.kdfMode, m.mkWrapPwd, m.mkWrapRk.value, schemaVer)
    ensures user.LockState() == old(user.LockState()) && user.lastLoginAt == old(user.lastLoginAt)
  {
    user.verifier := storedVerifier;
    user.sVerifier := salts.verifier;
    user.adminVerifier := storedAdminVerifier;
    user.sAdminVerifier := salts.admin;
    user.rkVerifier := storedRkVerifier;
    user.sRk := salts.rk;
    user.sPwd := m.sPwd;
    user.kdfMode := m.kdfMode;
    user.mkWrapPwd := m.mkWrapPwd;
    user.mkWrapRk := m.mkWrapRk.value;
    user.cryptoSchemaVer := schemaVer;
  }

  class AuthService {
    /** The saved rows of the user table. */
    var users: map<Guid, Account>
    const refreshTokenStore: Store.RefreshTokenStore

    constructor (store: Store.RefreshTokenStore)
      ensures users == map[] && refreshTokenStore == store
    {
      users := map[];
      refreshTokenStore := store;
    }

    function Data(): Db
      reads this, refreshTokenStore
    {
      Db(users, refreshTokenStore.rows)
    }

    method SaveChanges(id: Guid, user: User)
      modifies this
      ensures users == old(users)[id := user.Row()]
    {
      users := users[id := user.Row()];
    }

    method RegisterAsync(cmd: RegisterCommand, salts: Salts) returns (r: Result<Guid, Error>)
      modifies this
      ensures (Data(), r) == Register(old(Data()), cmd, salts)
    {
      var validationError := ValidateRegister(cmd);
      if validationError.Some? {
        return Err(validationError.value);
      }
      var taken := cmd.account in users;
      var m := cmd.material;
      var storedVerifier := ComputeStoredVerifier(m.verifier, salts.verifier);
      var storedAdminVerifier := ComputeStoredVerifier(m.adminVerifier, salts.admin);
      var storedRkVerifier := ComputeStoredVerifier(m.rkVerifier.value, salts.rk);
      if taken {
        return Err(AccountExists);
      }
      var creds := Credentials(storedVerifier, salts.verifier, storedAdminVerifier, salts.admin,
                               storedRkVerifier, salts.rk, m.sPwd, m.kdfMode, m.mkWrapPwd, m.mkWrapRk.value,
                               cmd.schemaVer);
      users := users[cmd.account := Account(creds, Lock(0, None, None), None)];
      r := Ok(cmd.account);
    }

    method PreLoginAsync(account: Guid) returns (r: PreLogin)
      ensures r == PreLoginReply(Data(), account)
    {
      var fakeSalt := ComputeFakeSalt(account);
      if account !in users {
        return PreLogin(fakeSalt, KDF_DEFAULT, 1);
      }
      var c := users[account].creds;
      r := PreLogin(c.sPwd, c.kdfMode, c.schemaVer);
    }

    method LoginAsync(cmd: LoginCommand, now: Time, jti: seq<byte>, raw: seq<byte>)
      returns (r: Result<LoginOk, Error>)
      modifies this, refreshTokenStore
      ensures (Data(), r) == Login(old(Data()), cmd, jti, raw, now)
    {
      var validationError := ValidateLogin(cmd);
      if validationError.Some? {
        return Err(validationError.value);
      }
      if cmd.account !in users {
        return Err(InvalidCredentials);
      }
      var user := new User(users[cmd.account]);
      if IsLockedOut(user.LockState(), now) {
        LockedLeavesNoTrace(Data(), cmd.account,
                            Attempt(false, LoginMatches(users[cmd.account], cmd.verifier), now));
        return Err(InvalidCredentials);
      }
      var ok := user.verifier == ComputeStoredVerifier(cmd.verifier, user.sVerifier);
      if !ok {
        RegisterFailedLogin(user, now);
        SaveChanges(cmd.account, user);
        return Err(InvalidCredentials);
      }
      r := OpenSession(cmd.account, user, now, jti, raw);
    }

    method OpenSession(account: Guid, user: User, now: Time, jti: seq<byte>, raw: seq<byte>)
      returns (r: Result<LoginOk, Error>)
      modifies this, user, refreshTokenStore
      ensures (Data(), r) == Opened(old(Data()), account, old(user.Row()), jti, raw, now)
    {
      RegisterSuccessfulLogin(user, now);
      user.lastLoginAt := Some(now);
      refreshTokenStore.BeginRequest();
      var issue := refreshTokenStore.MintAsync(account, JtiHash(jti), now, raw);
      if issue.None? {
        return Err(SaveFailed);
      }
      // The mint saves the whole context, and with it the pending changes of the user.
      SaveChanges(account, user);
      r := Ok(LoginOk(Access(account, jti), issue.value.token, issue.value.expiresAt, user.mkWrapPwd, user.mkWrapRk));
    }

    method RefreshAsync(text: string, now: Time, jti: seq<byte>, raw: seq<byte>)
      returns (r: Result<RefreshOk, Error>)
      modifies refreshTokenStore
      ensures (Data(), r) == Refresh(old(Data()), text, jti, raw, now)
    {
      if IsBlank(text) {
        return Err(MissingRefreshToken);
      }
      refreshTokenStore.BeginRequest();
      var userId := refreshTokenStore.GetUserIdByTokenAsync(text);
      if userId.None? {
        return Err(InvalidRefreshToken);
      }
      var issued := Access(userId.value, jti);
      Store.CurrentReadRotates(refreshTokenStore.rows, TryHashRefreshToken(text), raw, JtiHash(jti), now);
      var rotation := refreshTokenStore.RotateAsync(text, JtiHash(jti), now, raw);
      match rotation.status
      case Invalid => r := Err(InvalidRefreshToken);
      case Revoked =>
        if rotation.user.Some? && rotation.reason == Some(Regular) {
          refreshTokenStore.RevokeAllAsync(rotation.user.value, now);
        }
        r := Err(InvalidRefreshToken);
      case RecentlyRevoked =>
        if rotation.reason == Some(Regular) {
          return Err(Error.RecentlyRevoked);
        }
        r := Err(InvalidRefreshToken);
      case Rotated =>
        if rotation.user.None? || rotation.token.None? || rotation.expiresAt.None? {
          return Err(InvalidRefreshToken);
        }
        r := Ok(RefreshOk(issued, rotation.token.value, rotation.expiresAt.value));
      case Threw => r := Err(SaveFailed);
    }

    method LogoutAsync(text: string, now: Time)
      modifies refreshTokenStore
      ensures Data() == old(Data()).(rows := Apply(old(refreshTokenStore.rows),
                                                   Store.RevokeAction(TryHashRefreshToken(text), now)))
    {
      refreshTokenStore.BeginRequest();
      Store.CurrentReadRotates(refreshTokenStore.rows, TryHashRefreshToken(text), [], Sha256([]), now);
      refreshTokenStore.RevokeAsync(text, now);
    }

    method LogoutAllAsync(account: Guid, now: Time)
      modifies refreshTokenStore
      ensures Data() == old(Data()).(rows := Apply(old(refreshTokenStore.rows), RevokeAll(account, now)))
    {
      refreshTokenStore.RevokeAllAsync(account, now);
    }

    method GetWrapsAsync(cmd: WrapsCommand, now: Time) returns (r: Result<Wraps, Error>)
      modifies this
      ensures (Data(), r) == GetWraps(old(Data()), cmd, now)
    {
      var validationError := ValidateWraps(cmd);
      if validationError.Some? {
        return Err(validationError.value);
      }
      if cmd.account !in users {
        return Err(AccountNotFound);
      }
      var user := new User(users[cmd.account]);
      if IsLockedOut(user.LockState(), now) {
        LockedLeavesNoTrace(Data(), cmd.account,
                            Attempt(false, AdminMatches(users[cmd.account], cmd.adminVerifier), now));
        return Err(InvalidAdminVerifier);
      }
      var ok := user.adminVerifier == ComputeStoredVerifier(cmd.adminVerifier, user.sAdminVerifier);
      if !ok {
        RegisterFailedLogin(user, now);
        SaveChanges(cmd.account, user);
        return Err(InvalidAdminVerifier);
      }
      RegisterSuccessfulLogin(user, now);
      SaveChanges(cmd.account, user);
      r := Ok(Wraps(user.mkWrapPwd, user.mkWrapRk, user.kdfMode, user.cryptoSchemaVer));
    }

    method ChangePasswordAsync(cmd: ChangePasswordCommand, now: Time, salts: Salts) returns (r: Result<(), Error>)
      modifies this, refreshTokenStore
      ensures (Data(), r) == ChangePassword(old(Data()), cmd, salts, now)
    {
      var validationError := ValidateChangePassword(cmd);
      if validationError.Some? {
        return Err(validationError.value);
      }
      if cmd.account !in users {
        return Err(AccountNotFound);
      }
      var user := new User(users[cmd.account]);
      if IsLockedOut(user.LockState(), now) {
        LockedLeavesNoTrace(Data(), cmd.account,
                            Attempt(false, AdminMatches(users[cmd.account], cmd.adminVerifier), now));
        return Err(InvalidAdminVerifier);
      }
      var ok := user.adminVerifier == ComputeStoredVerifier(cmd.adminVerifier, user.sAdminVerifier);
      if !ok {
        RegisterFailedLogin(user, now);
        SaveChanges(cmd.account, user);
        return Err(InvalidAdminVerifier);
      }
      RegisterSuccessfulLogin(user, now);
      AssignChanged(user, cmd.material, cmd.schemaVer, salts);
      SaveChanges(cmd.account, user);
      refreshTokenStore.RevokeAllAsync(cmd.account, now);
      r := Ok(());
    }

    method GetRecoveryWrapsAsync(account: Guid, rkVerifier: Blob, now: Time) returns (r: Wraps)
      modifies this
      ensures (Data(), r) == GetRecoveryWraps(old(Data()), account, rkVerifier, now)
    {
      if account !in users {
        var pwd := ComputeFakeWraps(account, false, rkVerifier);
        var rk := ComputeFakeWraps(account, true, rkVerifier);
        return Wraps(pwd, rk, KDF_DEFAULT, 1);
      }
      var user := new User(users[account]);
      var proofValid := user.rkVerifier == ComputeStoredVerifier(rkVerifier, user.sRk);
      if IsLockedOut(user.LockState(), now) {
        proofValid := false;
      }
      if !proofValid {
        RegisterFailedLogin(user, now);
        SaveChanges(account, user);
        var pwd := ComputeFakeWraps(account, false, rkVerifier);
        var rk := ComputeFakeWraps(account, true, rkVerifier);
        return Wraps(pwd, rk, KDF_DEFAULT, 1);
      }
      RegisterSuccessfulLogin(user, now);
      SaveChanges(account, user);
      r := Wraps(user.mkWrapPwd, user.mkWrapRk, user.kdfMode, user.cryptoSchemaVer);
    }

    method RecoverAsync(cmd: RecoverCommand, now: Time, salts: Salts) returns (r: Result<(), Error>)
      modifies this, refreshTokenStore
      ensures (Data(), r) == Recover(old(Data()), cmd, salts, now)
    {
      var validationError := ValidateRecover(cmd);
      if validationError.Some? {
        return Err(validationError.value);
      }
      if cmd.account !in users {
        return Err(AccountNotFound);
      }
      var user := new User(users[cmd.account]);
      var proofValid := user.rkVerifier == ComputeStoredVerifier(cmd.rkVerifier, user.sRk);
      if IsLockedOut(user.LockState(), now) {
        proofValid := false;
      }
      var m := cmd.material;
      var storedVerifier := ComputeStoredVerifier(m.verifier, salts.verifier);
      var storedAdminVerifier := ComputeStoredVerifier(m.adminVerifier, salts.admin);
      var storedRkVerifier := ComputeStoredVerifier(m.rkVerifier.value, salts.rk);
      if !proofValid {
        RegisterFailedLogin(user, now);
        SaveChanges(cmd.account, user);
        return Err(InvalidRkVerifier);
      }
      RegisterSuccessfulLogin(user, now);
      AssignRecovered(user, m, storedVerifier, storedAdminVerifier, storedRkVerifier, cmd.schemaVer, salts);
      SaveChanges(cmd.account, user);
      refreshTokenStore.RevokeAllAsync(cmd.account, now);
      r := Ok(());
    }
  }
}
