/** Runs of honest clients against the server: every key change re-wraps the same master key. */
module KeyLadder {
  import opened Prelude
  import opened Crypto
  import opened UserEntity
  import opened AuthCommands
  import opened AuthService
  import opened AuthRuns
  import opened CryptoWorker

  /** What opens a wrap: a password's base key, a recovery key, or a passcode's base key. */
  datatype Credential =
    | ByPassword(base: Blob, schemaVer: int)
    | ByRecoveryKey(rk: Blob, schemaVer: int)
    | ByPasscode(base: Blob)

  /** A wrap that was stored, on the server or on a device, with the credential it was made for. */
  datatype Kept = Kept(account: Guid, credential: Credential, value: EncryptedValue)

  function OpenWith(c: Credential, account: Guid, v: EncryptedValue): Option<Blob> {
    match c
    case ByPassword(base, schemaVer) => OpenPwd(base, schemaVer, account, v)
    case ByRecoveryKey(rk, schemaVer) => OpenRk(rk, schemaVer, account, v)
    case ByPasscode(base) => OpenLocal(base, account, v)
  }

  /** A command an honest client has built, with the secrets it was built from. */
  datatype Order =
    | ToRegister(register: RegisterCommand, mk: Blob, base: Blob, rk: Blob)
    | ToChange(change: ChangePasswordCommand, base: Blob)
    | ToRecover(recover: RecoverCommand, base: Blob, rk: Blob)

  /** `mk` remembers the master key drawn at each account's registration, `kept` every wrap ever stored. */
  datatype World = World(db: Db, mk: map<Guid, Blob>, kept: set<Kept>, outbox: set<Order>)

  datatype Move =
    | BuildRegister(account: Guid, password: string, mode: int, schemaVer: int, d: Draws)
    | BuildRekey(account: Guid, current: Blob, wrap: EncryptedValue, schemaVer: int, newPassword: string,
          newMode: int, d: Draws)
    | BuildRecover(account: Guid, rk: Blob, wrap: EncryptedValue, schemaVer: int, newPassword: string, newMode: int,
          d: Draws)
    | Activate(account: Guid, current: Blob, wrap: EncryptedValue, schemaVer: int, passcode: string, d: Draws)
    | Send(order: Order, salts: Salts, now: Time)
    | Anyone(event: Event)

  /** A wrap a client can hold: one that was stored, now or before, or one the server made up. */
  ghost predicate Obtainable(w: World, v: EncryptedValue) {
    v.cipherText.Fake? || exists k :: k in w.kept && k.value == v
  }

  /** Clients take wraps from the server or their device. Any other call is anyone's, as long as it does not
      replace the credentials of an account that an honest client registered. */
  ghost predicate Enabled(w: World, m: Move) {
    match m
    case BuildRegister(_, _, _, _, _) => true
    case BuildRekey(_, _, wrap, _, _, _, _) => Obtainable(w, wrap)
    case BuildRecover(_, _, wrap, _, _, _, _) => Obtainable(w, wrap)
    case Activate(_, _, wrap, _, _, _) => Obtainable(w, wrap)
    case Send(order, _, _) => order in w.outbox
    case Anyone(e) => Foreign(w, e)
  }

  /** The account whose credentials an accepted call sets. */
  function Replaces(db: Db, e: Event): Option<Guid> {
    match e
    case DoRegister(cmd, s, _) => if Register(db, cmd, s).1.Ok? then Some(cmd.account) else None
    case DoChangePassword(cmd, s, now) => if ChangePassword(db, cmd, s, now).1.Ok? then Some(cmd.account) else None
    case DoRecover(cmd, s, now) => if Recover(db, cmd, s, now).1.Ok? then Some(cmd.account) else None
    case _ => None
  }

  predicate Foreign(w: World, e: Event) { Replaces(w.db, e).None? || Replaces(w.db, e).value !in w.mk }

  /** An account an honest client registered, or one the server does not know. */
  predicate Ours(w: World, account: Guid) { account in w.mk || account !in w.db.users }

  function RegisterOrder(account: Guid, password: string, mode: int, schemaVer: int, d: Draws): Order {
    ToRegister(RegisterCommand(account, FullMaterial(password, mode, schemaVer, account, NewMk(d), d), schemaVer),
               NewMk(d), BaseKey(password, Salt(d), mode), NewRk(d))
  }

  /** The command goes out exactly when the worker could open the wrap. */
  function RekeyOrder(account: Guid, current: Blob, wrap: EncryptedValue, schemaVer: int, newPassword: string,
          newMode: int, d: Draws): Option<Order>
  {
    match Rekeyed(current, wrap, schemaVer, account, newPassword, newMode, d)
    case None => None
    case Some(m) =>
      Some(ToChange(ChangePasswordCommand(account, Hkdf(current, ForAdmin), m, schemaVer),
                    BaseKey(newPassword, Salt(d), newMode)))
  }

  function RecoverOrder(account: Guid, rk: Blob, wrap: EncryptedValue, schemaVer: int, newPassword: string,
          newMode: int, d: Draws): Option<Order>
  {
    match Recovered(rk, wrap, schemaVer, account, newPassword, newMode, d)
    case None => None
    case Some(cmd) => Some(ToRecover(cmd, BaseKey(newPassword, Salt(d), newMode), NewRk(d)))
  }

  function Put(outbox: set<Order>, order: Option<Order>): set<Order> {
    if order.Some? then outbox + {order.value} else outbox
  }

  function PasswordWrap(account: Guid, base: Blob, schemaVer: int, m: CryptoSet): Kept {
    Kept(account, ByPassword(base, schemaVer), m.mkWrapPwd)
  }

  function RecoveryWrap(account: Guid, rk: Blob, schemaVer: int, m: CryptoSet): set<Kept> {
    if m.mkWrapRk.Some? then {Kept(account, ByRecoveryKey(rk, schemaVer), m.mkWrapRk.value)} else {}
  }

  function Sent(w: World, order: Order, salts: Salts, now: Time): World {
    match order
    case ToRegister(cmd, mk, base, rk) =>
      var (db, reply) := Register(w.db, cmd, salts);
      if reply.Err? then w.(db := db)
      else
        w.(db := db, mk := w.mk[cmd.account := mk],
           kept := w.kept + {PasswordWrap(cmd.account, base, cmd.schemaVer, cmd.material)}
                   + RecoveryWrap(cmd.account, rk, cmd.schemaVer, cmd.material))
    case ToChange(cmd, base) =>
      var (db, reply) := ChangePassword(w.db, cmd, salts, now);
      if reply.Err? then w.(db := db)
      else w.(db := db, kept := w.kept + {PasswordWrap(cmd.account, base, cmd.schemaVer, cmd.material)})
    case ToRecover(cmd, base, rk) =>
      var (db, reply) := Recover(w.db, cmd, salts, now);
      if reply.Err? then w.(db := db)
      else
        w.(db := db,
           kept := w.kept + {PasswordWrap(cmd.account, base, cmd.schemaVer, cmd.material)}
                   + RecoveryWrap(cmd.account, rk, cmd.schemaVer, cmd.material))
  }

  function Next(w: World, m: Move): World {
    match m
    case BuildRegister(account, password, mode, schemaVer, d) =>
      w.(outbox := w.outbox + {RegisterOrder(account, password, mode, schemaVer, d)})
    case BuildRekey(account, current, wrap, schemaVer, newPassword, newMode, d) =>
      w.(outbox := Put(w.outbox, RekeyOrder(account, current, wrap, schemaVer, newPassword, newMode, d)))
    case BuildRecover(account, rk, wrap, schemaVer, newPassword, newMode, d) =>
      w.(outbox := Put(w.outbox, RecoverOrder(account, rk, wrap, schemaVer, newPassword, newMode, d)))
    case Activate(account, current, wrap, schemaVer, passcode, d) =>
      (match OpenPwd(current, schemaVer, account, wrap)
       case None => w
       case Some(mk) =>
         var base := BaseKey(passcode, Salt(d), KDF_PASSCODE);
         w.(kept := w.kept + {PasscodeWrap(account, base, Random(d.nonce, NONCE_LEN), mk)}))
    case Send(order, salts, now) => Sent(w, order, salts, now)
    case Anyone(e) => w.(db := AuthRuns.Step(w.db, e))
  }

  function Run(w: World, moves: seq<Move>): World
    decreases |moves|
  {
    if moves == [] then w else Run(Next(w, moves[0]), moves[1..])
  }

  ghost predicate Honest(w: World, moves: seq<Move>)
    decreases |moves|
  {
    moves == [] || (Enabled(w, moves[0]) && Honest(Next(w, moves[0]), moves[1..]))
  }

  // ---------------------------------------------------------------- the invariant

  /** The wrap opens under its own credential to the account's master key. */
  ghost predicate Sound(w: World, k: Kept) {
    k.account in w.mk && OpenWith(k.credential, k.account, k.value) == Some(w.mk[k.account])
  }

  /** All password-side fields come from the base key `base`, all recovery-side ones from `rk`. */
  ghost predicate Fits(w: World, account: Guid, c: Credentials, base: Blob, rk: Blob) {
    && c.verifier == Stored(Hkdf(base, ForVerifier), c.sVerifier)
    && c.adminVerifier == Stored(Hkdf(base, ForAdmin), c.sAdminVerifier)
    && base.Kdf? && base.salt == c.sPwd && base.mode == c.kdfMode
    && Kept(account, ByPassword(base, 1), c.mkWrapPwd) in w.kept
    && c.rkVerifier == Stored(Hkdf(rk, ForRkVerifier), c.sRk)
    && Kept(account, ByRecoveryKey(rk, 1), c.mkWrapRk) in w.kept
    && c.schemaVer == 1
  }

  ghost predicate Coherent(w: World, account: Guid) {
    account in w.db.users && exists base, rk :: Fits(w, account, w.db.users[account].creds, base, rk)
  }

  /** The password half of an order is made from its base key around `mk`. */
  ghost predicate MadePwd(m: CryptoSet, account: Guid, schemaVer: int, base: Blob, mk: Blob) {
    && m.verifier == Hkdf(base, ForVerifier) && m.adminVerifier == Hkdf(base, ForAdmin)
    && base.Kdf? && base.salt == m.sPwd && base.mode == m.kdfMode
    && OpenPwd(base, schemaVer, account, m.mkWrapPwd) == Some(mk)
  }

  ghost predicate MadeRk(m: CryptoSet, account: Guid, schemaVer: int, rk: Blob, mk: Blob) {
    m.rkVerifier == Some(Hkdf(rk, ForRkVerifier)) && m.mkWrapRk.Some?
    && OpenRk(rk, schemaVer, account, m.mkWrapRk.value) == Some(mk)
  }

  ghost predicate Ready(w: World, order: Order) {
    match order
    case ToRegister(cmd, mk, base, rk) =>
      MadePwd(cmd.material, cmd.account, cmd.schemaVer, base, mk)
      && MadeRk(cmd.material, cmd.account, cmd.schemaVer, rk, mk)
    case ToChange(cmd, base) =>
      cmd.account in w.mk && cmd.material.rkVerifier.None? && cmd.material.mkWrapRk.None?
      && MadePwd(cmd.material, cmd.account, cmd.schemaVer, base, w.mk[cmd.account])
    case ToRecover(cmd, base, rk) =>
      cmd.account in w.mk && MadePwd(cmd.material, cmd.account, cmd.schemaVer, base, w.mk[cmd.account])
      && MadeRk(cmd.material, cmd.account, cmd.schemaVer, rk, w.mk[cmd.account])
  }

  ghost predicate AllSound(w: World) { forall k :: k in w.kept ==> Sound(w, k) }

  ghost predicate AllReady(w: World) { forall o :: o in w.outbox ==> Ready(w, o) }

  ghost predicate AllCoherent(w: World) { forall a :: a in w.mk ==> Coherent(w, a) }

  ghost predicate Inv(w: World) {
    w.mk.Keys <= w.db.users.Keys && AllSound(w) && AllReady(w) && AllCoherent(w)
  }

  /** Nothing a run has established about keys is lost: master keys and stored wraps stay. */
  ghost predicate Grows(w: World, v: World) {
    w.kept <= v.kept && w.mk.Keys <= v.mk.Keys && forall a :: a in w.mk ==> v.mk[a] == w.mk[a]
  }

  /** Whatever else opens a wrap opens it for the same account, to the same key. */
  lemma {:induction false} OtherCredentialAgrees(c: Credential, account: Guid, k: Kept)
    requires OpenWith(k.credential, k.account, k.value).Some? && OpenWith(c, account, k.value).Some?
    ensures account == k.account && OpenWith(c, account, k.value) == OpenWith(k.credential, k.account, k.value)
  {
    assert exists key, aad :: OpenWith(c, account, k.value) == Open(key, aad, k.value) && AccountOf(aad) == account;
    var x, a :| OpenWith(c, account, k.value) == Open(x, a, k.value) && AccountOf(a) == account;
    assert exists key, aad ::
        OpenWith(k.credential, k.account, k.value) == Open(key, aad, k.value) && AccountOf(aad) == k.account;
    var y, b :| OpenWith(k.credential, k.account, k.value) == Open(y, b, k.value) && AccountOf(b) == k.account;
    OpenIsUnique(x, a, y, b, k.value);
  }

  function AccountOf(a: Aad): Guid { a.account }

  /** A wrap that a client can hold and open gives the master key of that account. */
  lemma {:induction false} ObtainedOpensToMk(w: World, c: Credential, account: Guid, v: EncryptedValue)
    requires AllSound(w) && Obtainable(w, v) && OpenWith(c, account, v).Some?
    ensures account in w.mk && OpenWith(c, account, v) == Some(w.mk[account])
  {
    var k :| k in w.kept && k.value == v;
    assert Sound(w, k);
    OtherCredentialAgrees(c, account, k);
  }

  lemma {:induction false} SoundGrows(w: World, v: World)
    requires AllSound(w) && Grows(w, v) && forall k :: k in v.kept && k !in w.kept ==> Sound(v, k)
    ensures AllSound(v)
  {
    forall k | k in v.kept ensures Sound(v, k) {
      if k in w.kept {
        assert Sound(w, k);
      }
    }
  }

  lemma {:induction false} ReadyGrows(w: World, v: World)
    requires AllReady(w) && Grows(w, v) && forall o :: o in v.outbox && o !in w.outbox ==> Ready(v, o)
    ensures AllReady(v)
  {
    forall o | o in v.outbox ensures Ready(v, o) {
      if o in w.outbox {
        assert Ready(w, o);
      }
    }
  }

  lemma {:induction false} FitsGrows(w: World, v: World, account: Guid)
    requires Coherent(w, account) && w.kept <= v.kept
    requires account in v.db.users && v.db.users[account].creds == w.db.users[account].creds
    ensures Coherent(v, account)
  {
    var c := w.db.users[account].creds;
    var base, rk :| Fits(w, account, c, base, rk);
    assert Fits(v, account, c, base, rk);
  }

  lemma {:induction false} CoherentGrows(w: World, v: World)
    requires AllCoherent(w) && w.kept <= v.kept && v.mk == w.mk && w.mk.Keys <= w.db.users.Keys <= v.db.users.Keys
    requires forall a :: a in w.mk ==> v.db.users[a].creds == w.db.users[a].creds
    ensures AllCoherent(v)
  {
    forall a | a in v.mk ensures Coherent(v, a) {
      assert Coherent(w, a);
      FitsGrows(w, v, a);
    }
  }

  lemma {:induction false} OrderSound(w: World, order: Order)
    requires AllSound(w)
    ensures AllSound(w.(outbox := w.outbox + {order}))
  {
    SoundGrows(w, w.(outbox := w.outbox + {order}));
  }

  lemma {:induction false} OrderReady(w: World, order: Order)
    requires AllReady(w) && Ready(w, order)
    ensures AllReady(w.(outbox := w.outbox + {order}))
  {
    var v := w.(outbox := w.outbox + {order});
    assert Ready(v, order);
    ReadyGrows(w, v);
  }

  lemma {:induction false} OrderCoherent(w: World, order: Order)
    requires AllCoherent(w) && w.mk.Keys <= w.db.users.Keys
    ensures AllCoherent(w.(outbox := w.outbox + {order}))
  {
    CoherentGrows(w, w.(outbox := w.outbox + {order}));
  }

  lemma {:induction false} OrderAdded(w: World, order: Order)
    requires Inv(w) && Ready(w, order)
    ensures Inv(w.(outbox := w.outbox + {order})) && Grows(w, w.(outbox := w.outbox + {order}))
  {
    OrderSound(w, order);
    OrderReady(w, order);
    OrderCoherent(w, order);
  }

  lemma {:induction false} SoundWith(w: World, k: Kept)
    requires AllSound(w) && Sound(w, k)
    ensures AllSound(w.(kept := w.kept + {k}))
  {
    var v := w.(kept := w.kept + {k});
    assert Sound(v, k);
    SoundGrows(w, v);
  }

  lemma {:induction false} ReadyWith(w: World, k: Kept)
    requires AllReady(w)
    ensures AllReady(w.(kept := w.kept + {k}))
  {
    ReadyGrows(w, w.(kept := w.kept + {k}));
  }

  lemma {:induction false} CoherentWith(w: World, k: Kept)
    requires AllCoherent(w) && w.mk.Keys <= w.db.users.Keys
    ensures AllCoherent(w.(kept := w.kept + {k}))
  {
    CoherentGrows(w, w.(kept := w.kept + {k}));
  }

  lemma {:induction false} WrapAdded(w: World, k: Kept)
    requires Inv(w) && Sound(w, k)
    ensures Inv(w.(kept := w.kept + {k})) && Grows(w, w.(kept := w.kept + {k}))
  {
    SoundWith(w, k);
    ReadyWith(w, k);
    CoherentWith(w, k);
  }

  /** The parts of freshly built material. */
  lemma {:induction false} FullMaterialMade(password: string, mode: int, schemaVer: int, account: Guid, mk: Blob,
          d: Draws)
    ensures var m := FullMaterial(password, mode, schemaVer, account, mk, d);
            MadePwd(m, account, schemaVer, BaseKey(password, Salt(d), mode), mk)
            && MadeRk(m, account, schemaVer, NewRk(d), mk)
  {
  }

  lemma {:induction false} RekeyOrderReady(w: World, account: Guid, current: Blob, wrap: EncryptedValue, schemaVer: int,
          newPassword: string, newMode: int, d: Draws)
    requires AllSound(w) && Obtainable(w, wrap)
    ensures var order := RekeyOrder(account, current, wrap, schemaVer, newPassword, newMode, d);
            order.Some? ==> Ready(w, order.value)
  {
    if OpenPwd(current, schemaVer, account, wrap).Some? {
      ObtainedOpensToMk(w, ByPassword(current, schemaVer), account, wrap);
    }
  }

  lemma {:induction false} RecoverOrderReady(w: World, account: Guid, rk: Blob, wrap: EncryptedValue, schemaVer: int,
          newPassword: string, newMode: int, d: Draws)
    requires AllSound(w) && Obtainable(w, wrap)
    ensures var order := RecoverOrder(account, rk, wrap, schemaVer, newPassword, newMode, d);
            order.Some? ==> Ready(w, order.value)
  {
    if OpenRk(rk, schemaVer, account, wrap).Some? {
      ObtainedOpensToMk(w, ByRecoveryKey(rk, schemaVer), account, wrap);
      FullMaterialMade(newPassword, newMode, schemaVer, account, w.mk[account], d);
    }
  }

  lemma {:induction false} BuildKeepsInv(w: World, m: Move)
    requires Inv(w) && Enabled(w, m) && (m.BuildRegister? || m.BuildRekey? || m.BuildRecover?)
    ensures Inv(Next(w, m)) && Grows(w, Next(w, m))
  {
    match m
    case BuildRegister(account, password, mode, schemaVer, d) =>
      FullMaterialMade(password, mode, schemaVer, account, NewMk(d), d);
      OrderAdded(w, RegisterOrder(account, password, mode, schemaVer, d));
    case BuildRekey(account, current, wrap, schemaVer, newPassword, newMode, d) =>
      var order := RekeyOrder(account, current, wrap, schemaVer, newPassword, newMode, d);
      RekeyOrderReady(w, account, current, wrap, schemaVer, newPassword, newMode, d);
      if order.Some? {
        OrderAdded(w, order.value);
      }
    case BuildRecover(account, rk, wrap, schemaVer, newPassword, newMode, d) =>
      var order := RecoverOrder(account, rk, wrap, schemaVer, newPassword, newMode, d);
      RecoverOrderReady(w, account, rk, wrap, schemaVer, newPassword, newMode, d);
      if order.Some? {
        OrderAdded(w, order.value);
      }
  }

  function PasscodeWrap(account: Guid, base: Blob, nonce: Blob, mk: Blob): Kept {
    Kept(account, ByPasscode(base), Seal(Hkdf(base, ForPasscodeKek), nonce, LocalWrap(account), mk))
  }

  lemma {:induction false} PasscodeWrapOpens(account: Guid, base: Blob, nonce: Blob, mk: Blob)
    ensures var k := PasscodeWrap(account, base, nonce, mk); OpenWith(k.credential, k.account, k.value) == Some(mk)
  {
  }

  lemma {:induction false} ActivatedIsSound(w: World, account: Guid, current: Blob, schemaVer: int,
          wrap: EncryptedValue, base: Blob, nonce: Blob)
    requires AllSound(w) && Obtainable(w, wrap) && OpenPwd(current, schemaVer, account, wrap).Some?
    ensures account in w.mk && OpenPwd(current, schemaVer, account, wrap) == Some(w.mk[account])
    ensures Sound(w, PasscodeWrap(account, base, nonce, w.mk[account]))
  {
    ObtainedOpensToMk(w, ByPassword(current, schemaVer), account, wrap);
    PasscodeWrapOpens(account, base, nonce, w.mk[account]);
  }

  lemma {:induction false} ActivateKeepsInv(w: World, m: Move)
    requires Inv(w) && Enabled(w, m) && m.Activate?
    ensures Inv(Next(w, m)) && Grows(w, Next(w, m))
  {
    hide AllSound, AllReady, AllCoherent, Grows, PasscodeWrap, Obtainable, Sound;
    if OpenPwd(m.current, m.schemaVer, m.account, m.wrap).Some? {
      var base, nonce := BaseKey(m.passcode, Salt(m.d), KDF_PASSCODE), Random(m.d.nonce, NONCE_LEN);
      ActivatedIsSound(w, m.account, m.current, m.schemaVer, m.wrap, base, nonce);
      WrapAdded(w, PasscodeWrap(m.account, base, nonce, w.mk[m.account]));
    } else {
      GrowsItself(w);
    }
  }

  lemma {:induction false} GrowsItself(w: World)
    ensures Grows(w, w)
  {
  }

  ghost predicate KeepsCreds(db: Db, after: Db, except: Option<Guid>) {
    && db.users.Keys <= after.users.Keys
    && forall a :: a in db.users && except != Some(a) ==> after.users[a].creds == db.users[a].creds
  }

  lemma {:induction false} RegisterFrame(db: Db, cmd: RegisterCommand, s: Salts)
    ensures var (after, reply) := Register(db, cmd, s);
            KeepsCreds(db, after, if reply.Ok? then Some(cmd.account) else None)
  {
  }

  lemma {:induction false} ChangeFrame(db: Db, cmd: ChangePasswordCommand, s: Salts, now: Time)
    ensures var (after, reply) := ChangePassword(db, cmd, s, now);
            KeepsCreds(db, after, if reply.Ok? then Some(cmd.account) else None)
  {
  }

  lemma {:induction false} RecoverFrame(db: Db, cmd: RecoverCommand, s: Salts, now: Time)
    ensures var (after, reply) := Recover(db, cmd, s, now);
            KeepsCreds(db, after, if reply.Ok? then Some(cmd.account) else None)
  {
  }

  /** A call leaves the credentials of every account but the one it replaces them for. */
  lemma {:induction false} CredentialsFrame(db: Db, e: Event)
    ensures KeepsCreds(db, Step(db, e), Replaces(db, e))
  {
    hide Register, ChangePassword, Recover;
    match e
    case DoRegister(cmd, s, _) => RegisterFrame(db, cmd, s);
    case DoChangePassword(cmd, s, now) => ChangeFrame(db, cmd, s, now);
    case DoRecover(cmd, s, now) => RecoverFrame(db, cmd, s, now);
    case _ =>
  }

  lemma {:induction false} AnyoneKeepsInv(w: World, m: Move)
    requires Inv(w) && Enabled(w, m) && m.Anyone?
    ensures Inv(Next(w, m)) && Grows(w, Next(w, m))
  {
    FrameKeepsInv(w, m.event);
  }

  lemma {:induction false} FrameKeepsInv(w: World, e: Event)
    requires Inv(w) && Foreign(w, e)
    ensures Inv(w.(db := Step(w.db, e))) && Grows(w, w.(db := Step(w.db, e)))
  {
    var v := w.(db := Step(w.db, e));
    CredentialsFrame(w.db, e);
    SoundGrows(w, v);
    ReadyGrows(w, v);
    CoherentGrows(w, v);
  }

  lemma {:induction false} NewCredentialsFit(v: World, account: Guid, m: CryptoSet, s: Salts, base: Blob, rk: Blob,
          mk: Blob)
    requires MadePwd(m, account, 1, base, mk) && MadeRk(m, account, 1, rk, mk)
    requires PasswordWrap(account, base, 1, m) in v.kept && RecoveryWrap(account, rk, 1, m) <= v.kept
    ensures Fits(v, account, NewCredentials(m, 1, s), base, rk)
  {
    assert Kept(account, ByRecoveryKey(rk, 1), m.mkWrapRk.value) in v.kept;
  }

  lemma {:induction false} ChangedCredentialsFit(w: World, v: World, account: Guid, c: Credentials, m: CryptoSet,
          s: Salts, base: Blob, oldBase: Blob, rk: Blob, mk: Blob)
    requires Fits(w, account, c, oldBase, rk) && w.kept <= v.kept
    requires MadePwd(m, account, 1, base, mk) && m.rkVerifier.None? && PasswordWrap(account, base, 1, m) in v.kept
    ensures Fits(v, account, ChangedCredentials(c, m, 1, s), base, rk)
  {
  }

  /** The wraps an accepted order stores are sound. */
  lemma {:induction false} StoredWrapsSound(w: World, v: World, account: Guid, m: CryptoSet, base: Blob, rk: Blob)
    requires account in v.mk && MadePwd(m, account, 1, base, v.mk[account])
    requires m.mkWrapRk.Some? ==> MadeRk(m, account, 1, rk, v.mk[account])
    requires v.kept <= w.kept + {PasswordWrap(account, base, 1, m)} + RecoveryWrap(account, rk, 1, m)
    ensures forall k :: k in v.kept && k !in w.kept ==> Sound(v, k)
  {
  }

  /** What each accepted order does to the stored accounts. */
  lemma {:induction false} RegisterEffect(db: Db, cmd: RegisterCommand, s: Salts)
    requires Register(db, cmd, s).1.Ok?
    ensures cmd.schemaVer == 1 && cmd.account !in db.users
    ensures cmd.material.rkVerifier.Some? && cmd.material.mkWrapRk.Some?
    ensures var after := Register(db, cmd, s).0.users;
            && after.Keys == db.users.Keys + {cmd.account}
            && after[cmd.account].creds == NewCredentials(cmd.material, 1, s)
            && forall a :: a in db.users && a != cmd.account ==> after[a] == db.users[a]
  {
  }

  lemma {:induction false} ChangeEffect(db: Db, cmd: ChangePasswordCommand, s: Salts, now: Time)
    requires ChangePassword(db, cmd, s, now).1.Ok?
    ensures cmd.schemaVer == 1 && cmd.account in db.users
    ensures var after := ChangePassword(db, cmd, s, now).0.users;
            && after.Keys == db.users.Keys
            && after[cmd.account].creds == ChangedCredentials(db.users[cmd.account].creds, cmd.material, 1, s)
            && forall a :: a in db.users && a != cmd.account ==> after[a] == db.users[a]
  {
  }

  lemma {:induction false} RecoverEffect(db: Db, cmd: RecoverCommand, s: Salts, now: Time)
    requires Recover(db, cmd, s, now).1.Ok?
    ensures cmd.schemaVer == 1 && cmd.account in db.users
    ensures cmd.material.rkVerifier.Some? && cmd.material.mkWrapRk.Some?
    ensures var after := Recover(db, cmd, s, now).0.users;
            && after.Keys == db.users.Keys
            && after[cmd.account].creds == NewCredentials(cmd.material, 1, s)
            && forall a :: a in db.users && a != cmd.account ==> after[a] == db.users[a]
  {
  }

  /** The accepted orders keep the stored wraps sound. */
  lemma {:induction false} FullWrapsSound(w: World, v: World, account: Guid, m: CryptoSet, base: Blob, rk: Blob)
    requires AllSound(w) && Grows(w, v) && account in v.mk
    requires MadePwd(m, account, 1, base, v.mk[account]) && MadeRk(m, account, 1, rk, v.mk[account])
    requires v.kept == w.kept + {PasswordWrap(account, base, 1, m)} + RecoveryWrap(account, rk, 1, m)
    ensures AllSound(v)
  {
    StoredWrapsSound(w, v, account, m, base, rk);
    SoundGrows(w, v);
  }

  lemma {:induction false} PasswordWrapsSound(w: World, v: World, account: Guid, m: CryptoSet, base: Blob)
    requires AllSound(w) && Grows(w, v) && account in v.mk && MadePwd(m, account, 1, base, v.mk[account])
    requires v.kept == w.kept + {PasswordWrap(account, base, 1, m)}
    ensures AllSound(v)
  {
    PasswordWrapSound(w, v, account, m, base);
    SoundGrows(w, v);
  }

  lemma {:induction false} RegisterSent(w: World, order: Order, salts: Salts, now: Time)
    requires order.ToRegister? && Register(w.db, order.register, salts).1.Ok? && order.register.schemaVer == 1
    ensures var cmd, v := order.register, Sent(w, order, salts, now);
            && v.db == Register(w.db, cmd, salts).0 && v.mk == w.mk[cmd.account := order.mk] && v.outbox == w.outbox
            && v.kept == w.kept + {PasswordWrap(cmd.account, order.base, 1, cmd.material)}
                         + RecoveryWrap(cmd.account, order.rk, 1, cmd.material)
  {
  }

  lemma {:induction false} RegisterKeepsInv(w: World, order: Order, salts: Salts, now: Time)
    requires Inv(w) && order in w.outbox && order.ToRegister?
    ensures Inv(Sent(w, order, salts, now)) && Grows(w, Sent(w, order, salts, now))
  {
    var cmd, v := order.register, Sent(w, order, salts, now);
    if Register(w.db, cmd, salts).1.Err? {
      FrameKeepsInv(w, DoRegister(cmd, salts, now));
    } else {
      assert Ready(w, order);
      RegisterEffect(w.db, cmd, salts);
      RegisterSent(w, order, salts, now);
      RegistrationGrows(w, v, cmd.account, order.mk);
      FullWrapsSound(w, v, cmd.account, cmd.material, order.base, order.rk);
      ReadyGrows(w, v);
      FullyReplaced(w, v, cmd.account, cmd.material, salts, order.base, order.rk, order.mk);
    }
  }

  lemma {:induction false} RegistrationGrows(w: World, v: World, account: Guid, mk: Blob)
    requires account !in w.mk && v.mk == w.mk[account := mk] && w.kept <= v.kept
    ensures Grows(w, v) && v.mk.Keys == w.mk.Keys + {account} && v.mk[account] == mk
  {
  }

  lemma {:induction false} ChangeSent(w: World, order: Order, salts: Salts, now: Time)
    requires order.ToChange? && ChangePassword(w.db, order.change, salts, now).1.Ok? && order.change.schemaVer == 1
    ensures var cmd, v := order.change, Sent(w, order, salts, now);
            && v.db == ChangePassword(w.db, cmd, salts, now).0 && v.mk == w.mk && v.outbox == w.outbox
            && v.kept == w.kept + {PasswordWrap(cmd.account, order.base, 1, cmd.material)}
  {
  }

  /** An accepted order adds its wraps and replaces its account; what that needs for the invariant. */
  lemma {:induction false} AcceptedKeepsInv(w: World, v: World)
    requires Inv(w) && Grows(w, v) && v.mk.Keys <= v.db.users.Keys && v.outbox == w.outbox
    requires AllSound(v) && AllCoherent(v)
    ensures Inv(v)
  {
    ReadyGrows(w, v);
  }

  lemma {:induction false} ChangeAcceptedKeepsInv(w: World, order: Order, salts: Salts, now: Time)
    requires Inv(w) && order.ToChange? && Ready(w, order) && ChangePassword(w.db, order.change, salts, now).1.Ok?
    ensures Inv(Sent(w, order, salts, now)) && Grows(w, Sent(w, order, salts, now))
  {
    var cmd, v := order.change, Sent(w, order, salts, now);
    ChangeEffect(w.db, cmd, salts, now);
    ChangeSent(w, order, salts, now);
    SameKeysGrow(w, v);
    PasswordWrapsSound(w, v, cmd.account, cmd.material, order.base);
    PasswordReplacement(w, v, cmd.account, cmd.material, salts, order.base);
    AcceptedKeepsInv(w, v);
  }

  /** A refused order is a call that replaces nothing. */
  lemma {:induction false} RefusedChange(w: World, order: Order, salts: Salts, now: Time)
    requires order.ToChange? && ChangePassword(w.db, order.change, salts, now).1.Err?
    ensures Sent(w, order, salts, now) == w.(db := Step(w.db, DoChangePassword(order.change, salts, now)))
    ensures Foreign(w, DoChangePassword(order.change, salts, now))
  {
  }

  lemma {:induction false} RefusedRecovery(w: World, order: Order, salts: Salts, now: Time)
    requires order.ToRecover? && Recover(w.db, order.recover, salts, now).1.Err?
    ensures Sent(w, order, salts, now) == w.(db := Step(w.db, DoRecover(order.recover, salts, now)))
    ensures Foreign(w, DoRecover(order.recover, salts, now))
  {
  }

  lemma {:induction false} ChangeKeepsInv(w: World, order: Order, salts: Salts, now: Time)
    requires Inv(w) && order in w.outbox && order.ToChange?
    ensures Inv(Sent(w, order, salts, now)) && Grows(w, Sent(w, order, salts, now))
  {
    if ChangePassword(w.db, order.change, salts, now).1.Err? {
      RefusedChange(w, order, salts, now);
      FrameKeepsInv(w, DoChangePassword(order.change, salts, now));
    } else {
      assert Ready(w, order);
      ChangeAcceptedKeepsInv(w, order, salts, now);
    }
  }

  lemma {:induction false} ChangedStaysCoherent(w: World, v: World, account: Guid, m: CryptoSet, s: Salts, base: Blob)
    requires Coherent(w, account) && w.kept <= v.kept && account in v.db.users && account in v.mk
    requires MadePwd(m, account, 1, base, v.mk[account]) && m.rkVerifier.None?
    requires PasswordWrap(account, base, 1, m) in v.kept
    requires v.db.users[account].creds == ChangedCredentials(w.db.users[account].creds, m, 1, s)
    ensures Coherent(v, account)
  {
    var c := w.db.users[account].creds;
    var oldBase, rk :| Fits(w, account, c, oldBase, rk);
    ChangedCredentialsFit(w, v, account, c, m, s, base, oldBase, rk, v.mk[account]);
  }

  lemma {:induction false} PasswordWrapSound(w: World, v: World, account: Guid, m: CryptoSet, base: Blob)
    requires account in v.mk && MadePwd(m, account, 1, base, v.mk[account])
    requires v.kept == w.kept + {PasswordWrap(account, base, 1, m)}
    ensures forall k :: k in v.kept && k !in w.kept ==> Sound(v, k)
  {
  }

  lemma {:induction false} OneAccountReplaced(w: World, v: World, account: Guid)
    requires AllCoherent(w) && w.kept <= v.kept && account in v.db.users
    requires v.mk.Keys <= w.mk.Keys + {account} && w.mk.Keys <= w.db.users.Keys <= v.db.users.Keys
    requires forall a :: a in w.db.users && a != account ==> v.db.users[a] == w.db.users[a]
    requires Coherent(v, account)
    ensures AllCoherent(v)
  {
    forall a | a in v.mk ensures Coherent(v, a) {
      if a != account {
        assert Coherent(w, a);
        FitsGrows(w, v, a);
      }
    }
  }

  lemma {:induction false} PasswordReplacement(w: World, v: World, account: Guid, m: CryptoSet, s: Salts, base: Blob)
    requires AllCoherent(w) && w.kept <= v.kept && account in w.mk && v.mk == w.mk
    requires w.mk.Keys <= w.db.users.Keys && v.db.users.Keys == w.db.users.Keys
    requires forall a :: a in w.db.users && a != account ==> v.db.users[a] == w.db.users[a]
    requires MadePwd(m, account, 1, base, v.mk[account]) && m.rkVerifier.None?
    requires PasswordWrap(account, base, 1, m) in v.kept
    requires v.db.users[account].creds == ChangedCredentials(w.db.users[account].creds, m, 1, s)
    ensures AllCoherent(v)
  {
    assert Coherent(w, account);
    ChangedStaysCoherent(w, v, account, m, s, base);
    OneAccountReplaced(w, v, account);
  }

  lemma {:induction false} FullyReplaced(w: World, v: World, account: Guid, m: CryptoSet, s: Salts, base: Blob,
          rk: Blob, mk: Blob)
    requires AllCoherent(w) && w.kept <= v.kept && account in v.db.users
    requires v.mk.Keys <= w.mk.Keys + {account} && w.mk.Keys <= w.db.users.Keys <= v.db.users.Keys
    requires forall a :: a in w.db.users && a != account ==> v.db.users[a] == w.db.users[a]
    requires MadePwd(m, account, 1, base, mk) && MadeRk(m, account, 1, rk, mk)
    requires PasswordWrap(account, base, 1, m) in v.kept && RecoveryWrap(account, rk, 1, m) <= v.kept
    requires v.db.users[account].creds == NewCredentials(m, 1, s)
    ensures AllCoherent(v)
  {
    NewCredentialsFit(v, account, m, s, base, rk, mk);
    OneAccountReplaced(w, v, account);
  }

  lemma {:induction false} RecoverIsReady(w: World, order: Order)
    requires AllReady(w) && order in w.outbox && order.ToRecover?
    ensures var cmd := order.recover;
            && cmd.account in w.mk && MadePwd(cmd.material, cmd.account, cmd.schemaVer, order.base, w.mk[cmd.account])
            && MadeRk(cmd.material, cmd.account, cmd.schemaVer, order.rk, w.mk[cmd.account])
  {
    assert Ready(w, order);
  }

  lemma {:induction false} SameKeysGrow(w: World, v: World)
    requires v.mk == w.mk && w.kept <= v.kept
    ensures Grows(w, v)
  {
  }

  lemma {:induction false} RecoverSent(w: World, order: Order, salts: Salts, now: Time)
    requires order.ToRecover? && Recover(w.db, order.recover, salts, now).1.Ok? && order.recover.schemaVer == 1
    ensures var cmd, v := order.recover, Sent(w, order, salts, now);
            && v.db == Recover(w.db, cmd, salts, now).0 && v.mk == w.mk && v.outbox == w.outbox
            && v.kept == w.kept + {PasswordWrap(cmd.account, order.base, 1, cmd.material)}
                         + RecoveryWrap(cmd.account, order.rk, 1, cmd.material)
  {
  }

  lemma {:induction false} RecoverAcceptedKeepsInv(w: World, order: Order, salts: Salts, now: Time)
    requires Inv(w) && order.ToRecover? && order in w.outbox && Recover(w.db, order.recover, salts, now).1.Ok?
    ensures Inv(Sent(w, order, salts, now)) && Grows(w, Sent(w, order, salts, now))
  {
    var cmd, v := order.recover, Sent(w, order, salts, now);
    RecoverIsReady(w, order);
    RecoverEffect(w.db, cmd, salts, now);
    RecoverSent(w, order, salts, now);
    SameKeysGrow(w, v);
    FullWrapsSound(w, v, cmd.account, cmd.material, order.base, order.rk);
    FullyReplaced(w, v, cmd.account, cmd.material, salts, order.base, order.rk, w.mk[cmd.account]);
    AcceptedKeepsInv(w, v);
  }

  lemma {:induction false} RecoverKeepsInv(w: World, order: Order, salts: Salts, now: Time)
    requires Inv(w) && order in w.outbox && order.ToRecover?
    ensures Inv(Sent(w, order, salts, now)) && Grows(w, Sent(w, order, salts, now))
  {
    if Recover(w.db, order.recover, salts, now).1.Err? {
      RefusedRecovery(w, order, salts, now);
      FrameKeepsInv(w, DoRecover(order.recover, salts, now));
    } else {
      RecoverAcceptedKeepsInv(w, order, salts, now);
    }
  }

  lemma {:induction false} NextKeepsInv(w: World, m: Move)
    requires Inv(w) && Enabled(w, m)
    ensures Inv(Next(w, m)) && Grows(w, Next(w, m))
  {
    match m
    case Activate(_, _, _, _, _, _) => ActivateKeepsInv(w, m);
    case Anyone(_) => AnyoneKeepsInv(w, m);
    case Send(order, salts, now) =>
      match order {
        case ToRegister(_, _, _, _) => RegisterKeepsInv(w, order, salts, now);
        case ToChange(_, _) => ChangeKeepsInv(w, order, salts, now);
        case ToRecover(_, _, _) => RecoverKeepsInv(w, order, salts, now);
      }
    case _ => BuildKeepsInv(w, m);
  }

  lemma {:induction false} RunKeepsInv(w: World, moves: seq<Move>)
    requires Inv(w) && Honest(w, moves)
    ensures Inv(Run(w, moves)) && Grows(w, Run(w, moves))
    decreases |moves|
  {
    if moves != [] {
      NextKeepsInv(w, moves[0]);
      RunKeepsInv(Next(w, moves[0]), moves[1..]);
    }
  }

  // ---------------------------------------------------------------- main results

  const Start: World := World(Db(map[], []), map[], {}, {})

  /** Over any honest run, every wrap stored so far, current or outdated, opens under its own
      credential to the master key drawn at registration, also after any continuation. */
  lemma {:induction false} MasterKeyPreserved(moves: seq<Move>, later: seq<Move>, k: Kept)
    requires Honest(Start, moves) && Honest(Run(Start, moves), later) && k in Run(Start, moves).kept
    ensures var w, v := Run(Start, moves), Run(Run(Start, moves), later);
            && k in v.kept && k.account in w.mk && k.account in v.mk && v.mk[k.account] == w.mk[k.account]
            && OpenWith(k.credential, k.account, k.value) == Some(w.mk[k.account])
  {
    RunKeepsInv(Start, moves);
    RunKeepsInv(Run(Start, moves), later);
    assert Sound(Run(Start, moves), k);
  }

  /** Whatever credential a client tries on a stored wrap, under whatever account: it either fails or
      gives that account's one vault key. */
  lemma {:induction false} EveryUnlockGivesTheVaultKey(w: World, k: Kept, c: Credential, account: Guid)
    requires Inv(w) && k in w.kept && OpenWith(c, account, k.value).Some?
    ensures account in w.mk && VaultKey(OpenWith(c, account, k.value).value) == VaultKey(w.mk[account])
  {
    ObtainedOpensToMk(w, c, account, k.value);
  }

  /** Proofs that match a coherent account come from the secrets that open its current wraps. */
  lemma {:induction false} MatchingProofOpens(w: World, account: Guid, secret: Blob)
    requires AllSound(w) && Coherent(w, account)
    ensures var u := w.db.users[account];
            && (LoginMatches(u, Hkdf(secret, ForVerifier)) || AdminMatches(u, Hkdf(secret, ForAdmin)) ==>
                  account in w.mk && OpenPwd(secret, 1, account, u.creds.mkWrapPwd) == Some(w.mk[account]))
            && (RkMatches(u, Hkdf(secret, ForRkVerifier)) ==>
                  account in w.mk && OpenRk(secret, 1, account, u.creds.mkWrapRk) == Some(w.mk[account]))
            && u.creds.schemaVer == 1
            && Obtainable(w, u.creds.mkWrapPwd) && Obtainable(w, u.creds.mkWrapRk)
  {
    var c := w.db.users[account].creds;
    var base, rk :| Fits(w, account, c, base, rk);
    assert Sound(w, Kept(account, ByPassword(base, 1), c.mkWrapPwd));
    assert Sound(w, Kept(account, ByRecoveryKey(rk, 1), c.mkWrapRk));
  }

  lemma {:induction false} LoginReturnsStoredWrap(db: Db, cmd: LoginCommand, jti: seq<byte>, raw: seq<byte>, now: Time)
    requires Login(db, cmd, jti, raw, now).1.Ok?
    ensures cmd.account in db.users && LoginMatches(db.users[cmd.account], cmd.verifier)
    ensures Login(db, cmd, jti, raw, now).1.value.mkWrapPwd == db.users[cmd.account].creds.mkWrapPwd
  {
  }

  /** A login proof the server accepts comes from the base key that opens the wrap it returns. */
  lemma {:induction false} AcceptedLoginUnlocks(w: World, account: Guid, base: Blob, jti: seq<byte>, raw: seq<byte>,
          now: Time)
    requires Inv(w) && Ours(w, account)
    requires Login(w.db, LoginCommand(account, Hkdf(base, ForVerifier)), jti, raw, now).1.Ok?
    ensures var reply := Login(w.db, LoginCommand(account, Hkdf(base, ForVerifier)), jti, raw, now).1.value;
            account in w.mk
            && OpenPwd(base, PreLoginReply(w.db, account).schemaVer, account, reply.mkWrapPwd) == Some(w.mk[account])
  {
    LoginReturnsStoredWrap(w.db, LoginCommand(account, Hkdf(base, ForVerifier)), jti, raw, now);
    assert Coherent(w, account);
    MatchingProofOpens(w, account, base);
  }

  lemma {:induction false} AcceptedAdminProofUnlocks(w: World, account: Guid, base: Blob, now: Time)
    requires Inv(w) && Ours(w, account) && GetWraps(w.db, WrapsCommand(account, Hkdf(base, ForAdmin)), now).1.Ok?
    ensures var reply := GetWraps(w.db, WrapsCommand(account, Hkdf(base, ForAdmin)), now).1.value;
            account in w.mk && reply.schemaVer == 1 && OpenPwd(base, 1, account, reply.mkWrapPwd) == Some(w.mk[account])
            && Obtainable(w, reply.mkWrapPwd)
  {
    assert Coherent(w, account);
    MatchingProofOpens(w, account, base);
  }

  lemma {:induction false} MadeUpWrapsNeverOpen(account: Guid, seed: Blob, rk: Blob, schemaVer: int)
    ensures OpenRk(rk, schemaVer, account, FakeWraps(account, seed).mkWrapRk).None?
    ensures FakeWraps(account, seed).mkWrapRk.cipherText.Fake?
  {
  }

  /** The recovery wrap a client is shown opens under its recovery key exactly when the server
      accepted the proof, and then to the account's master key. */
  lemma {:induction false} RecoveryWrapOpensExactlyWhenAccepted(w: World, account: Guid, rk: Blob, now: Time)
    requires Inv(w) && Ours(w, account)
    ensures var shown := GetRecoveryWraps(w.db, account, Hkdf(rk, ForRkVerifier), now).1;
            && Obtainable(w, shown.mkWrapRk)
            && (RecoveryAccepted(w.db, account, Hkdf(rk, ForRkVerifier), now) <==>
                  OpenRk(rk, shown.schemaVer, account, shown.mkWrapRk).Some?)
            && (OpenRk(rk, shown.schemaVer, account, shown.mkWrapRk).Some? ==>
                  account in w.mk && OpenRk(rk, shown.schemaVer, account, shown.mkWrapRk) == Some(w.mk[account]))
  {
    var proof := Hkdf(rk, ForRkVerifier);
    if RecoveryAccepted(w.db, account, proof, now) {
      assert Coherent(w, account);
      MatchingProofOpens(w, account, rk);
    } else {
      assert GetRecoveryWraps(w.db, account, proof, now).1 == FakeWraps(account, proof);
      MadeUpWrapsNeverOpen(account, proof, rk, 1);
    }
  }

  lemma {:induction false} SoundWrapsAgree(w: World, v: World, k: Kept, other: Kept)
    requires Sound(w, k) && Sound(v, other) && Grows(w, v) && k.account == other.account
    ensures OpenWith(k.credential, k.account, k.value) == OpenWith(other.credential, k.account, other.value)
    ensures OpenWith(k.credential, k.account, k.value).Some?
  {
  }

  /** An entry sealed under the vault key of one stored wrap opens under the vault key of any other
      wrap of the account, also one made by a later password change or recovery. */
  lemma {:induction false} EntriesSurviveKeyChanges(w: World, moves: seq<Move>, k: Kept, other: Kept, nonce: Blob,
          aad: Aad, plain: Blob)
    requires Inv(w) && Honest(w, moves) && k in w.kept
    requires other in Run(w, moves).kept && other.account == k.account
    ensures var before := OpenWith(k.credential, k.account, k.value);
            var after := OpenWith(other.credential, k.account, other.value);
            && before.Some? && after.Some?
            && Open(VaultKey(after.value), aad, Seal(VaultKey(before.value), nonce, aad, plain)) == Some(plain)
  {
    RunKeepsInv(w, moves);
    assert Sound(w, k) && Sound(Run(w, moves), other);
    SoundWrapsAgree(w, Run(w, moves), k, other);
  }
}
