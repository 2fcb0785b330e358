/** Password changes and recoveries that overlap. Either loads the account, checks the proof against what it
    loaded, and saves the columns that changed over whatever is stored by then. */
module CredentialInterleaving {
  import opened Prelude
  import opened Crypto
  import opened UserEntity
  import opened TokenTable
  import opened AuthCommands
  import opened AuthService
  import opened CryptoWorker
  import LockoutPolicy
  import AuthRuns
  import Attempts = AttemptInterleaving
  import K = KeyLadder

  /** A change or recovery whose proof was accepted, between loading the account and saving it. */
  datatype Loaded = Loaded(seen: Account, order: K.Order, salts: Salts, now: Time)

  datatype World = World(ladder: K.World, loaded: map<nat, Loaded>)

  datatype Move =
    | Ladder(move: K.Move)
    | Load(id: nat, order: K.Order, salts: Salts, now: Time)
    | Save(id: nat)

  predicate Replacing(order: K.Order) { order.ToChange? || order.ToRecover? }

  function Target(order: K.Order): Guid {
    match order
    case ToRegister(cmd, _, _, _) => cmd.account
    case ToChange(cmd, _) => cmd.account
    case ToRecover(cmd, _, _) => cmd.account
  }

  function Material(order: K.Order): CryptoSet {
    match order
    case ToRegister(cmd, _, _, _) => cmd.material
    case ToChange(cmd, _) => cmd.material
    case ToRecover(cmd, _, _) => cmd.material
  }

  /** The server accepts the order. */
  predicate Goes(db: Db, order: K.Order, salts: Salts, now: Time) {
    match order
    case ToRegister(_, _, _, _) => false
    case ToChange(cmd, _) => ChangePassword(db, cmd, salts, now).1.Ok?
    case ToRecover(cmd, _, _) => Recover(db, cmd, salts, now).1.Ok?
  }

  /** What an accepted order makes of the credentials `c`. */
  function Assigned(c: Credentials, order: K.Order, s: Salts): Credentials {
    match order
    case ToRegister(_, _, _, _) => c
    case ToChange(cmd, _) => ChangedCredentials(c, cmd.material, 1, s)
    case ToRecover(cmd, _, _) =>
      if cmd.material.rkVerifier.Some? && cmd.material.mkWrapRk.Some? then NewCredentials(cmd.material, 1, s) else c
  }

  function Pick<T(==)>(stored: T, seen: T, changed: T): T { if changed == seen then stored else changed }

  /** The save of credentials loaded as `seen` and changed to `changed`. */
  function Written(stored: Credentials, seen: Credentials, changed: Credentials): Credentials {
    Credentials(
      Pick(stored.verifier, seen.verifier, changed.verifier),
      Pick(stored.sVerifier, seen.sVerifier, changed.sVerifier),
      Pick(stored.adminVerifier, seen.adminVerifier, changed.adminVerifier),
      Pick(stored.sAdminVerifier, seen.sAdminVerifier, changed.sAdminVerifier),
      Pick(stored.rkVerifier, seen.rkVerifier, changed.rkVerifier),
      Pick(stored.sRk, seen.sRk, changed.sRk),
      Pick(stored.sPwd, seen.sPwd, changed.sPwd),
      Pick(stored.kdfMode, seen.kdfMode, changed.kdfMode),
      Pick(stored.mkWrapPwd, seen.mkWrapPwd, changed.mkWrapPwd),
      Pick(stored.mkWrapRk, seen.mkWrapRk, changed.mkWrapRk),
      Pick(stored.schemaVer, seen.schemaVer, changed.schemaVer))
  }

  function SavedCredentials(stored: Credentials, l: Loaded): Credentials {
    Written(stored, l.seen.creds, Assigned(l.seen.creds, l.order, l.salts))
  }

  /** The wraps an accepted order stores. */
  function NewWraps(order: K.Order): set<K.Kept> {
    match order
    case ToRegister(_, _, _, _) => {}
    case ToChange(cmd, base) => {K.PasswordWrap(cmd.account, base, 1, cmd.material)}
    case ToRecover(cmd, base, rk) =>
      {K.PasswordWrap(cmd.account, base, 1, cmd.material)} + K.RecoveryWrap(cmd.account, rk, 1, cmd.material)
  }

  /** The account replaced, its sessions ended, the order's wraps stored. */
  function Replaced(k: K.World, l: Loaded, creds: Credentials): K.World
    requires Target(l.order) in k.db.users
  {
    var a := Target(l.order);
    var lock := Attempts.Written(k.db.users[a].lock, l.seen.lock, LockoutPolicy.Clear);
    var u := k.db.users[a].(creds := creds, lock := lock);
    k.(db := Db(k.db.users[a := u], Apply(k.db.rows, RevokeAll(a, l.now))), kept := k.kept + NewWraps(l.order))
  }

  function Saved(k: K.World, l: Loaded): K.World {
    if Target(l.order) !in k.db.users then k
    else Replaced(k, l, SavedCredentials(k.db.users[Target(l.order)].creds, l))
  }

  function Next(w: World, m: Move): World {
    match m
    case Ladder(k) => w.(ladder := K.Next(w.ladder, k))
    case Load(id, order, salts, now) =>
      if Goes(w.ladder.db, order, salts, now) && Target(order) in w.ladder.db.users
      then w.(loaded := w.loaded[id := Loaded(w.ladder.db.users[Target(order)], order, salts, now)])
      else w.(ladder := K.Next(w.ladder, K.Send(order, salts, now)))
    case Save(id) => if id !in w.loaded then w else World(Saved(w.ladder, w.loaded[id]), w.loaded - {id})
  }

  function Run(w: World, moves: seq<Move>): World
    decreases |moves|
  {
    if moves == [] then w else Run(Next(w, moves[0]), moves[1..])
  }

  /** The salts and wraps an order brings were drawn after the account was loaded. */
  predicate NewDraws(l: Loaded) {
    var c, m := l.seen.creds, Material(l.order);
    && l.salts.verifier != c.sVerifier && l.salts.admin != c.sAdminVerifier
    && m.sPwd != c.sPwd && m.mkWrapPwd != c.mkWrapPwd
    && (l.order.ToRecover? ==> l.salts.rk != c.sRk && m.mkWrapRk != Some(c.mkWrapRk))
  }

  ghost predicate Enabled(w: World, m: Move) {
    match m
    case Ladder(k) => K.Enabled(w.ladder, k)
    case Load(id, order, salts, now) =>
      && id !in w.loaded && order in w.ladder.outbox && Replacing(order)
      && (Target(order) in w.ladder.db.users ==>
            NewDraws(Loaded(w.ladder.db.users[Target(order)], order, salts, now)))
    case Save(_) => true
  }

  ghost predicate Honest(w: World, moves: seq<Move>)
    decreases |moves|
  {
    moves == [] || (Enabled(w, moves[0]) && Honest(Next(w, moves[0]), moves[1..]))
  }

  /** A save that finds the account as it was loaded is the order sent at once. */
  lemma {:induction false} UndisturbedSave(k: K.World, l: Loaded)
    requires Goes(k.db, l.order, l.salts, l.now) && Target(l.order) in k.db.users
    requires l.seen == k.db.users[Target(l.order)]
    ensures Saved(k, l) == K.Next(k, K.Send(l.order, l.salts, l.now))
  {
  }

  // ---------------------------------------------------------------- the same world but for the modes

  predicate SameUser(u: Account, v: Account) { v == u.(creds := u.creds.(kdfMode := v.creds.kdfMode)) }

  ghost predicate SameUsers(users: map<Guid, Account>, others: map<Guid, Account>) {
    users.Keys == others.Keys && forall a :: a in users ==> SameUser(users[a], others[a])
  }

  ghost predicate Mirrors(w: K.World, v: K.World) {
    && SameUsers(w.db.users, v.db.users) && w.db.rows == v.db.rows
    && w.mk == v.mk && w.kept == v.kept && w.outbox == v.outbox
  }

  /** But for the modes the server stores, everything about keys is in order. */
  ghost predicate SoundButModes(w: K.World) { exists v :: K.Inv(v) && Mirrors(w, v) }

  lemma {:induction false} RegisterMirrors(db: Db, other: Db, cmd: RegisterCommand, s: Salts)
    requires SameUsers(db.users, other.users) && db.rows == other.rows
    ensures var x, y := Register(db, cmd, s), Register(other, cmd, s);
            SameUsers(x.0.users, y.0.users) && x.0.rows == y.0.rows && x.1 == y.1
  {
  }

  lemma {:induction false} ChangeMirrors(db: Db, other: Db, cmd: ChangePasswordCommand, s: Salts, now: Time)
    requires SameUsers(db.users, other.users) && db.rows == other.rows
    ensures var x, y := ChangePassword(db, cmd, s, now), ChangePassword(other, cmd, s, now);
            SameUsers(x.0.users, y.0.users) && x.0.rows == y.0.rows && x.1 == y.1
  {
  }

  lemma {:induction false} RecoverMirrors(db: Db, other: Db, cmd: RecoverCommand, s: Salts, now: Time)
    requires SameUsers(db.users, other.users) && db.rows == other.rows
    ensures var x, y := Recover(db, cmd, s, now), Recover(other, cmd, s, now);
            SameUsers(x.0.users, y.0.users) && x.0.rows == y.0.rows && x.1 == y.1
  {
  }

  /** No endpoint looks at the stored mode to decide anything. */
  lemma {:induction false} StepMirrors(db: Db, other: Db, e: AuthRuns.Event)
    requires SameUsers(db.users, other.users) && db.rows == other.rows
    ensures SameUsers(AuthRuns.Step(db, e).users, AuthRuns.Step(other, e).users)
    ensures AuthRuns.Step(db, e).rows == AuthRuns.Step(other, e).rows
    ensures K.Replaces(db, e) == K.Replaces(other, e)
  {
    hide Register, ChangePassword, Recover;
    match e
    case DoRegister(cmd, s, _) => RegisterMirrors(db, other, cmd, s);
    case DoChangePassword(cmd, s, now) => ChangeMirrors(db, other, cmd, s, now);
    case DoRecover(cmd, s, now) => RecoverMirrors(db, other, cmd, s, now);
    case _ =>
  }

  lemma {:induction false} LadderMirrors(w: K.World, v: K.World, m: K.Move)
    requires Mirrors(w, v)
    ensures K.Enabled(w, m) ==> K.Enabled(v, m)
    ensures Mirrors(K.Next(w, m), K.Next(v, m))
  {
    hide Register, ChangePassword, Recover, AuthRuns.Step, K.Replaces;
    match m
    case Anyone(e) => StepMirrors(w.db, v.db, e);
    case Send(order, salts, now) =>
      match order {
        case ToRegister(cmd, _, _, _) => RegisterMirrors(w.db, v.db, cmd, salts);
        case ToChange(cmd, _) => ChangeMirrors(w.db, v.db, cmd, salts, now);
        case ToRecover(cmd, _, _) => RecoverMirrors(w.db, v.db, cmd, salts, now);
      }
    case _ =>
  }

  // ---------------------------------------------------------------- the invariant

  /** The loaded verifiers were made with the loaded salts. */
  predicate Salted(c: Credentials) {
    && c.verifier.Stored? && c.verifier.salt == c.sVerifier
    && c.adminVerifier.Stored? && c.adminVerifier.salt == c.sAdminVerifier
    && c.rkVerifier.Stored? && c.rkVerifier.salt == c.sRk && c.schemaVer == 1
  }

  function SchemaVer(order: K.Order): int {
    match order
    case ToRegister(cmd, _, _, _) => cmd.schemaVer
    case ToChange(cmd, _) => cmd.schemaVer
    case ToRecover(cmd, _, _) => cmd.schemaVer
  }

  ghost predicate Held(k: K.World, l: Loaded) {
    && Replacing(l.order) && l.order in k.outbox && Target(l.order) in k.mk && SchemaVer(l.order) == 1
    && Salted(l.seen.creds) && NewDraws(l)
  }

  ghost predicate Inv(w: World) {
    SoundButModes(w.ladder) && forall id :: id in w.loaded ==> Held(w.ladder, w.loaded[id])
  }

  /** The stored mode will be the one the new password side was made with. */
  predicate ModeAgrees(k: K.World, l: Loaded)
    requires Target(l.order) in k.db.users
  {
    Material(l.order).kdfMode != l.seen.creds.kdfMode
    || k.db.users[Target(l.order)].creds.kdfMode == Material(l.order).kdfMode
  }

  /** The halves an order in the outbox of a world in order brings. */
  predicate Halves(order: K.Order) {
    && (order.ToChange? ==> Material(order).rkVerifier.None?)
    && (order.ToRecover? ==> Material(order).rkVerifier.Some? && Material(order).mkWrapRk.Some?)
  }

  lemma {:induction false} HeldOrder(v: K.World, l: Loaded)
    requires K.Inv(v) && Held(v, l)
    ensures Target(l.order) in v.db.users && v.db.users[Target(l.order)].creds.schemaVer == 1 && Halves(l.order)
  {
    assert K.Ready(v, l.order) && K.Coherent(v, Target(l.order));
  }

  /** A late save writes everything it assigns but, possibly, the mode. */
  lemma {:induction false} SavedButMode(stored: Credentials, l: Loaded)
    requires Replacing(l.order) && Halves(l.order) && Salted(l.seen.creds) && NewDraws(l) && stored.schemaVer == 1
    ensures var m := Material(l.order);
            SavedCredentials(stored, l)
            == Assigned(stored, l.order, l.salts).(kdfMode := Pick(stored.kdfMode, l.seen.creds.kdfMode, m.kdfMode))
  {
  }

  lemma {:induction false} SavedIsAssigned(stored: Credentials, other: Credentials, l: Loaded)
    requires Replacing(l.order) && Halves(l.order) && Salted(l.seen.creds) && NewDraws(l) && stored.schemaVer == 1
    requires other == stored.(kdfMode := other.kdfMode)
    ensures var after := Assigned(other, l.order, l.salts);
            after == SavedCredentials(stored, l).(kdfMode := after.kdfMode)
  {
    SavedButMode(stored, l);
  }

  lemma {:induction false} ReplacedMirrors(w: K.World, v: K.World, l: Loaded, c: Credentials, d: Credentials)
    requires Mirrors(w, v) && Target(l.order) in v.db.users && d == c.(kdfMode := d.kdfMode)
    ensures Mirrors(Replaced(w, l, c), Replaced(v, l, d))
  {
  }

  /** What a late save leaves mirrors the same with every assigned column written. */
  lemma {:induction false} SavedMirrors(w: K.World, v: K.World, l: Loaded)
    requires Mirrors(w, v) && K.Inv(v) && Held(v, l)
    ensures Target(l.order) in v.db.users
    ensures Mirrors(Saved(w, l), Replaced(v, l, Assigned(v.db.users[Target(l.order)].creds, l.order, l.salts)))
  {
    hide K.Inv, SavedCredentials, Assigned, Replaced, Halves, Salted, NewDraws;
    HeldOrder(v, l);
    var a := Target(l.order);
    assert SameUser(w.db.users[a], v.db.users[a]);
    var c, d := w.db.users[a].creds, v.db.users[a].creds;
    SavedIsAssigned(c, d, l);
    ReplacedMirrors(w, v, l, SavedCredentials(c, l), Assigned(d, l.order, l.salts));
  }

  lemma {:induction false} ReplacedEffect(v: K.World, l: Loaded, c: Credentials)
    requires Target(l.order) in v.db.users
    ensures var a, after := Target(l.order), Replaced(v, l, c);
            && after.mk == v.mk && after.outbox == v.outbox && after.kept == v.kept + NewWraps(l.order)
            && after.db.users.Keys == v.db.users.Keys && after.db.users[a].creds == c
            && forall b :: b in v.db.users && b != a ==> after.db.users[b] == v.db.users[b]
  {
  }

  /** In a world in order, replacing the account by all that its order assigns keeps it in order. */
  lemma {:induction false} ChangedKeepsInv(v: K.World, l: Loaded)
    requires K.Inv(v) && Held(v, l) && l.order.ToChange?
    ensures Target(l.order) in v.db.users
    ensures var after := Replaced(v, l, Assigned(v.db.users[Target(l.order)].creds, l.order, l.salts));
            K.Inv(after) && K.Grows(v, after)
  {
    hide Replaced, K.AllSound, K.AllCoherent, K.AllReady, K.MadePwd, ChangedCredentials;
    HeldOrder(v, l);
    ChangeIsReady(v, l);
    var a, m, base, c := Target(l.order), Material(l.order), l.order.base, v.db.users[Target(l.order)].creds;
    var after := Replaced(v, l, Assigned(c, l.order, l.salts));
    ReplacedEffect(v, l, Assigned(c, l.order, l.salts));
    K.SameKeysGrow(v, after);
    K.PasswordWrapsSound(v, after, a, m, base);
    K.PasswordReplacement(v, after, a, m, l.salts, base);
    K.AcceptedKeepsInv(v, after);
  }

  lemma {:induction false} ChangeIsReady(v: K.World, l: Loaded)
    requires K.AllReady(v) && Held(v, l) && l.order.ToChange?
    ensures Target(l.order) in v.mk
            && K.MadePwd(Material(l.order), Target(l.order), 1, l.order.base, v.mk[Target(l.order)])
  {
    assert K.Ready(v, l.order);
  }

  lemma {:induction false} RecoveredKeepsInv(v: K.World, l: Loaded)
    requires K.Inv(v) && Held(v, l) && l.order.ToRecover?
    ensures Target(l.order) in v.db.users
    ensures var after := Replaced(v, l, Assigned(v.db.users[Target(l.order)].creds, l.order, l.salts));
            K.Inv(after) && K.Grows(v, after)
  {
    hide Replaced, K.AllSound, K.AllCoherent, K.AllReady, K.MadePwd, K.MadeRk, NewCredentials;
    HeldOrder(v, l);
    K.RecoverIsReady(v, l.order);
    var a, m, base, rk := Target(l.order), Material(l.order), l.order.base, l.order.rk;
    var after := Replaced(v, l, Assigned(v.db.users[a].creds, l.order, l.salts));
    ReplacedEffect(v, l, Assigned(v.db.users[a].creds, l.order, l.salts));
    assert after.kept == v.kept + {K.PasswordWrap(a, base, 1, m)} + K.RecoveryWrap(a, rk, 1, m);
    K.SameKeysGrow(v, after);
    K.FullWrapsSound(v, after, a, m, base, rk);
    K.FullyReplaced(v, after, a, m, l.salts, base, rk, v.mk[a]);
    K.AcceptedKeepsInv(v, after);
  }

  // ---------------------------------------------------------------- what every move keeps

  lemma {:induction false} HeldStays(k: K.World, after: K.World, l: Loaded)
    requires Held(k, l) && k.outbox <= after.outbox && k.mk.Keys <= after.mk.Keys
    ensures Held(after, l)
  {
  }

  lemma {:induction false} OutboxGrows(k: K.World, m: K.Move)
    ensures k.outbox <= K.Next(k, m).outbox
  {
  }

  /** An uninterrupted move, a refused attempt's included. */
  lemma {:induction false} LadderKeepsInv(w: World, m: K.Move)
    requires Inv(w) && K.Enabled(w.ladder, m)
    ensures Inv(w.(ladder := K.Next(w.ladder, m))) && K.Grows(w.ladder, K.Next(w.ladder, m))
  {
    hide K.Inv, K.Enabled, K.Next;
    var next := w.(ladder := K.Next(w.ladder, m));
    var v :| K.Inv(v) && Mirrors(w.ladder, v);
    LadderMirrors(w.ladder, v, m);
    K.NextKeepsInv(v, m);
    assert SoundButModes(next.ladder);
    OutboxGrows(w.ladder, m);
    forall id | id in w.loaded ensures Held(next.ladder, w.loaded[id]) {
      HeldStays(w.ladder, next.ladder, w.loaded[id]);
    }
  }

  lemma {:induction false} GoesWithSchemaOne(db: Db, order: K.Order, salts: Salts, now: Time)
    requires Goes(db, order, salts, now)
    ensures SchemaVer(order) == 1
  {
  }

  lemma {:induction false} StoredIsSalted(k: K.World, account: Guid)
    requires SoundButModes(k) && account in k.mk
    ensures account in k.db.users && Salted(k.db.users[account].creds)
  {
    var v :| K.Inv(v) && Mirrors(k, v);
    assert K.Coherent(v, account) && SameUser(k.db.users[account], v.db.users[account]);
  }

  lemma {:induction false} TargetIsOurs(k: K.World, order: K.Order)
    requires SoundButModes(k) && order in k.outbox && Replacing(order)
    ensures Target(order) in k.mk
  {
    var v :| K.Inv(v) && Mirrors(k, v);
    assert K.Ready(v, order);
  }

  lemma {:induction false} LoadKeepsInv(w: World, m: Move)
    requires Inv(w) && Enabled(w, m) && m.Load?
    ensures Inv(Next(w, m)) && K.Grows(w.ladder, Next(w, m).ladder)
  {
    hide SoundButModes, Goes, Salted, NewDraws, K.Next;
    if Goes(w.ladder.db, m.order, m.salts, m.now) && Target(m.order) in w.ladder.db.users {
      GoesWithSchemaOne(w.ladder.db, m.order, m.salts, m.now);
      TargetIsOurs(w.ladder, m.order);
      StoredIsSalted(w.ladder, Target(m.order));
    } else {
      LadderKeepsInv(w, K.Send(m.order, m.salts, m.now));
    }
  }

  lemma {:induction false} SaveKeepsInv(w: World, m: Move)
    requires Inv(w) && m.Save?
    ensures Inv(Next(w, m)) && K.Grows(w.ladder, Next(w, m).ladder)
  {
    if m.id in w.loaded {
      var l := w.loaded[m.id];
      var v :| K.Inv(v) && Mirrors(w.ladder, v);
      SavedMirrors(w.ladder, v, l);
      if l.order.ToChange? {
        ChangedKeepsInv(v, l);
      } else {
        RecoveredKeepsInv(v, l);
      }
      assert SoundButModes(Saved(w.ladder, l));
      forall id | id in w.loaded ensures Held(Saved(w.ladder, l), w.loaded[id]) {
        HeldStays(w.ladder, Saved(w.ladder, l), w.loaded[id]);
      }
    }
  }

  lemma {:induction false} NextKeepsInv(w: World, m: Move)
    requires Inv(w) && Enabled(w, m)
    ensures Inv(Next(w, m)) && K.Grows(w.ladder, Next(w, m).ladder)
  {
    match m
    case Ladder(k) => LadderKeepsInv(w, k);
    case Load(_, _, _, _) => LoadKeepsInv(w, m);
    case Save(_) => SaveKeepsInv(w, m);
  }

  lemma {:induction false} RunKeepsInv(w: World, moves: seq<Move>)
    requires Inv(w) && Honest(w, moves)
    ensures Inv(Run(w, moves)) && K.Grows(w.ladder, Run(w, moves).ladder)
    decreases |moves|
  {
    if moves != [] {
      NextKeepsInv(w, moves[0]);
      RunKeepsInv(Next(w, moves[0]), moves[1..]);
    }
  }

  const Start: World := World(K.Start, map[])

  lemma {:induction false} StartKeepsInv()
    ensures Inv(Start) && K.AllCoherent(Start.ladder)
  {
    assert Mirrors(K.Start, K.Start) && K.Inv(K.Start);
  }

  /** However changes and recoveries overlap, every wrap ever stored opens under its own credential to the
      master key drawn at registration, also after any continuation. */
  lemma {:induction false} MasterKeySurvivesOverlap(moves: seq<Move>, later: seq<Move>, k: K.Kept)
    requires Honest(Start, moves) && Honest(Run(Start, moves), later) && k in Run(Start, moves).ladder.kept
    ensures var w, v := Run(Start, moves).ladder, Run(Run(Start, moves), later).ladder;
            && k in v.kept && k.account in w.mk && k.account in v.mk && v.mk[k.account] == w.mk[k.account]
            && K.OpenWith(k.credential, k.account, k.value) == Some(w.mk[k.account])
  {
    StartKeepsInv();
    RunKeepsInv(Start, moves);
    RunKeepsInv(Run(Start, moves), later);
    var v :| K.Inv(v) && Mirrors(Run(Start, moves).ladder, v);
    assert K.Sound(v, k);
  }

  /** And a proof that matches comes from the secret that opens the wrap stored beside its verifier. */
  lemma {:induction false} MatchingProofOpensInOverlap(moves: seq<Move>, account: Guid, secret: Blob)
    requires Honest(Start, moves) && account in Run(Start, moves).ladder.mk
    ensures var w := Run(Start, moves).ladder;
            && account in w.db.users
            && var u := w.db.users[account];
            && (LoginMatches(u, Hkdf(secret, ForVerifier)) || AdminMatches(u, Hkdf(secret, ForAdmin)) ==>
                  OpenPwd(secret, 1, account, u.creds.mkWrapPwd) == Some(w.mk[account]))
            && (RkMatches(u, Hkdf(secret, ForRkVerifier)) ==>
                  OpenRk(secret, 1, account, u.creds.mkWrapRk) == Some(w.mk[account]))
  {
    StartKeepsInv();
    RunKeepsInv(Start, moves);
    var w := Run(Start, moves).ladder;
    var v :| K.Inv(v) && Mirrors(w, v);
    assert K.Coherent(v, account) && SameUser(w.db.users[account], v.db.users[account]);
    K.MatchingProofOpens(v, account, secret);
  }

  // ---------------------------------------------------------------- when the stored mode is the right one

  /** The mode of the base key behind the login verifier. */
  function VerifierMode(c: Credentials): Option<int> {
    if c.verifier.Stored? && c.verifier.proof.Hkdf? && c.verifier.proof.key.Kdf?
    then Some(c.verifier.proof.key.mode) else None
  }

  lemma {:induction false} FitsItsMode(w: K.World, account: Guid, c: Credentials, base: Blob, rk: Blob)
    requires K.Fits(w, account, c, base, rk)
    ensures VerifierMode(c) == Some(c.kdfMode)
  {
  }

  lemma {:induction false} CoherentHasItsMode(w: K.World, account: Guid)
    requires K.Coherent(w, account)
    ensures VerifierMode(w.db.users[account].creds) == Some(w.db.users[account].creds.kdfMode)
  {
    var base, rk :| K.Fits(w, account, w.db.users[account].creds, base, rk);
    FitsItsMode(w, account, w.db.users[account].creds, base, rk);
  }

  /** But for the modes all is in order, so an account is in order exactly when its mode is the one of its
      password side. */
  lemma {:induction false} CoherentExactlyWithItsMode(w: K.World, account: Guid)
    requires SoundButModes(w) && account in w.mk
    ensures account in w.db.users
    ensures K.Coherent(w, account)
            <==> VerifierMode(w.db.users[account].creds) == Some(w.db.users[account].creds.kdfMode)
  {
    var v :| K.Inv(v) && Mirrors(w, v);
    assert K.Coherent(v, account) && SameUser(w.db.users[account], v.db.users[account]);
    var c, d := w.db.users[account].creds, v.db.users[account].creds;
    CoherentHasItsMode(v, account);
    assert VerifierMode(c) == VerifierMode(d);
    if VerifierMode(c) == Some(c.kdfMode) {
      assert c == d;
      K.FitsGrows(v, w, account);
    }
    if K.Coherent(w, account) {
      CoherentHasItsMode(w, account);
    }
  }

  /** The password side of an order carries the mode of its base key. */
  predicate OwnMode(order: K.Order) {
    var m := Material(order);
    m.verifier.Hkdf? && m.verifier.key.Kdf? && m.verifier.key.mode == m.kdfMode
  }

  lemma {:induction false} OrderHasItsMode(v: K.World, order: K.Order)
    requires K.Ready(v, order)
    ensures OwnMode(order)
  {
  }

  /** The login side that an order brings. */
  predicate LoginSide(c: Credentials, l: Loaded) {
    && c.verifier == Stored(Material(l.order).verifier, l.salts.verifier) && c.sVerifier == l.salts.verifier
    && c.sPwd == Material(l.order).sPwd
  }

  lemma {:induction false} AssignedMode(c: Credentials, l: Loaded)
    requires Replacing(l.order) && Halves(l.order) && OwnMode(l.order)
    ensures VerifierMode(Assigned(c, l.order, l.salts)) == Some(Material(l.order).kdfMode)
    ensures LoginSide(Assigned(c, l.order, l.salts), l)
  {
  }

  /** After a late save the login side is the new one, whatever mode is stored beside it. */
  lemma {:induction false} SavedModes(k: K.World, l: Loaded)
    requires SoundButModes(k) && Held(k, l)
    ensures Target(l.order) in k.db.users
    ensures var c, after := k.db.users[Target(l.order)].creds, SavedCredentials(k.db.users[Target(l.order)].creds, l);
            && LoginSide(after, l) && VerifierMode(after) == Some(Material(l.order).kdfMode)
            && after.kdfMode == Pick(c.kdfMode, l.seen.creds.kdfMode, Material(l.order).kdfMode)
  {
    hide K.AllSound, K.AllCoherent, K.Ready, Assigned, SavedCredentials, OwnMode, NewDraws, Salted, Halves;
    var v :| K.Inv(v) && Mirrors(k, v);
    HeldOrder(v, l);
    assert SameUser(k.db.users[Target(l.order)], v.db.users[Target(l.order)]);
    OrderHasItsMode(v, l.order);
    SavedButMode(k.db.users[Target(l.order)].creds, l);
    AssignedMode(k.db.users[Target(l.order)].creds, l);
  }

  /** After a late save the account is in order exactly when the new mode is not the one loaded, and so was
      written, or is the one stored. */
  lemma {:induction false} LateSaveIsCoherentExactly(w: World, id: nat)
    requires Inv(w) && id in w.loaded
    ensures var l := w.loaded[id];
            && Target(l.order) in w.ladder.db.users
            && (K.Coherent(Saved(w.ladder, l), Target(l.order)) <==> ModeAgrees(w.ladder, l))
  {
    hide SoundButModes, Held, K.Coherent, VerifierMode, SavedCredentials;
    var l := w.loaded[id];
    SaveKeepsInv(w, Save(id));
    SavedModes(w.ladder, l);
    HeldStays(w.ladder, Saved(w.ladder, l), l);
    CoherentExactlyWithItsMode(Saved(w.ladder, l), Target(l.order));
  }

  /** The password behind the login verifier, with the salt and the mode the server tells a client, gives
      the proof that matches exactly when the account is in order. */
  lemma {:induction false} PasswordMatchesExactlyInOrder(k: K.World, account: Guid, password: string, mode: int)
    requires SoundButModes(k) && account in k.mk && account in k.db.users
    requires var c := k.db.users[account].creds;
             c.verifier == Stored(Hkdf(BaseKey(password, c.sPwd, mode), ForVerifier), c.sVerifier)
    ensures var told := PreLoginReply(k.db, account);
            LoginMatches(k.db.users[account], Hkdf(BaseKey(password, told.sPwd, told.kdfMode), ForVerifier))
            <==> K.Coherent(k, account)
  {
    CoherentExactlyWithItsMode(k, account);
  }

  // ---------------------------------------------------------------- over whole runs

  /** The move is not a save that leaves an earlier mode beside a new password side. */
  predicate Settles(w: World, m: Move) {
    m.Save? && m.id in w.loaded && Target(w.loaded[m.id].order) in w.ladder.db.users ==>
      ModeAgrees(w.ladder, w.loaded[m.id])
  }

  ghost predicate AllSettle(w: World, moves: seq<Move>)
    decreases |moves|
  {
    moves == [] || (Settles(w, moves[0]) && AllSettle(Next(w, moves[0]), moves[1..]))
  }

  /** Every account of an honest client is in order at all times of the run. */
  ghost predicate AlwaysInOrder(w: World, moves: seq<Move>)
    decreases |moves|
  {
    K.AllCoherent(w.ladder) && (moves != [] ==> AlwaysInOrder(Next(w, moves[0]), moves[1..]))
  }

  lemma {:induction false} InOrderIsInv(k: K.World)
    requires SoundButModes(k) && K.AllCoherent(k)
    ensures K.Inv(k)
  {
    var v :| K.Inv(v) && Mirrors(k, v);
    K.SoundGrows(v, k);
    K.ReadyGrows(v, k);
  }

  lemma {:induction false} SaveInOrderExactly(w: World, m: Move)
    requires Inv(w) && K.AllCoherent(w.ladder) && m.Save?
    ensures K.AllCoherent(Next(w, m).ladder) <==> Settles(w, m)
  {
    hide SoundButModes, SavedCredentials, Replaced, ModeAgrees, K.Coherent, K.AllSound, K.AllReady;
    if m.id in w.loaded {
      var k, after, a := w.ladder, Saved(w.ladder, w.loaded[m.id]), Target(w.loaded[m.id].order);
      LateSaveIsCoherentExactly(w, m.id);
      InOrderIsInv(k);
      assert Held(k, w.loaded[m.id]);
      ReplacedEffect(k, w.loaded[m.id], SavedCredentials(k.db.users[a].creds, w.loaded[m.id]));
      if Settles(w, m) {
        K.OneAccountReplaced(k, after, a);
      }
    }
  }

  lemma {:induction false} MoveInOrderExactly(w: World, m: Move)
    requires Inv(w) && K.AllCoherent(w.ladder) && Enabled(w, m)
    ensures K.AllCoherent(Next(w, m).ladder) <==> Settles(w, m)
  {
    hide SoundButModes, K.Next, K.AllCoherent;
    InOrderIsInv(w.ladder);
    match m
    case Ladder(k) => K.NextKeepsInv(w.ladder, k);
    case Load(_, order, salts, now) => K.NextKeepsInv(w.ladder, K.Send(order, salts, now));
    case Save(_) => SaveInOrderExactly(w, m);
  }

  /** Over every run of overlapping changes and recoveries, all accounts of honest clients stay in order
      exactly when no save leaves an earlier mode beside a new password side. */
  lemma {:induction false} AlwaysInOrderExactly(w: World, moves: seq<Move>)
    requires Inv(w) && K.AllCoherent(w.ladder) && Honest(w, moves)
    ensures AlwaysInOrder(w, moves) <==> AllSettle(w, moves)
    decreases |moves|
  {
    if moves != [] {
      MoveInOrderExactly(w, moves[0]);
      if Settles(w, moves[0]) {
        NextKeepsInv(w, moves[0]);
        AlwaysInOrderExactly(Next(w, moves[0]), moves[1..]);
      }
    }
  }
}
