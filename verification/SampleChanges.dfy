/** A run from the empty server in which two password changes that overlap leave an account out of order. */
module SampleChanges {
  import opened Prelude
  import opened Crypto
  import opened UserEntity
  import opened AuthCommands
  import opened AuthService
  import opened CryptoWorker
  import opened CredentialInterleaving
  import KeyFlows
  import LockoutPolicy
  import K = KeyLadder

  lemma {:induction false} OneMove(w: World, m: Move, rest: seq<Move>)
    ensures Run(w, [m] + rest) == Run(Next(w, m), rest)
    ensures Honest(w, [m] + rest) <==> Enabled(w, m) && Honest(Next(w, m), rest)
  {
    assert ([m] + rest)[1..] == rest;
  }

  // ---------------------------------------------------------------- two changes loaded together

  /** Both are loaded, then the first is saved and then the second. */
  function Clash(o1: K.Order, o2: K.Order, s1: Salts, s2: Salts, t: Time): seq<Move> {
    [Load(0, o1, s1, t)] + ([Load(1, o2, s2, t)] + ([Save(0)] + ([Save(1)] + [])))
  }

  lemma {:induction false} BothLoaded(w: World, o1: K.Order, o2: K.Order, s1: Salts, s2: Salts, t: Time)
    requires Inv(w) && w.loaded == map[]
    requires Enabled(w, Load(0, o1, s1, t)) && Enabled(w, Load(1, o2, s2, t)) && Target(o1) == Target(o2)
    requires Goes(w.ladder.db, o1, s1, t) && Goes(w.ladder.db, o2, s2, t) && Target(o1) in w.ladder.db.users
    ensures var w1 := Next(w, Load(0, o1, s1, t));
            var u, w2 := w.ladder.db.users[Target(o1)], Next(w1, Load(1, o2, s2, t));
            && Enabled(w1, Load(1, o2, s2, t)) && Inv(w2)
            && w2 == World(w.ladder, map[0 := Loaded(u, o1, s1, t), 1 := Loaded(u, o2, s2, t)])
  {
    hide Goes, NewDraws, SoundButModes, Held;
    NextKeepsInv(w, Load(0, o1, s1, t));
    NextKeepsInv(Next(w, Load(0, o1, s1, t)), Load(1, o2, s2, t));
  }

  /** A save to another mode, and then one of a change that keeps the mode both were loaded with. */
  lemma {:induction false} SavesMix(w: World)
    requires Inv(w) && 0 in w.loaded && 1 in w.loaded && Target(w.loaded[0].order) == Target(w.loaded[1].order)
    requires var mode := w.loaded[0].seen.creds.kdfMode;
             && w.loaded[1].seen.creds.kdfMode == mode
             && Material(w.loaded[0].order).kdfMode != mode && Material(w.loaded[1].order).kdfMode == mode
    ensures var a, after := Target(w.loaded[0].order), Next(Next(w, Save(0)), Save(1));
            && Inv(after) && !K.Coherent(after.ladder, a) && a in after.ladder.mk && a in after.ladder.db.users
            && LoginSide(after.ladder.db.users[a].creds, w.loaded[1])
  {
    hide SoundButModes, SavedCredentials, K.Coherent;
    var a := Target(w.loaded[0].order);
    assert Held(w.ladder, w.loaded[0]);
    SaveKeepsInv(w, Save(0));
    SavedModes(w.ladder, w.loaded[0]);
    LateSaveIsCoherentExactly(Next(w, Save(0)), 1);
    SavedModes(Next(w, Save(0)).ladder, w.loaded[1]);
    SaveKeepsInv(Next(w, Save(0)), Save(1));
  }

  /** Two accepted changes of one account that are loaded together: if the one saved first changes the mode
      and the other keeps it, the account ends out of order, with the login side of the second. */
  lemma {:induction false} ClashMixesModes(w: World, o1: K.Order, o2: K.Order, s1: Salts, s2: Salts, t: Time)
    requires Inv(w) && w.loaded == map[]
    requires Enabled(w, Load(0, o1, s1, t)) && Enabled(w, Load(1, o2, s2, t)) && Target(o1) == Target(o2)
    requires Goes(w.ladder.db, o1, s1, t) && Goes(w.ladder.db, o2, s2, t) && Target(o1) in w.ladder.db.users
    requires var mode := w.ladder.db.users[Target(o1)].creds.kdfMode;
             Material(o1).kdfMode != mode && Material(o2).kdfMode == mode
    ensures var a, moves := Target(o1), Clash(o1, o2, s1, s2, t);
            var after := Run(w, moves);
            && Honest(w, moves) && Inv(after) && !K.Coherent(after.ladder, a)
            && a in after.ladder.mk && a in after.ladder.db.users
            && LoginSide(after.ladder.db.users[a].creds, Loaded(w.ladder.db.users[a], o2, s2, t))
  {
    hide Inv, LoginSide, Goes, Enabled, NewDraws, K.Coherent, Next;
    BothLoaded(w, o1, o2, s1, s2, t);
    var w1 := Next(w, Load(0, o1, s1, t));
    var w2 := Next(w1, Load(1, o2, s2, t));
    var w3 := Next(w2, Save(0));
    SavesMix(w2);
    OneMove(w, Load(0, o1, s1, t), [Load(1, o2, s2, t)] + ([Save(0)] + ([Save(1)] + [])));
    OneMove(w1, Load(1, o2, s2, t), [Save(0)] + ([Save(1)] + []));
    OneMove(w2, Save(0), [Save(1)] + []);
    OneMove(w3, Save(1), []);
    SavesEnabled(w2);
  }

  lemma {:induction false} SavesEnabled(w: World)
    ensures Enabled(w, Save(0)) && Enabled(Next(w, Save(0)), Save(1))
  {
  }

  // ---------------------------------------------------------------- the run

  function Base(password: string, d: Draws): Blob { BaseKey(password, Salt(d), KDF_DEFAULT) }

  function SignUp(account: Guid, password: string, d: Draws): K.Order {
    K.RegisterOrder(account, password, KDF_DEFAULT, 1, d)
  }

  /** The wrap stored at sign-up. */
  function FirstWrap(account: Guid, password: string, d: Draws): EncryptedValue {
    WrapPwd(Base(password, d), 1, account, Random(d.nonce, NONCE_LEN), NewMk(d))
  }

  /** A change to `newPassword`, built from the wrap stored at sign-up. */
  function Change(account: Guid, password: string, d: Draws, newPassword: string, newMode: int, e: Draws): K.Move {
    K.BuildRekey(account, Base(password, d), FirstWrap(account, password, d), 1, newPassword, newMode, e)
  }

  function Changing(account: Guid, password: string, d: Draws, newPassword: string, newMode: int, e: Draws): K.Order {
    var base := BaseKey(newPassword, Salt(e), newMode);
    K.ToChange(ChangePasswordCommand(account, Hkdf(Base(password, d), ForAdmin),
                                     PasswordPart(base, Salt(e), newMode,
                                                  WrapPwd(base, 1, account, Random(e.nonce, NONCE_LEN), NewMk(d))), 1),
               base)
  }

  /** The salts of a change are not those of the sign-up. */
  predicate Apart(d: Draws, salts: Salts, e: Draws, s: Salts) {
    e.salt != d.salt && s.verifier != salts.verifier && s.admin != salts.admin
  }

  /** The account as the sign-up leaves it. */
  predicate SignedUp(k: K.World, account: Guid, password: string, d: Draws, salts: Salts) {
    && account in k.db.users
    && k.db.users[account]
       == Account(NewCredentials(FullMaterial(password, KDF_DEFAULT, 1, account, NewMk(d), d), 1, salts),
                  LockoutPolicy.Clear, None)
    && K.Kept(account, K.ByPassword(Base(password, d), 1), FirstWrap(account, password, d)) in k.kept
  }

  lemma {:induction false} SigningUp(account: Guid, password: string, d: Draws, salts: Salts, t: Time)
    ensures var o := SignUp(account, password, d);
            var build, send := K.BuildRegister(account, password, KDF_DEFAULT, 1, d), K.Send(o, salts, t);
            && K.Enabled(K.Start, build) && K.Enabled(K.Next(K.Start, build), send)
            && SignedUp(K.Next(K.Next(K.Start, build), send), account, password, d, salts)
  {
    HonestMaterialIsValid(password, KDF_DEFAULT, 1, account, NewMk(d), d);
  }

  /** A change that keeps or changes the mode is built, accepted, and brings draws of its own. */
  lemma {:induction false} ChangeIsBuilt(k: K.World, account: Guid, password: string, d: Draws, salts: Salts,
          newPassword: string, newMode: int, e: Draws, s: Salts, t: Time)
    requires SignedUp(k, account, password, d, salts) && KeyFlows.ValidMode(newMode) && Apart(d, salts, e, s)
    ensures var o := Changing(account, password, d, newPassword, newMode, e);
            && K.Enabled(k, Change(account, password, d, newPassword, newMode, e))
            && K.Next(k, Change(account, password, d, newPassword, newMode, e)) == k.(outbox := k.outbox + {o})
            && Goes(k.db, o, s, t) && NewDraws(Loaded(k.db.users[account], o, s, t))
  {
    var wrap := FirstWrap(account, password, d);
    assert OpenPwd(Base(password, d), 1, account, wrap) == Some(NewMk(d));
    KeyFlows.RekeyedIsValid(NewMk(d), Base(password, d), wrap, account, newPassword, newMode, e);
    KeyFlows.ChangeAccepted(k.db, Changing(account, password, d, newPassword, newMode, e).change, s, t);
  }

  /** The sign-up and both changes built. */
  function Opening(account: Guid, password: string, d: Draws, salts: Salts, pw1: string, d1: Draws, pw2: string,
          d2: Draws, t: Time): seq<Move>
  {
    [Ladder(K.BuildRegister(account, password, KDF_DEFAULT, 1, d))]
    + ([Ladder(K.Send(SignUp(account, password, d), salts, t))]
       + ([Ladder(Change(account, password, d, pw1, KDF_STRONG, d1))]
          + ([Ladder(Change(account, password, d, pw2, KDF_DEFAULT, d2))] + [])))
  }

  lemma {:induction false} Opened(account: Guid, password: string, d: Draws, salts: Salts, pw1: string, d1: Draws,
          s1: Salts, pw2: string, d2: Draws, s2: Salts, t: Time) returns (w: World)
    requires Apart(d, salts, d1, s1) && Apart(d, salts, d2, s2)
    ensures var moves := Opening(account, password, d, salts, pw1, d1, pw2, d2, t);
            Honest(Start, moves) && w == Run(Start, moves)
    ensures var o1 := Changing(account, password, d, pw1, KDF_STRONG, d1);
            var o2 := Changing(account, password, d, pw2, KDF_DEFAULT, d2);
            && w.loaded == map[] && SignedUp(w.ladder, account, password, d, salts)
            && Enabled(w, Load(0, o1, s1, t)) && Enabled(w, Load(1, o2, s2, t))
            && Goes(w.ladder.db, o1, s1, t) && Goes(w.ladder.db, o2, s2, t)
  {
    hide Goes, NewDraws;
    var build := K.BuildRegister(account, password, KDF_DEFAULT, 1, d);
    var send := K.Send(SignUp(account, password, d), salts, t);
    var c1 := Change(account, password, d, pw1, KDF_STRONG, d1);
    var c2 := Change(account, password, d, pw2, KDF_DEFAULT, d2);
    var w1 := Next(Start, Ladder(build));
    var w2 := Next(w1, Ladder(send));
    var w3 := Next(w2, Ladder(c1));
    w := Next(w3, Ladder(c2));
    SigningUp(account, password, d, salts, t);
    ChangeIsBuilt(w2.ladder, account, password, d, salts, pw1, KDF_STRONG, d1, s1, t);
    ChangeIsBuilt(w3.ladder, account, password, d, salts, pw2, KDF_DEFAULT, d2, s2, t);
    OneMove(Start, Ladder(build), [Ladder(send)] + ([Ladder(c1)] + ([Ladder(c2)] + [])));
    OneMove(w1, Ladder(send), [Ladder(c1)] + ([Ladder(c2)] + []));
    OneMove(w2, Ladder(c1), [Ladder(c2)] + []);
    OneMove(w3, Ladder(c2), []);
  }

  /** A sign-up with the default mode; then two changes are loaded together, one to the strong mode and one
      that keeps the default. Saved in this order they leave the later password beside the strong mode, with
      which it does not sign in. */
  lemma {:induction false} OverlappingChangesMixModes(account: Guid, password: string, d: Draws, salts: Salts,
          pw1: string, d1: Draws, s1: Salts, pw2: string, d2: Draws, s2: Salts, t: Time)
    requires Apart(d, salts, d1, s1) && Apart(d, salts, d2, s2)
    ensures var opening := Opening(account, password, d, salts, pw1, d1, pw2, d2, t);
            var o1 := Changing(account, password, d, pw1, KDF_STRONG, d1);
            var o2 := Changing(account, password, d, pw2, KDF_DEFAULT, d2);
            var w, clash := Run(Start, opening), Clash(o1, o2, s1, s2, t);
            var db := Run(w, clash).ladder.db;
            && Honest(Start, opening) && Honest(w, clash) && account in db.users
            && var told := PreLoginReply(db, account);
               !LoginMatches(db.users[account], Hkdf(BaseKey(pw2, told.sPwd, told.kdfMode), ForVerifier))
  {
    var w := Opened(account, password, d, salts, pw1, d1, s1, pw2, d2, s2, t);
    StartKeepsInv();
    RunKeepsInv(Start, Opening(account, password, d, salts, pw1, d1, pw2, d2, t));
    ClashMixesModes(w, Changing(account, password, d, pw1, KDF_STRONG, d1),
                    Changing(account, password, d, pw2, KDF_DEFAULT, d2), s1, s2, t);
    PasswordMatchesExactlyInOrder(Run(w, Clash(Changing(account, password, d, pw1, KDF_STRONG, d1),
                                               Changing(account, password, d, pw2, KDF_DEFAULT, d2), s1, s2, t)).ladder,
                                  account, pw2, KDF_DEFAULT);
  }
}
