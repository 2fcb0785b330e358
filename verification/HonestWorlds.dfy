/** The worlds that runs of honest clients can reach. */
module HonestWorlds {
  import opened Prelude
  import opened Crypto
  import opened AuthService
  import opened KeyLadder
  import AuthCommands
  import AuthRuns

  ghost predicate Reachable(w: World) {
    exists moves: seq<Move> :: Honest(Start, moves) && Run(Start, moves) == w
  }

  lemma {:induction false} SentKeepsShapes(w: World, order: Order, salts: Salts, now: Time)
    requires AuthRuns.AllShaped(w.db)
    ensures AuthRuns.AllShaped(Sent(w, order, salts, now).db)
  {
    match order
    case ToRegister(cmd, _, _, _) => AuthRuns.RegisterKeepsShapes(w.db, cmd, salts);
    case ToChange(cmd, _) => AuthRuns.ChangeKeepsShapes(w.db, cmd, salts, now);
    case ToRecover(cmd, _, _) => AuthRuns.RecoverKeepsShapes(w.db, cmd, salts, now);
  }

  lemma {:induction false} NextKeepsShapes(w: World, m: Move)
    requires AuthRuns.AllShaped(w.db)
    ensures AuthRuns.AllShaped(Next(w, m).db)
  {
    match m
    case Send(order, salts, now) => SentKeepsShapes(w, order, salts, now);
    case Anyone(e) => AuthRuns.StepKeepsShapes(w.db, e);
    case _ =>
  }

  lemma {:induction false} RunKeepsShapes(w: World, moves: seq<Move>)
    requires AuthRuns.AllShaped(w.db)
    ensures AuthRuns.AllShaped(Run(w, moves).db)
    decreases |moves|
  {
    if moves != [] {
      NextKeepsShapes(w, moves[0]);
      RunKeepsShapes(Next(w, moves[0]), moves[1..]);
    }
  }

  lemma {:induction false} ReachableIsSound(w: World)
    requires Reachable(w)
    ensures Inv(w) && AuthRuns.AllShaped(w.db)
  {
    var moves :| Honest(Start, moves) && Run(Start, moves) == w;
    RunKeepsInv(Start, moves);
    RunKeepsShapes(Start, moves);
  }

  lemma {:induction false} RunOneMore(w: World, moves: seq<Move>, m: Move)
    requires Honest(w, moves) && Enabled(Run(w, moves), m)
    ensures Honest(w, moves + [m]) && Run(w, moves + [m]) == Next(Run(w, moves), m)
    decreases |moves|
  {
    if moves == [] {
      assert Run(Next(w, m), [m][1..]) == Next(w, m);
    } else {
      assert (moves + [m])[1..] == moves[1..] + [m];
      RunOneMore(Next(w, moves[0]), moves[1..], m);
    }
  }

  lemma {:induction false} ReachableStep(w: World, m: Move)
    requires Reachable(w) && Enabled(w, m)
    ensures Reachable(Next(w, m))
  {
    var moves :| Honest(Start, moves) && Run(Start, moves) == w;
    RunOneMore(Start, moves, m);
  }

  lemma {:induction false} ReachableNext(w: World, m: Move)
    requires Reachable(w) && Enabled(w, m)
    ensures Reachable(Next(w, m)) && Grows(w, Next(w, m))
  {
    ReachableStep(w, m);
    ReachableIsSound(w);
    NextKeepsInv(w, m);
  }

  /** A call that replaces no honest account's credentials takes a reachable world to a reachable one. */
  lemma {:induction false} ReachableCall(w: World, e: AuthRuns.Event)
    requires Reachable(w) && Foreign(w, e)
    ensures var v := w.(db := AuthRuns.Step(w.db, e)); Reachable(v) && Grows(w, v) && v == Next(w, Anyone(e))
  {
    ReachableNext(w, Anyone(e));
  }

  lemma {:induction false} ReachableWraps(w: World, cmd: AuthCommands.WrapsCommand, now: Time)
    requires Reachable(w)
    ensures var v := w.(db := GetWraps(w.db, cmd, now).0); Reachable(v) && Grows(w, v)
  {
    assert AuthRuns.Step(w.db, AuthRuns.DoGetWraps(cmd, now)) == GetWraps(w.db, cmd, now).0;
    ReachableCall(w, AuthRuns.DoGetWraps(cmd, now));
  }

  lemma {:induction false} ReachableRecoveryWraps(w: World, account: Guid, rkVerifier: Blob, now: Time)
    requires Reachable(w)
    ensures var v := w.(db := GetRecoveryWraps(w.db, account, rkVerifier, now).0); Reachable(v) && Grows(w, v)
  {
    var e := AuthRuns.DoGetRecoveryWraps(account, rkVerifier, now);
    assert AuthRuns.Step(w.db, e) == GetRecoveryWraps(w.db, account, rkVerifier, now).0;
    ReachableCall(w, e);
  }

  /** In a reachable world whatever opens an obtainable wrap gives the account's master key. */
  lemma {:induction false} OpensToMasterKey(w: World, c: Credential, account: Guid, v: EncryptedValue)
    requires Reachable(w) && Obtainable(w, v)
    ensures OpenWith(c, account, v).Some? ==> account in w.mk && OpenWith(c, account, v) == Some(w.mk[account])
  {
    ReachableIsSound(w);
    if OpenWith(c, account, v).Some? {
      ObtainedOpensToMk(w, c, account, v);
    }
  }
}
