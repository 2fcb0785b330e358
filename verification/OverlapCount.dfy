/** How many sessions an account has while refreshes overlap. */
module OverlapCount {
  import opened Prelude
  import opened TokenTable
  import opened AuthService
  import opened AuthRuns
  import opened RefreshInterleaving
  import Lineage
  import OverlapLineage

  /** A late rotation buries its row again and adds a live one. */
  lemma {:induction false} RotatedCount(rows: seq<Row>, f: InFlight, raw: seq<byte>, user: Guid)
    requires WellFormed(rows) && WasStored(rows, f.seen) && FinishStatus(rows, f, raw) == Rotated
    ensures Lineage.LiveCount(FinishedRows(rows, f, raw), user)
            == Lineage.LiveCount(rows, user) + if TooLate(rows, f, raw) && user == f.seen.user then 1 else 0
  {
    var i := IndexOf(rows, f.seen.tokenHash);
    var written := Written(rows[i], f.seen, Bury(f.seen, Regular, f.now));
    Lineage.CountUpdate(rows, i, written, user);
    Lineage.CountAppend(rows[i := written], NewRow(f.seen.user, Sha256(raw), JtiHash(f.jti), f.now), user);
  }

  /** The end of a refresh adds an un-revoked row to the account of the row it looked up exactly when it
      goes through too late; every other account, and every other outcome, keeps its number. */
  lemma {:induction false} FinishCountsExactly(rows: seq<Row>, f: InFlight, raw: seq<byte>, user: Guid)
    requires WellFormed(rows) && WasStored(rows, f.seen)
    ensures Lineage.LiveCount(FinishedRows(rows, f, raw), user)
            == Lineage.LiveCount(rows, user) + if TooLate(rows, f, raw) && user == f.seen.user then 1 else 0
    ensures Lineage.LiveCount(FinishedRows(rows, f, raw), f.seen.user) == Lineage.LiveCount(rows, f.seen.user)
            <==> !TooLate(rows, f, raw)
  {
    if FinishStatus(rows, f, raw) == Rotated {
      RotatedCount(rows, f, raw, user);
      RotatedCount(rows, f, raw, f.seen.user);
    } else if FinishStatus(rows, f, raw) == RecentlyRevoked {
      var i := IndexOf(rows, f.seen.tokenHash);
      var written := Written(rows[i], f.seen, f.seen.(revokedAt := Some(f.now)));
      Lineage.CountUpdate(rows, i, written, user);
      Lineage.CountUpdate(rows, i, written, f.seen.user);
    }
  }

  // ---------------------------------------------------------------- over whole runs

  /** What a move adds to an account's bound that stood at `n`: one for a successful login and one for a
      rotation that goes through too late. Ending its sessions brings the bound to zero. */
  function Bound(w: World, n: nat, m: Move, account: Guid): nat {
    match m
    case Other(e) =>
      if Ends(w.db, e) == Some(account) then 0
      else if e.DoLogin? && e.login.account == account && Succeeds(w.db, e) then n + 1
      else n
    case Begin(_, _, _, _) => n
    case Finish(req, raw) =>
      if req in w.inFlight && w.inFlight[req].seen.user == account
         && Known(w.db.rows, w.inFlight[req].seen.tokenHash) && TooLate(w.db.rows, w.inFlight[req], raw)
      then n + 1 else n
  }

  function LoginsAndLate(w: World, n: nat, moves: seq<Move>, account: Guid): nat
    decreases |moves|
  {
    if moves == [] then n
    else LoginsAndLate(RefreshInterleaving.Next(w, moves[0]), Bound(w, n, moves[0], account), moves[1..], account)
  }

  lemma {:induction false} MoveCounts(w: World, n: nat, m: Move, account: Guid)
    requires Inv(w) && Enabled(w, m) && Lineage.LiveCount(w.db.rows, account) <= n
    ensures Lineage.LiveCount(RefreshInterleaving.Next(w, m).db.rows, account) <= Bound(w, n, m, account)
  {
    match m
    case Other(e) =>
      StepActs(w.db, e);
      Lineage.CountAfter(w.db.rows, ActionOf(w.db, e), account);
    case Begin(_, _, _, _) =>
    case Finish(req, raw) =>
      if req in w.inFlight {
        assert Waiting(w, w.inFlight[req]);
        FinishCountsExactly(w.db.rows, w.inFlight[req], raw, account);
      }
  }

  /** Over every run of overlapping refreshes an account has at most as many un-revoked rows as successful
      logins and late rotations since its sessions were last ended. */
  lemma {:induction false} NeverMoreThanLoginsAndLate(w: World, n: nat, moves: seq<Move>, account: Guid)
    requires Inv(w) && Fresh(w, moves) && Lineage.LiveCount(w.db.rows, account) <= n
    ensures Lineage.LiveCount(RefreshInterleaving.Run(w, moves).db.rows, account)
            <= LoginsAndLate(w, n, moves, account)
    decreases |moves|
  {
    if moves != [] {
      MoveCounts(w, n, moves[0], account);
      NextKeepsInv(w, moves[0]);
      NeverMoreThanLoginsAndLate(RefreshInterleaving.Next(w, moves[0]), Bound(w, n, moves[0], account), moves[1..],
                                 account);
    }
  }

  /** The successful logins alone. */
  function Logins(w: World, n: nat, moves: seq<Move>, account: Guid): nat
    decreases |moves|
  {
    if moves == [] then n
    else
      Logins(RefreshInterleaving.Next(w, moves[0]), if moves[0].Finish? then n else Bound(w, n, moves[0], account),
             moves[1..], account)
  }

  /** As long as every rotation that goes through still finds its row live, it is the successful logins
      alone that bound the sessions. */
  lemma {:induction false} NeverMoreThanLoginsWhenTimely(w: World, n: nat, moves: seq<Move>, account: Guid)
    requires Inv(w) && Fresh(w, moves) && Lineage.LiveCount(w.db.rows, account) <= n && OverlapLineage.Timely(w, moves)
    ensures Lineage.LiveCount(RefreshInterleaving.Run(w, moves).db.rows, account) <= Logins(w, n, moves, account)
    decreases |moves|
  {
    if moves != [] {
      MoveCounts(w, n, moves[0], account);
      NextKeepsInv(w, moves[0]);
      assert OverlapLineage.TimelyMove(w, moves[0]);
      var bound := if moves[0].Finish? then n else Bound(w, n, moves[0], account);
      NeverMoreThanLoginsWhenTimely(RefreshInterleaving.Next(w, moves[0]), bound, moves[1..], account);
    }
  }
}
