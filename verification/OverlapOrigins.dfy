/** Which logins an account's sessions descend from after they were ended, while refreshes overlap. */
module OverlapOrigins {
  import opened Prelude
  import opened TokenTable
  import opened AuthService
  import opened AuthRuns
  import opened RefreshInterleaving
  import opened OverlapCutOff
  import Lineage
  import OverlapLineage

  /** Every un-revoked row of the account descends from a login minted at row `cut` or later, and so does
      every row of it that a refresh in flight can still rotate. */
  ghost predicate Later(t: Lineage.Traced, w: World, account: Guid, cut: nat) {
    && t.rows == w.db.rows && Lineage.LiveSince(t, account, cut)
    && forall r :: r in w.inFlight ==> LaterRefresh(t, w.inFlight[r], account, cut)
  }

  ghost predicate LaterRefresh(t: Lineage.Traced, f: InFlight, account: Guid, cut: nat)
    requires |t.origin| == |t.rows|
  {
    f.seen.user == account && CanRotate(f) ==>
      Known(t.rows, f.seen.tokenHash) && cut <= t.origin[IndexOf(t.rows, f.seen.tokenHash)]
  }

  /** What stays in flight points at a row whose origin stays. */
  lemma {:induction false} LaterRefreshStays(t: Lineage.Traced, next: Lineage.Traced, f: InFlight, account: Guid,
          cut: nat)
    requires |t.origin| == |t.rows| <= |next.rows| == |next.origin| && next.origin[..|t.rows|] == t.origin
    requires IndexOf(next.rows, f.seen.tokenHash) == IndexOf(t.rows, f.seen.tokenHash) < |t.rows|
    requires LaterRefresh(t, f, account, cut)
    ensures LaterRefresh(next, f, account, cut)
  {
    var i := IndexOf(t.rows, f.seen.tokenHash);
    assert next.origin[i] == next.origin[..|t.rows|][i];
  }

  /** Rows keep their identity and their origin; what a call adds is checked on its own. */
  lemma {:induction false} LiveSinceAfter(t: Lineage.Traced, next: Lineage.Traced, account: Guid, cut: nat)
    requires Lineage.LiveSince(t, account, cut) && Outlives(t.rows, next.rows)
    requires |next.origin| == |next.rows| <= |t.rows| + 1 && next.origin[..|t.rows|] == t.origin
    requires |t.rows| < |next.rows| && next.rows[|t.rows|].user == account ==> cut <= next.origin[|t.rows|]
    ensures Lineage.LiveSince(next, account, cut)
  {
    forall i | 0 <= i < |next.rows| && next.rows[i].user == account && Live(next.rows[i])
      ensures cut <= next.origin[i]
    {
      if i < |t.rows| {
        assert SameRow(t.rows[i], next.rows[i]) && next.origin[i] == next.origin[..|t.rows|][i];
      }
    }
  }

  /** What is in flight still points at the row it looked up. */
  lemma {:induction false} PlacesStay(w: World, after: seq<Row>)
    requires Inv(w) && Outlives(w.db.rows, after) && UniqueHashes(after)
    ensures forall r :: r in w.inFlight ==>
              IndexOf(after, w.inFlight[r].seen.tokenHash) == IndexOf(w.db.rows, w.inFlight[r].seen.tokenHash)
              < |w.db.rows|
  {
    forall r | r in w.inFlight
      ensures IndexOf(after, w.inFlight[r].seen.tokenHash) == IndexOf(w.db.rows, w.inFlight[r].seen.tokenHash)
              < |w.db.rows|
    {
      assert Waiting(w, w.inFlight[r]);
      WasStoredStays(w.db.rows, after, w.inFlight[r].seen);
    }
  }

  lemma {:induction false} OtherKeepsLater(t: Lineage.Traced, w: World, e: Event, account: Guid, cut: nat)
    requires Inv(w) && Enabled(w, Other(e)) && Later(t, w, account, cut)
    ensures Later(OverlapLineage.Trace(t, w, Other(e)), RefreshInterleaving.Next(w, Other(e)), account, cut)
  {
    var next := OverlapLineage.Trace(t, w, Other(e));
    OtherShape(w, e);
    OtherOrigins(t, w, e);
    LiveSinceAfter(t, next, account, cut);
    PlacesStay(w, next.rows);
    hide Inv, LaterRefresh, Lineage.LiveSince;
    forall r | r in w.inFlight ensures LaterRefresh(next, w.inFlight[r], account, cut) {
      LaterRefreshStays(t, next, w.inFlight[r], account, cut);
    }
  }

  lemma {:induction false} OtherOrigins(t: Lineage.Traced, w: World, e: Event)
    requires t.rows == w.db.rows && |t.origin| == |t.rows| && !e.DoRotate?
    ensures var next := OverlapLineage.Trace(t, w, Other(e));
            && |t.rows| <= |next.rows| <= |t.rows| + 1 && next.origin[..|t.rows|] == t.origin
            && (|t.rows| < |next.rows| ==> next.origin[|t.rows|] == |t.rows|)
  {
    StepActs(w.db, e);
    Lineage.StepShape(t, ActionOf(w.db, e));
  }

  lemma {:induction false} BeginKeepsLater(t: Lineage.Traced, w: World, m: Move, account: Guid, cut: nat)
    requires Inv(w) && Enabled(w, m) && Later(t, w, account, cut) && m.Begin?
    ensures Later(t, RefreshInterleaving.Next(w, m), account, cut)
  {
  }

  lemma {:induction false} FinishedOrigins(t: Lineage.Traced, f: InFlight, raw: seq<byte>)
    requires WellFormed(t.rows) && WasStored(t.rows, f.seen) && |t.origin| == |t.rows|
    ensures var next, n := OverlapLineage.FinishedTrace(t, f, raw), |t.rows|;
            && n <= |next.rows| <= n + 1 && next.origin[..n] == t.origin
            && (n < |next.rows| ==>
                  && FinishStatus(t.rows, f, raw) == Rotated && CanRotate(f) && next.rows[n].user == f.seen.user
                  && next.origin[n] == t.origin[IndexOf(t.rows, f.seen.tokenHash)])
  {
    FinishShape(t.rows, f, raw);
  }

  lemma {:induction false} FinishKeepsLive(t: Lineage.Traced, w: World, f: InFlight, raw: seq<byte>, account: Guid,
          cut: nat)
    requires Later(t, w, account, cut) && WellFormed(t.rows) && WasStored(t.rows, f.seen)
    requires exists r :: r in w.inFlight && w.inFlight[r] == f
    ensures Lineage.LiveSince(OverlapLineage.FinishedTrace(t, f, raw), account, cut)
  {
    hide FinishedRows, FinishStatus, OverlapLineage.FinishedTrace;
    FinishedOrigins(t, f, raw);
    FinishShape(t.rows, f, raw);
    LiveSinceAfter(t, OverlapLineage.FinishedTrace(t, f, raw), account, cut);
  }

  lemma {:induction false} FinishKeepsLater(t: Lineage.Traced, w: World, m: Move, account: Guid, cut: nat)
    requires Inv(w) && Later(t, w, account, cut) && m.Finish?
    ensures Later(OverlapLineage.Trace(t, w, m), RefreshInterleaving.Next(w, m), account, cut)
  {
    if m.req in w.inFlight {
      var f, next := w.inFlight[m.req], OverlapLineage.Trace(t, w, m);
      assert Waiting(w, f);
      FinishedOrigins(t, f, m.raw);
      FinishShape(t.rows, f, m.raw);
      FinishKeepsLive(t, w, f, m.raw, account, cut);
      PlacesStay(w, next.rows);
      hide Inv, LaterRefresh, FinishedRows, FinishStatus, OverlapLineage.FinishedTrace, Lineage.LiveSince;
      forall r | r in w.inFlight ensures LaterRefresh(next, w.inFlight[r], account, cut) {
        LaterRefreshStays(t, next, w.inFlight[r], account, cut);
      }
    }
  }

  lemma {:induction false} RunKeepsLater(t: Lineage.Traced, w: World, moves: seq<Move>, account: Guid, cut: nat)
    requires Inv(w) && Fresh(w, moves) && Later(t, w, account, cut)
    ensures Later(OverlapLineage.TraceRun(t, w, moves), RefreshInterleaving.Run(w, moves), account, cut)
    decreases |moves|
  {
    if moves != [] {
      match moves[0] {
        case Other(e) => OtherKeepsLater(t, w, e, account, cut);
        case Begin(_, _, _, _) => BeginKeepsLater(t, w, moves[0], account, cut);
        case Finish(_, _) => FinishKeepsLater(t, w, moves[0], account, cut);
      }
      NextKeepsInv(w, moves[0]);
      RunKeepsLater(OverlapLineage.Trace(t, w, moves[0]), RefreshInterleaving.Next(w, moves[0]), moves[1..], account,
                    cut);
    }
  }

  /** When the end of an account's sessions finds no refresh of the account under way, every session the
      account has in any continuation, however refreshes overlap in it, descends from a login made later. */
  lemma {:induction false} OnlyLaterLoginsSurviveOverlap(t: Lineage.Traced, w: World, e: Event, account: Guid,
          moves: seq<Move>)
    requires Inv(w) && Enabled(w, Other(e)) && Ends(w.db, e) == Some(account) && NoneUnderWay(w, account)
    requires t.rows == w.db.rows && |t.origin| == |t.rows| && Fresh(RefreshInterleaving.Next(w, Other(e)), moves)
    ensures var after := OverlapLineage.TraceRun(OverlapLineage.Trace(t, w, Other(e)),
                                                 RefreshInterleaving.Next(w, Other(e)), moves);
            Lineage.LiveSince(after, account, |w.db.rows|)
  {
    EndingRevokesAll(w, e, account);
    OtherKeepsInv(w, e);
    RunKeepsLater(OverlapLineage.Trace(t, w, Other(e)), RefreshInterleaving.Next(w, Other(e)), moves, account,
                  |w.db.rows|);
  }
}
