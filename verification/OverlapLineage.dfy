/** Which login each row descends from while refreshes overlap. */
module OverlapLineage {
  import opened Prelude
  import opened TokenTable
  import opened AuthService
  import opened AuthRuns
  import opened RefreshInterleaving
  import Lineage

  /** The origins of the rows along a move. */
  function Trace(t: Lineage.Traced, w: World, m: Move): (r: Lineage.Traced)
    requires t.rows == w.db.rows && |t.origin| == |t.rows|
    ensures r.rows == RefreshInterleaving.Next(w, m).db.rows && |r.origin| == |r.rows|
  {
    match m
    case Other(e) =>
      StepActs(w.db, e);
      Lineage.Step(t, ActionOf(w.db, e))
    case Begin(_, _, _, _) => t
    case Finish(req, raw) =>
      if req !in w.inFlight then t else FinishedTrace(t, w.inFlight[req], raw)
  }

  function FinishedTrace(t: Lineage.Traced, f: InFlight, raw: seq<byte>): (r: Lineage.Traced)
    requires |t.origin| == |t.rows|
    ensures r.rows == FinishedRows(t.rows, f, raw) && |r.origin| == |r.rows|
  {
    Lineage.Traced(FinishedRows(t.rows, f, raw),
                   if FinishStatus(t.rows, f, raw) == Rotated
                   then t.origin + [t.origin[IndexOf(t.rows, f.seen.tokenHash)]] else t.origin)
  }

  function TraceRun(t: Lineage.Traced, w: World, moves: seq<Move>): (r: Lineage.Traced)
    requires t.rows == w.db.rows && |t.origin| == |t.rows|
    ensures r.rows == RefreshInterleaving.Run(w, moves).db.rows && |r.origin| == |r.rows|
    decreases |moves|
  {
    if moves == [] then t else TraceRun(Trace(t, w, moves[0]), RefreshInterleaving.Next(w, moves[0]), moves[1..])
  }

  lemma {:induction false} TraceAppend(t: Lineage.Traced, w: World, xs: seq<Move>, ys: seq<Move>)
    requires t.rows == w.db.rows && |t.origin| == |t.rows|
    ensures TraceRun(t, w, xs + ys) == TraceRun(TraceRun(t, w, xs), RefreshInterleaving.Run(w, xs), ys)
    decreases |xs|
  {
    if xs == [] {
      assert xs + ys == ys;
    } else {
      assert (xs + ys)[1..] == xs[1..] + ys;
      TraceAppend(Trace(t, w, xs[0]), RefreshInterleaving.Next(w, xs[0]), xs[1..], ys);
    }
  }

  lemma {:induction false} TraceOne(t: Lineage.Traced, w: World, m: Move)
    requires t.rows == w.db.rows && |t.origin| == |t.rows|
    ensures TraceRun(t, w, [m]) == Trace(t, w, m)
  {
    assert [m][1..] == [];
  }

  /** No two un-revoked rows descend from one login. */
  ghost predicate OneLive(t: Lineage.Traced) {
    |t.origin| == |t.rows|
    && forall i, j :: 0 <= i < j < |t.rows| && t.origin[i] == t.origin[j] ==> !(Live(t.rows[i]) && Live(t.rows[j]))
  }

  /** Some un-revoked row descends from the same login as row `k`. */
  ghost predicate LiveKin(t: Lineage.Traced, k: nat)
    requires |t.origin| == |t.rows| && k < |t.rows|
  {
    exists i :: 0 <= i < |t.rows| && Live(t.rows[i]) && t.origin[i] == t.origin[k]
  }

  /** Burying row `k` and adding a live row of its login gives the login a second live row exactly when
      row `k` was already buried and the login has a live row. */
  lemma {:induction false} FollowedOneLive(t: Lineage.Traced, after: Lineage.Traced, k: nat)
    requires OneLive(t) && k < |t.rows| && |after.rows| == |after.origin| == |t.rows| + 1
    requires after.origin == t.origin + [t.origin[k]] && Live(after.rows[|t.rows|]) && !Live(after.rows[k])
    requires forall i :: 0 <= i < |t.rows| && i != k ==> after.rows[i] == t.rows[i]
    ensures OneLive(after) <==> Live(t.rows[k]) || !LiveKin(t, k)
  {
    var n := |t.rows|;
    if !Live(t.rows[k]) && LiveKin(t, k) {
      var i :| 0 <= i < n && Live(t.rows[i]) && t.origin[i] == t.origin[k];
      assert after.origin[i] == after.origin[n];
    } else {
      forall i, j | 0 <= i < j < |after.rows| && after.origin[i] == after.origin[j]
        ensures !(Live(after.rows[i]) && Live(after.rows[j]))
      {
        assert t.origin[i] == after.origin[i];
      }
    }
  }

  lemma {:induction false} FinishOthers(rows: seq<Row>, f: InFlight, raw: seq<byte>)
    requires WellFormed(rows) && WasStored(rows, f.seen)
    ensures var after := FinishedRows(rows, f, raw);
            && |rows| <= |after|
            && (forall i :: 0 <= i < |rows| && i != IndexOf(rows, f.seen.tokenHash) ==> after[i] == rows[i])
            && (FinishStatus(rows, f, raw) != Rotated ==>
                  |after| == |rows| && forall i :: 0 <= i < |rows| ==> (Live(after[i]) <==> Live(rows[i])))
  {
    FinishShape(rows, f, raw);
  }

  /** One login gets a second live row exactly when a rotation goes through although its row was revoked
      since the lookup and the login has a live row by then. */
  lemma {:induction false} FinishKeepsOneLiveExactly(t: Lineage.Traced, f: InFlight, raw: seq<byte>)
    requires WellFormed(t.rows) && WasStored(t.rows, f.seen) && OneLive(t)
    ensures OneLive(FinishedTrace(t, f, raw)) <==>
            !(TooLate(t.rows, f, raw) && LiveKin(t, IndexOf(t.rows, f.seen.tokenHash)))
  {
    FinishShape(t.rows, f, raw);
    FinishOthers(t.rows, f, raw);
    if FinishStatus(t.rows, f, raw) == Rotated {
      FollowedOneLive(t, FinishedTrace(t, f, raw), IndexOf(t.rows, f.seen.tokenHash));
    }
  }

  // ---------------------------------------------------------------- over whole runs

  /** The move is not a rotation that comes too late for a login that has a live row. */
  ghost predicate Spares(t: Lineage.Traced, w: World, m: Move)
    requires t.rows == w.db.rows && |t.origin| == |t.rows|
  {
    m.Finish? && m.req in w.inFlight && Known(t.rows, w.inFlight[m.req].seen.tokenHash) ==>
      var f := w.inFlight[m.req];
      !(TooLate(t.rows, f, m.raw) && LiveKin(t, IndexOf(t.rows, f.seen.tokenHash)))
  }

  ghost predicate AllSpare(t: Lineage.Traced, w: World, moves: seq<Move>)
    requires t.rows == w.db.rows && |t.origin| == |t.rows|
    decreases |moves|
  {
    moves == []
    || (Spares(t, w, moves[0]) && AllSpare(Trace(t, w, moves[0]), RefreshInterleaving.Next(w, moves[0]), moves[1..]))
  }

  /** No login has two live rows at any time of the run. */
  ghost predicate AlwaysOneLive(t: Lineage.Traced, w: World, moves: seq<Move>)
    requires t.rows == w.db.rows && |t.origin| == |t.rows|
    decreases |moves|
  {
    OneLive(t)
    && (moves != [] ==> AlwaysOneLive(Trace(t, w, moves[0]), RefreshInterleaving.Next(w, moves[0]), moves[1..]))
  }

  /** Rows keep their account and their origin; a new row has the account of the one it follows. */
  lemma {:induction false} RootedAfter(t: Lineage.Traced, after: Lineage.Traced)
    requires Lineage.Rooted(t) && Outlives(t.rows, after.rows)
    requires |after.origin| == |after.rows| <= |t.rows| + 1 && after.origin[..|t.rows|] == t.origin
    requires |t.rows| < |after.rows| ==>
               exists k :: 0 <= k < |t.rows| && after.origin[|t.rows|] == t.origin[k]
                           && after.rows[|t.rows|].user == t.rows[k].user
    ensures Lineage.Rooted(after)
  {
    forall i | 0 <= i < |after.rows|
      ensures after.origin[i] <= i && after.rows[after.origin[i]].user == after.rows[i].user
    {
      var k: nat :| k < |t.rows| && k <= i && after.origin[i] == t.origin[k] && after.rows[i].user == t.rows[k].user;
      assert SameRow(t.rows[t.origin[k]], after.rows[t.origin[k]]);
    }
  }

  lemma {:induction false} FinishKeepsRooted(t: Lineage.Traced, f: InFlight, raw: seq<byte>)
    requires WellFormed(t.rows) && WasStored(t.rows, f.seen) && Lineage.Rooted(t)
    ensures Lineage.Rooted(FinishedTrace(t, f, raw))
  {
    FinishShape(t.rows, f, raw);
    assert t.rows[IndexOf(t.rows, f.seen.tokenHash)].user == f.seen.user;
    RootedAfter(t, FinishedTrace(t, f, raw));
  }

  lemma {:induction false} MoveKeepsRooted(t: Lineage.Traced, w: World, m: Move)
    requires Inv(w) && t.rows == w.db.rows && Lineage.Rooted(t)
    ensures Lineage.Rooted(Trace(t, w, m))
  {
    match m
    case Other(e) =>
      StepActs(w.db, e);
      Lineage.StepKeepsRooted(t, ActionOf(w.db, e));
    case Begin(_, _, _, _) =>
    case Finish(req, raw) =>
      if req in w.inFlight {
        assert Waiting(w, w.inFlight[req]);
        FinishKeepsRooted(t, w.inFlight[req], raw);
      }
  }

  /** A call that rotates nothing leaves live rows live or buries them, and a login's row starts a chain. */
  lemma {:induction false} ActionKeepsOneLive(t: Lineage.Traced, a: Action)
    requires OneLive(t) && Lineage.Rooted(t) && !a.Rotate?
    ensures OneLive(Lineage.Step(t, a))
  {
    Lineage.StepShape(t, a);
    var next, n := Lineage.Step(t, a), |t.rows|;
    forall i, j | 0 <= i < j < |next.rows| && next.origin[i] == next.origin[j]
      ensures !(Live(next.rows[i]) && Live(next.rows[j]))
    {
      assert next.origin[i] == t.origin[i] <= i;
      if j < n {
        assert next.origin[j] == t.origin[j];
      }
    }
  }

  lemma {:induction false} MoveKeepsOneLiveExactly(t: Lineage.Traced, w: World, m: Move)
    requires Inv(w) && t.rows == w.db.rows && Lineage.Rooted(t) && OneLive(t) && Enabled(w, m)
    ensures OneLive(Trace(t, w, m)) <==> Spares(t, w, m)
  {
    match m
    case Other(e) =>
      StepActs(w.db, e);
      ActionKeepsOneLive(t, ActionOf(w.db, e));
    case Begin(_, _, _, _) =>
    case Finish(req, raw) =>
      if req in w.inFlight {
        assert Waiting(w, w.inFlight[req]);
        FinishKeepsOneLiveExactly(t, w.inFlight[req], raw);
      }
  }

  /** Over every run of overlapping refreshes, each login has one live descendant at all times exactly when
      no rotation comes too late for a login that has a live row. */
  lemma {:induction false} OneLiveThroughoutExactly(t: Lineage.Traced, w: World, moves: seq<Move>)
    requires Inv(w) && Fresh(w, moves) && t.rows == w.db.rows && Lineage.Rooted(t) && OneLive(t)
    ensures AlwaysOneLive(t, w, moves) <==> AllSpare(t, w, moves)
    decreases |moves|
  {
    if moves != [] {
      MoveKeepsOneLiveExactly(t, w, moves[0]);
      if Spares(t, w, moves[0]) {
        NextKeepsInv(w, moves[0]);
        MoveKeepsRooted(t, w, moves[0]);
        OneLiveThroughoutExactly(Trace(t, w, moves[0]), RefreshInterleaving.Next(w, moves[0]), moves[1..]);
      }
    }
  }

  // ---------------------------------------------------------------- runs without late rotations

  /** Every rotation that goes through still finds its row live. */
  ghost predicate Timely(w: World, moves: seq<Move>)
    decreases |moves|
  {
    moves == [] || (TimelyMove(w, moves[0]) && Timely(RefreshInterleaving.Next(w, moves[0]), moves[1..]))
  }

  ghost predicate TimelyMove(w: World, m: Move) {
    m.Finish? && m.req in w.inFlight && CanRotate(w.inFlight[m.req]) ==>
      Known(w.db.rows, w.inFlight[m.req].seen.tokenHash) && Live(Stored(w.db.rows, w.inFlight[m.req]))
  }

  lemma {:induction false} SameLivenessSameChains(t: Lineage.Traced, after: Lineage.Traced)
    requires Lineage.Chains(t) && after.origin == t.origin && |after.rows| == |t.rows|
    requires forall i :: 0 <= i < |t.rows| ==>
               after.rows[i].user == t.rows[i].user && (Live(after.rows[i]) <==> Live(t.rows[i]))
    ensures Lineage.Chains(after)
  {
  }

  lemma {:induction false} TimelyFinishKeepsChains(t: Lineage.Traced, f: InFlight, raw: seq<byte>)
    requires WellFormed(t.rows) && WasStored(t.rows, f.seen) && Lineage.Chains(t)
    requires CanRotate(f) ==> Live(Stored(t.rows, f))
    ensures Lineage.Chains(FinishedTrace(t, f, raw))
  {
    if CanRotate(f) {
      var a := Rotate(f.seen.tokenHash, Sha256(raw), JtiHash(f.jti), f.now);
      TimelyFinishIsRotate(t.rows, f, raw);
      assert FinishedTrace(t, f, raw) == Lineage.Step(t, a);
      Lineage.StepKeepsRooted(t, a);
      Lineage.StepKeepsNewestOnly(t, a);
    } else {
      FinishOthers(t.rows, f, raw);
      FinishShape(t.rows, f, raw);
      SameLivenessSameChains(t, FinishedTrace(t, f, raw));
    }
  }

  lemma {:induction false} OtherKeepsChains(t: Lineage.Traced, w: World, e: Event)
    requires t.rows == w.db.rows && WellFormed(t.rows) && Lineage.Chains(t)
    ensures Lineage.Chains(Trace(t, w, Other(e)))
    ensures KeepsReasons(w.db.rows, RefreshInterleaving.Next(w, Other(e)).db.rows)
  {
    StepActs(w.db, e);
    ApplyKeepsTable(w.db.rows, ActionOf(w.db, e));
    Lineage.StepKeepsRooted(t, ActionOf(w.db, e));
    Lineage.StepKeepsNewestOnly(t, ActionOf(w.db, e));
  }

  lemma {:induction false} TimelyMoveKeepsChains(t: Lineage.Traced, w: World, m: Move)
    requires Inv(w) && t.rows == w.db.rows && Lineage.Chains(t) && TimelyMove(w, m)
    ensures Lineage.Chains(Trace(t, w, m)) && KeepsReasons(w.db.rows, RefreshInterleaving.Next(w, m).db.rows)
  {
    match m
    case Other(e) => OtherKeepsChains(t, w, e);
    case Begin(_, _, _, _) =>
    case Finish(req, raw) =>
      if req in w.inFlight {
        assert Waiting(w, w.inFlight[req]);
        TimelyFinishKeepsChains(t, w.inFlight[req], raw);
        FinishKeepsReasonsExactly(w.db.rows, w.inFlight[req], raw);
      }
  }

  lemma {:induction false} ReasonsThrough(before: seq<Row>, mid: seq<Row>, after: seq<Row>)
    requires KeepsReasons(before, mid) && Outlives(before, mid) && KeepsReasons(mid, after)
    ensures KeepsReasons(before, after)
  {
  }

  /** As long as every rotation that goes through still finds its row live, overlapping refreshes keep
      each login's one live descendant, and no reason is ever rewritten. */
  lemma {:induction false} TimelyRunsKeepChains(t: Lineage.Traced, w: World, moves: seq<Move>)
    requires Inv(w) && Fresh(w, moves) && t.rows == w.db.rows && Lineage.Chains(t) && Timely(w, moves)
    ensures Lineage.Chains(TraceRun(t, w, moves))
    ensures KeepsReasons(w.db.rows, RefreshInterleaving.Run(w, moves).db.rows)
    decreases |moves|
  {
    if moves != [] {
      var next := RefreshInterleaving.Next(w, moves[0]);
      NextKeepsInv(w, moves[0]);
      NextOutlives(w, moves[0]);
      TimelyMoveKeepsChains(t, w, moves[0]);
      TimelyRunsKeepChains(Trace(t, w, moves[0]), next, moves[1..]);
      ReasonsThrough(w.db.rows, next.db.rows, RefreshInterleaving.Run(w, moves).db.rows);
    }
  }
}
