/** What ending an account's sessions ends while refreshes are in flight. */
module OverlapCutOff {
  import opened Prelude
  import opened TokenTable
  import opened AuthService
  import opened AuthRuns
  import opened RefreshInterleaving

  /** No refresh of the account in flight has looked its row up live and in time. */
  ghost predicate NoneUnderWay(w: World, account: Guid) {
    forall r :: r in w.inFlight && w.inFlight[r].seen.user == account ==> !CanRotate(w.inFlight[r])
  }

  /** No access token the account had been issued at `cut` is accepted, whatever the time. */
  ghost predicate CutOff(cut: World, account: Guid, w: World) {
    forall a, now :: a in cut.issued && a.sub == account ==> !Accepts(w.db.rows, account, JtiHash(a.jti), now)
  }

  /** The account's rows at `cut` are revoked, rows with an access token of that time too, and nothing in
      flight can rotate one of them or bring one of those access tokens into the table. */
  ghost predicate Ended(cut: World, account: Guid, w: World) {
    && cut.issued <= w.issued && Outlives(cut.db.rows, w.db.rows)
    && (forall i :: 0 <= i < |cut.db.rows| && cut.db.rows[i].user == account ==> !Live(w.db.rows[i]))
    && (forall i :: 0 <= i < |w.db.rows| && Access(account, w.db.rows[i].jtiHash.input) in cut.issued
          ==> !Live(w.db.rows[i]))
    && (forall r :: r in w.inFlight ==> Harmless(cut, account, w.inFlight[r]))
  }

  ghost predicate Harmless(cut: World, account: Guid, f: InFlight) {
    f.seen.user == account && CanRotate(f) ==>
      Access(account, f.jti) !in cut.issued && !Known(cut.db.rows, f.seen.tokenHash)
  }

  lemma {:induction false} OutlivesThrough(before: seq<Row>, mid: seq<Row>, after: seq<Row>)
    requires Outlives(before, mid) && Outlives(mid, after)
    ensures Outlives(before, after)
  {
    forall i | 0 <= i < |before| ensures SameRow(before[i], after[i]) && (!Live(before[i]) ==> !Live(after[i])) {
      assert SameRow(before[i], mid[i]) && SameRow(mid[i], after[i]);
    }
  }

  /** A call that adds no row with an old access token of the account keeps the ended rows ended. */
  lemma {:induction false} RowsStayEnded(cut: World, account: Guid, w: World, after: seq<Row>)
    requires Ended(cut, account, w) && Outlives(w.db.rows, after) && |after| <= |w.db.rows| + 1
    requires |w.db.rows| < |after| ==> Access(account, after[|w.db.rows|].jtiHash.input) !in cut.issued
    ensures Outlives(cut.db.rows, after)
    ensures forall i :: 0 <= i < |cut.db.rows| && cut.db.rows[i].user == account ==> !Live(after[i])
    ensures forall i :: 0 <= i < |after| && Access(account, after[i].jtiHash.input) in cut.issued ==> !Live(after[i])
  {
    OutlivesThrough(cut.db.rows, w.db.rows, after);
    forall i | 0 <= i < |after| && Access(account, after[i].jtiHash.input) in cut.issued ensures !Live(after[i]) {
      assert i < |w.db.rows| && SameRow(w.db.rows[i], after[i]);
    }
  }

  lemma {:induction false} OtherKeepsEnded(cut: World, account: Guid, w: World, e: Event)
    requires Inv(w) && Ended(cut, account, w) && Enabled(w, Other(e))
    ensures Ended(cut, account, RefreshInterleaving.Next(w, Other(e)))
  {
    OtherShape(w, e);
    RowsStayEnded(cut, account, w, RefreshInterleaving.Next(w, Other(e)).db.rows);
  }

  lemma {:induction false} BeginKeepsEnded(cut: World, account: Guid, w: World, m: Move)
    requires Inv(w) && Ended(cut, account, w) && Enabled(w, m) && m.Begin? && UniqueHashes(cut.db.rows)
    ensures Ended(cut, account, RefreshInterleaving.Next(w, m))
  {
    var next := RefreshInterleaving.Next(w, m);
    if next != w {
      var seen := next.inFlight[m.req].seen;
      if seen.user == account && Known(cut.db.rows, seen.tokenHash) {
        var i := IndexOf(cut.db.rows, seen.tokenHash);
        assert SameRow(cut.db.rows[i], w.db.rows[i]);
        IndexIsUnique(w.db.rows, i);
        assert seen == w.db.rows[i];
      }
      assert Harmless(cut, account, next.inFlight[m.req]);
    }
  }

  lemma {:induction false} FinishKeepsEnded(cut: World, account: Guid, w: World, m: Move)
    requires Inv(w) && Ended(cut, account, w) && m.Finish?
    ensures Ended(cut, account, RefreshInterleaving.Next(w, m))
  {
    if m.req in w.inFlight {
      var f, after := w.inFlight[m.req], RefreshInterleaving.Next(w, m).db.rows;
      assert Waiting(w, f) && Harmless(cut, account, f);
      FinishShape(w.db.rows, f, m.raw);
      RowsStayEnded(cut, account, w, after);
    }
  }

  lemma {:induction false} RunKeepsEnded(cut: World, account: Guid, w: World, moves: seq<Move>)
    requires Inv(w) && Fresh(w, moves) && Ended(cut, account, w) && UniqueHashes(cut.db.rows)
    ensures Ended(cut, account, RefreshInterleaving.Run(w, moves)) && Inv(RefreshInterleaving.Run(w, moves))
    decreases |moves|
  {
    if moves != [] {
      NextKeepsInv(w, moves[0]);
      match moves[0] {
        case Other(e) => OtherKeepsEnded(cut, account, w, e);
        case Begin(_, _, _, _) => BeginKeepsEnded(cut, account, w, moves[0]);
        case Finish(_, _) => FinishKeepsEnded(cut, account, w, moves[0]);
      }
      RunKeepsEnded(cut, account, RefreshInterleaving.Next(w, moves[0]), moves[1..]);
    }
  }

  lemma {:induction false} EndedIsCutOff(cut: World, account: Guid, w: World)
    requires Ended(cut, account, w)
    ensures CutOff(cut, account, w)
  {
  }

  /** What the event does to the world: every live row of the account is revoked, nothing else changes. */
  lemma {:induction false} EndingRevokesAll(w: World, e: Event, account: Guid)
    requires Ends(w.db, e) == Some(account)
    ensures var cut := RefreshInterleaving.Next(w, Other(e));
            && cut.db.rows == AfterRevokeAll(w.db.rows, account, e.now)
            && cut.inFlight == w.inFlight && cut.issued == w.issued
  {
    StepActs(w.db, e);
  }

  lemma {:induction false} RevokeAllKeepsStored(rows: seq<Row>, account: Guid, now: Time, seen: Row, h: Digest)
    requires WellFormed(rows) && WasStored(rows, seen)
    ensures var after := AfterRevokeAll(rows, account, now);
            && WellFormed(after) && WasStored(after, seen) && (Known(after, h) <==> Known(rows, h))
            && IndexOf(after, seen.tokenHash) == IndexOf(rows, seen.tokenHash)
  {
    ApplyKeepsTable(rows, RevokeAll(account, now));
    SameHashesSameIndex(rows, AfterRevokeAll(rows, account, now), h);
    EvolvesOutlives(rows, AfterRevokeAll(rows, account, now));
    WasStoredStays(rows, AfterRevokeAll(rows, account, now), seen);
  }

  /** The event that ends the account's sessions ends them for good when no refresh is under way. */
  lemma {:induction false} EndingEnds(w: World, e: Event, account: Guid)
    requires Inv(w) && Enabled(w, Other(e)) && Ends(w.db, e) == Some(account) && NoneUnderWay(w, account)
    ensures var cut := RefreshInterleaving.Next(w, Other(e)); Ended(cut, account, cut)
  {
    var cut := RefreshInterleaving.Next(w, Other(e));
    EndingRevokesAll(w, e, account);
    OtherKeepsInv(w, e);
    forall i | 0 <= i < |cut.db.rows| && Access(account, cut.db.rows[i].jtiHash.input) in cut.issued
      ensures !Live(cut.db.rows[i])
    {
      assert Access(cut.db.rows[i].user, cut.db.rows[i].jtiHash.input) in cut.issued;
    }
  }

  /** When a password change, a recovery or a logout-all finds no refresh of the account under way, no
      access token the account was ever issued, with a row or without, is accepted again in any
      continuation, and no refresh token it held is rotated again. */
  lemma {:induction false} CutOffWithNoneUnderWay(w: World, e: Event, account: Guid, moves: seq<Move>)
    requires Inv(w) && Enabled(w, Other(e)) && Ends(w.db, e) == Some(account) && NoneUnderWay(w, account)
    requires Fresh(RefreshInterleaving.Next(w, Other(e)), moves)
    ensures var cut := RefreshInterleaving.Next(w, Other(e));
            var end := RefreshInterleaving.Run(cut, moves);
            && CutOff(cut, account, end)
            && forall r, raw :: r in end.inFlight && end.inFlight[r].seen.user == account
                 && Known(cut.db.rows, end.inFlight[r].seen.tokenHash)
                 ==> FinishStatus(end.db.rows, end.inFlight[r], raw) != Rotated
  {
    hide Ends, NoneUnderWay, Waiting, Backed, RefreshInterleaving.Next, RefreshInterleaving.Run;
    var cut := RefreshInterleaving.Next(w, Other(e));
    OtherKeepsInv(w, e);
    EndingEnds(w, e, account);
    RunKeepsEnded(cut, account, cut, moves);
    var end := RefreshInterleaving.Run(cut, moves);
    EndedIsCutOff(cut, account, end);
    forall r, raw | r in end.inFlight && end.inFlight[r].seen.user == account
                    && Known(cut.db.rows, end.inFlight[r].seen.tokenHash)
      ensures FinishStatus(end.db.rows, end.inFlight[r], raw) != Rotated
    {
      assert Harmless(cut, account, end.inFlight[r]);
    }
  }

  /** A rotation under way goes through over a table that revoked its row meanwhile. */
  lemma {:induction false} LateRotation(rows: seq<Row>, f: InFlight, raw: seq<byte>, now: Time)
    requires WellFormed(rows) && WasStored(rows, f.seen) && CanRotate(f) && !Known(rows, Sha256(raw))
    requires now < f.now + REFRESH_TTL
    ensures var i, after := IndexOf(rows, f.seen.tokenHash), FinishedRows(rows, f, raw);
            && i < |rows| < |after| && after[i].reason == Some(Regular)
            && Accepts(after, f.seen.user, JtiHash(f.jti), now)
  {
    FinishShape(rows, f, raw);
    assert FinishedRows(rows, f, raw)[|rows|].jtiHash == JtiHash(f.jti);
  }

  lemma {:induction false} LateRotationAfterEnd(rows: seq<Row>, account: Guid, ended: Time, f: InFlight, raw: seq<byte>,
          now: Time)
    requires WellFormed(rows) && WasStored(rows, f.seen) && CanRotate(f) && !Known(rows, Sha256(raw))
    requires f.seen.user == account && now < f.now + REFRESH_TTL
    ensures var mid := AfterRevokeAll(rows, account, ended);
            var i, after := IndexOf(rows, f.seen.tokenHash), FinishedRows(mid, f, raw);
            && i < |mid| < |after| && !Live(mid[i]) && after[i].reason == Some(Regular)
            && Accepts(after, account, JtiHash(f.jti), now)
  {
    RevokeAllKeepsStored(rows, account, ended, f.seen, Sha256(raw));
    LateRotation(AfterRevokeAll(rows, account, ended), f, raw, now);
  }

  /** A refresh under way survives the end of its account's sessions: its access token is accepted
      afterwards, for the whole lifetime of the row its late rotation adds, and the reason of the row it
      rotates is Regular again. */
  lemma {:induction false} RefreshUnderWaySurvives(w: World, e: Event, account: Guid, req: nat, raw: seq<byte>,
          now: Time)
    requires Inv(w) && Enabled(w, Other(e)) && Ends(w.db, e) == Some(account)
    requires req in w.inFlight && w.inFlight[req].seen.user == account && CanRotate(w.inFlight[req])
    requires !Known(w.db.rows, Sha256(raw)) && now < w.inFlight[req].now + REFRESH_TTL
    ensures var cut := RefreshInterleaving.Next(w, Other(e));
            var f, after := w.inFlight[req], RefreshInterleaving.Next(cut, Finish(req, raw));
            var i := IndexOf(w.db.rows, f.seen.tokenHash);
            && Access(account, f.jti) in w.issued
            && Accepts(after.db.rows, account, JtiHash(f.jti), now)
            && i < |cut.db.rows| < |after.db.rows|
            && !Live(cut.db.rows[i]) && after.db.rows[i].reason == Some(Regular)
  {
    var cut, f := RefreshInterleaving.Next(w, Other(e)), w.inFlight[req];
    assert Waiting(w, f);
    EndingRevokesAll(w, e, account);
    LateRotationAfterEnd(w.db.rows, account, e.now, f, raw, now);
  }

  lemma {:induction false} RefreshUnderWayBreaksCutOff(w: World, e: Event, account: Guid, req: nat, raw: seq<byte>)
    requires Inv(w) && Enabled(w, Other(e)) && Ends(w.db, e) == Some(account) && !Known(w.db.rows, Sha256(raw))
    requires req in w.inFlight && w.inFlight[req].seen.user == account && CanRotate(w.inFlight[req])
    ensures var cut, moves := RefreshInterleaving.Next(w, Other(e)), [Finish(req, raw)];
            Fresh(cut, moves) && !CutOff(cut, account, RefreshInterleaving.Run(cut, moves))
  {
    hide Inv, Ends;
    var cut, moves := RefreshInterleaving.Next(w, Other(e)), [Finish(req, raw)];
    var f := w.inFlight[req];
    RefreshUnderWaySurvives(w, e, account, req, raw, f.now);
    assert moves[1..] == [];
    assert RefreshInterleaving.Run(cut, moves) == RefreshInterleaving.Next(cut, moves[0]);
    assert Access(account, f.jti) in cut.issued && Access(account, f.jti).sub == account;
  }

  /** The cut-off made at `cut` lasts in every continuation. */
  ghost predicate ForGood(cut: World, account: Guid) {
    forall moves :: Fresh(cut, moves) ==> CutOff(cut, account, RefreshInterleaving.Run(cut, moves))
  }

  lemma {:induction false} ForGoodWithNoneUnderWay(w: World, e: Event, account: Guid)
    requires Inv(w) && Enabled(w, Other(e)) && Ends(w.db, e) == Some(account) && NoneUnderWay(w, account)
    ensures ForGood(RefreshInterleaving.Next(w, Other(e)), account)
  {
    var cut := RefreshInterleaving.Next(w, Other(e));
    forall moves | Fresh(cut, moves) ensures CutOff(cut, account, RefreshInterleaving.Run(cut, moves)) {
      CutOffWithNoneUnderWay(w, e, account, moves);
    }
  }

  /** So the cut-off is permanent exactly when no refresh is under way. */
  lemma {:induction false} CutOffExactlyWithNoneUnderWay(w: World, e: Event, account: Guid, raw: seq<byte>)
    requires Inv(w) && Enabled(w, Other(e)) && Ends(w.db, e) == Some(account) && !Known(w.db.rows, Sha256(raw))
    ensures ForGood(RefreshInterleaving.Next(w, Other(e)), account) <==> NoneUnderWay(w, account)
  {
    if NoneUnderWay(w, account) {
      ForGoodWithNoneUnderWay(w, e, account);
    } else {
      var req :| req in w.inFlight && w.inFlight[req].seen.user == account && CanRotate(w.inFlight[req]);
      RefreshUnderWayBreaksCutOff(w, e, account, req, raw);
    }
  }
}
