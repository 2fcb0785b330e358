/** Refreshes that overlap with each other and with every other endpoint. A refresh looks its token's
    row up, issues an access token, and only then rotates, on the row as it looked it up; anything may
    happen in between. */
module RefreshInterleaving {
  import opened Prelude
  import opened TokenTable
  import opened AuthService
  import opened AuthRuns
  import Store = RefreshTokenStore
  import Text = RefreshTokenText

  /** A refresh between its lookup and its rotation: the row its context holds, the identifier of the
      access token it issued, and the clock reading it started from. */
  datatype InFlight = InFlight(seen: Row, jti: seq<byte>, now: Time)

  datatype World = World(db: Db, inFlight: map<nat, InFlight>, issued: set<Access>)

  datatype Move =
    | Other(event: Event)
    | Begin(req: nat, token: Option<Digest>, jti: seq<byte>, now: Time)
    | Finish(req: nat, raw: seq<byte>)

  const Empty: World := World(Db(map[], []), map[], {})

  ghost predicate NewJti(w: World, jti: seq<byte>) { forall a :: a in w.issued ==> a.jti != jti }

  /** Identifiers of access tokens and of requests are new when they are drawn. */
  ghost predicate Enabled(w: World, m: Move) {
    match m
    case Other(e) => !e.DoRotate? && (e.DoLogin? ==> NewJti(w, e.jti))
    case Begin(req, _, jti, _) => req !in w.inFlight && NewJti(w, jti)
    case Finish(_, _) => true
  }

  function FinishedRows(rows: seq<Row>, f: InFlight, raw: seq<byte>): seq<Row> {
    AfterSeen(rows, f.seen, Sha256(raw), JtiHash(f.jti), f.now)
  }

  function FinishStatus(rows: seq<Row>, f: InFlight, raw: seq<byte>): Status {
    SeenStatus(rows, f.seen, Sha256(raw), f.now)
  }

  function Next(w: World, m: Move): World {
    match m
    case Other(e) =>
      World(AuthRuns.Step(w.db, e), w.inFlight,
            w.issued + if e.DoLogin? && Succeeds(w.db, e) then {Access(e.login.account, e.jti)} else {})
    case Begin(req, token, jti, now) =>
      (match Store.Read(w.db.rows, map[], token)
       case None => w
       case Some(seen) =>
         World(w.db, w.inFlight[req := InFlight(seen, jti, now)], w.issued + {Access(seen.user, jti)}))
    case Finish(req, raw) =>
      if req !in w.inFlight then w
      else World(w.db.(rows := FinishedRows(w.db.rows, w.inFlight[req], raw)), w.inFlight - {req}, w.issued)
  }

  /** A run in which every drawn identifier is new. */
  ghost predicate Fresh(w: World, moves: seq<Move>)
    decreases |moves|
  {
    moves == [] || (Enabled(w, moves[0]) && Fresh(Next(w, moves[0]), moves[1..]))
  }

  function Run(w: World, moves: seq<Move>): World
    decreases |moves|
  {
    if moves == [] then w else Run(Next(w, moves[0]), moves[1..])
  }

  /** The row a refresh in flight is about to write over. */
  function Stored(rows: seq<Row>, f: InFlight): Row
    requires Known(rows, f.seen.tokenHash)
  {
    rows[IndexOf(rows, f.seen.tokenHash)]
  }

  /** A refresh that looked its row up live and in time goes on to rotate it, whatever became of the row. */
  predicate CanRotate(f: InFlight) { Live(f.seen) && f.now < f.seen.expiresAt }

  /** A rotation that goes through although its row was revoked since the lookup. */
  predicate TooLate(rows: seq<Row>, f: InFlight, raw: seq<byte>)
    requires Known(rows, f.seen.tokenHash)
  {
    CanRotate(f) && !Known(rows, Sha256(raw)) && !Live(Stored(rows, f))
  }

  // ---------------------------------------------------------------- what every call keeps

  /** Rows keep their identity, and a revoked row is never revived. */
  ghost predicate Outlives(before: seq<Row>, after: seq<Row>) {
    |before| <= |after|
    && forall i :: 0 <= i < |before| ==> SameRow(before[i], after[i]) && (!Live(before[i]) ==> !Live(after[i]))
  }

  predicate SameRow(r: Row, s: Row) { s == r.(revokedAt := s.revokedAt, reason := s.reason) }

  /** A row that was stored at some time: it is still there, and revoked if it was. */
  ghost predicate WasStored(rows: seq<Row>, seen: Row) {
    && Known(rows, seen.tokenHash)
    && var r := rows[IndexOf(rows, seen.tokenHash)];
    && SameRow(seen, r) && (!Live(seen) ==> !Live(r)) && (Live(seen) <==> seen.reason.None?)
  }

  lemma {:induction false} EvolvesOutlives(before: seq<Row>, after: seq<Row>)
    requires Evolves(before, after)
    ensures Outlives(before, after)
  {
  }

  lemma {:induction false} WasStoredStays(rows: seq<Row>, after: seq<Row>, seen: Row)
    requires WasStored(rows, seen) && Outlives(rows, after) && UniqueHashes(after)
    ensures WasStored(after, seen)
    ensures IndexOf(after, seen.tokenHash) == IndexOf(rows, seen.tokenHash)
  {
    IndexIsUnique(after, IndexOf(rows, seen.tokenHash));
  }

  /** The save of a rotation revokes the stored row, whatever it had become. */
  lemma {:induction false} WrittenRow(rows: seq<Row>, seen: Row, changed: Row)
    requires WellFormed(rows) && WasStored(rows, seen)
    requires changed.revokedAt.Some? && changed.reason.Some?
    requires !Live(seen) ==> changed.reason == seen.reason
    ensures var i := IndexOf(rows, seen.tokenHash);
            var after := rows[i := Written(rows[i], seen, changed)];
            WellFormed(after) && Outlives(rows, after) && !Live(after[i])
  {
  }

  /** A finished rotation keeps the table in order, adds a row exactly when it rotates, and the new row
      belongs to the account of the row it looked up. */
  lemma {:induction false} FinishShape(rows: seq<Row>, f: InFlight, raw: seq<byte>)
    requires WellFormed(rows) && WasStored(rows, f.seen)
    ensures var after := FinishedRows(rows, f, raw);
            && WellFormed(after) && Outlives(rows, after)
            && |after| == |rows| + (if FinishStatus(rows, f, raw) == Rotated then 1 else 0)
            && (FinishStatus(rows, f, raw) == Rotated ==>
                  && !Live(after[IndexOf(rows, f.seen.tokenHash)])
                  && after[|rows|] == NewRow(f.seen.user, Sha256(raw), JtiHash(f.jti), f.now))
  {
    var i := IndexOf(rows, f.seen.tokenHash);
    match FinishStatus(rows, f, raw)
    case RecentlyRevoked => WrittenRow(rows, f.seen, f.seen.(revokedAt := Some(f.now)));
    case Rotated =>
      var changed := Bury(f.seen, Regular, f.now);
      var buried := rows[i := Written(rows[i], f.seen, changed)];
      WrittenRow(rows, f.seen, changed);
      SameHashesSameIndex(rows, buried, Sha256(raw));
      AppendKeepsTable(buried, NewRow(f.seen.user, Sha256(raw), JtiHash(f.jti), f.now));
    case _ =>
  }

  // ---------------------------------------------------------------- the invariant

  /** Each row holds the identifier of an access token issued for the row's own account. */
  ghost predicate Backed(rows: seq<Row>, issued: set<Access>) {
    forall i :: 0 <= i < |rows| ==> Access(rows[i].user, rows[i].jtiHash.input) in issued
  }

  ghost predicate OneSubject(issued: set<Access>) {
    forall a, b :: a in issued && b in issued && a.jti == b.jti ==> a == b
  }

  /** No row carries the identifier. */
  ghost predicate Unused(rows: seq<Row>, jti: seq<byte>) {
    forall i :: 0 <= i < |rows| ==> rows[i].jtiHash != JtiHash(jti)
  }

  ghost predicate Waiting(w: World, f: InFlight) {
    Access(f.seen.user, f.jti) in w.issued && Unused(w.db.rows, f.jti) && WasStored(w.db.rows, f.seen)
  }

  ghost predicate Inv(w: World) {
    && WellFormed(w.db.rows) && Backed(w.db.rows, w.issued) && OneSubject(w.issued)
    && (forall r :: r in w.inFlight ==> Waiting(w, w.inFlight[r]))
    && (forall r, q :: r in w.inFlight && q in w.inFlight && r != q ==> w.inFlight[r].jti != w.inFlight[q].jti)
  }

  /** What an uninterrupted call can add: at most a login's row, with the identifier the login brings. */
  lemma {:induction false} OtherShape(w: World, e: Event)
    requires WellFormed(w.db.rows) && Enabled(w, Other(e))
    ensures var rows, after := w.db.rows, Next(w, Other(e)).db.rows;
            && WellFormed(after) && Outlives(rows, after) && |after| <= |rows| + 1
            && (|rows| < |after| ==>
                  && e.DoLogin? && Succeeds(w.db, e)
                  && after[|rows|].jtiHash == JtiHash(e.jti) && after[|rows|].user == e.login.account)
  {
    StepActs(w.db, e);
    ApplyKeepsTable(w.db.rows, ActionOf(w.db, e));
    EvolvesOutlives(w.db.rows, Next(w, Other(e)).db.rows);
  }

  lemma {:induction false} BackedAfter(rows: seq<Row>, after: seq<Row>, issued: set<Access>, newIssued: set<Access>)
    requires Backed(rows, issued) && issued <= newIssued && Outlives(rows, after) && |after| <= |rows| + 1
    requires |rows| < |after| ==> Access(after[|rows|].user, after[|rows|].jtiHash.input) in newIssued
    ensures Backed(after, newIssued)
  {
    forall i | 0 <= i < |after| ensures Access(after[i].user, after[i].jtiHash.input) in newIssued {
      if i < |rows| {
        assert SameRow(rows[i], after[i]);
      }
    }
  }

  lemma {:induction false} UnusedAfter(rows: seq<Row>, after: seq<Row>, jti: seq<byte>)
    requires Unused(rows, jti) && Outlives(rows, after) && |after| <= |rows| + 1
    requires |rows| < |after| ==> after[|rows|].jtiHash != JtiHash(jti)
    ensures Unused(after, jti)
  {
    forall i | 0 <= i < |after| ensures after[i].jtiHash != JtiHash(jti) {
      if i < |rows| {
        assert SameRow(rows[i], after[i]);
      }
    }
  }

  lemma {:induction false} OtherKeepsInv(w: World, e: Event)
    requires Inv(w) && Enabled(w, Other(e))
    ensures Inv(Next(w, Other(e)))
  {
    var rows, next := w.db.rows, Next(w, Other(e));
    OtherShape(w, e);
    BackedAfter(rows, next.db.rows, w.issued, next.issued);
    forall r | r in next.inFlight ensures Waiting(next, next.inFlight[r]) {
      var f := w.inFlight[r];
      assert Waiting(w, f);
      WasStoredStays(rows, next.db.rows, f.seen);
      UnusedAfter(rows, next.db.rows, f.jti);
    }
  }

  lemma {:induction false} BeginKeepsInv(w: World, m: Move)
    requires Inv(w) && m.Begin? && Enabled(w, m)
    ensures Inv(Next(w, m))
  {
    var next := Next(w, m);
    if next != w {
      BackedAfter(w.db.rows, w.db.rows, w.issued, next.issued);
      forall i | 0 <= i < |w.db.rows| ensures w.db.rows[i].jtiHash != JtiHash(m.jti) {
        assert Access(w.db.rows[i].user, w.db.rows[i].jtiHash.input) in w.issued;
      }
      forall r | r in next.inFlight ensures Waiting(next, next.inFlight[r]) {
        if r != m.req {
          assert Waiting(w, w.inFlight[r]);
        }
      }
      forall r, q | r in next.inFlight && q in next.inFlight && r != q
        ensures next.inFlight[r].jti != next.inFlight[q].jti
      {
        if r != m.req {
          assert Waiting(w, w.inFlight[r]);
        }
        if q != m.req {
          assert Waiting(w, w.inFlight[q]);
        }
      }
    }
  }

  lemma {:induction false} FinishKeepsInv(w: World, m: Move)
    requires Inv(w) && m.Finish?
    ensures Inv(Next(w, m))
  {
    if m.req in w.inFlight {
      var next, f := Next(w, m), w.inFlight[m.req];
      var rows, after := w.db.rows, next.db.rows;
      assert Waiting(w, f);
      FinishShape(rows, f, m.raw);
      BackedAfter(rows, after, w.issued, next.issued);
      forall r | r in next.inFlight ensures Waiting(next, next.inFlight[r]) {
        var g := w.inFlight[r];
        assert Waiting(w, g);
        WasStoredStays(rows, after, g.seen);
        UnusedAfter(rows, after, g.jti);
      }
    }
  }

  lemma {:induction false} NextKeepsInv(w: World, m: Move)
    requires Inv(w) && Enabled(w, m)
    ensures Inv(Next(w, m))
  {
    match m
    case Other(e) => OtherKeepsInv(w, e);
    case Begin(_, _, _, _) => BeginKeepsInv(w, m);
    case Finish(_, _) => FinishKeepsInv(w, m);
  }

  lemma {:induction false} RunKeepsInv(w: World, moves: seq<Move>)
    requires Inv(w) && Fresh(w, moves)
    ensures Inv(Run(w, moves))
    decreases |moves|
  {
    if moves != [] {
      NextKeepsInv(w, moves[0]);
      RunKeepsInv(Next(w, moves[0]), moves[1..]);
    }
  }

  /** However refreshes overlap, the account an access token was issued for is the account of the
      row created for it. */
  lemma {:induction false} SubjectsAgree(moves: seq<Move>, a: Access, i: nat)
    requires Fresh(Empty, moves)
    requires var end := Run(Empty, moves);
             a in end.issued && i < |end.db.rows| && end.db.rows[i].jtiHash == JtiHash(a.jti)
    ensures Run(Empty, moves).db.rows[i].user == a.sub
  {
    RunKeepsInv(Empty, moves);
  }

  // ---------------------------------------------------------------- refused refreshes

  /** The identifier was issued, is in no row and is no longer on its way to one. */
  ghost predicate Spent(w: World, jti: seq<byte>) {
    !NewJti(w, jti) && Unused(w.db.rows, jti) && forall r :: r in w.inFlight ==> w.inFlight[r].jti != jti
  }

  lemma {:induction false} NextKeepsSpent(w: World, m: Move, jti: seq<byte>)
    requires Inv(w) && Enabled(w, m) && Spent(w, jti)
    ensures Spent(Next(w, m), jti)
  {
    var next := Next(w, m);
    var a :| a in w.issued && a.jti == jti;
    assert a in next.issued;
    match m
    case Other(e) =>
      OtherShape(w, e);
      UnusedAfter(w.db.rows, next.db.rows, jti);
    case Begin(_, _, _, _) =>
    case Finish(req, raw) =>
      if req in w.inFlight {
        assert Waiting(w, w.inFlight[req]);
        FinishShape(w.db.rows, w.inFlight[req], raw);
        UnusedAfter(w.db.rows, next.db.rows, jti);
      }
  }

  lemma {:induction false} SpentForever(w: World, moves: seq<Move>, jti: seq<byte>)
    requires Inv(w) && Fresh(w, moves) && Spent(w, jti)
    ensures Spent(Run(w, moves), jti)
    decreases |moves|
  {
    if moves != [] {
      NextKeepsInv(w, moves[0]);
      NextKeepsSpent(w, moves[0], jti);
      SpentForever(Next(w, moves[0]), moves[1..], jti);
    }
  }

  lemma {:induction false} RefusalSpends(w: World, req: nat, raw: seq<byte>)
    requires Inv(w) && req in w.inFlight && FinishStatus(w.db.rows, w.inFlight[req], raw) != Rotated
    ensures Spent(Next(w, Finish(req, raw)), w.inFlight[req].jti)
  {
    var f, next := w.inFlight[req], Next(w, Finish(req, raw));
    assert Waiting(w, f);
    FinishShape(w.db.rows, f, raw);
    UnusedAfter(w.db.rows, next.db.rows, f.jti);
    assert Access(f.seen.user, f.jti) in next.issued;
  }

  /** An access token made by a refresh that ends in refusal is never accepted, for any subject, at
      any time, in any continuation. */
  lemma {:induction false} RefusedRefreshIsNeverAccepted(w: World, req: nat, raw: seq<byte>, moves: seq<Move>,
          user: Guid, now: Time)
    requires Inv(w) && req in w.inFlight && Fresh(Next(w, Finish(req, raw)), moves)
    requires FinishStatus(w.db.rows, w.inFlight[req], raw) != Rotated
    ensures !Accepts(Run(Next(w, Finish(req, raw)), moves).db.rows, user, JtiHash(w.inFlight[req].jti), now)
  {
    var jti, next := w.inFlight[req].jti, Next(w, Finish(req, raw));
    FinishKeepsInv(w, Finish(req, raw));
    RefusalSpends(w, req, raw);
    SpentForever(next, moves, jti);
  }

  // ---------------------------------------------------------------- exact conditions, call by call

  /** A rotation that still finds its row live is the uninterrupted one. */
  lemma {:induction false} TimelyFinishIsRotate(rows: seq<Row>, f: InFlight, raw: seq<byte>)
    requires WellFormed(rows) && WasStored(rows, f.seen) && Live(f.seen) && Live(Stored(rows, f))
    ensures FinishedRows(rows, f, raw) == Apply(rows, Rotate(f.seen.tokenHash, Sha256(raw), JtiHash(f.jti), f.now))
    ensures FinishStatus(rows, f, raw) == RotateStatus(rows, f.seen.tokenHash, Sha256(raw), f.now)
  {
    assert f.seen == Stored(rows, f);
    CurrentRowRotates(rows, f.seen.tokenHash, Sha256(raw), JtiHash(f.jti), f.now);
  }

  /** Reasons of revoked rows stay. */
  ghost predicate KeepsReasons(before: seq<Row>, after: seq<Row>) {
    |before| <= |after| && forall i :: 0 <= i < |before| && !Live(before[i]) ==> after[i].reason == before[i].reason
  }

  /** A reason is written a second time exactly when a rotation whose row was revoked as Security since
      its lookup goes through. */
  lemma {:induction false} FinishKeepsReasonsExactly(rows: seq<Row>, f: InFlight, raw: seq<byte>)
    requires WellFormed(rows) && WasStored(rows, f.seen)
    ensures KeepsReasons(rows, FinishedRows(rows, f, raw)) <==>
            !(CanRotate(f) && !Known(rows, Sha256(raw)) && Stored(rows, f).reason == Some(Security))
  {
    var i, after := IndexOf(rows, f.seen.tokenHash), FinishedRows(rows, f, raw);
    if FinishStatus(rows, f, raw) == Rotated {
      assert after[i].reason == Some(Regular);
      assert rows[i].reason.None? || rows[i].reason.value.Regular? || rows[i].reason.value.Security?;
      assert forall j :: 0 <= j < |rows| && j != i ==> after[j] == rows[j];
    }
  }

  /** A tombstone is dated back exactly when a save writes a date older than the one stored since. */
  lemma {:induction false} FinishRewindsExactly(rows: seq<Row>, f: InFlight, raw: seq<byte>)
    requires WellFormed(rows) && WasStored(rows, f.seen)
    ensures Forward(rows, FinishedRows(rows, f, raw)) <==>
            !(&& Stored(rows, f).revokedAt.Some? && f.now < Stored(rows, f).revokedAt.value && f.now < f.seen.expiresAt
              && if Live(f.seen) then !Known(rows, Sha256(raw))
                 else f.now - f.seen.revokedAt.value < GRACE && f.seen.revokedAt != Some(f.now))
  {
    var i, after := IndexOf(rows, f.seen.tokenHash), FinishedRows(rows, f, raw);
    if FinishStatus(rows, f, raw) == Rotated || FinishStatus(rows, f, raw) == RecentlyRevoked {
      assert after[i].revokedAt == Some(f.now) || f.seen.revokedAt == Some(f.now);
    }
  }

  /** What every move keeps. */
  lemma {:induction false} NextOutlives(w: World, m: Move)
    requires Inv(w) && Enabled(w, m)
    ensures Outlives(w.db.rows, Next(w, m).db.rows) && |Next(w, m).db.rows| <= |w.db.rows| + 1
    ensures w.issued <= Next(w, m).issued
  {
    match m
    case Other(e) => OtherShape(w, e);
    case Begin(_, _, _, _) =>
    case Finish(req, raw) =>
      if req in w.inFlight {
        assert Waiting(w, w.inFlight[req]);
        FinishShape(w.db.rows, w.inFlight[req], raw);
      }
  }

  // ---------------------------------------------------------------- a token finds its row

  /** A row's token leads to it in every continuation. */
  lemma {:induction false} RowStaysFound(w: World, moves: seq<Move>, k: nat)
    requires Inv(w) && Fresh(w, moves) && k < |w.db.rows|
    ensures var r, after := w.db.rows[k], Run(w, moves).db.rows;
            WellFormed(after) && IndexOf(after, r.tokenHash) == k < |after| && SameRow(r, after[k])
    decreases |moves|
  {
    if moves == [] {
      IndexIsUnique(w.db.rows, k);
    } else {
      NextOutlives(w, moves[0]);
      NextKeepsInv(w, moves[0]);
      assert SameRow(w.db.rows[k], Next(w, moves[0]).db.rows[k]);
      RowStaysFound(Next(w, moves[0]), moves[1..], k);
    }
  }

  /** The access token beside the refresh token that the move hands out, if it hands out `raw`. */
  function Beside(w: World, m: Move, raw: seq<byte>): Option<Access> {
    match m
    case Other(e) =>
      if e.DoLogin? && e.raw == raw && Succeeds(w.db, e) then Some(Access(e.login.account, e.jti)) else None
    case Begin(_, _, _, _) => None
    case Finish(req, drawn) =>
      if req in w.inFlight && drawn == raw && FinishStatus(w.db.rows, w.inFlight[req], raw) == Rotated
      then Some(Access(w.inFlight[req].seen.user, w.inFlight[req].jti)) else None
  }

  /** The clock reading of the call that hands a token out. */
  function HandedOutAt(w: World, m: Move): Time {
    match m
    case Other(e) => e.now
    case Begin(_, _, _, now) => now
    case Finish(req, _) => if req in w.inFlight then w.inFlight[req].now else 0
  }

  lemma {:induction false} HandedOutRow(w: World, m: Move, raw: seq<byte>)
    requires Inv(w) && Enabled(w, m) && Beside(w, m, raw).Some?
    ensures var access, after := Beside(w, m, raw).value, Next(w, m).db.rows;
            && |after| == |w.db.rows| + 1
            && after[|w.db.rows|] == NewRow(access.sub, Sha256(raw), JtiHash(access.jti), HandedOutAt(w, m))
  {
    match m
    case Other(e) => StepActs(w.db, e);
    case Finish(req, _) =>
      assert Waiting(w, w.inFlight[req]);
      FinishShape(w.db.rows, w.inFlight[req], raw);
  }

  /** The text of every token handed out, by a sign-in or by a rotation, leads to its own row, for its own
      account and beside its own access token, in every continuation. */
  lemma {:induction false} HandedOutTokenFindsItsRow(w: World, m: Move, raw: seq<byte>, moves: seq<Move>)
    requires Inv(w) && Enabled(w, m) && Beside(w, m, raw).Some? && Fresh(Next(w, m), moves) && |raw| == Text.RAW_LEN
    ensures var access, after := Beside(w, m, raw).value, Run(Next(w, m), moves).db.rows;
            var hash := Text.TryHashRefreshToken(Text.TokenText(raw));
            && hash.Some? && IndexOf(after, hash.value) == |w.db.rows| < |after|
            && Store.OwnerOf(after, hash) == Some(access.sub)
            && after[|w.db.rows|].jtiHash == JtiHash(access.jti)
  {
    HandedOutRow(w, m, raw);
    NextKeepsInv(w, m);
    RowStaysFound(Next(w, m), moves, |w.db.rows|);
    Text.MintedTokenHashesBack(raw);
  }
}
