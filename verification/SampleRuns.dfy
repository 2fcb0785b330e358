/** Runs from the empty server that show where a promise of the session machine ends. */
module SampleRuns {
  import opened Prelude
  import opened Crypto
  import opened TokenTable
  import opened AuthCommands
  import opened AuthService
  import opened AuthRuns
  import LockoutPolicy
  import Lineage
  import L = OverlapLineage
  import R = RefreshInterleaving
  import W = CryptoWorker

  // ---------------------------------------------------------------- signing up and in

  function SignUp(account: Guid, password: string, d: W.Draws, salts: Salts, now: Time): Event {
    DoRegister(RegisterCommand(account, W.FullMaterial(password, KDF_DEFAULT, 1, account, W.NewMk(d), d), 1),
               salts, now)
  }

  function SignIn(account: Guid, password: string, d: W.Draws, jti: seq<byte>, raw: seq<byte>, now: Time): Event {
    DoLogin(LoginCommand(account, Hkdf(W.BaseKey(password, W.Salt(d), KDF_DEFAULT), ForVerifier)), jti, raw, now)
  }

  /** The account is there and the next sign-in will be accepted. */
  predicate Ready(db: Db, account: Guid, password: string, d: W.Draws) {
    && account in db.users && db.users[account].lock == LockoutPolicy.Clear
    && LoginMatches(db.users[account], Hkdf(W.BaseKey(password, W.Salt(d), KDF_DEFAULT), ForVerifier))
  }

  lemma {:induction false} SignedUp(account: Guid, password: string, d: W.Draws, salts: Salts, now: Time)
    ensures var db := AuthRuns.Step(Db(map[], []), SignUp(account, password, d, salts, now));
            Ready(db, account, password, d) && db.rows == []
  {
    W.HonestMaterialIsValid(password, KDF_DEFAULT, 1, account, W.NewMk(d), d);
  }

  lemma {:induction false} SignedIn(db: Db, account: Guid, password: string, d: W.Draws, jti: seq<byte>, raw: seq<byte>,
          now: Time)
    requires Ready(db, account, password, d) && !Known(db.rows, Sha256(raw))
    ensures var e := SignIn(account, password, d, jti, raw, now);
            && Succeeds(db, e) && Ready(AuthRuns.Step(db, e), account, password, d)
            && AuthRuns.Step(db, e).rows == db.rows + [NewRow(account, Sha256(raw), JtiHash(jti), now)]
  {
  }

  // ---------------------------------------------------------------- a revoked token that ends nothing

  /** Two sign-ins, a logout of the first, and then the first token again: it is known and revoked, and
      the other session stays. */
  lemma {:induction false} RevokedTokenLeavesTheOtherSession(account: Guid, password: string, d: W.Draws, salts: Salts,
          jti: seq<byte>, raw: seq<byte>, raw': seq<byte>, t: Time, now: Time)
    requires raw != raw'
    ensures var db := AuthRuns.Run(Db(map[], []),
                                   [SignUp(account, password, d, salts, t), SignIn(account, password, d, jti, raw, t),
                                    SignIn(account, password, d, jti, raw', t), DoLogout(Some(Sha256(raw)), t)]);
            && Known(db.rows, Sha256(raw)) && !Live(db.rows[IndexOf(db.rows, Sha256(raw))])
            && Lineage.LiveCount(RefreshToken(db, Some(Sha256(raw)), jti, [], now).0.rows, account) == 1
  {
    var e0, e1 := SignUp(account, password, d, salts, t), SignIn(account, password, d, jti, raw, t);
    var e2, e3 := SignIn(account, password, d, jti, raw', t), DoLogout(Some(Sha256(raw)), t);
    var db1 := AuthRuns.Step(Db(map[], []), e0);
    SignedUp(account, password, d, salts, t);
    SignedIn(db1, account, password, d, jti, raw, t);
    var db2 := AuthRuns.Step(db1, e1);
    var first := NewRow(account, Sha256(raw), JtiHash(jti), t);
    assert db2.rows == [first];
    SignedIn(db2, account, password, d, jti, raw', t);
    var db3 := AuthRuns.Step(db2, e2);
    var second := NewRow(account, Sha256(raw'), JtiHash(jti), t);
    assert db3.rows == [first, second];
    var db4 := AuthRuns.Step(db3, e3);
    assert db4.rows == [Bury(first, Security, t), second];
    RunOfFour(e0, e1, e2, e3);
    TwoRowsCount(Bury(first, Security, t), second);
    UnreusedTokenKeepsTheCount(db4, Sha256(raw), jti, [], now, account);
  }

  lemma {:induction false} TwoRowsCount(r: Row, s: Row)
    ensures Lineage.LiveCount([r, s], s.user) == Lineage.Weight(r, s.user) + Lineage.Weight(s, s.user)
  {
    assert [r, s][..1] == [r] && [r][..0] == [];
    assert Lineage.LiveCount([r], s.user) == Lineage.Weight(r, s.user);
  }

  lemma {:induction false} RunOfFour(e0: Event, e1: Event, e2: Event, e3: Event)
    ensures AuthRuns.Run(Db(map[], []), [e0, e1, e2, e3])
            == AuthRuns.Step(AuthRuns.Step(AuthRuns.Step(AuthRuns.Step(Db(map[], []), e0), e1), e2), e3)
  {
    var db1 := AuthRuns.Step(Db(map[], []), e0);
    assert [e0, e1, e2, e3][1..] == [e1, e2, e3];
    assert [e1, e2, e3][1..] == [e2, e3];
    assert [e2, e3][1..] == [e3] && [e3][1..] == [];
    assert AuthRuns.Run(AuthRuns.Step(AuthRuns.Step(db1, e1), e2), [e3])
        == AuthRuns.Step(AuthRuns.Step(AuthRuns.Step(db1, e1), e2), e3);
    assert AuthRuns.Run(AuthRuns.Step(db1, e1), [e2, e3])
        == AuthRuns.Run(AuthRuns.Step(AuthRuns.Step(db1, e1), e2), [e3]);
    assert AuthRuns.Run(db1, [e1, e2, e3]) == AuthRuns.Run(AuthRuns.Step(db1, e1), [e2, e3]);
  }

  // ---------------------------------------------------------------- worlds with refreshes in flight

  lemma {:induction false} OneMove(w: R.World, m: R.Move, rest: seq<R.Move>)
    ensures R.Run(w, [m] + rest) == R.Run(R.Next(w, m), rest)
    ensures R.Fresh(w, [m] + rest) <==> R.Enabled(w, m) && R.Fresh(R.Next(w, m), rest)
  {
    assert ([m] + rest)[1..] == rest;
  }

  /** One account, signed in once: its row and its access token. */
  predicate SignedInOnce(w: R.World, account: Guid, first: Row, jti: seq<byte>) {
    && w.db.rows == [first] && w.inFlight == map[] && w.issued == {Access(account, jti)}
    && Live(first) && first.user == account && first.reason.None?
  }

  function Opening(account: Guid, password: string, d: W.Draws, salts: Salts, jti: seq<byte>, raw: seq<byte>, t: Time):
    seq<R.Move>
  {
    [R.Other(SignUp(account, password, d, salts, t))] + [R.Other(SignIn(account, password, d, jti, raw, t))]
  }

  lemma {:induction false} Opened(account: Guid, password: string, d: W.Draws, salts: Salts, jti: seq<byte>,
          raw: seq<byte>, t: Time, rest: seq<R.Move>) returns (w: R.World)
    ensures SignedInOnce(w, account, NewRow(account, Sha256(raw), JtiHash(jti), t), jti)
    ensures var moves := Opening(account, password, d, salts, jti, raw, t) + rest;
            R.Run(R.Empty, moves) == R.Run(w, rest) && (R.Fresh(R.Empty, moves) <==> R.Fresh(w, rest))
    ensures w == R.Run(R.Empty, Opening(account, password, d, salts, jti, raw, t))
  {
    var up, in' := R.Other(SignUp(account, password, d, salts, t)), R.Other(SignIn(account, password, d, jti, raw, t));
    var w1 := R.Next(R.Empty, up);
    SignedUp(account, password, d, salts, t);
    SignedIn(w1.db, account, password, d, jti, raw, t);
    w := R.Next(w1, in');
    assert Opening(account, password, d, salts, jti, raw, t) + rest == [up] + ([in'] + rest);
    OneMove(R.Empty, up, [in'] + rest);
    OneMove(w1, in', rest);
    assert [in'] + [] == [in'];
    OneMove(R.Empty, up, [in']);
    OneMove(w1, in', []);
  }

  lemma {:induction false} BeginOne(w: R.World, req: nat, first: Row, jti: seq<byte>, now: Time)
    requires w.db.rows == [first] && req !in w.inFlight && R.NewJti(w, jti)
    ensures var m := R.Begin(req, Some(first.tokenHash), jti, now);
            && R.Enabled(w, m)
            && R.Next(w, m) == R.World(w.db, w.inFlight[req := R.InFlight(first, jti, now)],
                                       w.issued + {Access(first.user, jti)})
  {
    assert IndexOf(w.db.rows, first.tokenHash) == 0;
  }

  // ---------------------------------------------------------------- two overlapping refreshes

  /** What two rotations of one row, both looked up live, leave: the row dated by the second and both
      their successors. */
  lemma {:induction false} TwoRotations(first: Row, f: R.InFlight, g: R.InFlight, raw: seq<byte>, raw': seq<byte>)
    requires Live(first) && first.reason.None? && f.seen == g.seen == first
    requires f.now < first.expiresAt && g.now < first.expiresAt
    requires Sha256(raw) != first.tokenHash && Sha256(raw') != first.tokenHash && raw != raw'
    ensures var mid := R.FinishedRows([first], f, raw);
            && mid == [Bury(first, Regular, f.now), NewRow(first.user, Sha256(raw), JtiHash(f.jti), f.now)]
            && R.FinishedRows(mid, g, raw') ==
               [Bury(first, Regular, g.now), NewRow(first.user, Sha256(raw), JtiHash(f.jti), f.now),
                NewRow(first.user, Sha256(raw'), JtiHash(g.jti), g.now)]
  {
    assert IndexOf([first], first.tokenHash) == 0 && !Known([first], Sha256(raw));
    var mid := R.FinishedRows([first], f, raw);
    var second := NewRow(first.user, Sha256(raw), JtiHash(f.jti), f.now);
    assert mid == [Bury(first, Regular, f.now), second];
    assert mid[1..] == [second] && IndexOf(mid, first.tokenHash) == 0 && !Known(mid, Sha256(raw'));
    assert mid[0 := Bury(first, Regular, g.now)] == [Bury(first, Regular, g.now), second];
  }

  /** Two refreshes of one token look it up, and the later-started one rotates. */
  function Overlap(h: Digest, jti: seq<byte>, jti': seq<byte>, raw: seq<byte>, t: Time, t': Time): seq<R.Move> {
    [R.Begin(0, Some(h), jti, t)] + ([R.Begin(1, Some(h), jti', t')] + [R.Finish(1, raw)])
  }

  predicate Different(xs: seq<seq<byte>>) { |xs| == 3 && xs[0] != xs[1] && xs[0] != xs[2] && xs[1] != xs[2] }

  /** Where that leaves a newly signed-in account: the earlier-started refresh is still in flight. */
  lemma {:induction false} OverlapReached(account: Guid, password: string, d: W.Draws, salts: Salts, start: Time,
          t: Time, t': Time, jtis: seq<seq<byte>>, raws: seq<seq<byte>>) returns (w: R.World)
    requires Different(jtis) && Different(raws) && t < start + REFRESH_TTL && t' < start + REFRESH_TTL
    ensures var opening := Opening(account, password, d, salts, jtis[0], raws[0], start);
            var overlap := Overlap(Sha256(raws[0]), jtis[1], jtis[2], raws[1], t, t');
            var first := NewRow(account, Sha256(raws[0]), JtiHash(jtis[0]), start);
            var before := R.Run(R.Empty, opening + overlap);
            && R.Fresh(R.Empty, opening + overlap)
            && w == R.Run(R.Empty, opening) && SignedInOnce(w, account, first, jtis[0]) && before == R.Run(w, overlap)
            && before.db.rows == [Bury(first, Regular, t'), NewRow(account, Sha256(raws[1]), JtiHash(jtis[2]), t')]
            && 0 in before.inFlight && before.inFlight[0] == R.InFlight(first, jtis[1], t)
    ensures var m0 := R.Begin(0, Some(Sha256(raws[0])), jtis[1], t);
            var m1 := R.Begin(1, Some(Sha256(raws[0])), jtis[2], t');
            var first := NewRow(account, Sha256(raws[0]), JtiHash(jtis[0]), start);
            var w2 := R.Next(R.Next(w, m0), m1);
            w2.db.rows == [first] && 1 in w2.inFlight && w2.inFlight[1] == R.InFlight(first, jtis[2], t')
  {
    var first := NewRow(account, Sha256(raws[0]), JtiHash(jtis[0]), start);
    var f, g := R.InFlight(first, jtis[1], t), R.InFlight(first, jtis[2], t');
    var m0, m1 := R.Begin(0, Some(first.tokenHash), jtis[1], t), R.Begin(1, Some(first.tokenHash), jtis[2], t');
    w := Opened(account, password, d, salts, jtis[0], raws[0], start,
                Overlap(first.tokenHash, jtis[1], jtis[2], raws[1], t, t'));
    BeginOne(w, 0, first, jtis[1], t);
    BeginOne(R.Next(w, m0), 1, first, jtis[2], t');
    TwoRotations(first, g, f, raws[1], raws[2]);
    ThreeMoves(w, m0, m1, R.Finish(1, raws[1]));
  }

  /** One sign-in and two refreshes of its token that overlap: both go through. The one login then has two
      live rows and two accepted access tokens, and the tombstone of its first row is dated back. */
  lemma {:induction false} OverlapDoublesTheSession(account: Guid, password: string, d: W.Draws, salts: Salts,
          start: Time, t: Time, t': Time, now: Time, jtis: seq<seq<byte>>, raws: seq<seq<byte>>)
    requires Different(jtis) && Different(raws) && t < t' < start + REFRESH_TTL && now < t + REFRESH_TTL
    ensures var moves := Opening(account, password, d, salts, jtis[0], raws[0], start)
                         + Overlap(Sha256(raws[0]), jtis[1], jtis[2], raws[1], t, t');
            var before := R.Run(R.Empty, moves);
            var after := R.Next(before, R.Finish(0, raws[2]));
            && R.Fresh(R.Empty, moves)
            && |before.db.rows| == 2 && before.db.rows[0].revokedAt == Some(t') && Live(before.db.rows[1])
            && |after.db.rows| == 3 && after.db.rows[0].revokedAt == Some(t)
            && Live(after.db.rows[1]) && Live(after.db.rows[2])
            && Accepts(after.db.rows, account, JtiHash(jtis[1]), now)
            && Accepts(after.db.rows, account, JtiHash(jtis[2]), now)
            && Lineage.LiveCount(before.db.rows, account) == 1 && Lineage.LiveCount(after.db.rows, account) == 2
  {
    hide Opening, Overlap, R.Run, R.Fresh;
    var first := NewRow(account, Sha256(raws[0]), JtiHash(jtis[0]), start);
    var f, g := R.InFlight(first, jtis[1], t), R.InFlight(first, jtis[2], t');
    var _ := OverlapReached(account, password, d, salts, start, t, t', jtis, raws);
    TwoRotations(first, g, f, raws[1], raws[2]);
    var after := R.FinishedRows(R.FinishedRows([first], g, raws[1]), f, raws[2]);
    assert after[1].jtiHash == JtiHash(jtis[2]) && after[2].jtiHash == JtiHash(jtis[1]);
    var second := NewRow(account, Sha256(raws[1]), JtiHash(jtis[2]), t');
    TwoRowsCount(Bury(first, Regular, t'), second);
    TwoRowsCount(Bury(first, Regular, t), second);
    Lineage.CountAppend([Bury(first, Regular, t), second], NewRow(account, Sha256(raws[2]), JtiHash(jtis[1]), t),
                        account);
    assert after == [Bury(first, Regular, t), second] + [NewRow(account, Sha256(raws[2]), JtiHash(jtis[1]), t)];
  }

  /** Two lookups leave the origins alone, and the rotation that follows joins the chain it rotates. */
  lemma {:induction false} OverlapTrace(t: Lineage.Traced, w: R.World, m0: R.Move, m1: R.Move, m2: R.Move,
          f: R.InFlight)
    requires t.rows == w.db.rows && |t.origin| == |t.rows| == 1 && m0.Begin? && m1.Begin? && m2.Finish?
    requires var w2 := R.Next(R.Next(w, m0), m1);
             && m2.req in w2.inFlight && w2.inFlight[m2.req] == f && f.seen.tokenHash == t.rows[0].tokenHash
             && R.FinishStatus(w2.db.rows, f, m2.raw) == Rotated
    ensures L.TraceRun(t, w, [m0] + ([m1] + [m2])).origin == t.origin + t.origin
  {
    var w1 := R.Next(w, m0);
    var w2 := R.Next(w1, m1);
    L.TraceAppend(t, w, [m0], [m1] + [m2]);
    L.TraceAppend(t, w1, [m1], [m2]);
    L.TraceOne(t, w, m0);
    L.TraceOne(t, w1, m1);
    L.TraceOne(t, w2, m2);
    assert [m0] + [] == [m0] && [m1] + [] == [m1];
    OneMove(w, m0, []);
    OneMove(w1, m1, []);
    assert IndexOf(t.rows, f.seen.tokenHash) == 0;
  }

  lemma {:induction false} SecondRotationDoubles(t: Lineage.Traced, first: Row, other: Row, g: R.InFlight,
          f: R.InFlight, raw: seq<byte>)
    requires t.rows == [Bury(first, Regular, g.now), other] && Live(other) && first.tokenHash != other.tokenHash
    requires |t.origin| == 2 && t.origin[0] == t.origin[1]
    requires Live(first) && f.seen == first && f.now < first.expiresAt && !Known(t.rows, Sha256(raw))
    ensures L.OneLive(t) && !L.OneLive(L.FinishedTrace(t, f, raw))
  {
    assert IndexOf(t.rows, first.tokenHash) == 0;
    var after := L.FinishedTrace(t, f, raw);
    assert after.origin[1] == after.origin[2] && Live(after.rows[1]) && Live(after.rows[2]);
  }

  /** In that run the login has one live descendant until the second rotation gives it another. */
  lemma {:induction false} OverlapBreaksOneLive(account: Guid, password: string, d: W.Draws, salts: Salts, start: Time,
          t: Time, t': Time, jtis: seq<seq<byte>>, raws: seq<seq<byte>>)
    requires Different(jtis) && Different(raws) && t < t' < start + REFRESH_TTL
    ensures var moves := Opening(account, password, d, salts, jtis[0], raws[0], start)
                         + Overlap(Sha256(raws[0]), jtis[1], jtis[2], raws[1], t, t');
            var before := R.Run(R.Empty, moves);
            var chain := L.TraceRun(Lineage.Traced([], []), R.Empty, moves);
            L.OneLive(chain) && !L.OneLive(L.Trace(chain, before, R.Finish(0, raws[2])))
  {
    hide Opening, R.Run, R.Fresh;
    var opening := Opening(account, password, d, salts, jtis[0], raws[0], start);
    var overlap := Overlap(Sha256(raws[0]), jtis[1], jtis[2], raws[1], t, t');
    var first := NewRow(account, Sha256(raws[0]), JtiHash(jtis[0]), start);
    var f, g := R.InFlight(first, jtis[1], t), R.InFlight(first, jtis[2], t');
    var m0, m1 := R.Begin(0, Some(first.tokenHash), jtis[1], t), R.Begin(1, Some(first.tokenHash), jtis[2], t');
    var w := OverlapReached(account, password, d, salts, start, t, t', jtis, raws);
    L.TraceAppend(Lineage.Traced([], []), R.Empty, opening, overlap);
    OverlapTrace(L.TraceRun(Lineage.Traced([], []), R.Empty, opening), w, m0, m1, R.Finish(1, raws[1]), g);
    SecondRotationDoubles(L.TraceRun(Lineage.Traced([], []), R.Empty, opening + overlap), first,
                          NewRow(account, Sha256(raws[1]), JtiHash(jtis[2]), t'), g, f, raws[2]);
  }

  lemma {:induction false} ThreeMoves(w: R.World, m0: R.Move, m1: R.Move, m2: R.Move)
    ensures R.Run(w, [m0] + ([m1] + [m2])) == R.Next(R.Next(R.Next(w, m0), m1), m2)
    ensures R.Fresh(w, [m0] + ([m1] + [m2])) <==>
            R.Enabled(w, m0) && R.Enabled(R.Next(w, m0), m1) && R.Enabled(R.Next(R.Next(w, m0), m1), m2)
  {
    OneMove(w, m0, [m1] + [m2]);
    OneMove(R.Next(w, m0), m1, [m2]);
    assert [m2] + [] == [m2];
    OneMove(R.Next(R.Next(w, m0), m1), m2, []);
  }

  // ---------------------------------------------------------------- a refresh across a logout-all

  /** A lookup and a logout-all. */
  function AcrossTheEnd(account: Guid, h: Digest, jti: seq<byte>, t: Time, ended: Time): seq<R.Move> {
    [R.Begin(0, Some(h), jti, t)] + [R.Other(DoEndSessions(account, ended))]
  }

  /** Where that leaves a newly signed-in account: its row is ended and its refresh still in flight. */
  lemma {:induction false} EndReached(account: Guid, password: string, d: W.Draws, salts: Salts, start: Time, t: Time,
          ended: Time, jti: seq<byte>, jti': seq<byte>, raw: seq<byte>)
    requires jti != jti'
    ensures var first := NewRow(account, Sha256(raw), JtiHash(jti), start);
            var moves := Opening(account, password, d, salts, jti, raw, start)
                         + AcrossTheEnd(account, Sha256(raw), jti', t, ended);
            var before := R.Run(R.Empty, moves);
            && R.Fresh(R.Empty, moves) && before.db.rows == [Bury(first, Security, ended)]
            && 0 in before.inFlight && before.inFlight[0] == R.InFlight(first, jti', t)
  {
    var first := NewRow(account, Sha256(raw), JtiHash(jti), start);
    var m0, m1 := R.Begin(0, Some(first.tokenHash), jti', t), R.Other(DoEndSessions(account, ended));
    var w := Opened(account, password, d, salts, jti, raw, start, [m0] + [m1]);
    BeginOne(w, 0, first, jti', t);
    assert AfterRevokeAll([first], account, ended) == [Bury(first, Security, ended)];
    OneMove(w, m0, [m1]);
    assert [m1] + [] == [m1];
    OneMove(R.Next(w, m0), m1, []);
  }

  /** One sign-in, a refresh that looks its token up, a logout-all, and then the rotation: the account has
      an accepted session after all, and the reason of the ended row turns from Security to Regular. */
  lemma {:induction false} RefreshOutlivesLogoutAll(account: Guid, password: string, d: W.Draws, salts: Salts,
          start: Time, t: Time, ended: Time, now: Time, jti: seq<byte>, jti': seq<byte>, raw: seq<byte>,
          raw': seq<byte>)
    requires jti != jti' && raw != raw' && t < start + REFRESH_TTL && now < t + REFRESH_TTL
    ensures var moves := Opening(account, password, d, salts, jti, raw, start)
                         + AcrossTheEnd(account, Sha256(raw), jti', t, ended);
            var before := R.Run(R.Empty, moves);
            var after := R.Next(before, R.Finish(0, raw'));
            && R.Fresh(R.Empty, moves)
            && |before.db.rows| == 1 && before.db.rows[0].reason == Some(Security)
            && |after.db.rows| == 2 && after.db.rows[0].reason == Some(Regular)
            && Accepts(after.db.rows, account, JtiHash(jti'), now)
            && Lineage.LiveCount(before.db.rows, account) == 0 && Lineage.LiveCount(after.db.rows, account) == 1
  {
    var first := NewRow(account, Sha256(raw), JtiHash(jti), start);
    EndReached(account, password, d, salts, start, t, ended, jti, jti', raw);
    RotationOfEnded(first, account, ended, R.InFlight(first, jti', t), raw');
    AfterTheEnd(Bury(first, Regular, t), account, raw', jti', t, now);
    Lineage.CountZero([Bury(first, Security, ended)], account);
  }

  /** One buried row and a new one. */
  lemma {:induction false} AfterTheEnd(buried: Row, account: Guid, raw: seq<byte>, jti: seq<byte>, t: Time, now: Time)
    requires !Live(buried) && now < t + REFRESH_TTL
    ensures var rows := [buried, NewRow(account, Sha256(raw), JtiHash(jti), t)];
            Lineage.LiveCount(rows, account) == 1 && Accepts(rows, account, JtiHash(jti), now)
  {
    var rows := [buried, NewRow(account, Sha256(raw), JtiHash(jti), t)];
    TwoRowsCount(buried, rows[1]);
    assert rows[1].jtiHash == JtiHash(jti);
  }

  lemma {:induction false} RotationOfEnded(first: Row, account: Guid, ended: Time, f: R.InFlight, raw: seq<byte>)
    requires Live(first) && first.reason.None? && f.seen == first && f.now < first.expiresAt
    requires first.user == account && Sha256(raw) != first.tokenHash
    ensures AfterRevokeAll([first], account, ended) == [Bury(first, Security, ended)]
    ensures R.FinishedRows([Bury(first, Security, ended)], f, raw) ==
            [Bury(first, Regular, f.now), NewRow(account, Sha256(raw), JtiHash(f.jti), f.now)]
  {
    var rows := [Bury(first, Security, ended)];
    assert IndexOf(rows, first.tokenHash) == 0 && !Known(rows, Sha256(raw));
  }
}
