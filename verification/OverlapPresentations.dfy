/** What a refresh token's holder is told while refreshes overlap. */
module OverlapPresentations {
  import opened Prelude
  import opened TokenTable
  import opened AuthService
  import opened AuthRuns
  import opened Presentations
  import opened RefreshInterleaving

  /** The move ends a refresh of the token. */
  predicate EndsRefresh(w: World, m: Move, h: Digest) {
    m.Finish? && m.req in w.inFlight && w.inFlight[m.req].seen.tokenHash == h
  }

  /** The answers given to refreshes of the token, in the order in which they end. */
  function LateAnswers(w: World, moves: seq<Move>, h: Digest): seq<Status>
    decreases |moves|
  {
    if moves == [] then []
    else
      (if EndsRefresh(w, moves[0], h) then [FinishStatus(w.db.rows, w.inFlight[moves[0].req], moves[0].raw)] else [])
      + LateAnswers(RefreshInterleaving.Next(w, moves[0]), moves[1..], h)
  }

  /** The clock readings those refreshes started from. */
  function LateTimes(w: World, moves: seq<Move>, h: Digest): seq<Time>
    decreases |moves|
  {
    if moves == [] then []
    else
      (if EndsRefresh(w, moves[0], h) then [w.inFlight[moves[0].req].now] else [])
      + LateTimes(RefreshInterleaving.Next(w, moves[0]), moves[1..], h)
  }

  // ---------------------------------------------------------------- a second rotation

  lemma {:induction false} FinishMarks(rows: seq<Row>, f: InFlight, raw: seq<byte>, k: nat)
    requires WellFormed(rows) && WasStored(rows, f.seen) && k < |rows|
    ensures var after := FinishedRows(rows, f, raw);
            && k < |after| && after[k].tokenHash == rows[k].tokenHash
            && (after[k].reason == Some(Regular) <==>
                  || rows[k].reason == Some(Regular)
                  || (f.seen.tokenHash == rows[k].tokenHash && FinishStatus(rows, f, raw) == Rotated))
  {
    IndexIsUnique(rows, k);
    FinishShape(rows, f, raw);
  }

  /** What one move does to the reason of row `k`. */
  lemma {:induction false} MoveMarks(w: World, m: Move, k: nat)
    requires Inv(w) && Enabled(w, m) && k < |w.db.rows|
    ensures var h, after := w.db.rows[k].tokenHash, RefreshInterleaving.Next(w, m).db.rows;
            && k < |after| && after[k].tokenHash == h
            && (after[k].reason == Some(Regular) <==>
                  || w.db.rows[k].reason == Some(Regular)
                  || (EndsRefresh(w, m, h) && FinishStatus(w.db.rows, w.inFlight[m.req], m.raw) == Rotated))
  {
    match m
    case Other(e) =>
      StepActs(w.db, e);
      ApplyKeepsTable(w.db.rows, ActionOf(w.db, e));
    case Begin(_, _, _, _) =>
    case Finish(req, raw) =>
      if req in w.inFlight {
        assert Waiting(w, w.inFlight[req]);
        FinishMarks(w.db.rows, w.inFlight[req], raw, k);
      }
  }

  /** Over any run, a token's row carries the reason Regular exactly when it did before or some refresh of
      the token was answered Rotated. */
  lemma {:induction false} RegularMeansRotated(w: World, moves: seq<Move>, k: nat)
    requires Inv(w) && Fresh(w, moves) && k < |w.db.rows|
    ensures k < |RefreshInterleaving.Run(w, moves).db.rows|
    ensures RefreshInterleaving.Run(w, moves).db.rows[k].reason == Some(Regular)
            <==> w.db.rows[k].reason == Some(Regular) || Rotated in LateAnswers(w, moves, w.db.rows[k].tokenHash)
    decreases |moves|
  {
    if moves != [] {
      MoveMarks(w, moves[0], k);
      NextKeepsInv(w, moves[0]);
      RegularMeansRotated(RefreshInterleaving.Next(w, moves[0]), moves[1..], k);
    }
  }

  /** The move ends a refresh that had looked the token up live and in time and draws an unused new token,
      and finds the token rotated. */
  predicate RotatesRotated(w: World, m: Move, h: Digest) {
    && EndsRefresh(w, m, h)
    && CanRotate(w.inFlight[m.req]) && !Known(w.db.rows, Sha256(m.raw))
    && Known(w.db.rows, h) && w.db.rows[IndexOf(w.db.rows, h)].reason == Some(Regular)
  }

  ghost predicate SomeRotatesRotated(w: World, moves: seq<Move>, h: Digest)
    decreases |moves|
  {
    moves != []
    && (RotatesRotated(w, moves[0], h) || SomeRotatesRotated(RefreshInterleaving.Next(w, moves[0]), moves[1..], h))
  }

  function Rotations(answers: seq<Status>): nat { multiset(answers)[Rotated] }

  /** One for a token that was rotated already. */
  function Had(r: Row): nat { if r.reason == Some(Regular) then 1 else 0 }

  lemma {:induction false} OneMoreAnswer(s: Status, rest: seq<Status>)
    ensures Rotations([s] + rest) == Rotations(rest) + if s == Rotated then 1 else 0
  {
    assert multiset([s] + rest) == multiset{s} + multiset(rest);
  }

  /** One move counted: it rotates the token or not, and on a rotated one only as `RotatesRotated`. */
  lemma {:induction false} MoveRotates(w: World, m: Move, k: nat)
    requires Inv(w) && Enabled(w, m) && k < |w.db.rows|
    ensures var r, next := w.db.rows[k], RefreshInterleaving.Next(w, m);
            var rotated := EndsRefresh(w, m, r.tokenHash)
                           && FinishStatus(w.db.rows, w.inFlight[m.req], m.raw) == Rotated;
            && k < |next.db.rows| && next.db.rows[k].tokenHash == r.tokenHash
            && Had(next.db.rows[k]) == (if rotated then 1 else Had(r))
            && (RotatesRotated(w, m, r.tokenHash) <==> rotated && Had(r) == 1)
  {
    IndexIsUnique(w.db.rows, k);
    MoveMarks(w, m, k);
  }

  /** Over every run of overlapping refreshes a token is rotated at most once exactly when no refresh that
      had looked it up live and in time, with an unused new token, ends when it is already rotated. */
  lemma {:induction false} RotatedOnceExactly(w: World, moves: seq<Move>, k: nat)
    requires Inv(w) && Fresh(w, moves) && k < |w.db.rows|
    ensures var h := w.db.rows[k].tokenHash;
            Rotations(LateAnswers(w, moves, h)) + Had(w.db.rows[k]) <= 1 <==> !SomeRotatesRotated(w, moves, h)
    decreases |moves|
  {
    hide Inv, Enabled, RotatesRotated, FinishStatus;
    if moves != [] {
      var m, h, next := moves[0], w.db.rows[k].tokenHash, RefreshInterleaving.Next(w, moves[0]);
      MoveRotates(w, m, k);
      NextKeepsInv(w, m);
      RotatedOnceExactly(next, moves[1..], k);
      var rest := LateAnswers(next, moves[1..], h);
      if EndsRefresh(w, m, h) {
        OneMoreAnswer(FinishStatus(w.db.rows, w.inFlight[m.req], m.raw), rest);
      } else {
        assert LateAnswers(w, moves, h) == rest;
      }
    }
  }

  // ---------------------------------------------------------------- phases

  /** Every refresh of the token is answered as if it had only now looked the token up. */
  ghost predicate AnsweredCurrently(w: World, moves: seq<Move>, h: Digest)
    decreases |moves|
  {
    moves == []
    || ((EndsRefresh(w, moves[0], h) ==>
           var f := w.inFlight[moves[0].req];
           FinishStatus(w.db.rows, f, moves[0].raw) == RotateStatus(w.db.rows, h, Sha256(moves[0].raw), f.now))
        && AnsweredCurrently(RefreshInterleaving.Next(w, moves[0]), moves[1..], h))
  }

  lemma {:induction false} FinishAdvances(rows: seq<Row>, k: nat, t: Time, f: InFlight, raw: seq<byte>)
    requires WellFormed(rows) && WasStored(rows, f.seen) && k < |rows| && t <= f.now
    requires rows[k].tokenHash == f.seen.tokenHash ==>
               FinishStatus(rows, f, raw) == RotateStatus(rows, f.seen.tokenHash, Sha256(raw), f.now)
    ensures k < |FinishedRows(rows, f, raw)|
    ensures PhaseOf(rows[k], t) <= PhaseOf(FinishedRows(rows, f, raw)[k], f.now)
    ensures rows[k].tokenHash == f.seen.tokenHash ==>
              var s := FinishStatus(rows, f, raw);
              && PhaseOf(rows[k], t) <= Phase(s)
              && (if s == Rotated then 2 else Phase(s)) <= PhaseOf(FinishedRows(rows, f, raw)[k], f.now)
  {
    IndexIsUnique(rows, k);
    FinishShape(rows, f, raw);
  }

  /** A call that ends no refresh of the token leaves its row's phase at `t` or moves it on, whatever clock
      the call reads. */
  lemma {:induction false} OthersAdvance(w: World, k: nat, t: Time, m: Move)
    requires Inv(w) && Enabled(w, m) && k < |w.db.rows| && !EndsRefresh(w, m, w.db.rows[k].tokenHash)
    ensures var after := RefreshInterleaving.Next(w, m).db.rows;
            && k < |after| && after[k].tokenHash == w.db.rows[k].tokenHash
            && PhaseOf(w.db.rows[k], t) <= PhaseOf(after[k], t)
  {
    NextOutlives(w, m);
    assert SameRow(w.db.rows[k], RefreshInterleaving.Next(w, m).db.rows[k]);
    if !Live(w.db.rows[k]) {
      MoveOnBuried(w, m, k);
    }
  }

  /** What a refresh of row `k` that ends is answered, and how far along the row is then. */
  lemma {:induction false} OwnAdvances(w: World, k: nat, t: Time, m: Move)
    requires Inv(w) && k < |w.db.rows| && EndsRefresh(w, m, w.db.rows[k].tokenHash) && t <= w.inFlight[m.req].now
    requires AnsweredCurrently(w, [m], w.db.rows[k].tokenHash)
    ensures var f, after := w.inFlight[m.req], RefreshInterleaving.Next(w, m).db.rows;
            var s := FinishStatus(w.db.rows, f, m.raw);
            && k < |after| && after[k].tokenHash == w.db.rows[k].tokenHash
            && PhaseOf(w.db.rows[k], t) <= Phase(s)
            && (if s == Rotated then 2 else Phase(s)) <= PhaseOf(after[k], f.now)
  {
    NextOutlives(w, m);
    assert SameRow(w.db.rows[k], RefreshInterleaving.Next(w, m).db.rows[k]);
    assert Waiting(w, w.inFlight[m.req]);
    FinishAdvances(w.db.rows, k, t, w.inFlight[m.req], m.raw);
  }

  lemma {:induction false} LateAnswersFollowPhases(w: World, k: nat, t: Time, moves: seq<Move>)
    requires Inv(w) && Fresh(w, moves) && k < |w.db.rows|
    requires Rising([t] + LateTimes(w, moves, w.db.rows[k].tokenHash))
    requires AnsweredCurrently(w, moves, w.db.rows[k].tokenHash)
    ensures PhasesFrom(PhaseOf(w.db.rows[k], t), LateAnswers(w, moves, w.db.rows[k].tokenHash))
    decreases |moves|
  {
    if moves != [] {
      var m, h, next := moves[0], w.db.rows[k].tokenHash, RefreshInterleaving.Next(w, moves[0]);
      var rest, times := LateAnswers(next, moves[1..], h), LateTimes(next, moves[1..], h);
      NextKeepsInv(w, m);
      if EndsRefresh(w, m, h) {
        var now, s := w.inFlight[m.req].now, FinishStatus(w.db.rows, w.inFlight[m.req], m.raw);
        assert [m][1..] == [];
        RisingTail(t, [now] + times);
        OwnAdvances(w, k, t, m);
        LateAnswersFollowPhases(next, k, now, moves[1..]);
        assert LateAnswers(w, moves, h) == [s] + rest && ([s] + rest)[1..] == rest;
        PhasesWeaken(if s == Rotated then 2 else Phase(s), PhaseOf(next.db.rows[k], now), rest);
      } else {
        assert LateTimes(w, moves, h) == times && LateAnswers(w, moves, h) == rest;
        OthersAdvance(w, k, t, m);
        LateAnswersFollowPhases(next, k, t, moves[1..]);
        PhasesWeaken(PhaseOf(w.db.rows[k], t), PhaseOf(next.db.rows[k], t), rest);
      }
    }
  }

  lemma {:induction false} RisingTail(t: Time, times: seq<Time>)
    requires Rising([t] + times) && times != []
    ensures t <= times[0] && Rising(times)
  {
    assert forall i :: 0 <= i < |times| ==> times[i] == ([t] + times)[i + 1];
    assert t == ([t] + times)[0];
  }

  lemma {:induction false} RisingFrom(times: seq<Time>)
    requires Rising(times) && times != []
    ensures Rising([times[0]] + times)
  {
  }

  /** However refreshes overlap and whatever clocks the other calls read: as long as each refresh of this
      token is answered as if it had only now looked it up, and these end in the order in which they
      started, the answers read Rotated at most once, then RecentlyRevoked, then Revoked, then Invalid. */
  lemma {:induction false} LateAnswersReadInOrder(w: World, k: nat, moves: seq<Move>)
    requires Inv(w) && Fresh(w, moves) && k < |w.db.rows| && Rising(LateTimes(w, moves, w.db.rows[k].tokenHash))
    requires AnsweredCurrently(w, moves, w.db.rows[k].tokenHash)
    ensures var answers := LateAnswers(w, moves, w.db.rows[k].tokenHash);
            && (forall i, j :: 0 <= i < j < |answers| ==> Phase(answers[i]) <= Phase(answers[j]))
            && (forall i, j :: 0 <= i < j < |answers| && answers[i] == Rotated ==> answers[j] != Rotated)
  {
    var times := LateTimes(w, moves, w.db.rows[k].tokenHash);
    var t := if times == [] then 0 else times[0];
    if times != [] {
      RisingFrom(times);
    }
    LateAnswersFollowPhases(w, k, t, moves);
    PhasesIndexed(PhaseOf(w.db.rows[k], t), LateAnswers(w, moves, w.db.rows[k].tokenHash));
  }

  // ---------------------------------------------------------------- the sliding grace window

  /** Every refresh of the token that ends finds the row as it looked it up. */
  ghost predicate Undisturbed(w: World, moves: seq<Move>, h: Digest)
    decreases |moves|
  {
    moves == []
    || ((EndsRefresh(w, moves[0], h) ==>
           Known(w.db.rows, h) && w.db.rows[IndexOf(w.db.rows, h)] == w.inFlight[moves[0].req].seen)
        && Undisturbed(RefreshInterleaving.Next(w, moves[0]), moves[1..], h))
  }

  /** An uninterrupted call leaves a revoked row as it is; only a rotation can touch its tombstone. */
  lemma {:induction false} OtherOnBuried(w: World, e: Event, k: nat)
    requires !e.DoRotate? && k < |w.db.rows| && !Live(w.db.rows[k])
    ensures var after := RefreshInterleaving.Next(w, Other(e)).db.rows; k < |after| && after[k] == w.db.rows[k]
  {
    StepActs(w.db, e);
  }

  /** What the end of a refresh does to a revoked row `k`: only a grace hit on it writes it. */
  lemma {:induction false} FinishOnBuried(rows: seq<Row>, f: InFlight, raw: seq<byte>, k: nat)
    requires WellFormed(rows) && k < |rows| && !Live(rows[k])
    requires f.seen.tokenHash == rows[k].tokenHash ==> f.seen == rows[k]
    ensures var r, s, after := rows[k], FinishStatus(rows, f, raw), FinishedRows(rows, f, raw);
            && k < |after|
            && (f.seen.tokenHash == r.tokenHash ==>
                  && s == Story(r.revokedAt.value, r.expiresAt, [f.now])[0]
                  && after[k] == if s == RecentlyRevoked then r.(revokedAt := Some(f.now)) else r)
            && (f.seen.tokenHash != r.tokenHash ==> after[k] == r)
  {
    IndexIsUnique(rows, k);
  }

  lemma {:induction false} MoveOnBuried(w: World, m: Move, k: nat)
    requires Inv(w) && Enabled(w, m) && k < |w.db.rows| && !Live(w.db.rows[k])
    requires EndsRefresh(w, m, w.db.rows[k].tokenHash) ==> w.inFlight[m.req].seen == w.db.rows[k]
    ensures var r, after := w.db.rows[k], RefreshInterleaving.Next(w, m).db.rows;
            && k < |after|
            && (EndsRefresh(w, m, r.tokenHash) ==>
                  var s := FinishStatus(w.db.rows, w.inFlight[m.req], m.raw);
                  && s == Story(r.revokedAt.value, r.expiresAt, [w.inFlight[m.req].now])[0]
                  && after[k] == if s == RecentlyRevoked then r.(revokedAt := Some(w.inFlight[m.req].now)) else r)
            && (!EndsRefresh(w, m, r.tokenHash) ==> after[k] == r)
  {
    match m
    case Other(e) => OtherOnBuried(w, e, k);
    case Begin(_, _, _, _) =>
    case Finish(req, raw) =>
      if req in w.inFlight {
        FinishOnBuried(w.db.rows, w.inFlight[req], raw, k);
      }
  }

  lemma {:induction false} LateStory(w: World, k: nat, moves: seq<Move>)
    requires Inv(w) && Fresh(w, moves) && k < |w.db.rows| && !Live(w.db.rows[k])
    requires Undisturbed(w, moves, w.db.rows[k].tokenHash)
    ensures var r := w.db.rows[k];
            LateAnswers(w, moves, r.tokenHash)
            == Story(r.revokedAt.value, r.expiresAt, LateTimes(w, moves, r.tokenHash))
    decreases |moves|
  {
    if moves != [] {
      var m, r, next := moves[0], w.db.rows[k], RefreshInterleaving.Next(w, moves[0]);
      IndexIsUnique(w.db.rows, k);
      MoveOnBuried(w, m, k);
      NextKeepsInv(w, m);
      LateStory(next, k, moves[1..]);
      if EndsRefresh(w, m, r.tokenHash) {
        assert LateTimes(w, moves, r.tokenHash)[1..] == LateTimes(next, moves[1..], r.tokenHash);
      } else {
        assert LateTimes(w, moves, r.tokenHash) == LateTimes(next, moves[1..], r.tokenHash);
      }
    }
  }

  /** However refreshes overlap and whatever clocks the other calls read: as long as each refresh of this
      revoked token finds the row as it looked it up, and these end in the order in which they started,
      one is answered RecentlyRevoked exactly while the token is unexpired and every gap since its
      revocation is under five seconds. */
  lemma {:induction false} LateGraceWindowSlides(w: World, k: nat, moves: seq<Move>, n: nat)
    requires Inv(w) && Fresh(w, moves) && k < |w.db.rows| && !Live(w.db.rows[k])
    requires Undisturbed(w, moves, w.db.rows[k].tokenHash) && Rising(LateTimes(w, moves, w.db.rows[k].tokenHash))
    requires n < |LateTimes(w, moves, w.db.rows[k].tokenHash)|
    ensures var r := w.db.rows[k];
            var answers, times := LateAnswers(w, moves, r.tokenHash), LateTimes(w, moves, r.tokenHash);
            && |answers| == |times|
            && (answers[n] == RecentlyRevoked <==>
                  times[n] < r.expiresAt && ShortGaps(r.revokedAt.value, times, n))
  {
    var r := w.db.rows[k];
    LateStory(w, k, moves);
    StorySlides(r.revokedAt.value, r.expiresAt, LateTimes(w, moves, r.tokenHash), n);
  }

  // ---------------------------------------------------------------- runs that are store runs

  /** The store calls of a run in which every refresh that ends finds its row as it looked it up. */
  function StoreCalls(w: World, moves: seq<Move>): (actions: seq<Action>)
    ensures |actions| == |moves|
    decreases |moves|
  {
    if moves == [] then []
    else [StoreCall(w, moves[0])] + StoreCalls(RefreshInterleaving.Next(w, moves[0]), moves[1..])
  }

  function StoreCall(w: World, m: Move): Action {
    match m
    case Other(e) => ActionOf(w.db, e)
    case Begin(_, _, _, now) => Nothing(now)
    case Finish(req, raw) =>
      if req !in w.inFlight then Nothing(0)
      else
        var f := w.inFlight[req];
        Rotate(f.seen.tokenHash, Sha256(raw), JtiHash(f.jti), f.now)
  }

  ghost predicate AllUndisturbed(w: World, moves: seq<Move>)
    decreases |moves|
  {
    moves == []
    || ((moves[0].Finish? && moves[0].req in w.inFlight ==>
           var f := w.inFlight[moves[0].req];
           Known(w.db.rows, f.seen.tokenHash) && Stored(w.db.rows, f) == f.seen)
        && AllUndisturbed(RefreshInterleaving.Next(w, moves[0]), moves[1..]))
  }

  /** Such a run is a run of the store, so everything proved over store runs holds of it. */
  lemma {:induction false} UndisturbedRunsAreStoreRuns(w: World, moves: seq<Move>)
    requires Inv(w) && Fresh(w, moves) && AllUndisturbed(w, moves)
    ensures RefreshInterleaving.Run(w, moves).db.rows == TokenTable.Run(w.db.rows, StoreCalls(w, moves))
    decreases |moves|
  {
    if moves != [] {
      var m, next := moves[0], RefreshInterleaving.Next(w, moves[0]);
      match m {
        case Other(e) => StepActs(w.db, e);
        case Begin(_, _, _, _) =>
        case Finish(req, raw) =>
          if req in w.inFlight {
            var f := w.inFlight[req];
            CurrentRowRotates(w.db.rows, f.seen.tokenHash, Sha256(raw), JtiHash(f.jti), f.now);
          }
      }
      assert next.db.rows == Apply(w.db.rows, StoreCall(w, m));
      NextKeepsInv(w, m);
      UndisturbedRunsAreStoreRuns(next, moves[1..]);
      assert StoreCalls(w, moves)[1..] == StoreCalls(next, moves[1..]);
    }
  }
}
