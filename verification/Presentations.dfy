/** What one refresh token's holder is told over a whole run of the store. */
module Presentations {
  import opened Prelude
  import opened TokenTable

  predicate Presents(a: Action, h: Digest) { a.Rotate? && a.presented == h }

  /** The answers given to the presentations of `h`, in order. */
  function Answers(rows: seq<Row>, actions: seq<Action>, h: Digest): seq<Status>
    decreases |actions|
  {
    if actions == [] then []
    else (if Presents(actions[0], h) then [RotateStatus(rows, h, actions[0].newHash, actions[0].now)] else [])
         + Answers(Apply(rows, actions[0]), actions[1..], h)
  }

  /** The times at which `h` is presented. */
  function Times(actions: seq<Action>, h: Digest): seq<Time>
    decreases |actions|
  {
    if actions == [] then []
    else (if Presents(actions[0], h) then [actions[0].now] else []) + Times(actions[1..], h)
  }

  /** The phases in order. `Threw` leaves a live token live. */
  function Phase(s: Status): nat {
    match s
    case Threw => 0
    case Rotated => 1
    case RecentlyRevoked => 2
    case Revoked => 3
    case Invalid => 4
  }

  ghost predicate PhasesFrom(p: nat, answers: seq<Status>)
    decreases |answers|
  {
    answers == []
    || (p <= Phase(answers[0])
        && PhasesFrom(if answers[0] == Rotated then 2 else Phase(answers[0]), answers[1..]))
  }

  /** The first phase still possible for row `k` at time `now`. */
  function PhaseOf(r: Row, now: Time): nat {
    if r.expiresAt <= now then 4
    else if Live(r) then 0
    else if now - r.revokedAt.value < GRACE then 2
    else 3
  }

  lemma {:induction false} PhasesWeaken(p: nat, q: nat, answers: seq<Status>)
    requires p <= q && PhasesFrom(q, answers)
    ensures PhasesFrom(p, answers)
  {
  }

  /** How far along the row is after one more call, and what a presentation answers. */
  lemma {:induction false} PhaseAdvances(rows: seq<Row>, k: nat, t: Time, a: Action)
    requires WellFormed(rows) && k < |rows| && t <= a.now
    ensures PhaseOf(rows[k], t) <= PhaseOf(Apply(rows, a)[k], a.now)
    ensures Presents(a, rows[k].tokenHash) ==>
              var s := RotateStatus(rows, rows[k].tokenHash, a.newHash, a.now);
              && PhaseOf(rows[k], t) <= Phase(s)
              && (if s == Rotated then 2 else Phase(s)) <= PhaseOf(Apply(rows, a)[k], a.now)
  {
    IndexIsUnique(rows, k);
    ApplyKeepsTable(rows, a);
  }

  lemma {:induction false} AnswersFollowPhases(rows: seq<Row>, k: nat, t: Time, actions: seq<Action>)
    requires WellFormed(rows) && k < |rows| && Ordered(t, actions)
    ensures PhasesFrom(PhaseOf(rows[k], t), Answers(rows, actions, rows[k].tokenHash))
    decreases |actions|
  {
    if actions != [] {
      var a := actions[0];
      var h := rows[k].tokenHash;
      var next := Apply(rows, a);
      ApplyKeepsTable(rows, a);
      PhaseAdvances(rows, k, t, a);
      AnswersFollowPhases(next, k, a.now, actions[1..]);
      var rest := Answers(next, actions[1..], h);
      if Presents(a, h) {
        var s := RotateStatus(rows, h, a.newHash, a.now);
        var all := Answers(rows, actions, h);
        assert all == [s] + rest;
        assert all[1..] == rest;
        PhasesWeaken(if s == Rotated then 2 else Phase(s), PhaseOf(next[k], a.now), rest);
      } else {
        assert Answers(rows, actions, h) == rest;
        PhasesWeaken(PhaseOf(rows[k], t), PhaseOf(next[k], a.now), rest);
      }
    }
  }

  lemma {:induction false} PhasesIndexed(p: nat, answers: seq<Status>)
    requires PhasesFrom(p, answers)
    ensures forall i :: 0 <= i < |answers| ==> p <= Phase(answers[i])
    ensures forall i, j :: 0 <= i < j < |answers| ==> Phase(answers[i]) <= Phase(answers[j])
    ensures forall i, j :: 0 <= i < j < |answers| && answers[i] == Rotated ==> answers[j] != Rotated
    decreases |answers|
  {
    if answers != [] {
      PhasesIndexed(if answers[0] == Rotated then 2 else Phase(answers[0]), answers[1..]);
      assert forall i :: 0 < i < |answers| ==> answers[i] == answers[1..][i - 1];
    }
  }

  /** Under a clock that never goes back, a minted token's answers read Rotated at most once, then
      RecentlyRevoked, then Revoked, then Invalid, whatever other calls come between. */
  lemma {:induction false} AnswersReadInOrder(rows: seq<Row>, k: nat, t: Time, actions: seq<Action>)
    requires WellFormed(rows) && k < |rows| && Ordered(t, actions)
    ensures var answers := Answers(rows, actions, rows[k].tokenHash);
            && (forall i, j :: 0 <= i < j < |answers| ==> Phase(answers[i]) <= Phase(answers[j]))
            && (forall i, j :: 0 <= i < j < |answers| && answers[i] == Rotated ==> answers[j] != Rotated)
  {
    AnswersFollowPhases(rows, k, t, actions);
    PhasesIndexed(PhaseOf(rows[k], t), Answers(rows, actions, rows[k].tokenHash));
  }

  // ---------------------------------------------------------------- the sliding grace window

  /** The time from the previous touch of the tombstone to the `j`-th presentation. */
  function Gap(since: Time, times: seq<Time>, j: nat): Time
    requires j < |times|
  {
    times[j] - if j == 0 then since else times[j - 1]
  }

  /** Every gap up to the `n`-th presentation, counted from the revocation at `since`, is short. */
  ghost predicate ShortGaps(since: Time, times: seq<Time>, n: nat)
    requires n < |times|
  {
    forall j :: 0 <= j <= n ==> Gap(since, times, j) < GRACE
  }

  ghost predicate Rising(times: seq<Time>) { forall i, j :: 0 <= i < j < |times| ==> times[i] <= times[j] }

  lemma {:induction false} TimesRise(t: Time, actions: seq<Action>, h: Digest)
    requires Ordered(t, actions)
    ensures forall i :: 0 <= i < |Times(actions, h)| ==> t <= Times(actions, h)[i]
    ensures Rising(Times(actions, h))
    decreases |actions|
  {
    if actions != [] {
      TimesRise(actions[0].now, actions[1..], h);
      var times, rest := Times(actions, h), Times(actions[1..], h);
      if Presents(actions[0], h) {
        assert forall i :: 0 < i < |times| ==> times[i] == rest[i - 1];
      } else {
        assert times == rest;
      }
    }
  }

  lemma {:induction false} ShortGapsShift(since: Time, times: seq<Time>, n: nat)
    requires 0 < n < |times|
    ensures ShortGaps(since, times, n) <==>
            times[0] - since < GRACE && ShortGaps(times[0], times[1..], n - 1)
  {
    forall j | 0 < j <= n ensures Gap(since, times, j) == Gap(times[0], times[1..], j - 1) {
    }
    assert Gap(since, times, 0) == times[0] - since;
    if ShortGaps(since, times, n) {
      forall j | 0 <= j <= n - 1 ensures Gap(times[0], times[1..], j) < GRACE {
        assert Gap(since, times, j + 1) < GRACE;
      }
    }
  }

  /** What a token revoked at `since` answers at `times`: each hit inside the window slides it. */
  function Story(since: Time, expiresAt: Time, times: seq<Time>): (s: seq<Status>)
    ensures |s| == |times|
    decreases |times|
  {
    if times == [] then []
    else if expiresAt <= times[0] then [Invalid] + Story(since, expiresAt, times[1..])
    else if times[0] - since < GRACE then [RecentlyRevoked] + Story(times[0], expiresAt, times[1..])
    else [Revoked] + Story(since, expiresAt, times[1..])
  }

  lemma {:induction false} BuriedRowTellsStory(rows: seq<Row>, k: nat, actions: seq<Action>)
    requires WellFormed(rows) && k < |rows| && !Live(rows[k])
    ensures var r := rows[k];
            Answers(rows, actions, r.tokenHash) == Story(r.revokedAt.value, r.expiresAt, Times(actions, r.tokenHash))
    decreases |actions|
  {
    if actions != [] {
      var a, h, next := actions[0], rows[k].tokenHash, Apply(rows, actions[0]);
      IndexIsUnique(rows, k);
      ApplyKeepsTable(rows, a);
      BuriedRowTellsStory(next, k, actions[1..]);
      if Presents(a, h) {
        assert Times(actions, h)[1..] == Times(actions[1..], h);
      } else {
        assert next[k] == rows[k] && Times(actions, h) == Times(actions[1..], h);
      }
    }
  }

  lemma {:induction false} ClosedStays(since: Time, expiresAt: Time, times: seq<Time>, n: nat)
    requires n < |times| && forall i :: 0 <= i < |times| ==> GRACE <= times[i] - since || expiresAt <= times[i]
    ensures Story(since, expiresAt, times)[n] != RecentlyRevoked
    decreases n
  {
    if 0 < n {
      assert forall i :: 0 <= i < |times[1..]| ==> times[1..][i] == times[i + 1];
      ClosedStays(since, expiresAt, times[1..], n - 1);
    }
  }

  lemma {:induction false} StorySlides(since: Time, expiresAt: Time, times: seq<Time>, n: nat)
    requires n < |times| && Rising(times)
    ensures Story(since, expiresAt, times)[n] == RecentlyRevoked <==>
            times[n] < expiresAt && ShortGaps(since, times, n)
    decreases n
  {
    assert Gap(since, times, 0) == times[0] - since;
    if 0 < n {
      ShortGapsShift(since, times, n);
      if times[0] < expiresAt && times[0] - since < GRACE {
        StorySlides(times[0], expiresAt, times[1..], n - 1);
      } else {
        ClosedStays(since, expiresAt, times, n);
      }
    }
  }

  /** A token revoked at `since` is answered RecentlyRevoked exactly while it is unexpired and every
      gap since its revocation is under five seconds, whatever other calls come between. */
  lemma {:induction false} GraceWindowSlides(rows: seq<Row>, k: nat, t: Time, actions: seq<Action>, n: nat)
    requires WellFormed(rows) && k < |rows| && !Live(rows[k]) && Ordered(t, actions)
    requires n < |Times(actions, rows[k].tokenHash)|
    ensures |Answers(rows, actions, rows[k].tokenHash)| == |Times(actions, rows[k].tokenHash)|
    ensures Answers(rows, actions, rows[k].tokenHash)[n] == RecentlyRevoked <==>
            (Times(actions, rows[k].tokenHash)[n] < rows[k].expiresAt
             && ShortGaps(rows[k].revokedAt.value, Times(actions, rows[k].tokenHash), n))
  {
    var times := Times(actions, rows[k].tokenHash);
    BuriedRowTellsStory(rows, k, actions);
    TimesRise(t, actions, rows[k].tokenHash);
    StorySlides(rows[k].revokedAt.value, rows[k].expiresAt, times, n);
  }
}
