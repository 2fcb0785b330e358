/** Which login each row descends from, and how many un-revoked rows an account can have. */
module Lineage {
  import opened Prelude
  import opened TokenTable

  /** The table with, for each row, the index of the row its login minted. */
  datatype Traced = Traced(rows: seq<Row>, origin: seq<nat>)

  function Step(t: Traced, a: Action): Traced
    requires |t.origin| == |t.rows|
  {
    var rows := Apply(t.rows, a);
    match a
    case Mint(_, newHash, _, _) =>
      Traced(rows, if Known(t.rows, newHash) then t.origin else t.origin + [|t.rows|])
    case Rotate(h, newHash, _, now) =>
      Traced(rows, if RotateStatus(t.rows, h, newHash, now) == Rotated
                   then t.origin + [t.origin[IndexOf(t.rows, h)]] else t.origin)
    case _ => Traced(rows, t.origin)
  }

  function Trace(t: Traced, actions: seq<Action>): (r: Traced)
    requires |t.origin| == |t.rows|
    ensures r.rows == Run(t.rows, actions) && |r.origin| == |r.rows|
    decreases |actions|
  {
    if actions == [] then t else Trace(Step(t, actions[0]), actions[1..])
  }

  /** A row's login was minted no later than the row, for the same account. */
  ghost predicate Rooted(t: Traced) {
    |t.origin| == |t.rows|
    && forall i :: 0 <= i < |t.rows| ==> t.origin[i] <= i && t.rows[t.origin[i]].user == t.rows[i].user
  }

  /** Along one login's chain only the newest row can be un-revoked. */
  ghost predicate NewestOnly(t: Traced) {
    |t.origin| == |t.rows|
    && forall i, j :: 0 <= i < j < |t.rows| && t.origin[i] == t.origin[j] ==> !Live(t.rows[i])
  }

  ghost predicate Chains(t: Traced) { Rooted(t) && NewestOnly(t) }

  /** A call buries rows in place, and the row it may add is a chain of its own or follows a row
      that the same call buries. */
  lemma {:induction false} StepShape(t: Traced, a: Action)
    requires |t.origin| == |t.rows|
    ensures var next := Step(t, a);
            && |next.origin| == |next.rows| && |t.rows| <= |next.rows| <= |t.rows| + 1
            && next.origin[..|t.rows|] == t.origin
            && (forall i :: 0 <= i < |t.rows| ==> next.rows[i].user == t.rows[i].user)
            && (forall i :: 0 <= i < |t.rows| && !Live(t.rows[i]) ==> !Live(next.rows[i]))
            && (|t.rows| < |next.rows| ==>
                  || next.origin[|t.rows|] == |t.rows|
                  || exists k :: 0 <= k < |t.rows| && Live(t.rows[k]) && !Live(next.rows[k])
                       && next.origin[|t.rows|] == t.origin[k] && next.rows[|t.rows|].user == t.rows[k].user)
  {
    if a.Rotate? && RotateStatus(t.rows, a.presented, a.newHash, a.now) == Rotated {
      var k := IndexOf(t.rows, a.presented);
      assert Live(t.rows[k]) && !Live(Step(t, a).rows[k]);
    }
  }

  lemma {:induction false} StepKeepsRooted(t: Traced, a: Action)
    requires Rooted(t)
    ensures Rooted(Step(t, a))
  {
    StepShape(t, a);
    var next, n := Step(t, a), |t.rows|;
    forall i | 0 <= i < |next.rows| ensures next.origin[i] <= i && next.rows[next.origin[i]].user == next.rows[i].user {
      if i < n {
        assert next.origin[i] == next.origin[..n][i] == t.origin[i];
      }
    }
  }

  /** A row added behind `k` in its chain comes after the newest row of that chain. */
  lemma {:induction false} LiveIsNewest(t: Traced, k: nat, i: nat)
    requires NewestOnly(t) && k < |t.rows| && i < |t.rows| && t.origin[i] == t.origin[k] && Live(t.rows[k])
    ensures i == k || !Live(t.rows[i])
  {
  }

  lemma {:induction false} StepKeepsNewestOnly(t: Traced, a: Action)
    requires Chains(t)
    ensures NewestOnly(Step(t, a))
  {
    StepShape(t, a);
    var next, n := Step(t, a), |t.rows|;
    forall i, j | 0 <= i < j < |next.rows| && next.origin[i] == next.origin[j] ensures !Live(next.rows[i]) {
      assert next.origin[i] == next.origin[..n][i] == t.origin[i];
      if j < n {
        assert next.origin[j] == next.origin[..n][j] == t.origin[j];
      } else {
        assert t.origin[i] <= i;
        var k :| 0 <= k < n && Live(t.rows[k]) && !Live(next.rows[k]) && next.origin[n] == t.origin[k];
        LiveIsNewest(t, k, i);
      }
    }
  }

  /** In every reachable table two un-revoked rows never share a login, and the un-revoked one is
      the last of its chain. */
  lemma {:induction false} OneLiveDescendant(t: Traced, actions: seq<Action>)
    requires Chains(t)
    ensures Chains(Trace(t, actions))
    decreases |actions|
  {
    if actions != [] {
      StepKeepsRooted(t, actions[0]);
      StepKeepsNewestOnly(t, actions[0]);
      OneLiveDescendant(Step(t, actions[0]), actions[1..]);
    }
  }

  /** Every un-revoked row of the account descends from a login minted at row `cut` or later. */
  ghost predicate LiveSince(t: Traced, user: Guid, cut: nat) {
    |t.origin| == |t.rows| && cut <= |t.rows|
    && forall i :: 0 <= i < |t.rows| && t.rows[i].user == user && Live(t.rows[i]) ==> cut <= t.origin[i]
  }

  /** After revoke-all the only live tokens of the account, however the run goes on, descend from
      logins that came later. */
  lemma {:induction false} OnlyLaterLoginsLive(t: Traced, user: Guid, now: Time, actions: seq<Action>)
    requires Chains(t)
    ensures LiveSince(Trace(Step(t, RevokeAll(user, now)), actions), user, |t.rows|)
  {
    LiveSinceKept(Step(t, RevokeAll(user, now)), user, |t.rows|, actions);
  }

  lemma {:induction false} LiveSinceKept(t: Traced, user: Guid, cut: nat, actions: seq<Action>)
    requires LiveSince(t, user, cut)
    ensures LiveSince(Trace(t, actions), user, cut)
    decreases |actions|
  {
    if actions != [] {
      LiveSinceKept(Step(t, actions[0]), user, cut, actions[1..]);
    }
  }

  // ---------------------------------------------------------------- counting

  function Weight(r: Row, user: Guid): nat { if r.user == user && Live(r) then 1 else 0 }

  function LiveCount(rows: seq<Row>, user: Guid): nat {
    if rows == [] then 0 else LiveCount(rows[..|rows| - 1], user) + Weight(rows[|rows| - 1], user)
  }

  lemma {:induction false} CountAppend(rows: seq<Row>, r: Row, user: Guid)
    ensures LiveCount(rows + [r], user) == LiveCount(rows, user) + Weight(r, user)
  {
    assert (rows + [r])[..|rows|] == rows;
  }

  lemma {:induction false} CountUpdate(rows: seq<Row>, i: nat, r: Row, user: Guid)
    requires i < |rows|
    ensures LiveCount(rows[i := r], user) == LiveCount(rows, user) - Weight(rows[i], user) + Weight(r, user)
    decreases |rows|
  {
    var n := |rows| - 1;
    if i == n {
      assert rows[i := r][..n] == rows[..n];
    } else {
      assert rows[i := r][..n] == rows[..n][i := r];
      CountUpdate(rows[..n], i, r, user);
    }
  }

  lemma {:induction false} CountRevokeAll(rows: seq<Row>, target: Guid, now: Time, user: Guid)
    ensures LiveCount(AfterRevokeAll(rows, target, now), user) ==
            if user == target then 0 else LiveCount(rows, user)
    decreases |rows|
  {
    if rows != [] {
      var n := |rows| - 1;
      assert AfterRevokeAll(rows, target, now)[..n] == AfterRevokeAll(rows[..n], target, now);
      CountRevokeAll(rows[..n], target, now, user);
    }
  }

  /** An account with no un-revoked row, said by counting and row by row. */
  lemma {:induction false} CountZero(rows: seq<Row>, user: Guid)
    ensures LiveCount(rows, user) == 0 <==> forall i :: 0 <= i < |rows| && rows[i].user == user ==> !Live(rows[i])
    decreases |rows|
  {
    if rows != [] {
      var n := |rows| - 1;
      assert rows == rows[..n] + [rows[n]];
      CountZero(rows[..n], user);
      assert forall i :: 0 <= i < n ==> rows[..n][i] == rows[i];
    }
  }

  /** The number of un-revoked rows a call leaves an account that had `n` of them. */
  function CountNext(rows: seq<Row>, n: nat, a: Action, user: Guid): int {
    match a
    case Mint(u, newHash, _, _) => n + if u == user && !Known(rows, newHash) then 1 else 0
    case Rotate(_, _, _, _) => n
    case Revoke(h, _) => n - if Known(rows, h) then Weight(rows[IndexOf(rows, h)], user) else 0
    case RevokeAll(u, _) => if u == user then 0 else n
    case Nothing(_) => n
  }

  lemma {:induction false} RotationConserves(rows: seq<Row>, h: Digest, newHash: Digest, jtiHash: Digest, now: Time,
          user: Guid)
    ensures LiveCount(AfterRotate(rows, h, newHash, jtiHash, now), user) == LiveCount(rows, user)
  {
    var i := IndexOf(rows, h);
    match RotateStatus(rows, h, newHash, now)
    case Rotated =>
      var buried := Bury(rows[i], Regular, now);
      CountUpdate(rows, i, buried, user);
      CountAppend(rows[i := buried], NewRow(rows[i].user, newHash, jtiHash, now), user);
    case RecentlyRevoked => CountUpdate(rows, i, rows[i].(revokedAt := Some(now)), user);
    case _ =>
  }

  /** A mint adds one un-revoked row, a rotation conserves their number, a revocation takes one away
      and revoke-all leaves none. */
  lemma {:induction false} CountAfter(rows: seq<Row>, a: Action, user: Guid)
    ensures LiveCount(Apply(rows, a), user) == CountNext(rows, LiveCount(rows, user), a, user)
  {
    match a
    case Mint(u, newHash, jtiHash, now) => CountAppend(rows, NewRow(u, newHash, jtiHash, now), user);
    case Rotate(h, newHash, jtiHash, now) => RotationConserves(rows, h, newHash, jtiHash, now, user);
    case Revoke(h, now) =>
      var i := IndexOf(rows, h);
      if i < |rows| && Live(rows[i]) {
        CountUpdate(rows, i, Bury(rows[i], Security, now), user);
      }
    case RevokeAll(u, now) => CountRevokeAll(rows, u, now, user);
    case Nothing(_) =>
  }

  /** Mints of the account that were not refused since its last revoke-all, counting on from `n`. */
  function LoginsSince(rows: seq<Row>, n: nat, actions: seq<Action>, user: Guid): nat
    decreases |actions|
  {
    if actions == [] then n
    else LoginsSince(Apply(rows, actions[0]), LoginsAfter(rows, n, actions[0], user), actions[1..], user)
  }

  function LoginsAfter(rows: seq<Row>, n: nat, a: Action, user: Guid): nat {
    match a
    case Mint(u, newHash, _, _) => if u == user && !Known(rows, newHash) then n + 1 else n
    case RevokeAll(u, _) => if u == user then 0 else n
    case _ => n
  }

  lemma {:induction false} NeverMoreThanLogins(rows: seq<Row>, n: nat, actions: seq<Action>, user: Guid)
    requires LiveCount(rows, user) <= n
    ensures LiveCount(Run(rows, actions), user) <= LoginsSince(rows, n, actions, user)
    decreases |actions|
  {
    if actions != [] {
      CountAfter(rows, actions[0], user);
      NeverMoreThanLogins(Apply(rows, actions[0]), LoginsAfter(rows, n, actions[0], user), actions[1..], user);
    }
  }
}
