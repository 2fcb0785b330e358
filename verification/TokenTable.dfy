/** The refresh-token table and the four ways the store changes it.
    Rows are appended and tombstoned, never deleted. */
module TokenTable {
  import opened Prelude

  datatype Reason = Regular | Security

  datatype Row = Row(
    user: Guid,
    tokenHash: Digest,
    jtiHash: Digest,
    createdAt: Time,
    expiresAt: Time,
    revokedAt: Option<Time>,
    reason: Option<Reason>)

  /** `Threw` stands for the exception of a save that breaks the unique index on the token hash. */
  datatype Status = Invalid | Revoked | RecentlyRevoked | Rotated | Threw

  /** One store call. `Nothing` is a call that returns before it reaches the table. */
  datatype Action =
    | Mint(user: Guid, newHash: Digest, jtiHash: Digest, now: Time)
    | Rotate(presented: Digest, newHash: Digest, jtiHash: Digest, now: Time)
    | Revoke(presented: Digest, now: Time)
    | RevokeAll(user: Guid, now: Time)
    | Nothing(now: Time)

  const REFRESH_TTL: Time := 7 * DAY
  const GRACE: Time := 5 * SECOND

  predicate Live(r: Row) { r.revokedAt.None? }

  function NewRow(user: Guid, newHash: Digest, jtiHash: Digest, now: Time): Row {
    Row(user, newHash, jtiHash, now, now + REFRESH_TTL, None, None)
  }

  function Bury(r: Row, reason: Reason, now: Time): Row {
    r.(revokedAt := Some(now), reason := Some(reason))
  }

  /** The row a token hash selects, or the length of the table when there is none. */
  function IndexOf(rows: seq<Row>, h: Digest): (i: nat)
    ensures i <= |rows|
    ensures i < |rows| ==> rows[i].tokenHash == h
    ensures forall j :: 0 <= j < i ==> rows[j].tokenHash != h
  {
    if rows == [] then 0
    else if rows[0].tokenHash == h then 0
    else
      var i := IndexOf(rows[1..], h);
      assert forall j :: 0 < j < i + 1 ==> rows[j] == rows[1..][j - 1];
      i + 1
  }

  predicate Known(rows: seq<Row>, h: Digest) { IndexOf(rows, h) < |rows| }

  function RotateStatus(rows: seq<Row>, h: Digest, newHash: Digest, now: Time): Status {
    if !Known(rows, h) then Invalid
    else
      var row := rows[IndexOf(rows, h)];
      if row.expiresAt <= now then Invalid
      else if row.revokedAt.Some? then
        if now - row.revokedAt.value < GRACE then RecentlyRevoked else Revoked
      else if Known(rows, newHash) then Threw
      else Rotated
  }

  function AfterRotate(rows: seq<Row>, h: Digest, newHash: Digest, jtiHash: Digest, now: Time): seq<Row> {
    var i := IndexOf(rows, h);
    match RotateStatus(rows, h, newHash, now)
    case RecentlyRevoked => rows[i := rows[i].(revokedAt := Some(now))]
    case Rotated => rows[i := Bury(rows[i], Regular, now)] + [NewRow(rows[i].user, newHash, jtiHash, now)]
    case _ => rows
  }

  // ---------------------------------------------------------------- a row read earlier in the same request

  /** What a save writes: the columns the request changed since it read the row, over the stored row. */
  function Written(stored: Row, read: Row, changed: Row): Row {
    stored.(revokedAt := if changed.revokedAt == read.revokedAt then stored.revokedAt else changed.revokedAt,
            reason := if changed.reason == read.reason then stored.reason else changed.reason)
  }

  /** A rotation decides on the row as its request first read it. */
  function SeenStatus(rows: seq<Row>, seen: Row, newHash: Digest, now: Time): Status {
    if !Known(rows, seen.tokenHash) || seen.expiresAt <= now then Invalid
    else if seen.revokedAt.Some? then
      if now - seen.revokedAt.value < GRACE then RecentlyRevoked else Revoked
    else if Known(rows, newHash) then Threw
    else Rotated
  }

  function AfterSeen(rows: seq<Row>, seen: Row, newHash: Digest, jtiHash: Digest, now: Time): seq<Row> {
    var i := IndexOf(rows, seen.tokenHash);
    match SeenStatus(rows, seen, newHash, now)
    case RecentlyRevoked => rows[i := Written(rows[i], seen, seen.(revokedAt := Some(now)))]
    case Rotated =>
      rows[i := Written(rows[i], seen, Bury(seen, Regular, now))] + [NewRow(seen.user, newHash, jtiHash, now)]
    case _ => rows
  }

  /** With nothing between reading the row and rotating it, the two readings are one. */
  lemma {:induction false} CurrentRowRotates(rows: seq<Row>, h: Digest, newHash: Digest, jtiHash: Digest, now: Time)
    requires Known(rows, h)
    ensures SeenStatus(rows, rows[IndexOf(rows, h)], newHash, now) == RotateStatus(rows, h, newHash, now)
    ensures AfterSeen(rows, rows[IndexOf(rows, h)], newHash, jtiHash, now)
            == AfterRotate(rows, h, newHash, jtiHash, now)
  {
  }

  function AfterRevokeAll(rows: seq<Row>, user: Guid, now: Time): seq<Row> {
    seq(|rows|, i requires 0 <= i < |rows| =>
      if rows[i].user == user && Live(rows[i]) then Bury(rows[i], Security, now) else rows[i])
  }

  function Apply(rows: seq<Row>, a: Action): seq<Row> {
    match a
    case Mint(user, newHash, jtiHash, now) =>
      if Known(rows, newHash) then rows else rows + [NewRow(user, newHash, jtiHash, now)]
    case Rotate(h, newHash, jtiHash, now) => AfterRotate(rows, h, newHash, jtiHash, now)
    case Revoke(h, now) =>
      var i := IndexOf(rows, h);
      if i < |rows| && Live(rows[i]) then rows[i := Bury(rows[i], Security, now)] else rows
    case RevokeAll(user, now) => AfterRevokeAll(rows, user, now)
    case Nothing(_) => rows
  }

  function Run(rows: seq<Row>, actions: seq<Action>): seq<Row>
    decreases |actions|
  {
    if actions == [] then rows else Run(Apply(rows, actions[0]), actions[1..])
  }

  /** The query of the access-token check: a live, unexpired row of this subject holds this jti. */
  ghost predicate Accepts(rows: seq<Row>, user: Guid, jtiHash: Digest, now: Time) {
    exists i :: 0 <= i < |rows| && rows[i].user == user && Live(rows[i])
                && rows[i].expiresAt > now && rows[i].jtiHash == jtiHash
  }

  // ---------------------------------------------------------------- invariants

  ghost predicate UniqueHashes(rows: seq<Row>) {
    forall i, j :: 0 <= i < j < |rows| ==> rows[i].tokenHash != rows[j].tokenHash
  }

  ghost predicate ReasonsMatch(rows: seq<Row>) {
    forall i :: 0 <= i < |rows| ==> (rows[i].revokedAt.None? <==> rows[i].reason.None?)
  }

  ghost predicate WellFormed(rows: seq<Row>) { UniqueHashes(rows) && ReasonsMatch(rows) }

  /** No tombstone is dated after `t`. */
  ghost predicate DatedBy(rows: seq<Row>, t: Time) {
    forall i :: 0 <= i < |rows| && rows[i].revokedAt.Some? ==> rows[i].revokedAt.value <= t
  }

  /** What no store call ever undoes. */
  ghost predicate Evolves(before: seq<Row>, after: seq<Row>) {
    |before| <= |after|
    && forall i :: 0 <= i < |before| ==>
         && after[i].user == before[i].user
         && after[i].tokenHash == before[i].tokenHash
         && after[i].jtiHash == before[i].jtiHash
         && after[i].createdAt == before[i].createdAt
         && after[i].expiresAt == before[i].expiresAt
         && (!Live(before[i]) ==> !Live(after[i]) && after[i].reason == before[i].reason)
  }

  /** Tombstones only move forward. */
  ghost predicate Forward(before: seq<Row>, after: seq<Row>) {
    |before| <= |after|
    && forall i :: 0 <= i < |before| && before[i].revokedAt.Some? ==>
         after[i].revokedAt.Some? && before[i].revokedAt.value <= after[i].revokedAt.value
  }

  lemma {:induction false} IndexIsUnique(rows: seq<Row>, i: nat)
    requires UniqueHashes(rows) && i < |rows|
    ensures IndexOf(rows, rows[i].tokenHash) == i
  {
  }

  lemma {:induction false} AppendKeepsTable(rows: seq<Row>, r: Row)
    requires WellFormed(rows) && !Known(rows, r.tokenHash) && Live(r) && r.reason.None?
    ensures WellFormed(rows + [r]) && Evolves(rows, rows + [r])
  {
  }

  /** A row rewritten in place keeps its identity and, once revoked, its reason. */
  ghost predicate Rewrites(r: Row, after: Row) {
    && after == r.(revokedAt := after.revokedAt, reason := after.reason)
    && after.revokedAt.Some? && after.reason.Some? && (!Live(r) ==> after.reason == r.reason)
  }

  lemma {:induction false} RewriteKeepsTable(rows: seq<Row>, after: seq<Row>)
    requires WellFormed(rows) && |after| == |rows|
    requires forall i :: 0 <= i < |rows| ==> after[i] == rows[i] || Rewrites(rows[i], after[i])
    ensures WellFormed(after) && Evolves(rows, after)
  {
  }

  lemma {:induction false} EvolvesTransitive(xs: seq<Row>, ys: seq<Row>, zs: seq<Row>)
    requires Evolves(xs, ys) && Evolves(ys, zs)
    ensures Evolves(xs, zs)
  {
  }

  lemma {:induction false} RotateKeepsTable(rows: seq<Row>, h: Digest, newHash: Digest, jtiHash: Digest, now: Time)
    requires WellFormed(rows)
    ensures WellFormed(AfterRotate(rows, h, newHash, jtiHash, now))
    ensures Evolves(rows, AfterRotate(rows, h, newHash, jtiHash, now))
  {
    var i := IndexOf(rows, h);
    match RotateStatus(rows, h, newHash, now)
    case RecentlyRevoked => RewriteKeepsTable(rows, rows[i := rows[i].(revokedAt := Some(now))]);
    case Rotated =>
      var buried := rows[i := Bury(rows[i], Regular, now)];
      RewriteKeepsTable(rows, buried);
      SameHashesSameIndex(rows, buried, newHash);
      AppendKeepsTable(buried, NewRow(rows[i].user, newHash, jtiHash, now));
      EvolvesTransitive(rows, buried, AfterRotate(rows, h, newHash, jtiHash, now));
    case _ =>
  }

  /** Every call keeps the hashes unique and the tombstones complete, and undoes nothing. */
  lemma {:induction false} ApplyKeepsTable(rows: seq<Row>, a: Action)
    requires WellFormed(rows)
    ensures WellFormed(Apply(rows, a))
    ensures Evolves(rows, Apply(rows, a))
  {
    match a
    case Mint(user, newHash, jtiHash, now) =>
      if !Known(rows, newHash) {
        AppendKeepsTable(rows, NewRow(user, newHash, jtiHash, now));
      }
    case Rotate(h, newHash, jtiHash, now) => RotateKeepsTable(rows, h, newHash, jtiHash, now);
    case Revoke(_, _) => RewriteKeepsTable(rows, Apply(rows, a));
    case RevokeAll(_, _) => RewriteKeepsTable(rows, Apply(rows, a));
    case Nothing(_) =>
  }

  lemma {:induction false} SameHashesSameIndex(xs: seq<Row>, ys: seq<Row>, h: Digest)
    requires |xs| == |ys| && forall i :: 0 <= i < |xs| ==> xs[i].tokenHash == ys[i].tokenHash
    ensures IndexOf(xs, h) == IndexOf(ys, h)
  {
    if Known(xs, h) {
      assert ys[IndexOf(xs, h)].tokenHash == h;
    }
  }

  /** A single save keeps every tombstone's date moving forward when its clock reading is not
      behind the table's. */
  lemma {:induction false} ApplyMovesForward(rows: seq<Row>, a: Action)
    requires DatedBy(rows, a.now)
    ensures Forward(rows, Apply(rows, a)) && DatedBy(Apply(rows, a), a.now)
  {
  }

  /** Only the grace branch rewrites a tombstone, so a call moves the presented one back exactly
      when it reaches that branch with a clock reading older than the tombstone. */
  lemma {:induction false} RewindsExactlyWhenClockIsBehind(rows: seq<Row>, h: Digest, newHash: Digest, jtiHash: Digest,
          now: Time)
    ensures Forward(rows, AfterRotate(rows, h, newHash, jtiHash, now)) <==>
            !(Known(rows, h) && var row := rows[IndexOf(rows, h)];
              now < row.expiresAt && row.revokedAt.Some? && now < row.revokedAt.value)
  {
    if Known(rows, h) {
      var i := IndexOf(rows, h);
      var after := AfterRotate(rows, h, newHash, jtiHash, now);
      if now < rows[i].expiresAt && rows[i].revokedAt.Some? && now < rows[i].revokedAt.value {
        assert after[i].revokedAt == Some(now);
        assert !Forward(rows, after);
      }
    }
  }

  lemma {:induction false} RunKeepsTable(rows: seq<Row>, actions: seq<Action>)
    requires WellFormed(rows)
    ensures WellFormed(Run(rows, actions))
    ensures Evolves(rows, Run(rows, actions))
    decreases |actions|
  {
    if actions != [] {
      ApplyKeepsTable(rows, actions[0]);
      RunKeepsTable(Apply(rows, actions[0]), actions[1..]);
    }
  }

  /** Clock readings never go back, starting from `t`. */
  ghost predicate Ordered(t: Time, actions: seq<Action>)
    decreases |actions|
  {
    actions == [] || (t <= actions[0].now && Ordered(actions[0].now, actions[1..]))
  }

  lemma {:induction false} RunMovesForward(rows: seq<Row>, t: Time, actions: seq<Action>)
    requires DatedBy(rows, t) && Ordered(t, actions)
    ensures Forward(rows, Run(rows, actions))
    decreases |actions|
  {
    if actions != [] {
      ApplyMovesForward(rows, actions[0]);
      RunMovesForward(Apply(rows, actions[0]), actions[0].now, actions[1..]);
    }
  }

  /** The account whose rows a call can tombstone, if any. */
  function Target(rows: seq<Row>, a: Action): Option<Guid> {
    match a
    case Mint(_, _, _, _) => None
    case Rotate(h, _, _, _) => if Known(rows, h) then Some(rows[IndexOf(rows, h)].user) else None
    case Revoke(h, _) => if Known(rows, h) then Some(rows[IndexOf(rows, h)].user) else None
    case RevokeAll(user, _) => Some(user)
    case Nothing(_) => None
  }

  /** A call that works for one account leaves every other account's rows as they were. */
  lemma {:induction false} OtherAccountsUntouched(rows: seq<Row>, a: Action, i: nat)
    requires i < |rows| && Target(rows, a) != Some(rows[i].user)
    ensures |rows| <= |Apply(rows, a)| && Apply(rows, a)[i] == rows[i]
  {
  }
}
