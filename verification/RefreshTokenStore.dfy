/** The store over the token table. Each method is one atomic save. */
module RefreshTokenStore {
  import opened Prelude
  import opened TokenTable
  import opened RefreshTokenText

  datatype Issue = Issue(token: string, expiresAt: Time)

  datatype RotationResult = RotationResult(
    status: Status, user: Option<Guid>, token: Option<string>, expiresAt: Option<Time>, reason: Option<Reason>)

  /** What rotating a presented token does to the table. A token is known by the digest its text
      decodes to; a text that does not decode reaches no row. */
  function RotateAction(token: Option<Digest>, raw: seq<byte>, jtiHash: Digest, now: Time): Action {
    match token
    case None => Nothing(now)
    case Some(h) => Rotate(h, Sha256(raw), jtiHash, now)
  }

  function RevokeAction(token: Option<Digest>, now: Time): Action {
    match token
    case None => Nothing(now)
    case Some(h) => Revoke(h, now)
  }

  function OwnerOf(rows: seq<Row>, token: Option<Digest>): Option<Guid> {
    match token
    case None => None
    case Some(h) => if Known(rows, h) then Some(rows[IndexOf(rows, h)].user) else None
  }

  function Rotation(rows: seq<Row>, token: Option<Digest>, raw: seq<byte>, now: Time): RotationResult {
    match token
    case None => RotationResult(Invalid, None, None, None, None)
    case Some(h) =>
      var i := IndexOf(rows, h);
      match RotateStatus(rows, h, Sha256(raw), now)
      case Rotated => RotationResult(Rotated, Some(rows[i].user), Some(TokenText(raw)), Some(now + REFRESH_TTL), None)
      case RecentlyRevoked => RotationResult(RecentlyRevoked, Some(rows[i].user), None, None, rows[i].reason)
      case Revoked => RotationResult(Revoked, Some(rows[i].user), None, None, rows[i].reason)
      case Threw => RotationResult(Threw, None, None, None, None)
      case Invalid => RotationResult(Invalid, None, None, None, None)
  }

  /** The row a query returns: the one the request already holds, else the stored one. */
  function Read(rows: seq<Row>, tracked: map<Digest, Row>, token: Option<Digest>): Option<Row> {
    if token.None? || !Known(rows, token.value) then None
    else if token.value in tracked then Some(tracked[token.value])
    else Some(rows[IndexOf(rows, token.value)])
  }

  function SeenRows(rows: seq<Row>, seen: Option<Row>, raw: seq<byte>, jtiHash: Digest, now: Time): seq<Row> {
    if seen.None? then rows else AfterSeen(rows, seen.value, Sha256(raw), jtiHash, now)
  }

  function SeenRotation(rows: seq<Row>, seen: Option<Row>, raw: seq<byte>, now: Time): RotationResult {
    match seen
    case None => RotationResult(Invalid, None, None, None, None)
    case Some(row) =>
      match SeenStatus(rows, row, Sha256(raw), now)
      case Rotated => RotationResult(Rotated, Some(row.user), Some(TokenText(raw)), Some(now + REFRESH_TTL), None)
      case RecentlyRevoked => RotationResult(RecentlyRevoked, Some(row.user), None, None, row.reason)
      case Revoked => RotationResult(Revoked, Some(row.user), None, None, row.reason)
      case Threw => RotationResult(Threw, None, None, None, None)
      case Invalid => RotationResult(Invalid, None, None, None, None)
  }

  function RevokedRows(rows: seq<Row>, seen: Option<Row>, now: Time): seq<Row> {
    if seen.None? || !Known(rows, seen.value.tokenHash) then rows
    else
      var i := IndexOf(rows, seen.value.tokenHash);
      if Live(rows[i]) then rows[i := Written(rows[i], seen.value, Bury(seen.value, Security, now))] else rows
  }

  /** A request that comes fresh to the row, or read it just before, rotates and revokes what is stored. */
  lemma {:induction false} CurrentReadRotates(rows: seq<Row>, token: Option<Digest>, raw: seq<byte>, jtiHash: Digest,
          now: Time)
    ensures var seen := Read(rows, map[], token);
            && SeenRows(rows, seen, raw, jtiHash, now) == Apply(rows, RotateAction(token, raw, jtiHash, now))
            && SeenRotation(rows, seen, raw, now) == Rotation(rows, token, raw, now)
            && RevokedRows(rows, seen, now) == Apply(rows, RevokeAction(token, now))
  {
    if token.Some? && Known(rows, token.value) {
      CurrentRowRotates(rows, token.value, Sha256(raw), jtiHash, now);
    }
  }

  class RefreshTokenStore {
    /** The stored table. */
    var rows: seq<Row>
    /** The rows the current request has read, with the values it read. */
    var tracked: map<Digest, Row>

    ghost predicate Valid()
      reads this
    {
      forall h :: h in tracked ==> tracked[h].tokenHash == h
    }

    constructor ()
      ensures rows == [] && tracked == map[] && Valid()
    {
      rows, tracked := [], map[];
    }

    /** Every request works with a context of its own. */
    method BeginRequest()
      modifies this`tracked
      ensures tracked == map[] && Valid()
    {
      tracked := map[];
    }

    /** The one row with this hash. A row the request already holds is returned as it is held. */
    method SingleOrDefault(hash: Digest) returns (row: Option<Row>)
      requires Valid()
      modifies this`tracked
      ensures Valid() && row == Read(rows, old(tracked), Some(hash))
      ensures tracked == if row.Some? then old(tracked)[hash := row.value] else old(tracked)
      ensures row.Some? ==> row.value.tokenHash == hash
    {
      var i := IndexOf(rows, hash);
      if i == |rows| {
        return None;
      }
      if hash !in tracked {
        tracked := tracked[hash := rows[i]];
      }
      row := Some(tracked[hash]);
      assert hash in old(tracked) ==> old(tracked)[hash := old(tracked)[hash]] == old(tracked);
    }

    /** Stores a changed row and tracks it with its new values. */
    method Update(read: Row, changed: Row)
      requires Valid() && Known(rows, read.tokenHash) && changed.tokenHash == read.tokenHash
      modifies this
      ensures Valid() && |rows| == |old(rows)|
      ensures rows == old(rows)[IndexOf(old(rows), read.tokenHash) :=
                        Written(old(rows)[IndexOf(old(rows), read.tokenHash)], read, changed)]
    {
      var i := IndexOf(rows, read.tokenHash);
      rows := rows[i := Written(rows[i], read, changed)];
      tracked := tracked[read.tokenHash := changed];
    }

    /** `raw` is the random generator's output; no result means the unique index refused the save. */
    method MintAsync(user: Guid, jtiHash: Digest, now: Time, raw: seq<byte>) returns (r: Option<Issue>)
      requires Valid()
      modifies this
      ensures Valid()
      ensures rows == Apply(old(rows), Mint(user, Sha256(raw), jtiHash, now))
      ensures r == if Known(old(rows), Sha256(raw)) then None else Some(Issue(TokenText(raw), now + REFRESH_TTL))
    {
      var (token, hash) := MintRefreshToken(raw);
      var expires := now + REFRESH_TTL;
      if Known(rows, hash) {
        return None;
      }
      var row := Row(user, hash, jtiHash, now, expires, None, None);
      rows, tracked := rows + [row], tracked[hash := row];
      r := Some(Issue(token, expires));
    }

    method RotateAsync(text: string, jtiHash: Digest, now: Time, raw: seq<byte>) returns (r: RotationResult)
      requires Valid()
      modifies this
      ensures Valid()
      ensures var seen := Read(old(rows), old(tracked), TryHashRefreshToken(text));
              rows == SeenRows(old(rows), seen, raw, jtiHash, now) && r == SeenRotation(old(rows), seen, raw, now)
    {
      var hash := TryHashRefreshToken(text);
      if hash.None? {
        return RotationResult(Invalid, None, None, None, None);
      }
      r := RotateHash(hash.value, jtiHash, now, raw);
    }

    /** The part of a rotation that follows once the text has been hashed. */
    method RotateHash(hash: Digest, jtiHash: Digest, now: Time, raw: seq<byte>) returns (r: RotationResult)
      requires Valid()
      modifies this
      ensures Valid()
      ensures var seen := Read(old(rows), old(tracked), Some(hash));
              rows == SeenRows(old(rows), seen, raw, jtiHash, now) && r == SeenRotation(old(rows), seen, raw, now)
    {
      var invalid := RotationResult(Invalid, None, None, None, None);
      var tokenRow := SingleOrDefault(hash);
      if tokenRow.None? {
        return invalid;
      }
      var row := tokenRow.value;
      if row.expiresAt <= now {
        return invalid;
      }
      if row.revokedAt.Some? {
        var sinceRevocation := now - row.revokedAt.value;
        if sinceRevocation < GRACE {
          Update(row, row.(revokedAt := Some(now)));
          return RotationResult(RecentlyRevoked, Some(row.user), None, None, row.reason);
        }
        return RotationResult(Revoked, Some(row.user), None, None, row.reason);
      }
      var (newToken, newHash) := MintRefreshToken(raw);
      var newExpires := now + REFRESH_TTL;
      if Known(rows, newHash) {
        return RotationResult(Threw, None, None, None, None);
      }
      Update(row, row.(revokedAt := Some(now), reason := Some(Regular)));
      var newRow := Row(row.user, newHash, jtiHash, now, newExpires, None, None);
      rows, tracked := rows + [newRow], tracked[newHash := newRow];
      r := RotationResult(Rotated, Some(row.user), Some(newToken), Some(newExpires), None);
    }

    method RevokeAsync(text: string, now: Time)
      requires Valid()
      modifies this
      ensures Valid()
      ensures rows == RevokedRows(old(rows), Read(old(rows), old(tracked), TryHashRefreshToken(text)), now)
    {
      var hash := TryHashRefreshToken(text);
      if hash.None? {
        return;
      }
      var i := IndexOf(rows, hash.value);
      if i < |rows| && rows[i].revokedAt.None? {
        var row := SingleOrDefault(hash.value);
        Update(row.value, row.value.(revokedAt := Some(now), reason := Some(Security)));
      }
    }

    /** The bulk update works on the stored rows, past anything the request holds. */
    method RevokeAllAsync(account: Guid, now: Time)
      modifies this`rows
      ensures rows == Apply(old(rows), RevokeAll(account, now))
    {
      rows := seq(|rows|, i requires 0 <= i < |rows| reads this =>
        if rows[i].user == account && rows[i].revokedAt.None?
        then rows[i].(revokedAt := Some(now), reason := Some(Security)) else rows[i]);
    }

    /** The lookup leaves its row in the request's context. */
    method GetUserIdByTokenAsync(text: string) returns (user: Option<Guid>)
      requires Valid()
      modifies this`tracked
      ensures var seen := Read(rows, old(tracked), TryHashRefreshToken(text));
              && (user.Some? <==> seen.Some?) && (seen.Some? ==> user == Some(seen.value.user))
              && tracked == if seen.Some? then old(tracked)[seen.value.tokenHash := seen.value] else old(tracked)
      ensures Valid() && (old(tracked) == map[] ==> user == OwnerOf(rows, TryHashRefreshToken(text)))
    {
      var hash := TryHashRefreshToken(text);
      if hash.None? {
        return None;
      }
      var row := SingleOrDefault(hash.value);
      user := if row.Some? then Some(row.value.user) else None;
    }
  }

  /** A minted token's text selects its own row, for its own account, in every later table. */
  lemma {:induction false} MintedTokenFindsItsRow(rows: seq<Row>, user: Guid, raw: seq<byte>, jtiHash: Digest,
          now: Time, later: seq<Action>)
    requires WellFormed(rows) && |raw| == RAW_LEN && !Known(rows, Sha256(raw))
    ensures var after := Run(Apply(rows, Mint(user, Sha256(raw), jtiHash, now)), later);
            && |rows| < |after|
            && TryHashRefreshToken(TokenText(raw)) == Some(Sha256(raw))
            && IndexOf(after, Sha256(raw)) == |rows|
            && OwnerOf(after, TryHashRefreshToken(TokenText(raw))) == Some(user)
            && after[|rows|].jtiHash == jtiHash
  {
    var minted := Apply(rows, Mint(user, Sha256(raw), jtiHash, now));
    ApplyKeepsTable(rows, Mint(user, Sha256(raw), jtiHash, now));
    RunKeepsTable(minted, later);
    MintedTokenHashesBack(raw);
    var after := Run(minted, later);
    assert after[|rows|].tokenHash == minted[|rows|].tokenHash == Sha256(raw);
    IndexIsUnique(after, |rows|);
  }
}
