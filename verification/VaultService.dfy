/** Vault entries on the server. Every command works for the account that sends it. */
module VaultService {
  import opened Prelude
  import opened Crypto
  import AuthCommands

  datatype Entry = Entry(user: Guid, payload: EncryptedValue, createdAt: Time, updatedAt: Time)

  datatype Item = Item(id: Guid, payload: EncryptedValue)

  datatype VaultError = InvalidCryptoBlob | EntryExists | NotFound

  datatype Command =
    | Create(account: Guid, entry: Guid, payload: EncryptedValue, now: Time)
    | Update(account: Guid, entry: Guid, payload: EncryptedValue, now: Time)
    | Delete(account: Guid, entry: Guid)

  /** The all-zero GUID. */
  const EMPTY: Guid := "00000000-0000-0000-0000-000000000000"

  const MAX_ENTRY_BYTES: nat := 4096

  predicate IsValidPayload(v: EncryptedValue) { AuthCommands.IsValidEncryptedValue(v, 1, MAX_ENTRY_BYTES) }

  function Validate(cmd: Command): Option<VaultError> {
    var empty := cmd.account == EMPTY || cmd.entry == EMPTY;
    match cmd
    case Create(_, _, payload, _) => if empty || !IsValidPayload(payload) then Some(InvalidCryptoBlob) else None
    case Update(_, _, payload, _) =>
      if empty then Some(NotFound) else if !IsValidPayload(payload) then Some(InvalidCryptoBlob) else None
    case Delete(_, _) => if empty then Some(NotFound) else None
  }

  predicate Owns(entries: map<Guid, Entry>, account: Guid, id: Guid) { id in entries && entries[id].user == account }

  /** What a command does to the table, and the error it is refused with. */
  function Serve(entries: map<Guid, Entry>, cmd: Command): (map<Guid, Entry>, Option<VaultError>) {
    var error := Validate(cmd);
    if error.Some? then (entries, error)
    else
      match cmd
      case Create(account, id, payload, now) =>
        if id in entries then (entries, Some(EntryExists))
        else (entries[id := Entry(account, payload, now, now)], None)
      case Update(account, id, payload, now) =>
        if !Owns(entries, account, id) then (entries, Some(NotFound))
        else (entries[id := entries[id].(payload := payload, updatedAt := now)], None)
      case Delete(account, id) =>
        if !Owns(entries, account, id) then (entries, Some(NotFound)) else (entries - {id}, None)
  }

  /** A command reads and changes at most the named entry, only for its owner, and never hands an
      entry to another account; a refused one changes nothing. */
  lemma {:induction false} CommandsStayInTheirAccount(entries: map<Guid, Entry>, cmd: Command, id: Guid)
    ensures var (after, error) := Serve(entries, cmd);
            && (error.Some? ==> after == entries)
            && (id in entries && (entries[id].user != cmd.account || id != cmd.entry) ==>
                  id in after && after[id] == entries[id])
            && (id in after && id !in entries ==> cmd.Create? && id == cmd.entry && after[id].user == cmd.account)
            && (id in entries && id in after ==> after[id].user == entries[id].user)
  {
  }

  /** What the payload check lets through, in bytes. */
  lemma {:induction false} PayloadInNumbers(v: EncryptedValue)
    ensures IsValidPayload(v) <==> Len(v.nonce) == 12 && Len(v.tag) == 16 && 1 <= Len(v.cipherText) <= 4096
  {
  }

  /** A valid payload under an unused identifier is stored as one new entry, dated now; anything else is refused
      by name. */
  lemma {:induction false} CreatedExactly(entries: map<Guid, Entry>, account: Guid, id: Guid, payload: EncryptedValue,
          now: Time)
    ensures var (after, error) := Serve(entries, Create(account, id, payload, now));
            var valid := account != EMPTY && id != EMPTY && IsValidPayload(payload);
            && (error.None? <==> valid && id !in entries)
            && (error.None? ==>
                  && after.Keys == entries.Keys + {id} && after[id] == Entry(account, payload, now, now)
                  && forall x :: x in entries ==> after[x] == entries[x])
            && (error.Some? ==> after == entries && error.value == if valid then EntryExists else InvalidCryptoBlob)
  {
  }

  /** An own entry takes the new payload and date and keeps its date of creation; anything else is refused by
      name. */
  lemma {:induction false} UpdatedExactly(entries: map<Guid, Entry>, account: Guid, id: Guid, payload: EncryptedValue,
          now: Time)
    ensures var (after, error) := Serve(entries, Update(account, id, payload, now));
            var own := account != EMPTY && id != EMPTY && id in entries && entries[id].user == account;
            && (error.None? <==> own && IsValidPayload(payload))
            && (error.None? ==>
                  && after.Keys == entries.Keys
                  && after[id] == Entry(account, payload, entries[id].createdAt, now)
                  && forall x :: x in entries && x != id ==> after[x] == entries[x])
            && (error.Some? ==>
                  && after == entries
                  && (error.value == InvalidCryptoBlob <==>
                        account != EMPTY && id != EMPTY && !IsValidPayload(payload))
                  && (error.value == NotFound || error.value == InvalidCryptoBlob))
  {
  }

  /** An own entry is gone afterwards; any other is not found. */
  lemma {:induction false} DeletedExactly(entries: map<Guid, Entry>, account: Guid, id: Guid)
    ensures var (after, error) := Serve(entries, Delete(account, id));
            var own := account != EMPTY && id != EMPTY && id in entries && entries[id].user == account;
            && (error.None? <==> own)
            && (error.None? ==> after.Keys == entries.Keys - {id} && forall x :: x in after ==> after[x] == entries[x])
            && (error.Some? ==> after == entries && error.value == NotFound)
  {
  }

  // ---------------------------------------------------------------- listing

  /** All entries of the account, newest first; entries of the same date come in any order. */
  ghost predicate NewestFirst(entries: map<Guid, Entry>, account: Guid, order: seq<Guid>) {
    && (forall id :: id in order <==> Owns(entries, account, id))
    && (forall i, j :: 0 <= i < j < |order| ==> order[i] != order[j])
    && (forall i, j :: 0 <= i < j < |order| ==>
          order[i] in entries && order[j] in entries && entries[order[i]].updatedAt >= entries[order[j]].updatedAt)
  }

  function Page(order: seq<Guid>, skip: nat, take: nat): seq<Guid> {
    var rest := if skip <= |order| then order[skip..] else [];
    if take <= |rest| then rest[..take] else rest
  }

  /** A page skips `skip` entries and shows the next `take`, or as many as there are. */
  lemma {:induction false} PageShows(order: seq<Guid>, skip: nat, take: nat)
    ensures var page := Page(order, skip, take);
            && |page| == (if |order| <= skip then 0 else if |order| - skip <= take then |order| - skip else take)
            && forall i :: 0 <= i < |page| ==> page[i] == order[skip + i]
  {
  }

  lemma {:induction false} PageWithin(order: seq<Guid>, skip: nat, take: nat)
    ensures forall id :: id in Page(order, skip, take) ==> id in order
  {
  }

  function Items(entries: map<Guid, Entry>, ids: seq<Guid>): (items: seq<Item>)
    requires forall id :: id in ids ==> id in entries
    ensures |items| == |ids|
    ensures forall i :: 0 <= i < |ids| ==> ids[i] in entries && items[i] == Item(ids[i], entries[ids[i]].payload)
  {
    if ids == [] then []
    else assert ids[0] in ids; [Item(ids[0], entries[ids[0]].payload)] + Items(entries, ids[1..])
  }

  lemma {:induction false} NewestExists(entries: map<Guid, Entry>, ids: set<Guid>) returns (newest: Guid)
    requires ids != {} && ids <= entries.Keys
    ensures newest in ids && forall id :: id in ids ==> entries[id].updatedAt <= entries[newest].updatedAt
    decreases ids
  {
    newest :| newest in ids;
    if ids != {newest} {
      var rest := NewestExists(entries, ids - {newest});
      if entries[newest].updatedAt < entries[rest].updatedAt {
        newest := rest;
      }
    }
  }

  class VaultService {
    var entries: map<Guid, Entry>

    constructor ()
      ensures entries == map[]
    {
      entries := map[];
    }

    /** `drawn` is the random identifier; no result is the exception for one already in use. An identifier
        that is handed out is one for which a valid creation succeeds right away, and one that is not
        handed out is one for which any creation fails. */
    method PreCreateEntryAsync(drawn: Guid) returns (r: Option<Guid>)
      ensures r.Some? ==> r.value == drawn
      ensures forall account, payload, now :: Validate(Create(account, drawn, payload, now)).None? ==>
                (r.Some? <==> Serve(entries, Create(account, drawn, payload, now)).1.None?)
      ensures r.Some? <==> drawn !in entries
    {
      r := if drawn in entries then None else Some(drawn);
    }

    method CreateEntryAsync(account: Guid, id: Guid, payload: EncryptedValue, now: Time)
      returns (error: Option<VaultError>)
      modifies this
      ensures (entries, error) == Serve(old(entries), Create(account, id, payload, now))
    {
      error := Validate(Create(account, id, payload, now));
      if error.Some? {
        return;
      }
      if id in entries {
        return Some(EntryExists);
      }
      entries := entries[id := Entry(account, payload, now, now)];
    }

    method UpdateEntryAsync(account: Guid, id: Guid, payload: EncryptedValue, now: Time)
      returns (error: Option<VaultError>)
      modifies this
      ensures (entries, error) == Serve(old(entries), Update(account, id, payload, now))
    {
      error := Validate(Update(account, id, payload, now));
      if error.Some? {
        return;
      }
      if id !in entries || entries[id].user != account {
        return Some(NotFound);
      }
      entries := entries[id := entries[id].(payload := payload, updatedAt := now)];
    }

    method DeleteEntryAsync(account: Guid, id: Guid) returns (error: Option<VaultError>)
      modifies this
      ensures (entries, error) == Serve(old(entries), Delete(account, id))
    {
      error := Validate(Delete(account, id));
      if error.Some? {
        return;
      }
      var rows := set x | x in entries && x == id && entries[x].user == account;
      assert rows == if Owns(entries, account, id) then {id} else {};
      entries := entries - rows;
      assert rows == {} ==> entries == old(entries);
      error := if id in rows then None else Some(NotFound);
    }

    method GetEntryAsync(account: Guid, id: Guid) returns (r: Option<Item>)
      ensures r.Some? <==> account != EMPTY && id != EMPTY && Owns(entries, account, id)
      ensures r.Some? ==> r.value == Item(id, entries[id].payload)
    {
      if account == EMPTY || id == EMPTY || id !in entries || entries[id].user != account {
        return None;
      }
      r := Some(Item(id, entries[id].payload));
    }

    /** The account's entries sorted by the database, newest first, ties in any order. */
    method OrderByDescending(account: Guid) returns (sorted: seq<Guid>)
      ensures NewestFirst(entries, account, sorted)
    {
      var todo := set id | id in entries && entries[id].user == account;
      ghost var all := todo;
      sorted := [];
      while todo != {}
        invariant todo <= all
        invariant forall i :: 0 <= i < |sorted| ==> sorted[i] in all - todo
        invariant forall id :: id in all - todo ==> id in sorted
        invariant forall i, j :: 0 <= i < j < |sorted| ==> sorted[i] != sorted[j]
        invariant forall i, j :: 0 <= i < j < |sorted| ==> entries[sorted[i]].updatedAt >= entries[sorted[j]].updatedAt
        invariant forall i, id :: 0 <= i < |sorted| && id in todo ==>
                    entries[sorted[i]].updatedAt >= entries[id].updatedAt
        decreases todo
      {
        ghost var newest := NewestExists(entries, todo);
        var id :| id in todo && forall other :: other in todo ==> entries[other].updatedAt <= entries[id].updatedAt;
        sorted := sorted + [id];
        todo := todo - {id};
      }
    }

    method ListEntriesAsync(account: Guid, skip: int, take: int)
      returns (r: Result<seq<Item>, VaultError>, ghost order: seq<Guid>)
      ensures r.Err? <==> account == EMPTY || skip < 0 || take <= 0
      ensures r.Err? ==> r.error == InvalidCryptoBlob
      ensures r.Ok? ==> NewestFirst(entries, account, order)
                        && (forall id :: id in Page(order, skip, take) ==> id in entries)
                        && r.value == Items(entries, Page(order, skip, take))
    {
      if account == EMPTY || skip < 0 || take <= 0 {
        return Err(InvalidCryptoBlob), [];
      }
      var sorted := OrderByDescending(account);
      order := sorted;
      PageWithin(sorted, skip, take);
      r := Ok(Items(entries, Page(sorted, skip, take)));
    }
  }
}
