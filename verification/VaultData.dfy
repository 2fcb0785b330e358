/** The plaintext cache of the signed-in account's vault, beside the rows it mirrors. */
module VaultData {
  import opened Prelude
  import opened Crypto
  import Worker = CryptoWorker
  import Server = VaultService

  /** `content` is the JSON text of an entry's fields. */
  datatype VaultRecord = VaultRecord(id: Guid, content: string)

  /** The account the requests are signed in as, the one the client has noted, and the worker's key. */
  datatype Context = Context(session: Guid, accountId: Option<Guid>, key: Option<Blob>)

  datatype View = View(entries: map<Guid, Server.Entry>, records: seq<VaultRecord>)

  const TAKE: nat := 200

  // ---------------------------------------------------------------- reading a row

  function OpenEntry(key: Blob, account: Guid, id: Guid, payload: EncryptedValue): Option<string> {
    match Open(key, VaultEntry(account, id), payload)
    case Some(Phrase(content)) => Some(content)
    case _ => None
  }

  function SealEntry(key: Blob, account: Guid, id: Guid, content: string, nonce: nat): EncryptedValue {
    Seal(key, Random(nonce, NONCE_LEN), VaultEntry(account, id), Phrase(content))
  }

  /** A payload opens only as the entry of the account it was sealed for. */
  lemma {:induction false} PayloadIsBoundToItsEntry(key: Blob, account: Guid, id: Guid, content: string, nonce: nat,
          other: Guid, place: Guid)
    ensures var payload := SealEntry(key, account, id, content, nonce);
            && (OpenEntry(key, other, place, payload).Some? <==> other == account && place == id)
            && OpenEntry(key, account, id, payload) == Some(content)
  {
  }

  function ReadItem(c: Context, item: Server.Item): Option<string> {
    if c.accountId.Some? && c.key.Some? then OpenEntry(c.key.value, c.accountId.value, item.id, item.payload) else None
  }

  /** What the row `id` says to the signed-in account, if it is its own and decrypts. */
  function Readable(c: Context, entries: map<Guid, Server.Entry>, id: Guid): Option<string> {
    if Server.Owns(entries, c.session, id) then ReadItem(c, Server.Item(id, entries[id].payload)) else None
  }

  // ---------------------------------------------------------------- the cache as a map

  function Lookup(records: seq<VaultRecord>, id: Guid): Option<string> {
    if records == [] then None
    else if records[0].id == id then Some(records[0].content)
    else Lookup(records[1..], id)
  }

  ghost predicate Distinct(records: seq<VaultRecord>) {
    forall i, j :: 0 <= i < j < |records| ==> records[i].id != records[j].id
  }

  /** As a map from id to plain text, the cache is the decryption of the account's rows. */
  ghost predicate Agrees(c: Context, v: View) {
    Distinct(v.records) && forall id :: Lookup(v.records, id) == Readable(c, v.entries, id)
  }

  lemma {:induction false} DistinctBehind(first: VaultRecord, rest: seq<VaultRecord>)
    requires Distinct(rest) && forall r :: r in rest ==> r.id != first.id
    ensures Distinct([first] + rest)
  {
  }

  lemma {:induction false} LookupFinds(records: seq<VaultRecord>, id: Guid)
    ensures Lookup(records, id).None? <==> forall i :: 0 <= i < |records| ==> records[i].id != id
    decreases |records|
  {
    if records != [] {
      LookupFinds(records[1..], id);
      if records[0].id != id {
        assert forall i :: 0 < i < |records| ==> records[i] == records[1..][i - 1];
        assert forall i :: 0 <= i < |records| - 1 ==> records[1..][i] == records[i + 1];
      }
    }
  }

  // ---------------------------------------------------------------- the four operations

  /** The rows of a page that decrypt, in the page's order. */
  function Decrypted(c: Context, items: seq<Server.Item>): seq<VaultRecord> {
    if items == [] then []
    else
      (match ReadItem(c, items[0]) case None => [] case Some(content) => [VaultRecord(items[0].id, content)])
      + Decrypted(c, items[1..])
  }

  function Replaced(records: seq<VaultRecord>, id: Guid, content: string): (r: seq<VaultRecord>)
    ensures |r| == |records|
    ensures forall i :: 0 <= i < |r| ==> r[i].id == records[i].id
  {
    if records == [] then []
    else [if records[0].id == id then VaultRecord(id, content) else records[0]] + Replaced(records[1..], id, content)
  }

  function Without(records: seq<VaultRecord>, id: Guid): seq<VaultRecord> {
    if records == [] then []
    else (if records[0].id == id then [] else [records[0]]) + Without(records[1..], id)
  }

  /** Which of a request's messages get through; a request that does not leaves the server alone. */
  datatype Op =
    | Load(order: seq<Guid>, arrives: bool)
    | Add(id: Guid, content: string, nonce: nat, preCreated: bool, arrives: bool, now: Time)
    | Edit(id: Guid, content: string, nonce: nat, arrives: bool, now: Time)
    | Remove(id: Guid, arrives: bool)
    | Elsewhere(cmd: Server.Command)

  predicate CanSeal(c: Context) { c.accountId.Some? && c.key.Some? }

  function AfterAdd(c: Context, v: View, op: Op): View
    requires op.Add?
  {
    if !op.preCreated || op.id in v.entries || !CanSeal(c) || !op.arrives then v
    else
      var payload := SealEntry(c.key.value, c.accountId.value, op.id, op.content, op.nonce);
      var (entries, error) := Server.Serve(v.entries, Server.Create(c.session, op.id, payload, op.now));
      View(entries, if error.Some? then v.records else [VaultRecord(op.id, op.content)] + v.records)
  }

  function AfterEdit(c: Context, v: View, op: Op): (View, bool)
    requires op.Edit?
  {
    if !CanSeal(c) || !op.arrives then (v, false)
    else
      var payload := SealEntry(c.key.value, c.accountId.value, op.id, op.content, op.nonce);
      var (entries, error) := Server.Serve(v.entries, Server.Update(c.session, op.id, payload, op.now));
      (View(entries, if error.Some? then v.records else Replaced(v.records, op.id, op.content)), error.None?)
  }

  function AfterRemove(c: Context, v: View, op: Op): View
    requires op.Remove?
  {
    if !op.arrives then v
    else
      var (entries, error) := Server.Serve(v.entries, Server.Delete(c.session, op.id));
      View(entries, if error.Some? then v.records else Without(v.records, op.id))
  }

  function AfterLoad(c: Context, v: View, order: seq<Guid>): View
    requires Server.NewestFirst(v.entries, c.session, order)
  {
    Server.PageWithin(order, 0, TAKE);
    v.(records := Decrypted(c, Server.Items(v.entries, Server.Page(order, 0, TAKE))))
  }

  ghost function Step(c: Context, v: View, op: Op): View {
    match op
    case Load(order, arrives) =>
      if arrives && c.session != Server.EMPTY && Server.NewestFirst(v.entries, c.session, order)
      then AfterLoad(c, v, order) else v
    case Add(_, _, _, _, _, _) => AfterAdd(c, v, op)
    case Edit(_, _, _, _, _) => AfterEdit(c, v, op).0
    case Remove(_, _) => AfterRemove(c, v, op)
    case Elsewhere(cmd) => v.(entries := Server.Serve(v.entries, cmd).0)
  }

  // ---------------------------------------------------------------- the service

  class VaultDataService {
    const api: Server.VaultService
    const worker: Worker.CryptoWorker
    const session: Guid
    var accountId: Option<Guid>
    var records: seq<VaultRecord>

    constructor (api: Server.VaultService, worker: Worker.CryptoWorker, session: Guid, accountId: Option<Guid>)
      ensures this.api == api && this.worker == worker && this.session == session && this.accountId == accountId
      ensures records == []
    {
      this.api, this.worker, this.session, this.accountId := api, worker, session, accountId;
      records := [];
    }

    function Ctx(): Context
      reads this, worker
    {
      Context(session, accountId, worker.vaultKey)
    }

    function Shown(): View
      reads this, api
    {
      View(api.entries, records)
    }

    method LoadRecords(arrives: bool) returns (ghost order: seq<Guid>)
      modifies this`records
      ensures arrives && session != Server.EMPTY ==> Server.NewestFirst(api.entries, session, order)
      ensures Shown() == Step(Ctx(), old(Shown()), Load(order, arrives))
    {
      order := [];
      if !arrives {
        return;
      }
      var listed;
      listed, order := api.ListEntriesAsync(session, 0, TAKE);
      if listed.Err? {
        return;
      }
      records := DecryptAll(listed.value);
    }

    /** Entries that do not decrypt are skipped. */
    method DecryptAll(encryptedEntries: seq<Server.Item>) returns (decryptedRecords: seq<VaultRecord>)
      ensures decryptedRecords == Decrypted(Ctx(), encryptedEntries)
    {
      decryptedRecords := [];
      ghost var c := Ctx();
      for i := 0 to |encryptedEntries|
        invariant decryptedRecords + Decrypted(c, encryptedEntries[i..]) == Decrypted(c, encryptedEntries)
      {
        var entry := encryptedEntries[i];
        assert encryptedEntries[i..][1..] == encryptedEntries[i + 1..];
        if accountId.Some? {
          var data := DecryptEntry(entry.payload, accountId.value, entry.id);
          if data.Some? {
            decryptedRecords := decryptedRecords + [VaultRecord(entry.id, data.value)];
          }
        }
      }
    }

    method EncryptEntry(content: string, account: Guid, id: Guid, nonce: nat) returns (r: Option<EncryptedValue>)
      ensures r == if worker.vaultKey.None? then None
                   else Some(SealEntry(worker.vaultKey.value, account, id, content, nonce))
    {
      r := worker.HandleEncryptEntry(Phrase(content), VaultEntry(account, id), nonce);
      if r.Some? {
        OpenInvertsSeal(worker.vaultKey.value, VaultEntry(account, id), r.value, Phrase(content));
      }
    }

    method DecryptEntry(payload: EncryptedValue, account: Guid, id: Guid) returns (r: Option<string>)
      ensures r == if worker.vaultKey.None? then None else OpenEntry(worker.vaultKey.value, account, id, payload)
    {
      var plain := worker.HandleDecryptEntry(payload, VaultEntry(account, id));
      r := if plain.Some? && plain.value.Phrase? then Some(plain.value.text) else None;
    }

    method AddRecord(drawn: Guid, content: string, nonce: nat, preCreated: bool, arrives: bool, now: Time)
      returns (ok: bool)
      modifies this`records, api
      ensures Shown() == Step(Ctx(), old(Shown()), Add(drawn, content, nonce, preCreated, arrives, now))
      ensures if ok then records == [VaultRecord(drawn, content)] + old(records) else Shown() == old(Shown())
    {
      if !preCreated {
        return false;
      }
      var entryId := api.PreCreateEntryAsync(drawn);
      if entryId.None? || accountId.None? {
        return false;
      }
      var encrypted := EncryptEntry(content, accountId.value, entryId.value, nonce);
      if encrypted.None? || !arrives {
        return false;
      }
      var error := api.CreateEntryAsync(session, entryId.value, encrypted.value, now);
      if error.Some? {
        return false;
      }
      records := [VaultRecord(entryId.value, content)] + records;
      ok := true;
    }

    method UpdateRecord(id: Guid, content: string, nonce: nat, arrives: bool, now: Time) returns (ok: bool)
      modifies this`records, api
      ensures (Shown(), ok) == AfterEdit(Ctx(), old(Shown()), Edit(id, content, nonce, arrives, now))
    {
      if accountId.None? {
        return false;
      }
      var encrypted := EncryptEntry(content, accountId.value, id, nonce);
      if encrypted.None? || !arrives {
        return false;
      }
      var error := api.UpdateEntryAsync(session, id, encrypted.value, now);
      if error.Some? {
        return false;
      }
      records := Replaced(records, id, content);
      ok := true;
    }

    /** The entry leaves the cache first and comes back when the request fails. */
    method DeleteRecord(id: Guid, arrives: bool) returns (ok: bool)
      modifies this`records, api
      ensures Shown() == Step(Ctx(), old(Shown()), Remove(id, arrives))
      ensures if ok then id in old(api.entries) && id !in api.entries else Shown() == old(Shown())
    {
      var previous := records;
      records := Without(records, id);
      if !arrives {
        records := previous;
        return false;
      }
      var error := api.DeleteEntryAsync(session, id);
      if error.Some? {
        records := previous;
        return false;
      }
      ok := true;
    }
  }

  // ---------------------------------------------------------------- loading

  lemma {:induction false} LookupBehind(front: seq<VaultRecord>, back: seq<VaultRecord>, id: Guid)
    ensures Lookup(front + back, id) == if Lookup(front, id).Some? then Lookup(front, id) else Lookup(back, id)
    decreases |front|
  {
    if front == [] {
      assert front + back == back;
    } else {
      assert (front + back)[1..] == front[1..] + back;
      LookupBehind(front[1..], back, id);
    }
  }

  ghost predicate OwnedIds(c: Context, entries: map<Guid, Server.Entry>, ids: seq<Guid>) {
    && (forall id :: id in ids ==> Server.Owns(entries, c.session, id))
    && (forall i, j :: 0 <= i < j < |ids| ==> ids[i] != ids[j])
  }

  lemma {:induction false} DecryptedIds(c: Context, items: seq<Server.Item>)
    requires forall i, j :: 0 <= i < j < |items| ==> items[i].id != items[j].id
    ensures Distinct(Decrypted(c, items))
    ensures forall r :: r in Decrypted(c, items) ==> exists i :: 0 <= i < |items| && items[i].id == r.id
    decreases |items|
  {
    if items != [] {
      var rest := Decrypted(c, items[1..]);
      DecryptedIds(c, items[1..]);
      forall r | r in rest ensures r.id != items[0].id && exists i :: 0 <= i < |items| && items[i].id == r.id {
        var k :| 0 <= k < |items[1..]| && items[1..][k].id == r.id;
        assert items[k + 1] == items[1..][k];
      }
      if ReadItem(c, items[0]).None? {
        assert Decrypted(c, items) == rest;
      } else {
        var first := VaultRecord(items[0].id, ReadItem(c, items[0]).value);
        assert Decrypted(c, items) == [first] + rest;
        DistinctBehind(first, rest);
      }
    }
  }

  lemma {:induction false} DecryptedLookup(c: Context, entries: map<Guid, Server.Entry>, ids: seq<Guid>, id: Guid)
    requires OwnedIds(c, entries, ids)
    ensures Lookup(Decrypted(c, Server.Items(entries, ids)), id) == if id in ids then Readable(c, entries, id) else None
    decreases |ids|
  {
    if ids != [] {
      var items, rest := Server.Items(entries, ids), ids[1..];
      assert forall i :: 0 <= i < |rest| ==> rest[i] == ids[i + 1];
      DecryptedLookup(c, entries, rest, id);
      assert items[0].id == ids[0] && items[1..] == Server.Items(entries, rest);
      var front := match ReadItem(c, items[0])
        case None => []
        case Some(content) => [VaultRecord(items[0].id, content)];
      LookupBehind(front, Decrypted(c, items[1..]), id);
      assert id in ids <==> id == ids[0] || id in rest;
    }
  }

  lemma {:induction false} PageIsOwned(c: Context, v: View, order: seq<Guid>)
    requires Server.NewestFirst(v.entries, c.session, order)
    ensures OwnedIds(c, v.entries, Server.Page(order, 0, TAKE))
    ensures |order| <= TAKE ==> Server.Page(order, 0, TAKE) == order
  {
    Server.PageWithin(order, 0, TAKE);
  }

  lemma {:induction false} RestIsBeyondThePage(c: Context, v: View, order: seq<Guid>)
    requires Server.NewestFirst(v.entries, c.session, order)
    ensures (forall id :: id in order && id !in Server.Page(order, 0, TAKE) ==> Readable(c, v.entries, id).None?) <==>
            (forall i :: 200 <= i < |order| ==> Readable(c, v.entries, order[i]).None?)
  {
    var page := Server.Page(order, 0, TAKE);
    Server.PageShows(order, 0, TAKE);
    forall i | 0 <= i < |order| ensures order[i] in page <==> i < 200 {
      if i < 200 {
        assert page[i] == order[i];
      }
    }
  }

  /** After a load exactly the readable ones of the 200 newest own entries are shown. */
  lemma {:induction false} LoadShowsTheNewest(c: Context, v: View, order: seq<Guid>, i: nat)
    requires Server.NewestFirst(v.entries, c.session, order) && i < |order|
    ensures Lookup(AfterLoad(c, v, order).records, order[i])
            == if i < 200 then Readable(c, v.entries, order[i]) else None
  {
    var page := Server.Page(order, 0, TAKE);
    PageIsOwned(c, v, order);
    Server.PageShows(order, 0, TAKE);
    DecryptedLookup(c, v.entries, page, order[i]);
    if i < 200 {
      assert page[i] == order[i];
    }
  }

  /** They are shown newest first. */
  lemma {:induction false} LoadIsInOrder(c: Context, v: View, order: seq<Guid>, i: nat, j: nat)
    requires Server.NewestFirst(v.entries, c.session, order) && i < j < |AfterLoad(c, v, order).records|
    ensures var records := AfterLoad(c, v, order).records;
            && records[i].id in v.entries && records[j].id in v.entries
            && v.entries[records[i].id].updatedAt >= v.entries[records[j].id].updatedAt
  {
    var page := Server.Page(order, 0, TAKE);
    Server.PageWithin(order, 0, TAKE);
    var x, y := DecryptedPlaces(c, Server.Items(v.entries, page), i, j);
    Server.PageShows(order, 0, TAKE);
  }

  /** Records keep the order of the items they come from. */
  lemma {:induction false} DecryptedPlaces(c: Context, items: seq<Server.Item>, i: nat, j: nat) returns (x: nat, y: nat)
    requires i < j < |Decrypted(c, items)|
    ensures x < y < |items| && items[x].id == Decrypted(c, items)[i].id && items[y].id == Decrypted(c, items)[j].id
    decreases |items|
  {
    var rest := Decrypted(c, items[1..]);
    var front := match ReadItem(c, items[0])
      case None => []
      case Some(content) => [VaultRecord(items[0].id, content)];
    assert Decrypted(c, items) == front + rest;
    var n := |front|;
    if i < n {
      y := DecryptedPlace(c, items[1..], j - n);
      x, y := 0, y + 1;
    } else {
      x, y := DecryptedPlaces(c, items[1..], i - n, j - n);
      x, y := x + 1, y + 1;
    }
  }

  lemma {:induction false} DecryptedPlace(c: Context, items: seq<Server.Item>, j: nat) returns (y: nat)
    requires j < |Decrypted(c, items)|
    ensures y < |items| && items[y].id == Decrypted(c, items)[j].id
    decreases |items|
  {
    if ReadItem(c, items[0]).Some? && j == 0 {
      y := 0;
    } else {
      y := DecryptedPlace(c, items[1..], if ReadItem(c, items[0]).Some? then j - 1 else j);
      y := y + 1;
    }
  }

  /** A load makes the cache agree exactly when every own entry beyond the first page is unreadable
      anyway, so always when there are at most 200. */
  lemma {:induction false} LoadAgreesExactlyWhenTheRestIsUnreadable(c: Context, v: View, order: seq<Guid>)
    requires Server.NewestFirst(v.entries, c.session, order)
    ensures Agrees(c, AfterLoad(c, v, order)) <==>
            forall i :: 200 <= i < |order| ==> Readable(c, v.entries, order[i]).None?
    ensures |order| <= TAKE ==> Agrees(c, AfterLoad(c, v, order))
  {
    RestIsBeyondThePage(c, v, order);
    var page, after := Server.Page(order, 0, TAKE), AfterLoad(c, v, order);
    PageIsOwned(c, v, order);
    DecryptedIds(c, Server.Items(v.entries, page));
    forall id ensures Lookup(after.records, id) == if id in page then Readable(c, v.entries, id) else None {
      DecryptedLookup(c, v.entries, page, id);
    }
    if forall id :: id in order && id !in page ==> Readable(c, v.entries, id).None? {
      forall id ensures Lookup(after.records, id) == Readable(c, v.entries, id) {
      }
    }
  }

  function HexDigit(n: int): char
    requires 0 <= n < 16
  {
    if n < 10 then '0' + n as char else 'a' + (n - 10) as char
  }

  /** A GUID that ends in the two hexadecimal digits of `n`. */
  function NumberedId(n: int): Guid
    requires 0 <= n < 256
  {
    Server.EMPTY[..34] + [HexDigit(n / 16), HexDigit(n % 16)]
  }

  lemma {:induction false} NumberedIdsDiffer(m: int, n: int)
    requires 0 <= m < 256 && 0 <= n < 256 && NumberedId(m) == NumberedId(n)
    ensures m == n
  {
    assert NumberedId(m)[34] == HexDigit(m / 16) && NumberedId(n)[34] == HexDigit(n / 16);
    assert NumberedId(m)[35] == HexDigit(m % 16) && NumberedId(n)[35] == HexDigit(n % 16);
  }

  function Ids(n: nat): (ids: seq<Guid>)
    requires n <= 256
    ensures |ids| == n && forall i :: 0 <= i < n ==> ids[i] == NumberedId(i)
  {
    seq(n, i requires 0 <= i < n => NumberedId(i))
  }

  /** `n` readable rows of one account, all of one date. */
  function ManyRows(account: Guid, key: Blob, content: string, n: nat, now: Time): map<Guid, Server.Entry>
    requires n <= 256
  {
    map id | id in Ids(n) :: Server.Entry(account, SealEntry(key, account, id, content, 0), now, now)
  }

  lemma {:induction false} ManyRowsInOrder(account: Guid, key: Blob, content: string, n: nat, now: Time)
    requires n <= 256
    ensures Server.NewestFirst(ManyRows(account, key, content, n, now), account, Ids(n))
  {
    forall i, j | 0 <= i < j < n ensures Ids(n)[i] != Ids(n)[j] {
      if Ids(n)[i] == Ids(n)[j] {
        NumberedIdsDiffer(i, j);
      }
    }
  }

  lemma {:induction false} ManyRowsReadable(account: Guid, key: Blob, content: string, n: nat, now: Time, id: Guid)
    requires n <= 256 && id in ManyRows(account, key, content, n, now)
    ensures Readable(Context(account, Some(account), Some(key)), ManyRows(account, key, content, n, now), id)
            == Some(content)
  {
    PayloadIsBoundToItsEntry(key, account, id, content, 0, account, id);
  }

  lemma {:induction false} OneIdTooMany()
    ensures NumberedId(200) in Ids(201) && NumberedId(200) !in Server.Page(Ids(201), 0, TAKE)
  {
    assert Ids(201)[200] == NumberedId(200);
    var page := Server.Page(Ids(201), 0, TAKE);
    assert page == Ids(201)[..200];
    forall i | 0 <= i < 200 ensures page[i] != NumberedId(200) {
      if page[i] == NumberedId(200) {
        NumberedIdsDiffer(i, 200);
      }
    }
  }

  /** A vault of 201 readable rows: a load leaves one of them out. */
  lemma {:induction false} TheRowAfterTheFirstPageIsMissing(account: Guid, key: Blob, content: string, now: Time)
    requires account != Server.EMPTY
    ensures var c := Context(account, Some(account), Some(key));
            var v := View(ManyRows(account, key, content, 201, now), []);
            var loaded := Step(c, v, Load(Ids(201), true));
            && Server.NewestFirst(v.entries, account, Ids(201))
            && Readable(c, v.entries, NumberedId(200)) == Some(content)
            && Lookup(loaded.records, NumberedId(200)).None? && !Agrees(c, loaded)
  {
    var c, order := Context(account, Some(account), Some(key)), Ids(201);
    var v := View(ManyRows(account, key, content, 201, now), []);
    OneIdTooMany();
    ManyRowsInOrder(account, key, content, 201, now);
    ManyRowsReadable(account, key, content, 201, now, NumberedId(200));
    PageIsOwned(c, v, order);
    DecryptedLookup(c, v.entries, Server.Page(order, 0, TAKE), NumberedId(200));
    LoadAgreesExactlyWhenTheRestIsUnreadable(c, v, order);
  }

  // ---------------------------------------------------------------- changing

  lemma {:induction false} AddKeepsAgreement(c: Context, v: View, op: Op)
    requires Agrees(c, v) && op.Add?
    ensures Agrees(c, AfterAdd(c, v, op))
  {
    var after := AfterAdd(c, v, op);
    if after != v && after.records != v.records {
      assert Lookup(v.records, op.id).None?;
      LookupFinds(v.records, op.id);
      assert after.records[1..] == v.records;
      forall id ensures Lookup(after.records, id) == Readable(c, after.entries, id) {
        assert Lookup(v.records, id) == Readable(c, v.entries, id);
      }
    }
  }

  lemma {:induction false} LookupReplaced(records: seq<VaultRecord>, id: Guid, content: string, x: Guid)
    ensures Lookup(Replaced(records, id, content), x) ==
            if x == id && Lookup(records, id).Some? then Some(content) else Lookup(records, x)
    decreases |records|
  {
    if records != [] {
      LookupReplaced(records[1..], id, content, x);
      assert Replaced(records, id, content)[1..] == Replaced(records[1..], id, content);
    }
  }

  /** Whether the update will reach an own entry with a payload the server takes. */
  predicate EditGoesThrough(c: Context, v: View, op: Op)
    requires op.Edit?
  {
    && CanSeal(c) && op.arrives && c.session != Server.EMPTY && op.id != Server.EMPTY
    && 1 <= |op.content| <= 4096 && Server.Owns(v.entries, c.session, op.id)
  }

  lemma {:induction false} EditSucceedsExactlyWhenItGoesThrough(c: Context, v: View, op: Op)
    requires op.Edit?
    ensures AfterEdit(c, v, op).1 <==> EditGoesThrough(c, v, op)
    ensures !EditGoesThrough(c, v, op) ==> AfterEdit(c, v, op).0 == v
  {
    if CanSeal(c) {
      var payload := SealEntry(c.key.value, c.accountId.value, op.id, op.content, op.nonce);
      assert Len(payload.cipherText) == |op.content|;
      assert Server.IsValidPayload(payload) <==> 1 <= |op.content| <= Server.MAX_ENTRY_BYTES;
    }
  }

  /** Whether an addition will be stored: it gets an identifier, keys and a request, and its size fits. */
  predicate AddGoesThrough(c: Context, v: View, op: Op)
    requires op.Add?
  {
    && op.preCreated && op.arrives && CanSeal(c) && op.id !in v.entries
    && c.session != Server.EMPTY && op.id != Server.EMPTY && 1 <= |op.content| <= 4096
  }

  /** Then it is stored for the session's account and shown first, with the content that was sealed; otherwise
      nothing changes. */
  lemma {:induction false} AddSucceedsExactlyWhenItGoesThrough(c: Context, v: View, op: Op)
    requires op.Add?
    ensures var after := AfterAdd(c, v, op);
            if AddGoesThrough(c, v, op) then
              && after.records == [VaultRecord(op.id, op.content)] + v.records
              && op.id in after.entries && after.entries[op.id].user == c.session
              && after.entries[op.id].createdAt == after.entries[op.id].updatedAt == op.now
              && Readable(c, after.entries, op.id) == Some(op.content)
              && after.entries.Keys == v.entries.Keys + {op.id}
              && forall id :: id in v.entries ==> after.entries[id] == v.entries[id]
            else after == v
  {
    if CanSeal(c) {
      var payload := SealEntry(c.key.value, c.accountId.value, op.id, op.content, op.nonce);
      assert Len(payload.cipherText) == |op.content|;
      Server.PayloadInNumbers(payload);
      Server.CreatedExactly(v.entries, c.session, op.id, payload, op.now);
      PayloadIsBoundToItsEntry(c.key.value, c.accountId.value, op.id, op.content, op.nonce, c.accountId.value, op.id);
    }
  }

  /** A deletion of an own entry that arrives takes it from the server and from what is shown; otherwise nothing
      changes. */
  lemma {:induction false} RemoveSucceedsExactly(c: Context, v: View, op: Op)
    requires op.Remove? && Distinct(v.records)
    ensures var after := AfterRemove(c, v, op);
            if op.arrives && c.session != Server.EMPTY && op.id != Server.EMPTY
               && Server.Owns(v.entries, c.session, op.id)
            then
              && after.entries.Keys == v.entries.Keys - {op.id}
              && (forall id :: id in after.entries ==> after.entries[id] == v.entries[id])
              && forall id :: Lookup(after.records, id) == if id == op.id then None else Lookup(v.records, id)
            else after == v
  {
    Server.DeletedExactly(v.entries, c.session, op.id);
    forall id ensures Lookup(Without(v.records, op.id), id) == if id == op.id then None else Lookup(v.records, id) {
      LookupWithout(v.records, op.id, id);
    }
  }

  /** An update that goes through stores the new content for the same account and shows it in the same place. */
  lemma {:induction false} EditReplaces(c: Context, v: View, op: Op, x: Guid)
    requires op.Edit? && EditGoesThrough(c, v, op)
    ensures var after := AfterEdit(c, v, op).0;
            && op.id in after.entries && after.entries.Keys == v.entries.Keys
            && after.entries[op.id].user == c.session && after.entries[op.id].updatedAt == op.now
            && after.entries[op.id].createdAt == v.entries[op.id].createdAt
            && Readable(c, after.entries, op.id) == Some(op.content)
            && (forall id :: id in v.entries && id != op.id ==> after.entries[id] == v.entries[id])
            && |after.records| == |v.records|
            && (forall i :: 0 <= i < |v.records| ==> after.records[i].id == v.records[i].id)
            && Lookup(after.records, x) ==
               if x == op.id && Lookup(v.records, x).Some? then Some(op.content) else Lookup(v.records, x)
  {
    var payload := SealEntry(c.key.value, c.accountId.value, op.id, op.content, op.nonce);
    EditSucceedsExactlyWhenItGoesThrough(c, v, op);
    Server.UpdatedExactly(v.entries, c.session, op.id, payload, op.now);
    PayloadIsBoundToItsEntry(c.key.value, c.accountId.value, op.id, op.content, op.nonce, c.accountId.value, op.id);
    LookupReplaced(v.records, op.id, op.content, x);
  }

  /** An update keeps the cache in agreement exactly when it does not go through or its entry is in the
      cache. An own row that does not decrypt is missing from the cache; updating it makes the row
      readable while the cache goes on without it. */
  lemma {:induction false} EditAgreesExactlyWhenCached(c: Context, v: View, op: Op)
    requires Agrees(c, v) && op.Edit?
    ensures Agrees(c, AfterEdit(c, v, op).0) <==> !EditGoesThrough(c, v, op) || Lookup(v.records, op.id).Some?
  {
    var (after, ok) := AfterEdit(c, v, op);
    EditSucceedsExactlyWhenItGoesThrough(c, v, op);
    if ok {
      assert Readable(c, after.entries, op.id) == Some(op.content);
      LookupReplaced(v.records, op.id, op.content, op.id);
      if Lookup(v.records, op.id).Some? {
        forall id ensures Lookup(after.records, id) == Readable(c, after.entries, id) {
          LookupReplaced(v.records, op.id, op.content, id);
          assert Lookup(v.records, id) == Readable(c, v.entries, id);
        }
      } else {
        assert Lookup(after.records, op.id) != Readable(c, after.entries, op.id);
      }
    }
  }

  /** A vault of one row, sealed for its place under the key `key`. */
  function OneRow(account: Guid, id: Guid, key: Blob, content: string, nonce: nat, now: Time): map<Guid, Server.Entry> {
    map[id := Server.Entry(account, SealEntry(key, account, id, content, nonce), now, now)]
  }

  lemma {:induction false} UnreadableRowLoadsNothing(account: Guid, id: Guid, key: Blob, other: Blob, stale: string,
          nonce: nat, now: Time)
    requires key != other && account != Server.EMPTY
    ensures var c := Context(account, Some(account), Some(key));
            var v := View(OneRow(account, id, other, stale, nonce, now), []);
            Step(c, v, Load([id], true)) == v && Agrees(c, v)
  {
    var c := Context(account, Some(account), Some(key));
    var v := View(OneRow(account, id, other, stale, nonce, now), []);
    var item := Server.Item(id, v.entries[id].payload);
    assert Server.NewestFirst(v.entries, account, [id]);
    assert Server.Page([id], 0, TAKE) == [id] && Server.Items(v.entries, [id]) == [item];
    assert Decrypted(c, [item][1..]) == [];
    LoadAgreesExactlyWhenTheRestIsUnreadable(c, v, [id]);
  }

  /** One own row, sealed under another key: the loaded cache is empty and agrees, and an update of the row
      succeeds and leaves the cache empty although the row now decrypts. */
  lemma {:induction false} UpdateOfUnreadableRowIsNotShown(account: Guid, id: Guid, key: Blob, other: Blob,
          stale: string, content: string, nonce: nat, now: Time)
    requires key != other && account != Server.EMPTY && id != Server.EMPTY
    requires 1 <= |content| <= Server.MAX_ENTRY_BYTES
    ensures var c := Context(account, Some(account), Some(key));
            var v := View(OneRow(account, id, other, stale, nonce, now), []);
            var after := Step(c, v, Edit(id, content, nonce, true, now));
            && Step(c, v, Load([id], true)) == v && Agrees(c, v)
            && after.records == [] && Readable(c, after.entries, id) == Some(content) && !Agrees(c, after)
  {
    var c := Context(account, Some(account), Some(key));
    var v := View(OneRow(account, id, other, stale, nonce, now), []);
    UnreadableRowLoadsNothing(account, id, key, other, stale, nonce, now);
    EditSucceedsExactlyWhenItGoesThrough(c, v, Edit(id, content, nonce, true, now));
    EditAgreesExactlyWhenCached(c, v, Edit(id, content, nonce, true, now));
  }

  lemma {:induction false} LookupWithout(records: seq<VaultRecord>, id: Guid, x: Guid)
    requires Distinct(records)
    ensures Lookup(Without(records, id), x) == if x == id then None else Lookup(records, x)
    decreases |records|
  {
    if records != [] {
      var rest := records[1..];
      assert forall i :: 0 <= i < |rest| ==> rest[i] == records[i + 1];
      LookupWithout(rest, id, x);
      if records[0].id == id {
        assert Without(records, id) == Without(rest, id);
      } else {
        assert Without(records, id)[1..] == Without(rest, id);
      }
    }
  }

  lemma {:induction false} WithoutWithin(records: seq<VaultRecord>, id: Guid)
    ensures forall r :: r in Without(records, id) ==> r in records
    decreases |records|
  {
    if records != [] {
      WithoutWithin(records[1..], id);
    }
  }

  lemma {:induction false} WithoutDistinct(records: seq<VaultRecord>, id: Guid)
    requires Distinct(records)
    ensures Distinct(Without(records, id))
    decreases |records|
  {
    if records != [] {
      var rest := records[1..];
      assert forall i :: 0 <= i < |rest| ==> rest[i] == records[i + 1];
      WithoutDistinct(rest, id);
      WithoutWithin(rest, id);
      if records[0].id != id {
        DistinctBehind(records[0], Without(rest, id));
      }
    }
  }

  lemma {:induction false} RemoveKeepsAgreement(c: Context, v: View, op: Op)
    requires Agrees(c, v) && op.Remove?
    ensures Agrees(c, AfterRemove(c, v, op))
  {
    var after := AfterRemove(c, v, op);
    if after != v && op.arrives && Server.Serve(v.entries, Server.Delete(c.session, op.id)).1.None? {
      forall id ensures Lookup(after.records, id) == Readable(c, after.entries, id) {
        LookupWithout(v.records, op.id, id);
        assert Lookup(v.records, id) == Readable(c, v.entries, id);
      }
      WithoutDistinct(v.records, op.id);
    }
  }

  lemma {:induction false} ElsewhereKeepsAgreement(c: Context, v: View, cmd: Server.Command)
    requires Agrees(c, v) && cmd.account != c.session
    ensures Agrees(c, v.(entries := Server.Serve(v.entries, cmd).0))
  {
    var after := v.(entries := Server.Serve(v.entries, cmd).0);
    forall id ensures Lookup(after.records, id) == Readable(c, after.entries, id) {
      Server.CommandsStayInTheirAccount(v.entries, cmd, id);
      assert Lookup(v.records, id) == Readable(c, v.entries, id);
    }
  }

  /** Loads see at most 200 entries, edits are of cached entries, and other commands come from other
      accounts. */
  ghost predicate Enabled(c: Context, v: View, op: Op) {
    match op
    case Load(order, _) => |order| <= TAKE
    case Edit(id, _, _, _, _) => Lookup(v.records, id).Some?
    case Elsewhere(cmd) => cmd.account != c.session
    case _ => true
  }

  ghost function Run(c: Context, v: View, ops: seq<Op>): View
    decreases |ops|
  {
    if ops == [] then v else Run(c, Step(c, v, ops[0]), ops[1..])
  }

  ghost predicate Usual(c: Context, v: View, ops: seq<Op>)
    decreases |ops|
  {
    ops == [] || (Enabled(c, v, ops[0]) && Usual(c, Step(c, v, ops[0]), ops[1..]))
  }

  lemma {:induction false} StepKeepsAgreement(c: Context, v: View, op: Op)
    requires Agrees(c, v) && Enabled(c, v, op)
    ensures Agrees(c, Step(c, v, op))
  {
    match op
    case Load(order, _) =>
      if Server.NewestFirst(v.entries, c.session, order) {
        LoadAgreesExactlyWhenTheRestIsUnreadable(c, v, order);
      }
    case Add(_, _, _, _, _, _) => AddKeepsAgreement(c, v, op);
    case Edit(_, _, _, _, _) => EditAgreesExactlyWhenCached(c, v, op);
    case Remove(_, _) => RemoveKeepsAgreement(c, v, op);
    case Elsewhere(cmd) => ElsewhereKeepsAgreement(c, v, cmd);
  }

  /** After a first load and then any number of loads, additions, updates of shown entries and
      deletions, whichever requests fail and whatever other accounts do, the cache is the decryption
      of the account's rows. */
  lemma {:induction false} CacheAgreesOverRuns(c: Context, v: View, order: seq<Guid>, ops: seq<Op>)
    requires Server.NewestFirst(v.entries, c.session, order) && |order| <= TAKE
    requires Usual(c, AfterLoad(c, v, order), ops)
    ensures Agrees(c, Run(c, AfterLoad(c, v, order), ops))
  {
    LoadAgreesExactlyWhenTheRestIsUnreadable(c, v, order);
    RunKeepsAgreement(c, AfterLoad(c, v, order), ops);
  }

  lemma {:induction false} RunKeepsAgreement(c: Context, v: View, ops: seq<Op>)
    requires Agrees(c, v) && Usual(c, v, ops)
    ensures Agrees(c, Run(c, v, ops))
    decreases |ops|
  {
    if ops != [] {
      StepKeepsAgreement(c, v, ops[0]);
      RunKeepsAgreement(c, Step(c, v, ops[0]), ops[1..]);
    }
  }
}
