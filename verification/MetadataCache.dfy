/**
 * The metadata cache of the registry sync (shared/registry_sync.py): one
 * dictionary whose keys are metadata URIs and, with a prefix, CIDs.
 */
module MetadataCache {
  import opened Options
  import opened RegistryTypes

  datatype Entry = Entry(payload: Option<Payload>, url: Option<string>, cid: Option<string>)

  type Cache = map<string, Entry>

  const CID_PREFIX := "cid::"

  function CidKey(cid: string): string {
    CID_PREFIX + cid
  }

  predicate IsCidKey(key: string) {
    CID_PREFIX <= key
  }

  /** `_get_cached_metadata_entry`: by URI first, then by CID; empty strings are never looked up. */
  function Lookup(cache: Cache, uri: Option<string>, cid: Option<string>): Option<Entry> {
    if Truthy(uri) && uri.value in cache then Some(cache[uri.value])
    else if Truthy(cid) && CidKey(cid.value) in cache then Some(cache[CidKey(cid.value)])
    else None
  }

  /** The arguments of one `_store_metadata_cache_entry`. */
  datatype Write = Write(uri: Option<string>, entry: Entry)

  /** The write changes what the key holds. */
  predicate Writes(w: Write, key: string) {
    && w.entry.payload.Some?
    && ((Truthy(w.uri) && w.uri.value == key) || (Truthy(w.entry.cid) && CidKey(w.entry.cid.value) == key))
  }

  function Store(cache: Cache, w: Write): (r: Cache)
    ensures forall key :: key in r <==> key in cache || Writes(w, key)
    ensures forall key | key in r :: r[key] == if Writes(w, key) then w.entry else cache[key]
  {
    if w.entry.payload.None? then cache
    else
      var byUri := if Truthy(w.uri) then cache[w.uri.value := w.entry] else cache;
      if Truthy(w.entry.cid) then byUri[CidKey(w.entry.cid.value) := w.entry] else byUri
  }

  function StoreAll(cache: Cache, writes: seq<Write>): Cache {
    if writes == [] then cache else Store(StoreAll(cache, writes[..|writes| - 1]), writes[|writes| - 1])
  }

  function RowWrite(row: AgentRow): Write {
    Write(row.uri, Entry(row.metadata, row.url, row.cid))
  }

  /** The rows the loader does not pass over. */
  predicate Loads(row: AgentRow) {
    Truthy(row.uri) && !(row.metadata.None? && row.url.None?)
  }

  /** The cache that a list of rows is loaded into. */
  function Load(rows: seq<AgentRow>): Cache {
    if rows == [] then map[]
    else
      var before, row := Load(rows[..|rows| - 1]), rows[|rows| - 1];
      if Loads(row) then Store(before, RowWrite(row)) else before
  }

  /** The dictionary the sync passes to its helpers. */
  class CacheTable {
    var entries: Cache

    constructor ()
      ensures entries == map[]
    {
      entries := map[];
    }

    /** `_store_metadata_cache_entry`. */
    method StoreEntry(uri: Option<string>, url: Option<string>, cid: Option<string>, payload: Option<Payload>)
      modifies this
      ensures entries == Store(old(entries), Write(uri, Entry(payload, url, cid)))
    {
      if payload.None? {
        return;
      }
      if Truthy(uri) {
        entries := entries[uri.value := Entry(payload, url, cid)];
      }
      if Truthy(cid) {
        entries := entries[CidKey(cid.value) := Entry(payload, url, cid)];
      }
    }

    /** `_load_existing_metadata_cache` on a fresh dictionary. */
    method LoadExisting(rows: seq<AgentRow>)
      requires entries == map[]
      modifies this
      ensures entries == Load(rows)
    {
      for i := 0 to |rows|
        invariant entries == Load(rows[..i])
      {
        assert rows[..i + 1][..i] == rows[..i];
        var row := rows[i];
        if !Truthy(row.uri) {
          continue;
        }
        if row.metadata.None? && row.url.None? {
          continue;
        }
        StoreEntry(row.uri, row.url, row.cid, row.metadata);
      }
      assert rows[..|rows|] == rows;
    }
  }

  // -------------------------------------------------------------- agreement

  ghost predicate HoldsPayloads(cache: Cache) {
    forall key | key in cache :: cache[key].payload.Some?
  }

  /** Every entry that carries a CID is also found by that CID. */
  ghost predicate CidClosed(cache: Cache) {
    forall key | key in cache && Truthy(cache[key].cid) :: CidKey(cache[key].cid.value) in cache
  }

  /** An entry under a CID key carries that CID. */
  ghost predicate CidKeysAgree(cache: Cache) {
    forall cid: string | CidKey(cid) in cache :: cache[CidKey(cid)].cid == Some(cid)
  }

  lemma StoreKeepsInvariants(cache: Cache, w: Write)
    ensures HoldsPayloads(cache) ==> HoldsPayloads(Store(cache, w))
    ensures CidClosed(cache) ==> CidClosed(Store(cache, w))
  {
  }

  /** A URI that is itself a CID key, stored with another CID. */
  predicate Miskeyed(w: Write) {
    && w.entry.payload.Some? && Truthy(w.uri) && IsCidKey(w.uri.value)
    && w.entry.cid != Some(w.uri.value[|CID_PREFIX|..])
  }

  /** One store keeps CID keys in agreement exactly when its URI is not a foreign CID key. */
  lemma StoreKeepsAgreementExactlyWhen(cache: Cache, w: Write)
    requires CidKeysAgree(cache)
    ensures CidKeysAgree(Store(cache, w)) <==> !Miskeyed(w)
  {
    var r := Store(cache, w);
    if Miskeyed(w) {
      var cid := w.uri.value[|CID_PREFIX|..];
      assert CidKey(cid) == w.uri.value;
      assert r[CidKey(cid)].cid != Some(cid);
    } else {
      forall cid: string | CidKey(cid) in r
        ensures r[CidKey(cid)].cid == Some(cid)
      {
        if Writes(w, CidKey(cid)) {
          WriterOfCidKeyAgrees(w, cid);
        }
      }
    }
  }

  lemma WriterOfCidKeyAgrees(w: Write, cid: string)
    requires Writes(w, CidKey(cid)) && !Miskeyed(w)
    ensures w.entry.cid == Some(cid)
  {
    assert CidKey(cid)[|CID_PREFIX|..] == cid;
    if Truthy(w.entry.cid) && CidKey(w.entry.cid.value) == CidKey(cid) {
      assert CidKey(w.entry.cid.value)[|CID_PREFIX|..] == w.entry.cid.value;
    }
  }

  /**
   * The loaded cache: it holds exactly the keys some row writes, each entry
   * comes from a row that writes its key, entries always hold a payload and are
   * found by their CID, whatever the table and the order of its rows.
   */
  lemma {:induction false} LoadedCache(rows: seq<AgentRow>)
    ensures HoldsPayloads(Load(rows)) && CidClosed(Load(rows))
    ensures forall key :: key in Load(rows) <==> exists row :: row in rows && RowWrites(row, key)
    ensures forall key | key in Load(rows) ::
      exists row :: row in rows && RowWrites(row, key) && RowWrite(row).entry == Load(rows)[key]
  {
    if rows != [] {
      var before, row := rows[..|rows| - 1], rows[|rows| - 1];
      LoadedCache(before);
      StoreKeepsInvariants(Load(before), RowWrite(row));
      assert rows == before + [row];
      forall key
        ensures key in Load(rows) <==> key in Load(before) || RowWrites(row, key)
        ensures key in Load(rows) ==>
          Load(rows)[key] == if RowWrites(row, key) then RowWrite(row).entry else Load(before)[key]
      {
      }
    }
  }

  predicate RowWrites(row: AgentRow, key: string) {
    Truthy(row.uri) && Writes(RowWrite(row), key)
  }

  /** Without miskeyed rows the loaded cache is in agreement, in whatever order the rows come. */
  lemma LoadAgrees(rows: seq<AgentRow>)
    requires forall row | row in rows :: !Miskeyed(RowWrite(row))
    ensures CidKeysAgree(Load(rows))
  {
    LoadedCache(rows);
    forall cid: string | CidKey(cid) in Load(rows)
      ensures Load(rows)[CidKey(cid)].cid == Some(cid)
    {
      var row :| row in rows && RowWrites(row, CidKey(cid)) && RowWrite(row).entry == Load(rows)[CidKey(cid)];
      WriterOfCidKeyAgrees(RowWrite(row), cid);
    }
  }

  /** A document recorded without the address it came from. */
  predicate Unaddressed(w: Write) {
    w.entry.payload.Some? && !Truthy(w.entry.url)
  }

  ghost predicate HasAddresses(cache: Cache) {
    forall key | key in cache :: Truthy(cache[key].url)
  }

  predicate SoundWrite(w: Write) {
    !Miskeyed(w) && !Unaddressed(w)
  }

  /** CID keys carry their CID and every entry names an address. */
  ghost predicate SoundCache(cache: Cache) {
    CidKeysAgree(cache) && HasAddresses(cache)
  }

  lemma StoreKeepsSoundness(cache: Cache, w: Write)
    requires SoundCache(cache) && SoundWrite(w)
    ensures SoundCache(Store(cache, w))
  {
    StoreKeepsAgreementExactlyWhen(cache, w);
  }

  lemma {:induction false} StoreAllKeepsSoundness(cache: Cache, writes: seq<Write>)
    requires SoundCache(cache) && forall w | w in writes :: SoundWrite(w)
    ensures SoundCache(StoreAll(cache, writes))
  {
    if writes != [] {
      var before, last := writes[..|writes| - 1], writes[|writes| - 1];
      assert writes == before + [last];
      StoreAllKeepsSoundness(cache, before);
      StoreKeepsSoundness(StoreAll(cache, before), last);
    }
  }

  /** Sound rows load into a sound cache, in whatever order they come. */
  lemma {:induction false} LoadIsSound(rows: seq<AgentRow>)
    requires forall row | row in rows :: SoundWrite(RowWrite(row))
    ensures SoundCache(Load(rows))
  {
    if rows != [] {
      var before, last := rows[..|rows| - 1], rows[|rows| - 1];
      assert rows == before + [last];
      LoadIsSound(before);
      StoreKeepsSoundness(Load(before), RowWrite(last));
    }
  }

  // ------------------------------------------------------ order independence

  /** Writes of a common key store the same entry. */
  ghost predicate Compatible(writes: seq<Write>) {
    forall v, w, key | v in writes && w in writes && Writes(v, key) && Writes(w, key) :: v.entry == w.entry
  }

  /** What a list of writes leaves under a key: the old entry, or one of a write of that key. */
  lemma {:induction false} StoredAt(cache: Cache, writes: seq<Write>, key: string)
    ensures key in StoreAll(cache, writes) <==> key in cache || exists w :: w in writes && Writes(w, key)
    ensures (forall w | w in writes :: !Writes(w, key)) && key in cache ==> StoreAll(cache, writes)[key] == cache[key]
    ensures (exists w :: w in writes && Writes(w, key)) ==>
      exists w :: w in writes && Writes(w, key) && StoreAll(cache, writes)[key] == w.entry
  {
    if writes != [] {
      var before, last := writes[..|writes| - 1], writes[|writes| - 1];
      StoredAt(cache, before, key);
      assert writes == before + [last];
      assert last in writes;
    }
  }

  /** Compatible writes may be stored in any order, and repeated. */
  lemma StoresCommute(cache: Cache, writes: seq<Write>, others: seq<Write>)
    requires Compatible(writes)
    requires forall w :: w in writes <==> w in others
    ensures StoreAll(cache, writes) == StoreAll(cache, others)
  {
    var a, b := StoreAll(cache, writes), StoreAll(cache, others);
    forall key
      ensures key in a <==> key in b
      ensures key in a ==> a[key] == b[key]
    {
      StoredAt(cache, writes, key);
      StoredAt(cache, others, key);
    }
  }

  lemma {:induction false} StoreAllKeepsInvariants(cache: Cache, writes: seq<Write>)
    requires HoldsPayloads(cache) && CidClosed(cache)
    ensures HoldsPayloads(StoreAll(cache, writes)) && CidClosed(StoreAll(cache, writes))
  {
    if writes != [] {
      var before := writes[..|writes| - 1];
      StoreAllKeepsInvariants(cache, before);
      StoreKeepsInvariants(StoreAll(cache, before), writes[|writes| - 1]);
    }
  }

  /** An entry is found by a URI that has one, else by the CID, never by an empty text. */
  lemma FoundByUriThenCid(cache: Cache, uri: string, cid: string)
    ensures uri != "" && uri in cache ==> Lookup(cache, Some(uri), Some(cid)) == Some(cache[uri])
    ensures (uri == "" || uri !in cache) && cid != "" && "cid::" + cid in cache ==>
      Lookup(cache, Some(uri), Some(cid)) == Some(cache["cid::" + cid])
    ensures (uri == "" || uri !in cache) && (cid == "" || "cid::" + cid !in cache) ==>
      Lookup(cache, Some(uri), Some(cid)) == None
    ensures Lookup(cache, None, Some(cid)) == Lookup(cache, Some(""), Some(cid))
    ensures Lookup(cache, Some(uri), None) == Lookup(cache, Some(uri), Some(""))
  {
  }
}
