/**
 * A second sync of an unchanged registry (shared/registry_sync.py): the cache
 * it loads from the table the first one wrote decides what is fetched again.
 */
module SecondSync {
  import opened Options
  import opened RegistryTypes
  import opened MetadataCache
  import opened MetadataFetch
  import opened DomainResolution
  import opened Gathering
  import opened RegistryFetch
  import opened RegistryApply
  import opened Confluence

  /** The rows of a table in some order. */
  ghost predicate Lists(rows: seq<AgentRow>, agents: map<string, AgentRow>) {
    forall row :: row in rows <==> exists id :: id in agents && agents[id] == row
  }

  // ------------------------------------------------- the cache within one sync

  /** Nothing cached at the start of a sync is overwritten or dropped during it. */
  lemma CacheOnlyGrows(start: Cache, answers: seq<Answer>, x: Execution, key: string, cfg: Config, web: Web)
    requires Complete(start, answers, x, cfg) && key in WithCopies(start, answers, cfg)
    ensures var cache := FinalCache(start, answers, x, cfg, web);
      key in cache && cache[key] == WithCopies(start, answers, cfg)[key]
  {
    hide Run, JobsIn, IsFetch;
    StageIsScheduleIndependent(start, answers, x.schedule, cfg);
    WritesAreFetches(start, answers, x, cfg, web);
    var writes := FetchWrites(JobsIn(Run(start, answers, x.schedule, cfg).workers, x.completed), x.fetched, web);
    forall w | w in writes
      ensures !Writes(w, key)
    {
      NoFetchWritesOver(start, answers, w, key, cfg, web);
    }
    StoredAt(WithCopies(start, answers, cfg), writes, key);
  }

  /** Neither a wanted URI nor its CID key is cached after the domain stage. */
  lemma WantedIsNew(start: Cache, answers: seq<Answer>, uri: string, cfg: Config)
    requires Wanted(start, answers, uri, cfg)
    ensures uri !in WithCopies(start, answers, cfg)
    ensures Truthy(Resolve(uri, cfg).cid) ==> CidKey(Resolve(uri, cfg).cid.value) !in WithCopies(start, answers, cfg)
  {
    if Truthy(Resolve(uri, cfg).cid) && HasCopy(start, answers, CidKey(Resolve(uri, cfg).cid.value), cfg) {
      FetchableIsNotCidKey(CidKey(Resolve(uri, cfg).cid.value));
      assert false;
    }
  }

  lemma NoFetchWritesOver(start: Cache, answers: seq<Answer>, w: Write, key: string, cfg: Config, web: Web)
    requires IsFetch(start, answers, w, cfg, web) && key in WithCopies(start, answers, cfg)
    ensures !Writes(w, key)
  {
    hide WithCopies, Resolve, JobUrls;
    var uri :| Wanted(start, answers, uri, cfg) && IsFetchOf(uri, w, cfg, web);
    WantedIsNew(start, answers, uri, cfg);
    assert w.uri == Some(uri) && w.entry.cid == Resolve(uri, cfg).cid;
  }

  lemma FinalInvariants(rows: seq<AgentRow>, answers: seq<Answer>, x: Execution, cfg: Config, web: Web)
    requires Complete(Load(rows), answers, x, cfg)
    ensures var cache := FinalCache(Load(rows), answers, x, cfg, web); HoldsPayloads(cache) && CidClosed(cache)
  {
    hide Run, JobsIn;
    var start := Load(rows);
    LoadedCache(rows);
    StageIsScheduleIndependent(start, answers, x.schedule, cfg);
    var copied := WithCopies(start, answers, cfg);
    assert HoldsPayloads(copied) && CidClosed(copied);
    StoreAllKeepsInvariants(
      copied, FetchWrites(JobsIn(Run(start, answers, x.schedule, cfg).workers, x.completed), x.fetched, web));
  }

  /** A key that is new at the end was written by a wanted fetch that succeeded. */
  lemma NewKeysAreFetched(start: Cache, answers: seq<Answer>, x: Execution, uri: string, cfg: Config, web: Web)
    requires Complete(start, answers, x, cfg)
    requires Fetchable(uri) && uri !in WithCopies(start, answers, cfg)
    requires uri in FinalCache(start, answers, x, cfg, web)
    ensures Truthy(Resolve(uri, cfg).cid) ==>
      CidKey(Resolve(uri, cfg).cid.value) in FinalCache(start, answers, x, cfg, web)
  {
    hide Run, JobsIn, IsFetch;
    StageIsScheduleIndependent(start, answers, x.schedule, cfg);
    WritesAreFetches(start, answers, x, cfg, web);
    var writes := FetchWrites(JobsIn(Run(start, answers, x.schedule, cfg).workers, x.completed), x.fetched, web);
    var copied := WithCopies(start, answers, cfg);
    StoredAt(copied, writes, uri);
    var w :| w in writes && Writes(w, uri);
    WriterOfUri(start, answers, w, uri, cfg, web);
    if Truthy(Resolve(uri, cfg).cid) {
      StoredAt(copied, writes, CidKey(Resolve(uri, cfg).cid.value));
    }
  }

  lemma WriterOfUri(start: Cache, answers: seq<Answer>, w: Write, uri: string, cfg: Config, web: Web)
    requires IsFetch(start, answers, w, cfg, web) && Writes(w, uri) && Fetchable(uri)
    ensures Truthy(Resolve(uri, cfg).cid) ==> Writes(w, CidKey(Resolve(uri, cfg).cid.value))
  {
    var other :| Wanted(start, answers, other, cfg) && IsFetchOf(other, w, cfg, web);
    FetchableIsNotCidKey(uri);
    FetchWritesWhere(other, uri, cfg, web);
  }

  // --------------------------------------------- what the first sync writes down

  /** The snapshot of domain `i` in an execution. */
  function FirstSnapshot(start: Cache, answers: seq<Answer>, x: Execution, i: nat, cfg: Config, web: Web)
    : Option<Snapshot>
    requires Complete(start, answers, x, cfg)
  {
    SnapshotAt(FinalCache(start, answers, x, cfg, web), Run(start, answers, x.schedule, cfg).workers, i)
  }

  /** The domain yielded a snapshot with its document. */
  predicate Obtained(start: Cache, answers: seq<Answer>, x: Execution, i: nat, cfg: Config, web: Web)
    requires Complete(start, answers, x, cfg)
  {
    var s := FirstSnapshot(start, answers, x, i, cfg, web);
    s.Some? && s.value.metadata.Some?
  }

  /** The domain resolves, to this URI. */
  predicate Asks(answer: Answer, uri: string) {
    answer.Resolved? && !answer.raisesLate && answer.info.uri == Some(uri) && uri != ""
  }

  function Recorded(s: Snapshot): Write {
    Write(s.info.uri, Entry(s.metadata, s.url, s.cid))
  }

  /** What a pending snapshot carries, whoever copied what before it. */
  lemma PendingCarries(start: Cache, answers: seq<Answer>, x: Execution, i: nat, cfg: Config, web: Web)
    requires Complete(start, answers, x, cfg) && i < |answers| && CidClosed(start)
    requires PendingOf(Run(start, answers, x.schedule, cfg).workers, i).Some?
    ensures var p := PendingOf(Run(start, answers, x.schedule, cfg).workers, i).value;
      var cache := FinalCache(start, answers, x, cfg, web);
      && answers[i].Resolved? && !answers[i].raisesLate && p.info == answers[i].info
      && (Truthy(p.info.uri) && Uri(p.info) !in cache ==> p.cid == Resolve(Uri(p.info), cfg).cid)
      && (Truthy(p.cid) && Truthy(p.info.uri) && Uri(p.info) in cache ==> CidKey(p.cid.value) in cache)
      && (Truthy(p.cid) ==> Truthy(p.info.uri))
  {
    hide Run, FinalCache;
    StageIsScheduleIndependent(start, answers, x.schedule, cfg);
    var p := PendingOf(Run(start, answers, x.schedule, cfg).workers, i).value;
    var cache := FinalCache(start, answers, x, cfg, web);
    if Truthy(p.info.uri) {
      var uri := Uri(p.info);
      if uri in start {
        CacheOnlyGrows(start, answers, x, uri, cfg, web);
        if Truthy(p.cid) {
          CacheOnlyGrows(start, answers, x, CidKey(p.cid.value), cfg, web);
        }
      } else if CachedByCid(start, uri, cfg) {
        assert Copies(start, answers[i], uri, cfg);
        CacheOnlyGrows(start, answers, x, uri, cfg, web);
        CacheOnlyGrows(start, answers, x, CidKey(Resolve(uri, cfg).cid.value), cfg, web);
        if Truthy(p.cid) {
          CacheOnlyGrows(start, answers, x, CidKey(p.cid.value), cfg, web);
        }
      } else if Truthy(p.cid) && uri in cache {
        assert uri !in WithCopies(start, answers, cfg);
        NewKeysAreFetched(start, answers, x, uri, cfg, web);
      }
    }
  }

  /** A key the second cache would have for a snapshot is found by the first one's final cache. */
  predicate Known(cache: Cache, key: string, cfg: Config) {
    key in cache || (Fetchable(key) && Lookup(cache, Some(key), Resolve(key, cfg).cid).Some?)
  }

  lemma RecordedIsKnown(start: Cache, answers: seq<Answer>, x: Execution, i: nat, key: string, cfg: Config, web: Web)
    requires Complete(start, answers, x, cfg) && i < |answers| && CidClosed(start)
    requires CidClosed(FinalCache(start, answers, x, cfg, web))
    requires FirstSnapshot(start, answers, x, i, cfg, web).Some?
    requires Writes(Recorded(FirstSnapshot(start, answers, x, i, cfg, web).value), key)
    ensures Known(FinalCache(start, answers, x, cfg, web), key, cfg)
  {
    hide Run, FinalCache;
    PendingCarries(start, answers, x, i, cfg, web);
    var p := PendingOf(Run(start, answers, x.schedule, cfg).workers, i).value;
    var cache := FinalCache(start, answers, x, cfg, web);
    var s := SnapshotOf(cache, p);
    assert s.metadata.Some? ==> Lookup(cache, p.info.uri, p.cid).Some?;
  }

  /** The table after the first sync holds each snapshot's document, and otherwise what it held. */
  lemma RowAfter(t: Tables, snaps: seq<Snapshot>, now: Time, id: string)
    requires id in Reconciled(t, snaps, now).agents
    ensures var row := Reconciled(t, snaps, now).agents[id];
      if id in Ids(snaps) then
        exists s :: s in snaps && s.agentId == id && RowWrite(row) == Recorded(s)
      else id in t.agents && RowWrite(row) == RowWrite(t.agents[id])
  {
    UpsertAllAt(t, snaps, now, id);
  }

  lemma SnapshotsAre(start: Cache, answers: seq<Answer>, x: Execution, s: Snapshot, cfg: Config, web: Web)
    requires Complete(start, answers, x, cfg)
    ensures s in Snapshots(start, answers, x, cfg, web) <==>
      exists i :: 0 <= i < |answers| && FirstSnapshot(start, answers, x, i, cfg, web) == Some(s)
  {
    hide Run, FinalCache, SnapshotAt;
    var cache, workers := FinalCache(start, answers, x, cfg, web), Run(start, answers, x.schedule, cfg).workers;
    OrderMembers(x.completed, |answers|);
    Gathered(x.completed, (i: nat) => SnapshotAt(cache, workers, i), s);
    if s in Snapshots(start, answers, x, cfg, web) {
      var i :| i in x.completed && SnapshotAt(cache, workers, i) == Some(s);
      assert 0 <= i < |answers| && FirstSnapshot(start, answers, x, i, cfg, web) == Some(s);
    }
    if i :| 0 <= i < |answers| && FirstSnapshot(start, answers, x, i, cfg, web) == Some(s) {
      assert i in x.completed && SnapshotAt(cache, workers, i) == Some(s);
    }
  }

  // -------------------------------------------------------------- the second sync

  /** One sync: the rows it loads its cache from, its execution, and the table and rows it leaves. */
  ghost predicate FirstSync(t: Tables, rows: seq<AgentRow>, answers: seq<Answer>, x: Execution, rows': seq<AgentRow>,
                            cfg: Config, web: Web, now: Time)
  {
    && Lists(rows, t.agents)
    && Complete(Load(rows), answers, x, cfg)
    && DistinctIds(Snapshots(Load(rows), answers, x, cfg, web))
    && Lists(rows', Reconciled(t, Snapshots(Load(rows), answers, x, cfg, web), now).agents)
  }

  /** The cache loaded next has nothing that the final cache of the first sync did not know. */
  lemma NextCacheIsKnown(t: Tables, rows: seq<AgentRow>, answers: seq<Answer>, x: Execution, rows': seq<AgentRow>,
                         key: string, cfg: Config, web: Web, now: Time)
    requires FirstSync(t, rows, answers, x, rows', cfg, web, now) && key in Load(rows')
    ensures Known(FinalCache(Load(rows), answers, x, cfg, web), key, cfg)
  {
    hide Run, FinalCache, Snapshots, Complete, Known, FirstSnapshot;
    var start, snaps := Load(rows), Snapshots(Load(rows), answers, x, cfg, web);
    LoadedCache(rows);
    LoadedCache(rows');
    FinalInvariants(rows, answers, x, cfg, web);
    var row :| row in rows' && RowWrites(row, key);
    var t' := Reconciled(t, snaps, now);
    var id :| id in t'.agents && t'.agents[id] == row;
    RowAfter(t, snaps, now, id);
    if id in Ids(snaps) {
      var s :| s in snaps && s.agentId == id && RowWrite(row) == Recorded(s);
      SnapshotsAre(start, answers, x, s, cfg, web);
      var i :| 0 <= i < |answers| && FirstSnapshot(start, answers, x, i, cfg, web) == Some(s);
      RecordedIsKnown(start, answers, x, i, key, cfg, web);
    } else {
      assert t.agents[id] in rows && RowWrites(t.agents[id], key);
      OldKeysAreKnown(start, answers, x, key, cfg, web);
    }
  }

  lemma OldKeysAreKnown(start: Cache, answers: seq<Answer>, x: Execution, key: string, cfg: Config, web: Web)
    requires Complete(start, answers, x, cfg) && key in start
    ensures Known(FinalCache(start, answers, x, cfg, web), key, cfg)
  {
    hide FinalCache;
    CacheOnlyGrows(start, answers, x, key, cfg, web);
  }

  /** The row of a snapshot that has its document is loaded under its URI. */
  lemma ObtainedIsCached(t: Tables, rows: seq<AgentRow>, answers: seq<Answer>, x: Execution, rows': seq<AgentRow>,
                         s: Snapshot, cfg: Config, web: Web, now: Time)
    requires FirstSync(t, rows, answers, x, rows', cfg, web, now)
    requires s in Snapshots(Load(rows), answers, x, cfg, web) && s.metadata.Some? && Truthy(s.info.uri)
    ensures Uri(s.info) in Load(rows')
    ensures exists row :: row in rows' && RowWrite(row) == Recorded(s)
  {
    hide Run, FinalCache, Snapshots, Complete;
    var snaps := Snapshots(Load(rows), answers, x, cfg, web);
    var t' := Reconciled(t, snaps, now);
    var id := s.agentId;
    var k :| 0 <= k < |snaps| && snaps[k] == s;
    assert Ids(snaps)[k] == id;
    ReconciledAt(t, snaps, now, id);
    RowAfter(t, snaps, now, id);
    var row := t'.agents[id];
    assert row in rows' && RowWrite(row) == Recorded(s);
    LoadedCache(rows');
    assert RowWrites(row, Uri(s.info));
  }

  /** The registry has not changed: a domain that delivers in both syncs delivers the same; any may fail in either. */
  predicate Unchanged(answers: seq<Answer>, later: seq<Answer>) {
    && |answers| == |later|
    && forall i | 0 <= i < |answers| && Delivers(answers[i]) && Delivers(later[i]) :: later[i].info == answers[i].info
  }

  predicate Delivers(answer: Answer) {
    answer.Resolved? && !answer.raisesLate
  }

  /**
   * The second sync fetches nothing the first one obtained and retries exactly
   * the fetchable URIs whose document it did not get.
   */
  lemma RefetchesExactlyTheMissing(t: Tables, rows: seq<AgentRow>, answers: seq<Answer>, x: Execution,
                                   rows': seq<AgentRow>, later: seq<Answer>, i: nat, uri: string,
                                   cfg: Config, web: Web, now: Time)
    requires FirstSync(t, rows, answers, x, rows', cfg, web, now)
    requires i < |answers| == |later| && Asks(answers[i], uri) && Asks(later[i], uri) && Fetchable(uri)
    ensures Wants(Load(rows'), later[i], uri, cfg) <==> !Obtained(Load(rows), answers, x, i, cfg, web)
  {
    hide Run, FinalCache, Snapshots, Complete;
    var start := Load(rows);
    LoadedCache(rows);
    FinalInvariants(rows, answers, x, cfg, web);
    SnapshotExists(start, answers, x, i, cfg, web);
    PendingCarries(start, answers, x, i, cfg, web);
    if Obtained(start, answers, x, i, cfg, web) {
      var s := FirstSnapshot(start, answers, x, i, cfg, web).value;
      SnapshotsAre(start, answers, x, s, cfg, web);
      ObtainedIsCached(t, rows, answers, x, rows', s, cfg, web, now);
    } else {
      MissingIsUnknown(start, answers, x, i, uri, cfg, web);
      if uri in Load(rows') {
        NextCacheIsKnown(t, rows, answers, x, rows', uri, cfg, web, now);
      }
      if CachedByCid(Load(rows'), uri, cfg) {
        NextCacheIsKnown(t, rows, answers, x, rows', CidKey(Resolve(uri, cfg).cid.value), cfg, web, now);
      }
    }
  }

  lemma MissingIsUnknown(start: Cache, answers: seq<Answer>, x: Execution, i: nat, uri: string, cfg: Config, web: Web)
    requires Complete(start, answers, x, cfg) && i < |answers| && CidClosed(start)
    requires HoldsPayloads(FinalCache(start, answers, x, cfg, web))
    requires Asks(answers[i], uri) && Fetchable(uri) && !Obtained(start, answers, x, i, cfg, web)
    ensures var cache := FinalCache(start, answers, x, cfg, web);
      && !Known(cache, uri, cfg)
      && (Truthy(Resolve(uri, cfg).cid) ==> !Known(cache, CidKey(Resolve(uri, cfg).cid.value), cfg))
  {
    hide Run, FinalCache;
    SnapshotExists(start, answers, x, i, cfg, web);
    PendingCarries(start, answers, x, i, cfg, web);
    if Truthy(Resolve(uri, cfg).cid) && Fetchable(CidKey(Resolve(uri, cfg).cid.value)) {
      FetchableIsNotCidKey(CidKey(Resolve(uri, cfg).cid.value));
      assert false;
    }
  }

  lemma SnapshotExists(start: Cache, answers: seq<Answer>, x: Execution, i: nat, cfg: Config, web: Web)
    requires Complete(start, answers, x, cfg) && i < |answers| && answers[i].Resolved? && !answers[i].raisesLate
    ensures FirstSnapshot(start, answers, x, i, cfg, web).Some?
    ensures FirstSnapshot(start, answers, x, i, cfg, web).value.info == answers[i].info
  {
    hide Run, FinalCache;
    StageIsScheduleIndependent(start, answers, x.schedule, cfg);
  }

  /** Some row of the table records a document under the URI or under its CID. */
  ghost predicate OnRecord(rows: seq<AgentRow>, uri: string, cfg: Config) {
    exists row :: row in rows
      && (RowWrites(row, uri)
          || (Truthy(Resolve(uri, cfg).cid) && RowWrites(row, CidKey(Resolve(uri, cfg).cid.value))))
  }

  lemma WantsWhatIsNotOnRecord(rows: seq<AgentRow>, answer: Answer, uri: string, cfg: Config)
    ensures Wants(Load(rows), answer, uri, cfg) <==>
      Asks(answer, uri) && Fetchable(uri) && !OnRecord(rows, uri, cfg)
  {
    hide Resolve, RowWrites;
    LoadedCache(rows);
    assert Fetchable(uri) ==> uri != "";
  }

  /** The first sync, or if the domain failed in it the table it left, lacks the document. */
  ghost predicate Missing(answers: seq<Answer>, x: Execution, rows: seq<AgentRow>, rows': seq<AgentRow>, i: nat,
                          uri: string, cfg: Config, web: Web)
    requires i < |answers| && Complete(Load(rows), answers, x, cfg)
  {
    if Asks(answers[i], uri) then !Obtained(Load(rows), answers, x, i, cfg, web) else !OnRecord(rows', uri, cfg)
  }

  /**
   * The second sync's jobs, under any schedule, are those of the fetchable URIs
   * that were not obtained; domains may fail in either sync.
   */
  lemma SecondJobsAreTheMissing(t: Tables, rows: seq<AgentRow>, answers: seq<Answer>, x: Execution,
                                rows': seq<AgentRow>, later: seq<Answer>, y: Execution, uri: string,
                                cfg: Config, web: Web, now: Time)
    requires FirstSync(t, rows, answers, x, rows', cfg, web, now) && Unchanged(answers, later)
    requires Complete(Load(rows'), later, y, cfg)
    ensures uri in y.fetched <==>
      exists i | 0 <= i < |later| ::
        Asks(later[i], uri) && Fetchable(uri) && Missing(answers, x, rows, rows', i, uri, cfg, web)
    ensures forall i | 0 <= i < |later| && Asks(later[i], uri) && !Asks(answers[i], uri) :: !Delivers(answers[i])
  {
    hide Run, FinalCache, Snapshots, FirstSnapshot, JobsIn, Obtained;
    JobsAreCanonical(Load(rows'), later, y.schedule, y.completed, cfg);
    assert uri in y.fetched <==> Wanted(Load(rows'), later, uri, cfg);
    forall i | 0 <= i < |later|
      ensures Wants(Load(rows'), later[i], uri, cfg) <==>
        Asks(later[i], uri) && Fetchable(uri) && Missing(answers, x, rows, rows', i, uri, cfg, web)
    {
      WantsWhatIsNotOnRecord(rows', later[i], uri, cfg);
      if Asks(later[i], uri) && Asks(answers[i], uri) && Fetchable(uri) {
        RefetchesExactlyTheMissing(t, rows, answers, x, rows', later, i, uri, cfg, web, now);
      }
    }
  }

  /**
   * A snapshot that has its document is rebuilt identically by the second sync,
   * whatever that sync fetches, when every row that would be cached under its
   * URI records the same document, address and CID.
   */
  lemma SnapshotIsRebuilt(t: Tables, rows: seq<AgentRow>, answers: seq<Answer>, x: Execution, rows': seq<AgentRow>,
                          later: seq<Answer>, i: nat, uri: string, y: Execution, cfg: Config, web: Web, web': Web,
                          now: Time)
    requires FirstSync(t, rows, answers, x, rows', cfg, web, now) && Complete(Load(rows'), later, y, cfg)
    requires Unchanged(answers, later) && i < |answers| && Asks(answers[i], uri) && Delivers(later[i])
    requires Obtained(Load(rows), answers, x, i, cfg, web)
    requires var s := FirstSnapshot(Load(rows), answers, x, i, cfg, web).value;
      forall row | row in rows' && RowWrites(row, uri) :: RowWrite(row).entry == Recorded(s).entry
    ensures FirstSnapshot(Load(rows'), later, y, i, cfg, web') == FirstSnapshot(Load(rows), answers, x, i, cfg, web)
  {
    hide Run, FinalCache, Snapshots, RowWrites, SnapshotAt;
    var start, s := Load(rows), FirstSnapshot(Load(rows), answers, x, i, cfg, web).value;
    SnapshotExists(start, answers, x, i, cfg, web);
    SnapshotsAre(start, answers, x, s, cfg, web);
    SnapshotIsBuilt(start, answers, x, i, cfg, web);
    ObtainedIsCached(t, rows, answers, x, rows', s, cfg, web, now);
    LoadedCache(rows');
    assert Load(rows')[uri] == Recorded(s).entry;
    RebuiltFromCache(Load(rows'), later, i, uri, y, cfg, web');
  }

  lemma SnapshotIsBuilt(start: Cache, answers: seq<Answer>, x: Execution, i: nat, cfg: Config, web: Web)
    requires Complete(start, answers, x, cfg) && FirstSnapshot(start, answers, x, i, cfg, web).Some?
    ensures var s := FirstSnapshot(start, answers, x, i, cfg, web).value;
      s == BuildSnapshot(s.info, s.metadata, s.url, s.cid)
  {
    hide Run, FinalCache;
  }

  /** A domain whose URI is cached is built from that entry alone. */
  lemma RebuiltFromCache(start: Cache, answers: seq<Answer>, i: nat, uri: string, y: Execution, cfg: Config, web: Web)
    requires Complete(start, answers, y, cfg) && i < |answers| && Asks(answers[i], uri) && uri in start
    ensures var e := start[uri];
      FirstSnapshot(start, answers, y, i, cfg, web) == Some(BuildSnapshot(answers[i].info, e.payload, e.url, e.cid))
  {
    hide Run, FinalCache;
    CacheOnlyGrows(start, answers, y, uri, cfg, web);
    StageIsScheduleIndependent(start, answers, y.schedule, cfg);
  }
}
