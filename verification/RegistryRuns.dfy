/**
 * The agents table over its whole life (shared/registry_sync.py, with the
 * writers in api/main.py and api/routes/agents.py): syncs of any registry
 * answers under any schedule, and everything else that edits the table. What
 * every such run keeps makes the cache agree and the sync confluent.
 */
module RegistryRuns {
  import opened Options
  import opened Text
  import opened RegistryTypes
  import opened MetadataCache
  import opened MetadataFetch
  import opened DomainResolution
  import opened RegistryFetch
  import opened RegistryApply
  import opened Confluence
  import opened SecondSync

  // ------------------------------------------------------------- one sync

  /** Copies land on URIs, never on CID keys. */
  lemma CopiesAreSound(start: Cache, answers: seq<Answer>, cfg: Config)
    requires SoundCache(start)
    ensures SoundCache(WithCopies(start, answers, cfg))
  {
    forall cid: string
      ensures !HasCopy(start, answers, CidKey(cid), cfg)
    {
      if HasCopy(start, answers, CidKey(cid), cfg) {
        FetchableIsNotCidKey(CidKey(cid));
        assert false;
      }
    }
  }

  /** A fetch that succeeds is stored under its own URI and CID, with the address that answered. */
  lemma FetchesAreSound(start: Cache, answers: seq<Answer>, w: Write, cfg: Config, web: Web)
    requires IsFetch(start, answers, w, cfg, web)
    ensures SoundWrite(w)
  {
    var uri :| Wanted(start, answers, uri, cfg) && IsFetchOf(uri, w, cfg, web);
    FetchableIsNotCidKey(uri);
    AddressesAreNotEmpty(uri, cfg);
    var job := JobFor(uri, cfg).value;
    var k := FirstAnswer(job, web, 0);
    if k < |job.urls| {
      assert job.urls[k] in job.urls;
    }
  }

  lemma AddressesAreNotEmpty(uri: string, cfg: Config)
    requires JobFor(uri, cfg).Some?
    ensures forall u | u in JobFor(uri, cfg).value.urls :: u != ""
  {
    var target := Resolve(uri, cfg);
    if Truthy(target.cid) {
      GatewaysOnlyAdd(AddUrl([], target.url), cfg.gateways, target.cid.value);
    }
  }

  /** From a sound cache every execution ends with a sound cache. */
  lemma FinalCacheIsSound(start: Cache, answers: seq<Answer>, x: Execution, cfg: Config, web: Web)
    requires Complete(start, answers, x, cfg) && SoundCache(start)
    ensures SoundCache(FinalCache(start, answers, x, cfg, web))
  {
    hide Run, JobsIn, IsFetch, SoundWrite;
    StageIsScheduleIndependent(start, answers, x.schedule, cfg);
    WritesAreFetches(start, answers, x, cfg, web);
    CopiesAreSound(start, answers, cfg);
    var writes := FetchWrites(JobsIn(Run(start, answers, x.schedule, cfg).workers, x.completed), x.fetched, web);
    forall w | w in writes
      ensures SoundWrite(w)
    {
      FetchesAreSound(start, answers, w, cfg, web);
    }
    StoreAllKeepsSoundness(WithCopies(start, answers, cfg), writes);
  }

  /** A pending snapshot whose URI is a CID key carries that CID if the key was cached, and none otherwise. */
  lemma PendingOfCidKey(start: Cache, answers: seq<Answer>, x: Execution, i: nat, cfg: Config, web: Web)
    requires Complete(start, answers, x, cfg) && i < |answers| && SoundCache(start)
    requires PendingOf(Run(start, answers, x.schedule, cfg).workers, i).Some?
    ensures var p := PendingOf(Run(start, answers, x.schedule, cfg).workers, i).value;
      Truthy(p.info.uri) && IsCidKey(Uri(p.info)) ==>
        p.cid == if Uri(p.info) in start then Some(Uri(p.info)[|CID_PREFIX|..]) else None
  {
    hide Run, Yields, IsCidKey, SoundCache;
    StageIsScheduleIndependent(start, answers, x.schedule, cfg);
    var p := PendingOf(Run(start, answers, x.schedule, cfg).workers, i).value;
    var r := Run(start, answers, x.schedule, cfg).workers[i].result.value;
    YieldsItsInfo(start, answers[i].info, r, cfg);
    if Truthy(p.info.uri) && IsCidKey(Uri(p.info)) {
      YieldOfCidKey(start, p.info, r, cfg);
    }
  }

  lemma YieldsItsInfo(start: Cache, info: AgentInfo, r: Result, cfg: Config)
    requires Yields(start, info, r, cfg)
    ensures r.pending.info == info
  {
  }

  lemma YieldOfCidKey(start: Cache, info: AgentInfo, r: Result, cfg: Config)
    requires SoundCache(start) && Yields(start, info, r, cfg) && Truthy(info.uri) && IsCidKey(Uri(info))
    ensures r.pending.cid == if Uri(info) in start then Some(Uri(info)[|CID_PREFIX|..]) else None
  {
    var uri := Uri(info);
    assert uri == CidKey(uri[|CID_PREFIX|..]);
    if Fetchable(uri) {
      FetchableIsNotCidKey(uri);
      assert false;
    }
  }

  /** No fetch writes the key of the empty CID, so it is cached at the end only if it was at the start. */
  lemma EmptyCidIsNotFetched(start: Cache, answers: seq<Answer>, x: Execution, cfg: Config, web: Web)
    requires Complete(start, answers, x, cfg) && CidKey("") in FinalCache(start, answers, x, cfg, web)
    ensures CidKey("") in start
  {
    hide Run, JobsIn, IsFetch;
    StageIsScheduleIndependent(start, answers, x.schedule, cfg);
    WritesAreFetches(start, answers, x, cfg, web);
    var writes := FetchWrites(JobsIn(Run(start, answers, x.schedule, cfg).workers, x.completed), x.fetched, web);
    StoredAt(WithCopies(start, answers, cfg), writes, CidKey(""));
    if HasCopy(start, answers, CidKey(""), cfg) {
      FetchableIsNotCidKey(CidKey(""));
      assert false;
    }
    if w :| w in writes && Writes(w, CidKey("")) {
      NoFetchOfEmptyCid(start, answers, w, cfg, web);
    }
  }

  lemma NoFetchOfEmptyCid(start: Cache, answers: seq<Answer>, w: Write, cfg: Config, web: Web)
    requires IsFetch(start, answers, w, cfg, web)
    ensures !Writes(w, CidKey(""))
  {
    var uri :| Wanted(start, answers, uri, cfg) && IsFetchOf(uri, w, cfg, web);
    if Writes(w, CidKey("")) {
      FetchWritesWhere(uri, CidKey(""), cfg, web);
      assert false;
    }
  }

  /** What a sync records of a snapshot is sound. */
  lemma SnapshotsAreSound(start: Cache, answers: seq<Answer>, x: Execution, s: Snapshot, cfg: Config, web: Web)
    requires Complete(start, answers, x, cfg) && SoundCache(start)
    requires s in Snapshots(start, answers, x, cfg, web)
    ensures SoundWrite(Recorded(s))
  {
    hide Run, FinalCache, Snapshots, Complete;
    SnapshotsAre(start, answers, x, s, cfg, web);
    FinalCacheIsSound(start, answers, x, cfg, web);
    var i :| 0 <= i < |answers| && FirstSnapshot(start, answers, x, i, cfg, web) == Some(s);
    var cache := FinalCache(start, answers, x, cfg, web);
    var p := PendingOf(Run(start, answers, x.schedule, cfg).workers, i).value;
    PendingOfCidKey(start, answers, x, i, cfg, web);
    if Truthy(p.info.uri) && IsCidKey(Uri(p.info)) {
      var cid := Uri(p.info)[|CID_PREFIX|..];
      assert Uri(p.info) == CidKey(cid);
      if Uri(p.info) in start {
        CacheOnlyGrows(start, answers, x, Uri(p.info), cfg, web);
      } else if Uri(p.info) in cache && cid == "" {
        EmptyCidIsNotFetched(start, answers, x, cfg, web);
        assert false;
      }
    }
  }

  // -------------------------------------------------------- the table's life

  /** Every stored document is filed under no foreign CID key and names its address. */
  ghost predicate SoundTable(t: Tables) {
    forall id | id in t.agents :: SoundWrite(RowWrite(t.agents[id]))
  }

  /** One sync: the order of its query, the registry's answers, the scheduler, the settings and the network. */
  datatype SyncRun = SyncRun(
    rows: seq<AgentRow>,
    answers: seq<Answer>,
    execution: Execution,
    cfg: Config,
    web: Web,
    now: Time)

  ghost predicate CanSync(t: Tables, y: SyncRun) {
    Lists(y.rows, t.agents) && Complete(Load(y.rows), y.answers, y.execution, y.cfg)
  }

  /** A sync loads its cache from one table and, after the fetches, applies its snapshots to the one it then finds. */
  ghost predicate Synced(loaded: Tables, t: Tables, y: SyncRun, t': Tables) {
    && CanSync(loaded, y)
    && t' == Reconciled(t, Snapshots(Load(y.rows), y.answers, y.execution, y.cfg, y.web), y.now)
  }

  ghost predicate SomeSync(loaded: Tables, t: Tables, t': Tables) {
    exists y :: Synced(loaded, t, y, t')
  }

  /** Some sync that loaded its cache no later than now ends here; others may have written in between. */
  ghost predicate SyncEnds(earlier: seq<Tables>, t: Tables, t': Tables) {
    exists k | 0 <= k < |earlier| :: SomeSync(earlier[k], t, t')
  }

  /** Publishing metadata writes the three fields of one Pinata upload. */
  predicate Published(row: AgentRow) {
    && row.cid.Some? && row.uri == Some("ipfs://" + row.cid.value)
    && Truthy(row.url)
  }

  /**
   * Everything else that edits the table: rows may go, be published, or change
   * in other fields, and new rows come without a registry document.
   */
  ghost predicate EditedElsewhere(t: Tables, t': Tables) {
    forall id | id in t'.agents ::
      || (id in t.agents && RowWrite(t'.agents[id]) == RowWrite(t.agents[id]))
      || Published(t'.agents[id])
      || t'.agents[id].metadata.None?
  }

  ghost predicate StepAt(tables: seq<Tables>, i: nat)
    requires i + 1 < |tables|
  {
    EditedElsewhere(tables[i], tables[i + 1]) || SyncEnds(tables[..i + 1], tables[i], tables[i + 1])
  }

  /** The successive tables of a database that starts empty. */
  ghost predicate IsHistory(tables: seq<Tables>) {
    && tables != [] && tables[0].agents == map[]
    && forall i: nat | i + 1 < |tables| :: StepAt(tables, i)
  }

  lemma PublishedIsSound(row: AgentRow)
    requires Published(row)
    ensures SoundWrite(RowWrite(row))
  {
    assert row.uri.value[0] == 'i';
  }

  lemma SyncKeepsTableSound(loaded: Tables, t: Tables, y: SyncRun, t': Tables)
    requires SoundTable(loaded) && SoundTable(t) && Synced(loaded, t, y, t')
    ensures SoundTable(t')
  {
    hide SoundWrite, Complete, Snapshots;
    LoadOfSoundTable(loaded, y.rows);
    var snaps := Snapshots(Load(y.rows), y.answers, y.execution, y.cfg, y.web);
    forall id | id in t'.agents
      ensures SoundWrite(RowWrite(t'.agents[id]))
    {
      RowAfter(t, snaps, y.now, id);
      if id in Ids(snaps) {
        var s :| s in snaps && s.agentId == id && RowWrite(t'.agents[id]) == Recorded(s);
        SnapshotsAreSound(Load(y.rows), y.answers, y.execution, s, y.cfg, y.web);
      }
    }
  }

  lemma LoadOfSoundTable(t: Tables, rows: seq<AgentRow>)
    requires SoundTable(t) && Lists(rows, t.agents)
    ensures SoundCache(Load(rows))
  {
    LoadIsSound(rows);
  }

  lemma EditKeepsTableSound(t: Tables, t': Tables)
    requires SoundTable(t) && EditedElsewhere(t, t')
    ensures SoundTable(t')
  {
    forall id | id in t'.agents
      ensures SoundWrite(RowWrite(t'.agents[id]))
    {
      if Published(t'.agents[id]) {
        PublishedIsSound(t'.agents[id]);
      }
    }
  }

  /** Whatever syncs and edits the table goes through, and however they overlap, it stays sound. */
  lemma {:induction false} TablesAreSound(tables: seq<Tables>, n: nat)
    requires IsHistory(tables) && n < |tables|
    ensures forall m | 0 <= m <= n :: SoundTable(tables[m])
  {
    if n > 0 {
      hide SoundTable, EditedElsewhere, Synced;
      TablesAreSound(tables, n - 1);
      assert StepAt(tables, n - 1);
      var t, t' := tables[n - 1], tables[n];
      if EditedElsewhere(t, t') {
        EditKeepsTableSound(t, t');
      } else {
        var k :| 0 <= k < n && SomeSync(tables[..n][k], t, t');
        var y :| Synced(tables[k], t, y, t');
        SyncKeepsTableSound(tables[k], t, y, t');
      }
    } else {
      assert SoundTable(tables[0]);
    }
  }

  /**
   * At every point of every life, in the cache a sync loads and in the one it
   * ends with, under whatever schedule: entries hold a payload and an address,
   * and an entry under a CID key carries that CID.
   */
  lemma CacheAgreesAlways(tables: seq<Tables>, n: nat, y: SyncRun)
    requires IsHistory(tables) && n < |tables| && CanSync(tables[n], y)
    ensures SoundCache(Load(y.rows)) && HoldsPayloads(Load(y.rows))
    ensures var end := FinalCache(Load(y.rows), y.answers, y.execution, y.cfg, y.web);
      SoundCache(end) && HoldsPayloads(end)
  {
    hide FinalCache, Complete;
    TablesAreSound(tables, n);
    LoadOfSoundTable(tables[n], y.rows);
    LoadedCache(y.rows);
    FinalCacheIsSound(Load(y.rows), y.answers, y.execution, y.cfg, y.web);
    FinalInvariants(y.rows, y.answers, y.execution, y.cfg, y.web);
  }

  /** In a sound cache repeated URIs are harmless. */
  lemma SoundCachesSettle(start: Cache, answers: seq<Answer>, cfg: Config)
    requires SoundCache(start)
    ensures TwinsSettled(start, answers, cfg)
  {
  }

  /**
   * Confluence over real lives: two executions of one sync, at any point, leave
   * the same cache and snapshots, and with distinct agent ids the same tables,
   * whatever table they are applied to. Repeated URIs need no assumption;
   * wanted URIs that differ have distinct CIDs.
   */
  lemma SyncIsConfluentAlways(tables: seq<Tables>, n: nat, y: SyncRun, other: Execution, t: Tables)
    requires IsHistory(tables) && n < |tables| && CanSync(tables[n], y)
    requires Complete(Load(y.rows), y.answers, other, y.cfg)
    requires DistinctCids(Load(y.rows), y.answers, y.cfg)
    ensures var start := Load(y.rows);
      var a := Snapshots(start, y.answers, y.execution, y.cfg, y.web);
      var b := Snapshots(start, y.answers, other, y.cfg, y.web);
      && FinalCache(start, y.answers, y.execution, y.cfg, y.web) == FinalCache(start, y.answers, other, y.cfg, y.web)
      && multiset(a) == multiset(b) && multiset(Ids(a)) == multiset(Ids(b))
      && (DistinctIds(a) ==> Reconciled(t, a, y.now) == Reconciled(t, b, y.now))
  {
    hide FinalCache, Snapshots, Complete, Reconciled, DistinctCids, FetchesAgree, TwinsSettled;
    CacheAgreesAlways(tables, n, y);
    SoundCachesSettle(Load(y.rows), y.answers, y.cfg);
    DistinctCidsAgree(Load(y.rows), y.answers, y.cfg, y.web);
    SyncIsConfluent(t, Load(y.rows), y.answers, y.execution, other, y.cfg, y.web, y.now);
  }

  /** No domain's URI has white space around it. */
  ghost predicate UrisAreStripped(answers: seq<Answer>) {
    forall i | 0 <= i < |answers| && answers[i].Resolved? && answers[i].info.uri.Some? ::
      Stripped(answers[i].info.uri.value)
  }

  lemma SameCidSameUri(u: string, v: string, cfg: Config)
    requires Truthy(Resolve(u, cfg).cid) && Resolve(u, cfg).cid == Resolve(v, cfg).cid
    ensures Strip(u) == Strip(v)
  {
    assert Strip(u) == IPFS + Resolve(u, cfg).cid.value;
    assert Strip(v) == IPFS + Resolve(v, cfg).cid.value;
  }

  /** Wanted URIs that differ have distinct CIDs unless two IPFS ones differ only in the white space around them. */
  lemma CidsAreDistinctExactlyWhen(start: Cache, answers: seq<Answer>, cfg: Config)
    ensures DistinctCids(start, answers, cfg) <==>
      forall u, v | Wanted(start, answers, u, cfg) && Wanted(start, answers, v, cfg)
                    && Truthy(Resolve(u, cfg).cid) && Strip(u) == Strip(v) :: u == v
  {
    hide Wanted, Resolve;
    forall u, v | Truthy(Resolve(u, cfg).cid)
      ensures Resolve(u, cfg).cid == Resolve(v, cfg).cid <==> Strip(u) == Strip(v)
    {
      SameStripSameCid(u, v, cfg);
      if Resolve(u, cfg).cid == Resolve(v, cfg).cid {
        SameCidSameUri(u, v, cfg);
      }
    }
  }

  lemma SameStripSameCid(u: string, v: string, cfg: Config)
    ensures Strip(u) == Strip(v) ==> Resolve(u, cfg) == Resolve(v, cfg)
  {
  }

  /** Confluence over real lives without any assumption on CIDs, when URIs come without white space around them. */
  lemma SyncOfStrippedUrisIsConfluent(tables: seq<Tables>, n: nat, y: SyncRun, other: Execution, t: Tables)
    requires IsHistory(tables) && n < |tables| && CanSync(tables[n], y)
    requires Complete(Load(y.rows), y.answers, other, y.cfg) && UrisAreStripped(y.answers)
    ensures var start := Load(y.rows);
      var a := Snapshots(start, y.answers, y.execution, y.cfg, y.web);
      var b := Snapshots(start, y.answers, other, y.cfg, y.web);
      && multiset(a) == multiset(b) && multiset(Ids(a)) == multiset(Ids(b))
      && (DistinctIds(a) ==> Reconciled(t, a, y.now) == Reconciled(t, b, y.now))
  {
    hide FinalCache, Snapshots, Complete, Reconciled, DistinctCids, Load;
    forall u, v | Wanted(Load(y.rows), y.answers, u, y.cfg) && Wanted(Load(y.rows), y.answers, v, y.cfg)
                  && Truthy(Resolve(u, y.cfg).cid) && Strip(u) == Strip(v)
      ensures u == v
    {
      assert Stripped(u) && Stripped(v);
    }
    CidsAreDistinctExactlyWhen(Load(y.rows), y.answers, y.cfg);
    SyncIsConfluentAlways(tables, n, y, other, t);
  }

  /** No two rows with a document share a URI or a CID but disagree on what they record. */
  ghost predicate DistinctDocuments(rows: seq<AgentRow>) {
    forall a, b | a in rows && b in rows && a.metadata.Some? && b.metadata.Some?
                  && ((Truthy(a.uri) && a.uri == b.uri) || (Truthy(a.cid) && a.cid == b.cid)) ::
      RowWrite(a).entry == RowWrite(b).entry
  }

  lemma SoleWriters(rows: seq<AgentRow>, own: AgentRow, row: AgentRow, uri: string)
    requires DistinctDocuments(rows) && own in rows && row in rows
    requires SoundWrite(RowWrite(own)) && own.metadata.Some? && own.uri == Some(uri) && RowWrites(row, uri)
    ensures RowWrite(row).entry == RowWrite(own).entry
  {
    if row.uri != own.uri {
      assert CidKey(row.cid.value)[|CID_PREFIX|..] == row.cid.value;
      assert own.cid == row.cid;
    }
  }

  /**
   * Over real lives, a second sync after one with distinct agent ids rebuilds
   * identically every snapshot that has its document, whatever it fetches and
   * under any schedule, when the rows the first one left have distinct documents.
   */
  lemma SnapshotIsRebuiltAlways(tables: seq<Tables>, n: nat, y: SyncRun, rows': seq<AgentRow>, later: seq<Answer>,
                                z: Execution, i: nat, uri: string, web': Web)
    requires IsHistory(tables) && n < |tables|
    requires FirstSync(tables[n], y.rows, y.answers, y.execution, rows', y.cfg, y.web, y.now)
    requires Unchanged(y.answers, later) && Complete(Load(rows'), later, z, y.cfg) && DistinctDocuments(rows')
    requires i < |y.answers| && Asks(y.answers[i], uri) && Delivers(later[i])
    requires Obtained(Load(y.rows), y.answers, y.execution, i, y.cfg, y.web)
    ensures FirstSnapshot(Load(rows'), later, z, i, y.cfg, web') ==
            FirstSnapshot(Load(y.rows), y.answers, y.execution, i, y.cfg, y.web)
  {
    hide FinalCache, Snapshots, Complete, SoundWrite, DistinctDocuments, RowWrites;
    var start := Load(y.rows);
    var s := FirstSnapshot(start, y.answers, y.execution, i, y.cfg, y.web).value;
    TablesAreSound(tables, n);
    LoadOfSoundTable(tables[n], y.rows);
    SnapshotExists(start, y.answers, y.execution, i, y.cfg, y.web);
    SnapshotsAre(start, y.answers, y.execution, s, y.cfg, y.web);
    SnapshotsAreSound(start, y.answers, y.execution, s, y.cfg, y.web);
    ObtainedIsCached(tables[n], y.rows, y.answers, y.execution, rows', s, y.cfg, y.web, y.now);
    var own :| own in rows' && RowWrite(own) == Recorded(s);
    forall row | row in rows' && RowWrites(row, uri)
      ensures RowWrite(row).entry == Recorded(s).entry
    {
      SoleWriters(rows', own, row, uri);
    }
    SnapshotIsRebuilt(tables[n], y.rows, y.answers, y.execution, rows', later, i, uri, z, y.cfg, y.web,
                      web', y.now);
  }
}
