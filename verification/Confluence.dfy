/**
 * The registry sync is confluent: no interleaving of the domain workers and no
 * order of completion, of domains or of fetches, changes what it stores
 * (shared/registry_sync.py).
 */
module Confluence {
  import opened Options
  import opened RegistryTypes
  import opened MetadataCache
  import opened MetadataFetch
  import opened DomainResolution
  import opened Gathering
  import opened RegistryFetch
  import opened RegistryApply

  /** The write is that of the fetch of some wanted URI. */
  ghost predicate IsFetch(start: Cache, answers: seq<Answer>, w: Write, cfg: Config, web: Web) {
    exists uri :: Wanted(start, answers, uri, cfg) && IsFetchOf(uri, w, cfg, web)
  }

  predicate IsFetchOf(uri: string, w: Write, cfg: Config, web: Web) {
    JobFor(uri, cfg).Some? && w == FetchWrite(JobFor(uri, cfg).value, web)
  }

  /** Fetched documents that share a cache key are the same. */
  ghost predicate FetchesAgree(start: Cache, answers: seq<Answer>, cfg: Config, web: Web) {
    forall v, w, key | IsFetch(start, answers, v, cfg, web) && IsFetch(start, answers, w, cfg, web)
                       && Writes(v, key) && Writes(w, key) :: v.entry == w.entry
  }

  /** A repeated URI that is cached only by its CID has an address and a CID in its entry. */
  ghost predicate TwinsSettled(start: Cache, answers: seq<Answer>, cfg: Config) {
    forall i | 0 <= i < |answers| && HasTwin(answers, i) && !answers[i].raisesLate
               && Truthy(answers[i].info.uri) && CachedByCid(start, Uri(answers[i].info), cfg) ::
      var e := CidEntry(start, Uri(answers[i].info), cfg); Truthy(e.url) && Truthy(e.cid)
  }

  /** Wanted URIs that differ lead to different CIDs. */
  ghost predicate DistinctCids(start: Cache, answers: seq<Answer>, cfg: Config) {
    forall u, v | Wanted(start, answers, u, cfg) && Wanted(start, answers, v, cfg)
                  && Truthy(Resolve(u, cfg).cid) && Resolve(u, cfg).cid == Resolve(v, cfg).cid :: u == v
  }

  /** Distinct CIDs are enough for fetched documents to agree. */
  lemma DistinctCidsAgree(start: Cache, answers: seq<Answer>, cfg: Config, web: Web)
    requires DistinctCids(start, answers, cfg)
    ensures FetchesAgree(start, answers, cfg, web)
  {
    forall v, w, key | IsFetch(start, answers, v, cfg, web) && IsFetch(start, answers, w, cfg, web)
                       && Writes(v, key) && Writes(w, key)
      ensures v.entry == w.entry
    {
      var a :| Wanted(start, answers, a, cfg) && IsFetchOf(a, v, cfg, web);
      var b :| Wanted(start, answers, b, cfg) && IsFetchOf(b, w, cfg, web);
      FetchWritesWhere(a, key, cfg, web);
      FetchWritesWhere(b, key, cfg, web);
    }
  }

  /** A fetch writes its URI, which is no CID key, and the key of its CID. */
  lemma FetchWritesWhere(uri: string, key: string, cfg: Config, web: Web)
    requires Fetchable(uri) && JobFor(uri, cfg).Some?
    requires Writes(FetchWrite(JobFor(uri, cfg).value, web), key)
    ensures if IsCidKey(key) then Truthy(Resolve(uri, cfg).cid) && Resolve(uri, cfg).cid == Some(key[|CID_PREFIX|..])
            else key == uri
  {
    FetchableIsNotCidKey(uri);
  }

  /** No two domains resolve to the same metadata URI. */
  ghost predicate DistinctUris(answers: seq<Answer>) {
    forall i, j | 0 <= i < j < |answers| && answers[i].Resolved? && answers[j].Resolved?
                  && Truthy(answers[i].info.uri) :: answers[i].info.uri != answers[j].info.uri
  }

  /** Distinct URIs are enough for there to be no echo to settle. */
  lemma DistinctUrisSettle(start: Cache, answers: seq<Answer>, cfg: Config)
    requires DistinctUris(answers)
    ensures TwinsSettled(start, answers, cfg)
  {
  }

  // ------------------------------------------------------------ the final cache

  lemma WritesAreFetches(start: Cache, answers: seq<Answer>, x: Execution, cfg: Config, web: Web)
    requires Complete(start, answers, x, cfg)
    ensures var jobs := JobsIn(Run(start, answers, x.schedule, cfg).workers, x.completed);
      forall w :: w in FetchWrites(jobs, x.fetched, web) <==> IsFetch(start, answers, w, cfg, web)
  {
    hide Run, JobsIn, JobFor, FetchWrite, Wanted;
    JobsAreCanonical(start, answers, x.schedule, x.completed, cfg);
    var jobs := JobsIn(Run(start, answers, x.schedule, cfg).workers, x.completed);
    var writes := FetchWrites(jobs, x.fetched, web);
    forall w
      ensures w in writes <==> IsFetch(start, answers, w, cfg, web)
    {
      if w in writes {
        var i :| 0 <= i < |writes| && writes[i] == w;
        assert x.fetched[i] in x.fetched;
        assert IsFetchOf(x.fetched[i], w, cfg, web);
      }
      if IsFetch(start, answers, w, cfg, web) {
        var uri :| Wanted(start, answers, uri, cfg) && IsFetchOf(uri, w, cfg, web);
        assert uri in x.fetched;
        var i :| 0 <= i < |x.fetched| && x.fetched[i] == uri;
        assert writes[i] == w;
      }
    }
  }

  /** Two executions leave the same cache. */
  lemma SameFinalCache(start: Cache, answers: seq<Answer>, x: Execution, y: Execution, cfg: Config, web: Web)
    requires Complete(start, answers, x, cfg) && Complete(start, answers, y, cfg)
    requires FetchesAgree(start, answers, cfg, web)
    ensures FinalCache(start, answers, x, cfg, web) == FinalCache(start, answers, y, cfg, web)
  {
    hide Run, JobsIn, IsFetch;
    StageIsScheduleIndependent(start, answers, x.schedule, cfg);
    StageIsScheduleIndependent(start, answers, y.schedule, cfg);
    WritesAreFetches(start, answers, x, cfg, web);
    WritesAreFetches(start, answers, y, cfg, web);
    var a := FetchWrites(JobsIn(Run(start, answers, x.schedule, cfg).workers, x.completed), x.fetched, web);
    var b := FetchWrites(JobsIn(Run(start, answers, y.schedule, cfg).workers, y.completed), y.fetched, web);
    forall w
      ensures w in a <==> w in b
    {
      assert w in a <==> IsFetch(start, answers, w, cfg, web);
      assert w in b <==> IsFetch(start, answers, w, cfg, web);
    }
    StoresCommute(WithCopies(start, answers, cfg), a, b);
  }

  /** A URI cached only by its CID keeps, to the end, the entry of that CID. */
  lemma CopyIsKept(start: Cache, answers: seq<Answer>, x: Execution, i: nat, cfg: Config, web: Web)
    requires Complete(start, answers, x, cfg)
    requires i < |answers| && answers[i].Resolved? && Truthy(answers[i].info.uri)
    requires CachedByCid(start, Uri(answers[i].info), cfg)
    ensures var uri, cache := Uri(answers[i].info), FinalCache(start, answers, x, cfg, web);
      uri in cache && cache[uri] == CidEntry(start, uri, cfg)
  {
    hide Run, JobsIn, IsFetch;
    var uri := Uri(answers[i].info);
    StageIsScheduleIndependent(start, answers, x.schedule, cfg);
    assert Copies(start, answers[i], uri, cfg);
    WritesAreFetches(start, answers, x, cfg, web);
    var writes := FetchWrites(JobsIn(Run(start, answers, x.schedule, cfg).workers, x.completed), x.fetched, web);
    forall w | w in writes
      ensures !Writes(w, uri)
    {
      NoFetchWritesCopy(start, answers, w, uri, cfg, web);
    }
    StoredAt(WithCopies(start, answers, cfg), writes, uri);
  }

  lemma NoFetchWritesCopy(start: Cache, answers: seq<Answer>, w: Write, uri: string, cfg: Config, web: Web)
    requires IsFetch(start, answers, w, cfg, web) && CachedByCid(start, uri, cfg)
    ensures !Writes(w, uri)
  {
    var other :| Wanted(start, answers, other, cfg) && IsFetchOf(other, w, cfg, web);
    if Writes(w, uri) {
      FetchableIsNotCidKey(uri);
      FetchWritesWhere(other, uri, cfg, web);
      assert false;
    }
  }

  // -------------------------------------------------------------- the snapshots

  /** The snapshot of a domain as its answer and the final cache determine it. */
  function SnapshotFor(start: Cache, cache: Cache, answer: Answer, cfg: Config): Option<Snapshot> {
    if answer.Resolved? && !answer.raisesLate then Some(SnapshotOf(cache, Decide(start, answer.info, cfg).pending))
    else None
  }

  /** Every execution gives a domain that snapshot. */
  lemma SnapshotIsDetermined(start: Cache, answers: seq<Answer>, x: Execution, i: nat, cfg: Config, web: Web)
    requires Complete(start, answers, x, cfg) && TwinsSettled(start, answers, cfg) && i < |answers|
    ensures var cache := FinalCache(start, answers, x, cfg, web);
      SnapshotAt(cache, Run(start, answers, x.schedule, cfg).workers, i) == SnapshotFor(start, cache, answers[i], cfg)
  {
    hide Run, FinalCache;
    var s := Run(start, answers, x.schedule, cfg);
    StageIsScheduleIndependent(start, answers, x.schedule, cfg);
    TwinsAlways(start, answers, x.schedule, cfg);
    if answers[i].Resolved? && !answers[i].raisesLate {
      var info, r := answers[i].info, s.workers[i].result.value;
      if r != Decide(start, info, cfg) {
        assert HasTwin(answers, i);
        CopyIsKept(start, answers, x, i, cfg, web);
      }
    }
  }

  lemma SnapshotsAreDetermined(start: Cache, answers: seq<Answer>, x: Execution, cfg: Config, web: Web)
    requires Complete(start, answers, x, cfg) && TwinsSettled(start, answers, cfg)
    ensures var cache := FinalCache(start, answers, x, cfg, web);
      Snapshots(start, answers, x, cfg, web) ==
      Gather(x.completed, (i: nat) => if i < |answers| then SnapshotFor(start, cache, answers[i], cfg) else None)
  {
    hide Run, FinalCache, SnapshotFor, SnapshotAt;
    var s, cache := Run(start, answers, x.schedule, cfg), FinalCache(start, answers, x, cfg, web);
    OrderMembers(x.completed, |answers|);
    forall i | i in x.completed
      ensures SnapshotAt(cache, s.workers, i) == SnapshotFor(start, cache, answers[i], cfg)
    {
      SnapshotIsDetermined(start, answers, x, i, cfg, web);
    }
    GatherAgrees(x.completed, (i: nat) => SnapshotAt(cache, s.workers, i),
                 (i: nat) => if i < |answers| then SnapshotFor(start, cache, answers[i], cfg) else None);
  }

  /**
   * Confluence. Any two executions over the same answers leave the same cache
   * and the same snapshots up to order; if the agent ids differ, the same agents
   * and reputations, and returned id lists that are permutations of each other.
   */
  lemma SyncIsConfluent(t: Tables, start: Cache, answers: seq<Answer>, x: Execution, y: Execution,
                        cfg: Config, web: Web, now: Time)
    requires Complete(start, answers, x, cfg) && Complete(start, answers, y, cfg)
    requires FetchesAgree(start, answers, cfg, web) && TwinsSettled(start, answers, cfg)
    ensures FinalCache(start, answers, x, cfg, web) == FinalCache(start, answers, y, cfg, web)
    ensures var a, b := Snapshots(start, answers, x, cfg, web), Snapshots(start, answers, y, cfg, web);
      && multiset(a) == multiset(b)
      && multiset(Ids(a)) == multiset(Ids(b))
      && (DistinctIds(a) ==> Reconciled(t, a, now) == Reconciled(t, b, now))
  {
    hide Run, FinalCache, SnapshotFor, Snapshots, Reconciled;
    SameFinalCache(start, answers, x, y, cfg, web);
    SnapshotsAreDetermined(start, answers, x, cfg, web);
    SnapshotsAreDetermined(start, answers, y, cfg, web);
    var cache := FinalCache(start, answers, x, cfg, web);
    GatherPermutes(x.completed, y.completed,
                   (i: nat) => if i < |answers| then SnapshotFor(start, cache, answers[i], cfg) else None);
    var a, b := Snapshots(start, answers, x, cfg, web), Snapshots(start, answers, y, cfg, web);
    IdsPermute(a, b);
    forall s
      ensures s in a <==> s in b
    {
      assert s in multiset(a) <==> s in multiset(b);
    }
    if DistinctIds(a) {
      ReconciliationIgnoresOrder(t, a, b, now);
    }
  }

  /**
   * With distinct metadata URIs, CIDs and agent ids, every execution of the
   * parallel branch leaves what the sequential branch leaves when it completes,
   * which it does when no domain raises.
   */
  lemma ParallelEqualsSequential(t: Tables, start: Cache, answers: seq<Answer>, fetched: seq<string>, x: Execution,
                                 cfg: Config, web: Web, now: Time)
    requires Complete(start, answers, Sequential(answers, fetched), cfg) && Complete(start, answers, x, cfg)
    requires DistinctUris(answers) && DistinctCids(start, answers, cfg)
    requires DistinctIds(Snapshots(start, answers, Sequential(answers, fetched), cfg, web))
    ensures var inTurn := Snapshots(start, answers, Sequential(answers, fetched), cfg, web);
      && FinalCache(start, answers, x, cfg, web) == FinalCache(start, answers, Sequential(answers, fetched), cfg, web)
      && Reconciled(t, Snapshots(start, answers, x, cfg, web), now) == Reconciled(t, inTurn, now)
      && multiset(Ids(Snapshots(start, answers, x, cfg, web))) == multiset(Ids(inTurn))
  {
    hide Complete, FinalCache, Snapshots, Reconciled, DistinctCids, FetchesAgree, TwinsSettled, DistinctUris;
    DistinctUrisSettle(start, answers, cfg);
    DistinctCidsAgree(start, answers, cfg, web);
    SyncIsConfluent(t, start, answers, Sequential(answers, fetched), x, cfg, web, now);
  }

  lemma {:induction false} IdsPermute(a: seq<Snapshot>, b: seq<Snapshot>)
    requires multiset(a) == multiset(b)
    ensures multiset(Ids(a)) == multiset(Ids(b))
    decreases |a|
  {
    hide Ids;
    if a == [] {
      assert |multiset(b)| == 0;
    } else {
      assert a[0] in multiset(b);
      var k :| 0 <= k < |b| && b[k] == a[0];
      Without(a, 0);
      Without(b, k);
      IdsPermute(a[..0] + a[1..], b[..k] + b[k + 1..]);
    }
  }

  lemma Without(b: seq<Snapshot>, k: nat)
    requires k < |b|
    ensures multiset(b[..k] + b[k + 1..]) == multiset(b) - multiset{b[k]}
    ensures multiset(Ids(b)) == multiset(Ids(b[..k] + b[k + 1..])) + multiset{b[k].agentId}
  {
    WithoutOne(b, k);
    WithoutOne(Ids(b), k);
    IdsWithoutOne(b, k);
  }

  lemma WithoutOne<T>(b: seq<T>, k: nat)
    requires k < |b|
    ensures multiset(b[..k] + b[k + 1..]) == multiset(b) - multiset{b[k]}
    ensures multiset(b) == multiset(b[..k] + b[k + 1..]) + multiset{b[k]}
  {
    assert b == b[..k] + [b[k]] + b[k + 1..];
  }

  lemma IdsWithoutOne(b: seq<Snapshot>, k: nat)
    requires k < |b|
    ensures Ids(b[..k] + b[k + 1..]) == Ids(b)[..k] + Ids(b)[k + 1..]
  {
    var rest, ids := b[..k] + b[k + 1..], Ids(b);
    forall i | 0 <= i < |rest|
      ensures Ids(rest)[i] == (ids[..k] + ids[k + 1..])[i]
    {
      assert rest[i] == if i < k then b[i] else b[i + 1];
    }
  }
}
