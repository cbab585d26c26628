/**
 * One whole fetch of the registry (shared/registry_sync.py,
 * _fetch_registry_snapshots): domains, metadata jobs and snapshots, with the
 * completion order of both worker pools left open.
 */
module RegistryFetch {
  import opened Options
  import opened RegistryTypes
  import opened MetadataCache
  import opened MetadataFetch
  import opened DomainResolution
  import opened Gathering

  // ------------------------------------------------------------- collecting

  function ResultOf(workers: seq<Worker>, i: nat): Option<Result> {
    if i < |workers| && workers[i].Done? then workers[i].result else None
  }

  function PendingOf(workers: seq<Worker>, i: nat): Option<Pending> {
    var r := ResultOf(workers, i);
    if r.Some? then Some(r.value.pending) else None
  }

  function AddJob(jobs: map<string, Job>, r: Option<Result>): map<string, Job> {
    if r.Some? && r.value.job.Some? && r.value.job.value.uri != "" then
      jobs[r.value.job.value.uri := r.value.job.value]
    else jobs
  }

  /** The jobs of the results in an order of completion; a later one replaces an earlier one of the same URI. */
  function JobsIn(workers: seq<Worker>, order: seq<nat>): map<string, Job> {
    if order == [] then map[]
    else AddJob(JobsIn(workers, order[..|order| - 1]), ResultOf(workers, order[|order| - 1]))
  }

  function PendingIn(workers: seq<Worker>, order: seq<nat>): seq<Pending> {
    Gather(order, (i: nat) => PendingOf(workers, i))
  }

  function FetchWrite(job: Job, web: Web): Write {
    Write(Some(job.uri), Fetched(job, web))
  }

  /** The stores of the fetched documents, in the order in which the fetches complete. */
  function FetchWrites(jobs: map<string, Job>, fetched: seq<string>, web: Web): seq<Write>
    requires forall uri | uri in fetched :: uri in jobs
  {
    seq(|fetched|, i requires 0 <= i < |fetched| => FetchWrite(jobs[fetched[i]], web))
  }

  /** A snapshot takes what the cache has for it in preference to what it carries. */
  function SnapshotOf(cache: Cache, p: Pending): Snapshot {
    var hit := Lookup(cache, p.info.uri, p.cid);
    if hit.None? then BuildSnapshot(p.info, None, p.url, p.cid)
    else BuildSnapshot(p.info, hit.value.payload, OrElse(hit.value.url, p.url), OrElse(hit.value.cid, p.cid))
  }

  function SnapshotAt(cache: Cache, workers: seq<Worker>, i: nat): Option<Snapshot> {
    var p := PendingOf(workers, i);
    if p.Some? then Some(SnapshotOf(cache, p.value)) else None
  }

  /** What the scheduler decides: the steps of the workers and the two orders of completion. */
  datatype Execution = Execution(schedule: seq<nat>, completed: seq<nat>, fetched: seq<string>)

  /** Every worker ends, every result is collected once, every job is fetched once. */
  ghost predicate Complete(start: Cache, answers: seq<Answer>, x: Execution, cfg: Config) {
    var s := Run(start, answers, x.schedule, cfg);
    && Finished(s)
    && IsOrder(x.completed, |answers|)
    && NoRepeats(x.fetched)
    && (forall uri :: uri in x.fetched <==> uri in JobsIn(s.workers, x.completed))
  }

  function FinalCache(start: Cache, answers: seq<Answer>, x: Execution, cfg: Config, web: Web): Cache
    requires Complete(start, answers, x, cfg)
  {
    var s := Run(start, answers, x.schedule, cfg);
    StoreAll(s.cache, FetchWrites(JobsIn(s.workers, x.completed), x.fetched, web))
  }

  function Snapshots(start: Cache, answers: seq<Answer>, x: Execution, cfg: Config, web: Web): seq<Snapshot>
    requires Complete(start, answers, x, cfg)
  {
    var s := Run(start, answers, x.schedule, cfg);
    var cache := FinalCache(start, answers, x, cfg, web);
    Gather(x.completed, (i: nat) => SnapshotAt(cache, s.workers, i))
  }

  // ------------------------------------------------------------ the code itself

  predicate Raises(answer: Answer) {
    answer.Raised? || (answer.Resolved? && answer.raisesLate)
  }

  /** The sequential branch: an exception from any domain ends the whole fetch. */
  method ResolveInTurn(cache: CacheTable, answers: seq<Answer>, cfg: Config)
    returns (ok: bool, pending: seq<Pending>, jobs: map<string, Job>)
    modifies cache
    ensures ok <==> forall i | 0 <= i < |answers| :: !Raises(answers[i])
    ensures ok ==> var s := InTurn(old(cache.entries), answers, |answers|, cfg);
      && cache.entries == s.cache
      && pending == PendingIn(s.workers, Indices(|answers|)) && jobs == JobsIn(s.workers, Indices(|answers|))
  {
    hide Process;
    pending, jobs := [], map[];
    ghost var start := cache.entries;
    for n := 0 to |answers|
      invariant cache.entries == InTurn(start, answers, n, cfg).cache
      invariant pending == PendingIn(InTurn(start, answers, n, cfg).workers, Indices(n))
      invariant jobs == JobsIn(InTurn(start, answers, n, cfg).workers, Indices(n))
      invariant forall i | 0 <= i < n :: !Raises(answers[i])
    {
      ghost var before := InTurn(start, answers, n, cfg);
      var w := ProcessDomain(cache, answers[n], cfg);
      ProcessEnds(before.cache, answers[n], cfg);
      if w.Died? {
        return false, [], map[];
      }
      CollectOne(before.workers, n, w);
      assert InTurn(start, answers, n + 1, cfg) == State(cache.entries, before.workers[n := w]);
      if w.result.Some? {
        pending := pending + [w.result.value.pending];
        if w.result.value.job.Some? && w.result.value.job.value.uri != "" {
          jobs := jobs[w.result.value.job.value.uri := w.result.value.job.value];
        }
      }
    }
    ok := true;
  }

  /** The parallel branch: results in the order in which the workers end; a domain that raised is passed over. */
  method CollectAsCompleted(workers: seq<Worker>, completed: seq<nat>)
    returns (pending: seq<Pending>, jobs: map<string, Job>)
    requires forall i | i in completed :: i < |workers| && Ended(workers[i])
    ensures pending == PendingIn(workers, completed) && jobs == JobsIn(workers, completed)
  {
    pending, jobs := [], map[];
    for n := 0 to |completed|
      invariant pending == PendingIn(workers, completed[..n]) && jobs == JobsIn(workers, completed[..n])
    {
      assert completed[..n + 1][..n] == completed[..n];
      assert completed[n] in completed;
      var w := workers[completed[n]];
      if w.Died? {
        continue;
      }
      if w.result.Some? {
        pending := pending + [w.result.value.pending];
        if w.result.value.job.Some? && w.result.value.job.value.uri != "" {
          jobs := jobs[w.result.value.job.value.uri := w.result.value.job.value];
        }
      }
    }
    assert completed[..|completed|] == completed;
  }

  lemma ProcessEnds(cache: Cache, answer: Answer, cfg: Config)
    ensures var (_, w) := Process(cache, answer, cfg); if Raises(answer) then w == Died else w.Done?
  {
  }

  lemma IndicesGrow(n: nat)
    ensures Indices(n + 1) != [] && Indices(n + 1)[|Indices(n + 1)| - 1] == n
    ensures Indices(n + 1)[..|Indices(n + 1)| - 1] == Indices(n)
  {
  }

  /** Collecting the result of the next domain. */
  lemma CollectOne(workers: seq<Worker>, n: nat, w: Worker)
    requires n < |workers| && w.Done?
    ensures PendingIn(workers[n := w], Indices(n + 1)) ==
      PendingIn(workers, Indices(n)) + if w.result.Some? then [w.result.value.pending] else []
    ensures JobsIn(workers[n := w], Indices(n + 1)) == AddJob(JobsIn(workers, Indices(n)), w.result)
  {
    hide Indices, AddJob;
    IndicesGrow(n);
    CollectingIsLocal(workers, n, w);
    assert ResultOf(workers[n := w], n) == w.result;
  }

  lemma {:induction false} CollectingIsLocal(workers: seq<Worker>, n: nat, w: Worker)
    requires n < |workers|
    ensures PendingIn(workers[n := w], Indices(n)) == PendingIn(workers, Indices(n))
    ensures JobsIn(workers[n := w], Indices(n)) == JobsIn(workers, Indices(n))
  {
    GatherAgrees(Indices(n), (i: nat) => PendingOf(workers[n := w], i), (i: nat) => PendingOf(workers, i));
    JobsAgree(workers[n := w], workers, Indices(n));
  }

  lemma {:induction false} JobsAgree(workers: seq<Worker>, others: seq<Worker>, order: seq<nat>)
    requires forall i | i in order :: ResultOf(workers, i) == ResultOf(others, i)
    ensures JobsIn(workers, order) == JobsIn(others, order)
  {
    if order != [] {
      assert order == order[..|order| - 1] + [order[|order| - 1]];
      JobsAgree(workers, others, order[..|order| - 1]);
    }
  }

  /** `_fetch_metadata_batch` and the stores that follow it. */
  method FetchAndStore(cache: CacheTable, jobs: map<string, Job>, fetched: seq<string>, web: Web)
    requires forall uri | uri in fetched :: uri in jobs
    requires forall uri | uri in jobs :: jobs[uri].uri == uri
    modifies cache
    ensures cache.entries == StoreAll(old(cache.entries), FetchWrites(jobs, fetched, web))
  {
    ghost var writes := FetchWrites(jobs, fetched, web);
    for n := 0 to |fetched|
      invariant cache.entries == StoreAll(old(cache.entries), writes[..n])
    {
      assert writes[..n + 1][..n] == writes[..n];
      var entry := FetchMetadataFromJob(jobs[fetched[n]], web);
      cache.StoreEntry(Some(fetched[n]), entry.url, entry.cid, entry.payload);
    }
    assert writes[..|fetched|] == writes;
  }

  /** The last loop of `_fetch_registry_snapshots`. */
  method BuildSnapshots(cache: CacheTable, pending: seq<Pending>) returns (snapshots: seq<Snapshot>)
    ensures |snapshots| == |pending|
    ensures forall i | 0 <= i < |pending| :: snapshots[i] == SnapshotOf(cache.entries, pending[i])
  {
    snapshots := [];
    for n := 0 to |pending|
      invariant |snapshots| == n
      invariant forall i | 0 <= i < n :: snapshots[i] == SnapshotOf(cache.entries, pending[i])
    {
      var p := pending[n];
      var payload: Option<Payload>, url, cid := None, p.url, p.cid;
      var hit := Lookup(cache.entries, p.info.uri, p.cid);
      if hit.Some? {
        payload, url, cid := hit.value.payload, OrElse(hit.value.url, url), OrElse(hit.value.cid, cid);
      }
      snapshots := snapshots + [BuildSnapshot(p.info, payload, url, cid)];
    }
  }

  lemma {:induction false} BuiltIsGathered(cache: Cache, workers: seq<Worker>, order: seq<nat>, built: seq<Snapshot>)
    requires |built| == |PendingIn(workers, order)|
    requires forall i | 0 <= i < |built| :: built[i] == SnapshotOf(cache, PendingIn(workers, order)[i])
    ensures built == Gather(order, (i: nat) => SnapshotAt(cache, workers, i))
  {
    if order != [] {
      var before, last := order[..|order| - 1], order[|order| - 1];
      var n := |PendingIn(workers, before)|;
      BuiltIsGathered(cache, workers, before, built[..n]);
      assert built == built[..n] + if PendingOf(workers, last).Some? then [built[n]] else [];
    }
  }

  /** The execution of the sequential branch, with the fetches completing as given. */
  function Sequential(answers: seq<Answer>, fetched: seq<string>): Execution {
    Execution(ThriceEach(|answers|), Indices(|answers|), fetched)
  }

  /** Every URI of a set of jobs once: some order in which the fetches complete. */
  ghost predicate FetchesAll(jobs: map<string, Job>, fetched: seq<string>) {
    NoRepeats(fetched) && forall uri :: uri in fetched <==> uri in jobs
  }

  /** The sequential branch as a whole yields the snapshots of the sequential execution. */
  method FetchSequentially(cache: CacheTable, answers: seq<Answer>, cfg: Config, web: Web,
                           order: map<string, Job> -> seq<string>)
    returns (ok: bool, snapshots: seq<Snapshot>, fetched: seq<string>)
    requires forall jobs :: FetchesAll(jobs, order(jobs))
    modifies cache
    ensures ok <==> forall i | 0 <= i < |answers| :: !Raises(answers[i])
    ensures ok ==>
      && Complete(old(cache.entries), answers, Sequential(answers, fetched), cfg)
      && snapshots == Snapshots(old(cache.entries), answers, Sequential(answers, fetched), cfg, web)
      && cache.entries == FinalCache(old(cache.entries), answers, Sequential(answers, fetched), cfg, web)
  {
    hide InTurn, Run, JobsIn;
    ghost var start := cache.entries;
    var pending, jobs;
    ok, pending, jobs := ResolveInTurn(cache, answers, cfg);
    snapshots, fetched := [], [];
    if ok {
      SequentialIsAnExecution(start, answers, cfg);
      fetched := order(jobs);
      FetchAndStore(cache, jobs, fetched, web);
      snapshots := BuildSnapshots(cache, pending);
      BuiltIsGathered(cache.entries, InTurn(start, answers, |answers|, cfg).workers, Indices(|answers|), snapshots);
    }
  }

  lemma SequentialIsAnExecution(start: Cache, answers: seq<Answer>, cfg: Config)
    ensures var s := InTurn(start, answers, |answers|, cfg);
      && s == Run(start, answers, ThriceEach(|answers|), cfg) && Finished(s)
      && IsOrder(Indices(|answers|), |answers|)
      && forall uri | uri in JobsIn(s.workers, Indices(|answers|)) ::
           JobsIn(s.workers, Indices(|answers|))[uri].uri == uri
  {
    InTurnIsASchedule(start, answers, |answers|, cfg);
    JobsAreCanonical(start, answers, ThriceEach(|answers|), Indices(|answers|), cfg);
  }

  // -------------------------------------------------- what no order can change

  /** The answer calls for a fetch of this URI. */
  predicate Wants(start: Cache, answer: Answer, uri: string, cfg: Config) {
    && answer.Resolved? && !answer.raisesLate && answer.info.uri == Some(uri)
    && Fetchable(uri) && uri !in start && !CachedByCid(start, uri, cfg)
  }

  predicate Wanted(start: Cache, answers: seq<Answer>, uri: string, cfg: Config) {
    exists i | 0 <= i < |answers| :: Wants(start, answers[i], uri, cfg)
  }

  predicate HasJob(workers: seq<Worker>, i: nat, uri: string) {
    var r := ResultOf(workers, i);
    r.Some? && r.value.job.Some? && r.value.job.value.uri == uri && uri != ""
  }

  predicate SomeHasJob(workers: seq<Worker>, order: seq<nat>, uri: string) {
    exists k | 0 <= k < |order| :: HasJob(workers, order[k], uri)
  }

  lemma SomeHasJobStep(workers: seq<Worker>, order: seq<nat>, uri: string)
    requires order != []
    ensures SomeHasJob(workers, order, uri) <==>
      SomeHasJob(workers, order[..|order| - 1], uri) || HasJob(workers, order[|order| - 1], uri)
  {
    hide HasJob;
    var before := order[..|order| - 1];
    if k :| 0 <= k < |before| && HasJob(workers, before[k], uri) {
      assert HasJob(workers, order[k], uri);
    }
    if k :| 0 <= k < |order| && HasJob(workers, order[k], uri) {
      assert k < |before| ==> before[k] == order[k];
    }
  }

  /** The collected URIs are those of the results' jobs. */
  lemma {:induction false} JobsAt(workers: seq<Worker>, order: seq<nat>, uri: string)
    ensures uri in JobsIn(workers, order) <==> SomeHasJob(workers, order, uri)
  {
    if order != [] {
      JobsAt(workers, order[..|order| - 1], uri);
      SomeHasJobStep(workers, order, uri);
    }
  }

  /** A job that is there at all is the one its URI calls for. */
  predicate JobIsFor(r: Option<Result>, cfg: Config) {
    r.Some? && r.value.job.Some? ==> r.value.job == JobFor(r.value.job.value.uri, cfg)
  }

  /** Every collected job is filed under its URI and is the one that URI calls for. */
  ghost predicate JobsAreTheirUris(jobs: map<string, Job>, cfg: Config) {
    forall uri | uri in jobs :: jobs[uri].uri == uri && Some(jobs[uri]) == JobFor(uri, cfg)
  }

  lemma AddedJobIsFor(jobs: map<string, Job>, r: Option<Result>, cfg: Config)
    requires JobsAreTheirUris(jobs, cfg) && JobIsFor(r, cfg)
    ensures JobsAreTheirUris(AddJob(jobs, r), cfg)
  {
  }

  lemma {:induction false} JobsAreFor(workers: seq<Worker>, order: seq<nat>, cfg: Config)
    requires forall k | 0 <= k < |order| :: JobIsFor(ResultOf(workers, order[k]), cfg)
    ensures JobsAreTheirUris(JobsIn(workers, order), cfg)
  {
    if order != [] {
      var before, last := order[..|order| - 1], order[|order| - 1];
      JobsAreFor(workers, before, cfg);
      AddedJobIsFor(JobsIn(workers, before), ResultOf(workers, last), cfg);
    }
  }

  lemma DecideWants(start: Cache, answer: Answer, cfg: Config)
    requires answer.Resolved? && !answer.raisesLate
    ensures var job := Decide(start, answer.info, cfg).job;
      && (job.Some? ==>
            Wants(start, answer, job.value.uri, cfg) && job == JobFor(job.value.uri, cfg) && job.value.uri != "")
      && (forall uri | Wants(start, answer, uri, cfg) :: job.Some? && job.value.uri == uri)
  {
    if Truthy(answer.info.uri) {
      JobsExactlyForFetchable(answer.info.uri.value, cfg);
    }
  }

  /** The jobs are those of the wanted URIs, under every schedule and order of completion. */
  lemma JobsAreCanonical(start: Cache, answers: seq<Answer>, schedule: seq<nat>, completed: seq<nat>, cfg: Config)
    requires Finished(Run(start, answers, schedule, cfg)) && IsOrder(completed, |answers|)
    ensures var jobs := JobsIn(Run(start, answers, schedule, cfg).workers, completed);
      && (forall uri | uri in jobs :: jobs[uri].uri == uri && Some(jobs[uri]) == JobFor(uri, cfg))
      && (forall uri :: uri in jobs <==> Wanted(start, answers, uri, cfg))
  {
    var workers := Run(start, answers, schedule, cfg).workers;
    StageIsScheduleIndependent(start, answers, schedule, cfg);
    OrderMembers(completed, |answers|);
    forall i | 0 <= i < |answers|
      ensures forall uri :: HasJob(workers, i, uri) <==> Wants(start, answers[i], uri, cfg)
      ensures JobIsFor(ResultOf(workers, i), cfg)
    {
      if answers[i].Resolved? && !answers[i].raisesLate {
        DecideWants(start, answers[i], cfg);
      }
    }
    JobsAreFor(workers, completed, cfg);
    hide HasJob, Wants, Run;
    forall uri
      ensures uri in JobsIn(workers, completed) <==> Wanted(start, answers, uri, cfg)
    {
      JobsAt(workers, completed, uri);
      if i :| 0 <= i < |answers| && Wants(start, answers[i], uri, cfg) {
        assert i in completed && HasJob(workers, i, uri);
        var k :| 0 <= k < |completed| && completed[k] == i;
      }
      if k :| 0 <= k < |completed| && HasJob(workers, completed[k], uri) {
        assert completed[k] in completed;
      }
    }
  }
}
