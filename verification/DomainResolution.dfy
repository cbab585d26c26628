/**
 * The domain stage of the registry sync (shared/registry_sync.py): workers that
 * share the metadata cache, each making at most two lookups and one write, in
 * any interleaving. The sequential branch is one of the schedules.
 */
module DomainResolution {
  import opened Options
  import opened RegistryTypes
  import opened MetadataCache
  import opened MetadataFetch

  /**
   * What the registries say about one domain. A skipped one is blank, unknown,
   * empty or has no numeric id; any other exception comes either before the
   * cache is touched or, from the reputation lookups, after.
   */
  datatype Answer = Skipped | Raised | Resolved(info: AgentInfo, raisesLate: bool)

  /** _PendingSnapshot. */
  datatype Pending = Pending(info: AgentInfo, url: Option<string>, cid: Option<string>)

  /** _DomainProcessingResult. */
  datatype Result = Result(pending: Pending, job: Option<Job>)

  /** Where a worker stands between its accesses to the cache. */
  datatype Worker =
    | Waiting
    | Missed
    | Found(entry: Entry)
    | Done(result: Option<Result>)
    | Died

  datatype State = State(cache: Cache, workers: seq<Worker>)

  function Uri(info: AgentInfo): string
    requires Truthy(info.uri)
  {
    info.uri.value
  }

  function End(answer: Answer, result: Result): Worker
    requires answer.Resolved?
  {
    if answer.raisesLate then Died else Done(Some(result))
  }

  /** One access to the cache by one worker, with what follows up to the next access. */
  function Advance(cache: Cache, answer: Answer, w: Worker, cfg: Config): (Cache, Worker) {
    match w
    case Waiting =>
      (match answer
       case Skipped => (cache, Done(None))
       case Raised => (cache, Died)
       case Resolved(info, _) =>
         var hit := Lookup(cache, info.uri, None);
         if hit.Some? then (cache, End(answer, Result(Pending(info, hit.value.url, hit.value.cid), None)))
         else if Truthy(info.uri) then (cache, Missed)
         else (cache, End(answer, Result(Pending(info, None, None), None))))
    case Missed =>
      if answer.Resolved? && Truthy(answer.info.uri) then
        var target := Resolve(Uri(answer.info), cfg);
        var hit := Lookup(cache, None, target.cid);
        if hit.Some? then (cache, Found(hit.value))
        else (cache, End(answer, Result(Pending(answer.info, target.url, target.cid), JobFor(Uri(answer.info), cfg))))
      else (cache, w)
    case Found(entry) =>
      if answer.Resolved? && Truthy(answer.info.uri) then
        var target := Resolve(Uri(answer.info), cfg);
        (cache[Uri(answer.info) := entry], End(answer, Result(Pending(answer.info, target.url, target.cid), None)))
      else (cache, w)
    case _ => (cache, w)
  }

  function Next(s: State, i: nat, answers: seq<Answer>, cfg: Config): State
    requires |s.workers| == |answers|
  {
    if i < |answers| then
      var (cache, w) := Advance(s.cache, answers[i], s.workers[i], cfg);
      State(cache, s.workers[i := w])
    else s
  }

  function Start(cache: Cache, n: nat): State {
    State(cache, seq(n, i => Waiting))
  }

  function Run(cache: Cache, answers: seq<Answer>, schedule: seq<nat>, cfg: Config): (s: State)
    ensures |s.workers| == |answers|
  {
    if schedule == [] then Start(cache, |answers|)
    else Next(Run(cache, answers, schedule[..|schedule| - 1], cfg), schedule[|schedule| - 1], answers, cfg)
  }

  predicate Finished(s: State) {
    forall i | 0 <= i < |s.workers| :: s.workers[i].Done? || s.workers[i].Died?
  }

  // ----------------------------------- what the stage does, without a schedule

  /** The URI is not cached, but its CID is. */
  predicate CachedByCid(cache: Cache, uri: string, cfg: Config) {
    && uri !in cache
    && Truthy(Resolve(uri, cfg).cid) && CidKey(Resolve(uri, cfg).cid.value) in cache
  }

  function CidEntry(cache: Cache, uri: string, cfg: Config): Entry
    requires CachedByCid(cache, uri, cfg)
  {
    cache[CidKey(Resolve(uri, cfg).cid.value)]
  }

  /** What a worker that meets no other's writes produces from the cache at the start. */
  function Decide(cache: Cache, info: AgentInfo, cfg: Config): Result {
    if !Truthy(info.uri) then Result(Pending(info, None, None), None)
    else if Uri(info) in cache then
      Result(Pending(info, cache[Uri(info)].url, cache[Uri(info)].cid), None)
    else
      var target := Resolve(Uri(info), cfg);
      Result(Pending(info, target.url, target.cid),
             if CachedByCid(cache, Uri(info), cfg) then None else JobFor(Uri(info), cfg))
  }

  /** What it produces when another worker with the same URI has already copied the entry. */
  function Echo(cache: Cache, info: AgentInfo, cfg: Config): Result
    requires Truthy(info.uri) && CachedByCid(cache, Uri(info), cfg)
  {
    var e := CidEntry(cache, Uri(info), cfg);
    Result(Pending(info, e.url, e.cid), None)
  }

  predicate Copies(cache: Cache, answer: Answer, key: string, cfg: Config) {
    answer.Resolved? && answer.info.uri == Some(key) && key != "" && CachedByCid(cache, key, cfg)
  }

  predicate HasCopy(cache: Cache, answers: seq<Answer>, key: string, cfg: Config) {
    exists i | 0 <= i < |answers| :: Copies(cache, answers[i], key, cfg)
  }

  /** The workers' common cache holds the starting one and copies under URIs of CID entries. */
  ghost predicate CacheInv(start: Cache, cache: Cache, answers: seq<Answer>, cfg: Config) {
    && (forall key | key in start :: key in cache && cache[key] == start[key])
    && (forall key | key in cache && key !in start ::
          HasCopy(start, answers, key, cfg) && cache[key] == CidEntry(start, key, cfg))
  }

  ghost predicate WorkerInv(start: Cache, cache: Cache, answer: Answer, w: Worker, cfg: Config) {
    match w
    case Waiting => true
    case Missed => answer.Resolved? && Truthy(answer.info.uri) && Uri(answer.info) !in start
    case Found(e) =>
      && answer.Resolved? && Truthy(answer.info.uri) && CachedByCid(start, Uri(answer.info), cfg)
      && e == CidEntry(start, Uri(answer.info), cfg)
    case Done(None) => answer.Skipped?
    case Done(Some(r)) =>
      && answer.Resolved? && !answer.raisesLate
      && Yields(start, answer.info, r, cfg) && Copied(start, cache, answer, cfg)
    case Died =>
      answer.Raised? || (answer.Resolved? && answer.raisesLate && Copied(start, cache, answer, cfg))
  }

  predicate Yields(start: Cache, info: AgentInfo, r: Result, cfg: Config) {
    || r == Decide(start, info, cfg)
    || (Truthy(info.uri) && CachedByCid(start, Uri(info), cfg) && r == Echo(start, info, cfg))
  }

  predicate Copied(start: Cache, cache: Cache, answer: Answer, cfg: Config)
    requires answer.Resolved?
  {
    Truthy(answer.info.uri) && CachedByCid(start, Uri(answer.info), cfg) ==> Uri(answer.info) in cache
  }

  /** Copies never land on a CID key, so lookups by CID see the starting cache. */
  lemma CidLookupsAreStable(start: Cache, cache: Cache, answers: seq<Answer>, uri: string, cfg: Config)
    requires CacheInv(start, cache, answers, cfg)
    ensures Lookup(cache, None, Resolve(uri, cfg).cid) == Lookup(start, None, Resolve(uri, cfg).cid)
  {
    var cid := Resolve(uri, cfg).cid;
    if Truthy(cid) && CidKey(cid.value) in cache && CidKey(cid.value) !in start {
      FetchableIsNotCidKey(CidKey(cid.value));
      assert false;
    }
  }

  lemma AdvanceKeepsInv(start: Cache, cache: Cache, answers: seq<Answer>, i: nat, w: Worker, cfg: Config)
    requires i < |answers| && CacheInv(start, cache, answers, cfg) && WorkerInv(start, cache, answers[i], w, cfg)
    ensures var (cache', w') := Advance(cache, answers[i], w, cfg);
      && CacheInv(start, cache', answers, cfg)
      && cache.Keys <= cache'.Keys
      && WorkerInv(start, cache', answers[i], w', cfg)
  {
    if answers[i].Resolved? && Truthy(answers[i].info.uri) {
      var uri := Uri(answers[i].info);
      CidLookupsAreStable(start, cache, answers, uri, cfg);
      if w.Found? {
        assert Copies(start, answers[i], uri, cfg);
      }
    }
  }

  ghost predicate Inv(start: Cache, s: State, answers: seq<Answer>, cfg: Config) {
    && |s.workers| == |answers|
    && CacheInv(start, s.cache, answers, cfg)
    && forall i | 0 <= i < |answers| :: WorkerInv(start, s.cache, answers[i], s.workers[i], cfg)
  }

  /** The invariant holds under every schedule. */
  lemma {:induction false} InvAlways(start: Cache, answers: seq<Answer>, schedule: seq<nat>, cfg: Config)
    ensures Inv(start, Run(start, answers, schedule, cfg), answers, cfg)
  {
    if schedule != [] {
      var before, i := schedule[..|schedule| - 1], schedule[|schedule| - 1];
      InvAlways(start, answers, before, cfg);
      var s := Run(start, answers, before, cfg);
      if i < |answers| {
        AdvanceKeepsInv(start, s.cache, answers, i, s.workers[i], cfg);
      }
    }
  }

  /** The cache the stage leaves behind: a copy for every URI known only by its CID. */
  function WithCopies(start: Cache, answers: seq<Answer>, cfg: Config): Cache {
    map key | key in start.Keys + CopiedKeys(start, answers, cfg) ::
      if key in start then start[key] else CidEntry(start, key, cfg)
  }

  function CopiedKeys(start: Cache, answers: seq<Answer>, cfg: Config): (keys: set<string>)
    ensures forall key :: key in keys <==> HasCopy(start, answers, key, cfg)
  {
    set i | 0 <= i < |answers| && answers[i].Resolved? && Truthy(answers[i].info.uri)
            && CachedByCid(start, Uri(answers[i].info), cfg) :: Uri(answers[i].info)
  }

  /**
   * Whatever the schedule, the finished stage has the same cache, the same jobs
   * and, up to the echoes of repeated URIs, the same pending snapshots; a
   * domain yields nothing exactly when it is skipped or raises.
   */
  lemma StageIsScheduleIndependent(start: Cache, answers: seq<Answer>, schedule: seq<nat>, cfg: Config)
    requires Finished(Run(start, answers, schedule, cfg))
    ensures var s := Run(start, answers, schedule, cfg);
      && s.cache == WithCopies(start, answers, cfg)
      && forall i | 0 <= i < |answers| ::
           if answers[i].Skipped? then s.workers[i] == Done(None)
           else if answers[i].Raised? || answers[i].raisesLate then s.workers[i] == Died
           else
             && s.workers[i].Done? && s.workers[i].result.Some?
             && Yields(start, answers[i].info, s.workers[i].result.value, cfg)
             && s.workers[i].result.value.job == Decide(start, answers[i].info, cfg).job
  {
    InvAlways(start, answers, schedule, cfg);
    CopiesAreComplete(start, Run(start, answers, schedule, cfg), answers, cfg);
    forall i | 0 <= i < |answers|
      ensures WorkerInv(start, Run(start, answers, schedule, cfg).cache, answers[i],
                        Run(start, answers, schedule, cfg).workers[i], cfg)
    {
    }
  }

  lemma CopiesAreComplete(start: Cache, s: State, answers: seq<Answer>, cfg: Config)
    requires Inv(start, s, answers, cfg) && Finished(s)
    ensures s.cache == WithCopies(start, answers, cfg)
  {
    var goal := WithCopies(start, answers, cfg);
    forall key
      ensures key in s.cache <==> key in goal
      ensures key in s.cache ==> s.cache[key] == goal[key]
    {
      if HasCopy(start, answers, key, cfg) {
        var i :| 0 <= i < |answers| && Copies(start, answers[i], key, cfg);
        EndedHasCopied(start, s, answers, i, key, cfg);
      }
    }
  }

  lemma EndedHasCopied(start: Cache, s: State, answers: seq<Answer>, i: nat, key: string, cfg: Config)
    requires Inv(start, s, answers, cfg) && Finished(s)
    requires i < |answers| && Copies(start, answers[i], key, cfg)
    ensures key in s.cache
  {
    assert WorkerInv(start, s.cache, answers[i], s.workers[i], cfg);
  }

  // ------------------------------------------------------------ repeated URIs

  predicate Ended(w: Worker) {
    w.Done? || w.Died?
  }

  /** A copy was written by a worker that has ended. */
  ghost predicate CopiersEnded(start: Cache, s: State, answers: seq<Answer>, cfg: Config)
    requires |s.workers| == |answers|
  {
    forall key | key in s.cache && key !in start ::
      exists j | 0 <= j < |answers| :: Copies(start, answers[j], key, cfg) && Ended(s.workers[j])
  }

  /** Another domain has the same URI. */
  predicate HasTwin(answers: seq<Answer>, i: nat)
    requires i < |answers|
  {
    exists j | 0 <= j < |answers| ::
      j != i && answers[i].Resolved? && answers[j].Resolved? && answers[i].info.uri == answers[j].info.uri
  }

  /** Only a domain with a repeated URI can yield an echo. */
  ghost predicate EchoesAreTwins(start: Cache, s: State, answers: seq<Answer>, cfg: Config)
    requires |s.workers| == |answers|
  {
    forall i | 0 <= i < |answers| && answers[i].Resolved? && s.workers[i].Done? && s.workers[i].result.Some? ::
      s.workers[i].result.value == Decide(start, answers[i].info, cfg) || HasTwin(answers, i)
  }

  lemma TwinStep(start: Cache, s: State, answers: seq<Answer>, i: nat, cfg: Config)
    requires i < |answers| && Inv(start, s, answers, cfg)
    requires CopiersEnded(start, s, answers, cfg) && EchoesAreTwins(start, s, answers, cfg)
    ensures CopiersEnded(start, Next(s, i, answers, cfg), answers, cfg)
    ensures EchoesAreTwins(start, Next(s, i, answers, cfg), answers, cfg)
  {
    var s' := Next(s, i, answers, cfg);
    assert WorkerInv(start, s.cache, answers[i], s.workers[i], cfg);
    forall key | key in s'.cache && key !in start
      ensures exists j | 0 <= j < |answers| :: Copies(start, answers[j], key, cfg) && Ended(s'.workers[j])
    {
      if key in s.cache {
        var j :| 0 <= j < |answers| && Copies(start, answers[j], key, cfg) && Ended(s.workers[j]);
        assert Ended(s'.workers[j]);
      } else {
        assert Copies(start, answers[i], key, cfg) && Ended(s'.workers[i]);
      }
    }
    if answers[i].Resolved? && s'.workers[i].Done? && s'.workers[i].result.Some?
       && s'.workers[i].result.value != Decide(start, answers[i].info, cfg) {
      TwinOfEcho(start, s, answers, i, cfg);
    }
  }

  lemma TwinOfEcho(start: Cache, s: State, answers: seq<Answer>, i: nat, cfg: Config)
    requires i < |answers| && Inv(start, s, answers, cfg)
    requires CopiersEnded(start, s, answers, cfg) && EchoesAreTwins(start, s, answers, cfg)
    requires answers[i].Resolved?
    requires var w := Next(s, i, answers, cfg).workers[i];
      w.Done? && w.result.Some? && w.result.value != Decide(start, answers[i].info, cfg)
    ensures HasTwin(answers, i)
  {
    assert WorkerInv(start, s.cache, answers[i], s.workers[i], cfg);
    if Truthy(answers[i].info.uri) {
      var uri := Uri(answers[i].info);
      CidLookupsAreStable(start, s.cache, answers, uri, cfg);
      if s.workers[i].Waiting? {
        assert uri in s.cache && uri !in start;
        var j :| 0 <= j < |answers| && Copies(start, answers[j], uri, cfg) && Ended(s.workers[j]);
        assert j != i;
      }
    }
  }

  lemma {:induction false} TwinsAlways(start: Cache, answers: seq<Answer>, schedule: seq<nat>, cfg: Config)
    ensures CopiersEnded(start, Run(start, answers, schedule, cfg), answers, cfg)
    ensures EchoesAreTwins(start, Run(start, answers, schedule, cfg), answers, cfg)
  {
    if schedule != [] {
      var before, i := schedule[..|schedule| - 1], schedule[|schedule| - 1];
      TwinsAlways(start, answers, before, cfg);
      InvAlways(start, answers, before, cfg);
      if i < |answers| {
        TwinStep(start, Run(start, answers, before, cfg), answers, i, cfg);
      }
    }
  }

  // ------------------------------------------------------ one after the other

  /** `_process_domain_for_snapshot` without interruption. */
  function Process(cache: Cache, answer: Answer, cfg: Config): (Cache, Worker) {
    var (c1, w1) := Advance(cache, answer, Waiting, cfg);
    var (c2, w2) := Advance(c1, answer, w1, cfg);
    Advance(c2, answer, w2, cfg)
  }

  /** The method as the source has it; a raised exception is `Died`. */
  method ProcessDomain(cache: CacheTable, answer: Answer, cfg: Config) returns (w: Worker)
    modifies cache
    ensures (cache.entries, w) == Process(old(cache.entries), answer, cfg)
  {
    if answer.Skipped? {
      return Done(None);
    }
    if answer.Raised? {
      return Died;
    }
    var info := answer.info;
    var url: Option<string>, cid: Option<string> := None, None;
    var job: Option<Job> := None;
    var entry := Lookup(cache.entries, info.uri, None);
    if entry.Some? {
      url, cid := entry.value.url, entry.value.cid;
    }
    if Truthy(info.uri) && entry.None? {
      var target := Resolve(info.uri.value, cfg);
      url, cid := target.url, target.cid;
      entry := Lookup(cache.entries, None, target.cid);
      if entry.None? {
        job := BuildMetadataFetchJob(info.uri.value, cfg);
      } else {
        cache.entries := cache.entries[info.uri.value := entry.value];
      }
    }
    return End(answer, Result(Pending(info, url, cid), job));
  }

  /** The state once the first `n` domains have been processed in turn. */
  function InTurn(start: Cache, answers: seq<Answer>, n: nat, cfg: Config): (s: State)
    requires n <= |answers|
    ensures |s.workers| == |answers|
    ensures forall i | n <= i < |answers| :: s.workers[i] == Waiting
    ensures forall i | 0 <= i < n :: Ended(s.workers[i])
  {
    if n == 0 then Start(start, |answers|)
    else
      var before := InTurn(start, answers, n - 1, cfg);
      var (cache, w) := Process(before.cache, answers[n - 1], cfg);
      State(cache, before.workers[n - 1 := w])
  }

  function ThriceEach(n: nat): seq<nat> {
    if n == 0 then [] else ThriceEach(n - 1) + [n - 1, n - 1, n - 1]
  }

  lemma RunAppend(start: Cache, answers: seq<Answer>, schedule: seq<nat>, i: nat, cfg: Config)
    ensures Run(start, answers, schedule + [i], cfg) == Next(Run(start, answers, schedule, cfg), i, answers, cfg)
  {
    assert (schedule + [i])[..|schedule|] == schedule;
  }

  lemma ThreeStepsProcess(s: State, i: nat, answers: seq<Answer>, cfg: Config)
    requires i < |answers| == |s.workers| && s.workers[i] == Waiting
    ensures var (cache, w) := Process(s.cache, answers[i], cfg);
      Next(Next(Next(s, i, answers, cfg), i, answers, cfg), i, answers, cfg) == State(cache, s.workers[i := w])
  {
    var (c1, w1) := Advance(s.cache, answers[i], Waiting, cfg);
    var s1 := Next(s, i, answers, cfg);
    assert s1 == State(c1, s.workers[i := w1]);
    var (c2, w2) := Advance(c1, answers[i], w1, cfg);
    var s2 := Next(s1, i, answers, cfg);
    assert s2 == State(c2, s.workers[i := w2]);
    var (c3, w3) := Advance(c2, answers[i], w2, cfg);
    assert Next(s2, i, answers, cfg) == State(c3, s.workers[i := w3]);
  }

  lemma RunThrice(start: Cache, answers: seq<Answer>, schedule: seq<nat>, i: nat, cfg: Config)
    ensures Run(start, answers, schedule + [i, i, i], cfg) ==
      Next(Next(Next(Run(start, answers, schedule, cfg), i, answers, cfg), i, answers, cfg), i, answers, cfg)
  {
    RunAppend(start, answers, schedule, i, cfg);
    RunAppend(start, answers, schedule + [i], i, cfg);
    RunAppend(start, answers, schedule + [i] + [i], i, cfg);
    assert schedule + [i, i, i] == schedule + [i] + [i] + [i];
  }

  /** Processing the domains in turn is one of the schedules. */
  lemma {:induction false} InTurnIsASchedule(start: Cache, answers: seq<Answer>, n: nat, cfg: Config)
    requires n <= |answers|
    ensures InTurn(start, answers, n, cfg) == Run(start, answers, ThriceEach(n), cfg)
  {
    hide Advance, Process, Next;
    if n > 0 {
      InTurnIsASchedule(start, answers, n - 1, cfg);
      RunThrice(start, answers, ThriceEach(n - 1), n - 1, cfg);
      ThreeStepsProcess(InTurn(start, answers, n - 1, cfg), n - 1, answers, cfg);
    }
  }
}
