/**
 * Domains that share a metadata URI (shared/registry_sync.py): over an arbitrary
 * starting cache, when the schedule can change what they get. The caches that
 * syncs themselves leave behind never let it: see RegistryRuns.
 */
module RepeatedUris {
  import opened Options
  import opened RegistryTypes
  import opened MetadataCache
  import opened MetadataFetch
  import opened DomainResolution
  import opened Gathering
  import opened RegistryFetch
  import opened Confluence
  import opened SecondSync

  /** Echo and ordinary result give the same snapshot exactly when the copied entry has an address and a CID. */
  lemma EchoIsHarmlessExactlyWhen(start: Cache, cache: Cache, other: Cache, info: AgentInfo, cfg: Config)
    requires Truthy(info.uri) && CachedByCid(start, Uri(info), cfg)
    requires Uri(info) in cache && cache[Uri(info)] == CidEntry(start, Uri(info), cfg)
    requires Uri(info) in other && other[Uri(info)] == CidEntry(start, Uri(info), cfg)
    ensures var e := CidEntry(start, Uri(info), cfg);
      SnapshotOf(cache, Echo(start, info, cfg).pending) == SnapshotOf(other, Decide(start, info, cfg).pending) <==>
      Truthy(e.url) && Truthy(e.cid)
  {
    JobsExactlyForFetchable(Uri(info), cfg);
  }

  // ---------------------------------------------------- completing a schedule

  lemma EndedStays(start: Cache, answers: seq<Answer>, a: seq<nat>, b: seq<nat>, i: nat, cfg: Config)
    requires i < |answers| && Ended(Run(start, answers, a, cfg).workers[i])
    ensures Run(start, answers, a + b, cfg).workers[i] == Run(start, answers, a, cfg).workers[i]
  {
    if b == [] {
      assert a + b == a;
    } else {
      var init, last := b[..|b| - 1], b[|b| - 1];
      EndedStays(start, answers, a, init, i, cfg);
      assert a + b == a + init + [last];
      RunAppend(start, answers, a + init, last, cfg);
    }
  }

  function AccessesLeft(w: Worker): nat {
    match w
    case Waiting => 3
    case Missed => 2
    case Found(_) => 1
    case _ => 0
  }

  lemma StepNearsEnd(start: Cache, s: State, answers: seq<Answer>, i: nat, cfg: Config)
    requires i < |answers| && Inv(start, s, answers, cfg)
    ensures var s' := Next(s, i, answers, cfg);
      && Inv(start, s', answers, cfg)
      && (Ended(s.workers[i]) ==> Ended(s'.workers[i]))
      && (!Ended(s.workers[i]) ==> AccessesLeft(s'.workers[i]) < AccessesLeft(s.workers[i]))
  {
    assert WorkerInv(start, s.cache, answers[i], s.workers[i], cfg);
    AdvanceKeepsInv(start, s.cache, answers, i, s.workers[i], cfg);
  }

  lemma ThreeStepsEnd(start: Cache, s: State, answers: seq<Answer>, i: nat, cfg: Config)
    requires i < |answers| && Inv(start, s, answers, cfg)
    ensures Ended(Next(Next(Next(s, i, answers, cfg), i, answers, cfg), i, answers, cfg).workers[i])
  {
    hide Advance, WorkerInv, CacheInv;
    StepNearsEnd(start, s, answers, i, cfg);
    StepNearsEnd(start, Next(s, i, answers, cfg), answers, i, cfg);
    StepNearsEnd(start, Next(Next(s, i, answers, cfg), i, answers, cfg), answers, i, cfg);
  }

  lemma {:induction false} AllEnd(start: Cache, answers: seq<Answer>, first: seq<nat>, n: nat, cfg: Config)
    requires n <= |answers|
    ensures forall i | 0 <= i < n :: Ended(Run(start, answers, first + ThriceEach(n), cfg).workers[i])
  {
    hide Advance, Next;
    if n > 0 {
      var before := first + ThriceEach(n - 1);
      AllEnd(start, answers, first, n - 1, cfg);
      InvAlways(start, answers, before, cfg);
      RunThrice(start, answers, before, n - 1, cfg);
      ThreeStepsEnd(start, Run(start, answers, before, cfg), answers, n - 1, cfg);
      assert first + ThriceEach(n) == before + [n - 1, n - 1, n - 1];
      forall i | 0 <= i < n - 1
        ensures Ended(Run(start, answers, first + ThriceEach(n), cfg).workers[i])
      {
        EndedStays(start, answers, before, [n - 1, n - 1, n - 1], i, cfg);
      }
    }
  }

  lemma ListKeys(keys: set<string>) returns (list: seq<string>)
    ensures NoRepeats(list) && forall key :: key in list <==> key in keys
  {
    list := [];
    if keys != {} {
      var key :| key in keys;
      list := ListKeys(keys - {key});
      list := list + [key];
    }
  }

  /** Any beginning of a schedule is that of a complete execution. */
  lemma Completed(start: Cache, answers: seq<Answer>, first: seq<nat>, cfg: Config) returns (x: Execution)
    ensures x.schedule == first + ThriceEach(|answers|) && Complete(start, answers, x, cfg)
  {
    var schedule := first + ThriceEach(|answers|);
    AllEnd(start, answers, first, |answers|, cfg);
    var s := Run(start, answers, schedule, cfg);
    var fetched := ListKeys(JobsIn(s.workers, Indices(|answers|)).Keys);
    x := Execution(schedule, Indices(|answers|), fetched);
  }

  // --------------------------------------------------------------- two orders

  predicate Twins(answers: seq<Answer>, i: nat, j: nat) {
    && i < |answers| && j < |answers| && i != j
    && answers[i].Resolved? && answers[j].Resolved? && answers[i].info.uri == answers[j].info.uri
  }

  /** Served first, a domain resolves its URI itself. */
  lemma FirstDecides(start: Cache, answers: seq<Answer>, i: nat, cfg: Config)
    requires i < |answers| && answers[i].Resolved? && !answers[i].raisesLate && Truthy(answers[i].info.uri)
    requires CachedByCid(start, Uri(answers[i].info), cfg)
    ensures Run(start, answers, [i, i, i], cfg).workers[i] == Done(Some(Decide(start, answers[i].info, cfg)))
  {
    RunThrice(start, answers, [], i, cfg);
    assert [] + [i, i, i] == [i, i, i];
    ThreeStepsProcess(Start(start, |answers|), i, answers, cfg);
  }

  /** Served after its twin, it echoes the copy. */
  lemma SecondEchoes(start: Cache, answers: seq<Answer>, i: nat, j: nat, cfg: Config)
    requires Twins(answers, i, j) && !answers[i].raisesLate && Truthy(answers[i].info.uri)
    requires CachedByCid(start, Uri(answers[i].info), cfg)
    ensures Run(start, answers, [j, j, j] + [i, i, i], cfg).workers[i] == Done(Some(Echo(start, answers[i].info, cfg)))
  {
    var uri := Uri(answers[i].info);
    RunThrice(start, answers, [], j, cfg);
    assert [] + [j, j, j] == [j, j, j];
    ThreeStepsProcess(Start(start, |answers|), j, answers, cfg);
    var s := Run(start, answers, [j, j, j], cfg);
    assert s.cache == start[uri := CidEntry(start, uri, cfg)];
    RunThrice(start, answers, [j, j, j], i, cfg);
    ThreeStepsProcess(s, i, answers, cfg);
  }

  /** The domain is one of twins whose common URI is cached only by a CID whose entry lacks an address or a CID. */
  ghost predicate UnsettledTwins(start: Cache, answers: seq<Answer>, i: nat, j: nat, cfg: Config) {
    && Twins(answers, i, j) && !answers[i].raisesLate && Truthy(answers[i].info.uri)
    && CachedByCid(start, Uri(answers[i].info), cfg)
    && var e := CidEntry(start, Uri(answers[i].info), cfg); !(Truthy(e.url) && Truthy(e.cid))
  }

  /** Such a domain gets different snapshots from two complete executions over the same answers. */
  lemma UnsettledTwinsDiffer(start: Cache, answers: seq<Answer>, i: nat, j: nat, cfg: Config, web: Web)
    returns (x: Execution, y: Execution)
    requires UnsettledTwins(start, answers, i, j, cfg)
    ensures Complete(start, answers, x, cfg) && Complete(start, answers, y, cfg)
    ensures FirstSnapshot(start, answers, x, i, cfg, web) != FirstSnapshot(start, answers, y, i, cfg, web)
  {
    hide Run, FinalCache, Decide, Echo;
    x := Completed(start, answers, [i, i, i], cfg);
    y := Completed(start, answers, [j, j, j] + [i, i, i], cfg);
    FirstDecides(start, answers, i, cfg);
    SecondEchoes(start, answers, i, j, cfg);
    EndedStays(start, answers, [i, i, i], ThriceEach(|answers|), i, cfg);
    EndedStays(start, answers, [j, j, j] + [i, i, i], ThriceEach(|answers|), i, cfg);
    CopyIsKept(start, answers, x, i, cfg, web);
    CopyIsKept(start, answers, y, i, cfg, web);
    EchoIsHarmlessExactlyWhen(start, FinalCache(start, answers, y, cfg, web), FinalCache(start, answers, x, cfg, web),
                              answers[i].info, cfg);
  }

  /** No complete execution gives a domain another snapshot than any other does. */
  ghost predicate Determined(start: Cache, answers: seq<Answer>, cfg: Config, web: Web) {
    forall x, y, i: nat |
      Complete(start, answers, x, cfg) && Complete(start, answers, y, cfg) && i < |answers| ::
      FirstSnapshot(start, answers, x, i, cfg, web) == FirstSnapshot(start, answers, y, i, cfg, web)
  }

  /**
   * Over any starting cache, the schedule cannot change a domain's snapshot if
   * and only if every repeated URI that is cached only by its CID has an
   * address and a CID in its entry.
   */
  lemma DeterminedExactlyWhenSettled(start: Cache, answers: seq<Answer>, cfg: Config, web: Web)
    requires FetchesAgree(start, answers, cfg, web)
    ensures Determined(start, answers, cfg, web) <==> TwinsSettled(start, answers, cfg)
  {
    hide Complete, Run, FinalCache, FetchesAgree, SnapshotAt, SnapshotFor;
    if TwinsSettled(start, answers, cfg) {
      forall x, y, i: nat | Complete(start, answers, x, cfg) && Complete(start, answers, y, cfg) && i < |answers|
        ensures FirstSnapshot(start, answers, x, i, cfg, web) == FirstSnapshot(start, answers, y, i, cfg, web)
      {
        SameFinalCache(start, answers, x, y, cfg, web);
        SnapshotIsDetermined(start, answers, x, i, cfg, web);
        SnapshotIsDetermined(start, answers, y, i, cfg, web);
      }
    } else {
      var i, j := UnsettledPair(start, answers, cfg);
      var x, y := UnsettledTwinsDiffer(start, answers, i, j, cfg, web);
    }
  }

  lemma UnsettledPair(start: Cache, answers: seq<Answer>, cfg: Config) returns (i: nat, j: nat)
    requires !TwinsSettled(start, answers, cfg)
    ensures UnsettledTwins(start, answers, i, j, cfg)
  {
    i :| 0 <= i < |answers| && HasTwin(answers, i) && !answers[i].raisesLate && Truthy(answers[i].info.uri)
         && CachedByCid(start, Uri(answers[i].info), cfg)
         && !(Truthy(CidEntry(start, Uri(answers[i].info), cfg).url)
              && Truthy(CidEntry(start, Uri(answers[i].info), cfg).cid));
    j :| 0 <= j < |answers| && j != i && answers[i].Resolved? && answers[j].Resolved?
         && answers[i].info.uri == answers[j].info.uri;
  }
}
