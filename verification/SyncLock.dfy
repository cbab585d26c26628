/**
 * Threads that ask for a registry sync (shared/registry_sync.py,
 * ensure_registry_cache and the background trigger), the lock they try and the
 * recorded sync state. Any step that touches the database, the registry or the
 * network may raise.
 */
module SyncLock {
  import opened Options

  type ThreadId = nat
  type Time = nat

  datatype SyncStatus = Never | Running | Ok | Error

  /** Where a thread stands; the phases from Marking to Releasing hold the lock. */
  datatype Phase =
    | Called(force: bool)
    | Ready
    | Marking
    | Fetching
    | NotingError
    | Applying
    | Recording
    | Releasing(normally: bool)
    | Over

  /** How the last sync that marked itself running ended. */
  datatype Ending = NoneYet | Completed | FetchFailed | Crashed

  datatype State = State(
    clock: Time,
    lock: Option<ThreadId>,
    threads: map<ThreadId, Phase>,
    status: SyncStatus,
    lastSuccessful: Option<Time>,
    ending: Ending)

  const INITIAL := State(0, None, map[], Never, None, NoneYet)

  datatype Event =
    | Tick(delta: nat)
    /** A direct call of `ensure_registry_cache`. */
    | Call(thread: ThreadId, force: bool)
    /** `trigger_registry_cache_refresh`, which starts the thread only for a stale cache. */
    | Trigger(thread: ThreadId, force: bool)
    /** The thread's next step, which raises when `ok` is false. */
    | Advance(thread: ThreadId, ok: bool)

  predicate Stale(s: State, ttl: nat) {
    s.lastSuccessful.None? || s.clock - s.lastSuccessful.value >= ttl
  }

  function Move(s: State, t: ThreadId, p: Phase): State {
    s.(threads := s.threads[t := p])
  }

  function AdvanceThread(s: State, t: ThreadId, ok: bool, ttl: nat): State
    requires t in s.threads
  {
    match s.threads[t]
    case Called(force) => Move(s, t, if force || (ok && Stale(s, ttl)) then Ready else Over)
    case Ready => if s.lock.None? then Move(s, t, Marking).(lock := Some(t)) else Move(s, t, Over)
    case Marking => if ok then Move(s, t, Fetching).(status := Running) else Move(s, t, Releasing(false))
    case Fetching => Move(s, t, if ok then Applying else NotingError)
    case NotingError =>
      if ok then Move(s, t, Releasing(false)).(status := Error, ending := FetchFailed)
      else Move(s, t, Releasing(false)).(ending := Crashed)
    case Applying => if ok then Move(s, t, Recording) else Move(s, t, Releasing(false)).(ending := Crashed)
    case Recording =>
      if ok then Move(s, t, Releasing(true)).(status := Ok, lastSuccessful := Some(s.clock), ending := Completed)
      else Move(s, t, Releasing(false)).(ending := Crashed)
    case Releasing(_) => Move(s, t, Over).(lock := None)
    case Over => s
  }

  function Next(s: State, e: Event, ttl: nat): State {
    match e
    case Tick(delta) => s.(clock := s.clock + delta)
    case Call(t, force) => if t in s.threads then s else Move(s, t, Called(force))
    case Trigger(t, force) =>
      if t in s.threads || !(force || Stale(s, ttl)) then s else Move(s, t, Called(force))
    case Advance(t, ok) => if t in s.threads then AdvanceThread(s, t, ok, ttl) else s
  }

  function Run(events: seq<Event>, ttl: nat): State {
    if events == [] then INITIAL else Next(Run(events[..|events| - 1], ttl), events[|events| - 1], ttl)
  }

  predicate Inside(s: State, t: ThreadId) {
    t in s.threads && !s.threads[t].Called? && !s.threads[t].Ready? && !s.threads[t].Over?
  }

  /** The sync of a thread has marked itself running and not ended. */
  predicate Underway(p: Phase) {
    p.Fetching? || p.NotingError? || p.Applying? || p.Recording?
  }

  function StatusAfter(ending: Ending): SyncStatus {
    match ending
    case NoneYet => Never
    case Completed => Ok
    case FetchFailed => Error
    case Crashed => Running
  }

  ghost predicate Inv(s: State) {
    && (forall t: ThreadId :: Inside(s, t) <==> s.lock == Some(t))
    && (s.lastSuccessful.Some? ==> s.lastSuccessful.value <= s.clock)
    && s.status == (
         if s.lock.Some? && s.lock.value in s.threads && Underway(s.threads[s.lock.value]) then Running
         else StatusAfter(s.ending))
  }

  lemma InvStep(s: State, e: Event, ttl: nat)
    requires Inv(s)
    ensures Inv(Next(s, e, ttl))
  {
    var s' := Next(s, e, ttl);
    if e.Advance? && e.thread in s.threads {
      assert Inside(s, e.thread) <==> s.lock == Some(e.thread);
    }
    forall t: ThreadId
      ensures Inside(s', t) <==> s'.lock == Some(t)
    {
      assert Inside(s, t) <==> s.lock == Some(t);
    }
  }

  lemma {:induction false} InvAlways(events: seq<Event>, ttl: nat)
    ensures Inv(Run(events, ttl))
  {
    if events != [] {
      InvAlways(events[..|events| - 1], ttl);
      InvStep(Run(events[..|events| - 1], ttl), events[|events| - 1], ttl);
    }
  }

  /**
   * In every interleaving at most one thread is inside the sync, the lock is
   * held exactly while one is, and with the lock free the recorded status is
   * that of the last sync's end: "running" means it crashed on the way.
   */
  lemma MutualExclusion(events: seq<Event>, ttl: nat)
    ensures var s := Run(events, ttl);
      && (forall t: ThreadId, u: ThreadId | Inside(s, t) && Inside(s, u) :: t == u)
      && (s.lock == None <==> forall t: ThreadId :: !Inside(s, t))
      && (s.lock == None ==> s.status == StatusAfter(s.ending))
  {
    InvAlways(events, ttl);
    var s := Run(events, ttl);
    if s.lock.Some? {
      assert Inside(s, s.lock.value);
    }
  }

  function StepsLeft(p: Phase): nat {
    match p
    case Called(_) => 7
    case Ready => 6
    case Marking => 5
    case Fetching => 4
    case Applying => 3
    case NotingError => 2
    case Recording => 2
    case Releasing(_) => 1
    case Over => 0
  }

  /** Every own step, raising or not, brings a thread nearer to its end; nothing else moves it. */
  lemma ThreadsEnd(s: State, e: Event, t: ThreadId, ttl: nat)
    requires Inv(s) && t in s.threads
    ensures var s' := Next(s, e, ttl);
      && t in s'.threads
      && (e.Advance? && e.thread == t && !s.threads[t].Over? ==> StepsLeft(s'.threads[t]) < StepsLeft(s.threads[t]))
      && (!(e.Advance? && e.thread == t) ==> s'.threads[t] == s.threads[t])
      && (Inside(s, t) && s'.threads[t].Over? ==> s'.lock == None)
  {
  }

  // ------------------------------------------------------------- last success

  ghost predicate NotBefore(a: Option<Time>, b: Option<Time>) {
    a.Some? ==> b.Some? && a.value <= b.value
  }

  /** The last success never goes back, over any part of any run. */
  lemma {:induction false} LastSuccessNeverGoesBack(events: seq<Event>, n: nat, ttl: nat)
    requires n <= |events|
    ensures NotBefore(Run(events[..n], ttl).lastSuccessful, Run(events, ttl).lastSuccessful)
  {
    if n < |events| {
      var before := events[..|events| - 1];
      assert before[..n] == events[..n];
      LastSuccessNeverGoesBack(before, n, ttl);
      InvAlways(before, ttl);
    } else {
      assert events[..n] == events;
    }
  }

  /** Step `k` of the run is the thread's, in this phase, and does not raise. */
  ghost predicate Passed(events: seq<Event>, k: nat, t: ThreadId, p: Phase, ttl: nat) {
    && k < |events| && events[k] == Advance(t, true)
    && t in Run(events[..k], ttl).threads && Run(events[..k], ttl).threads[t] == p
  }

  ghost predicate PassedSome(events: seq<Event>, t: ThreadId, p: Phase, ttl: nat) {
    exists k: nat :: Passed(events, k, t, p, ttl)
  }

  lemma PassedBefore(events: seq<Event>, e: Event, t: ThreadId, p: Phase, ttl: nat)
    ensures PassedSome(events, t, p, ttl) ==> PassedSome(events + [e], t, p, ttl)
    ensures e == Advance(t, true) && t in Run(events, ttl).threads && Run(events, ttl).threads[t] == p ==>
      PassedSome(events + [e], t, p, ttl)
  {
    if k: nat :| Passed(events, k, t, p, ttl) {
      assert (events + [e])[..k] == events[..k];
      assert Passed(events + [e], k, t, p, ttl);
    }
    assert (events + [e])[..|events|] == events;
    if e == Advance(t, true) && t in Run(events, ttl).threads && Run(events, ttl).threads[t] == p {
      assert Passed(events + [e], |events|, t, p, ttl);
    }
  }

  lemma EnteringApplying(s: State, e: Event, t: ThreadId, ttl: nat)
    requires t in Next(s, e, ttl).threads && Next(s, e, ttl).threads[t].Applying?
    ensures t in s.threads && (s.threads[t].Applying? || (s.threads[t].Fetching? && e == Advance(t, true)))
  {
  }

  lemma EnteringRecording(s: State, e: Event, t: ThreadId, ttl: nat)
    requires t in Next(s, e, ttl).threads && Next(s, e, ttl).threads[t].Recording?
    ensures t in s.threads && (s.threads[t].Recording? || (s.threads[t].Applying? && e == Advance(t, true)))
  {
  }

  /** A thread that applies or records has passed its fetch, one that records also its apply. */
  lemma {:induction false} RecordersHavePassed(events: seq<Event>, t: ThreadId, ttl: nat)
    requires t in Run(events, ttl).threads
    ensures var p := Run(events, ttl).threads[t];
      && (p.Applying? || p.Recording? ==> PassedSome(events, t, Fetching, ttl))
      && (p.Recording? ==> PassedSome(events, t, Applying, ttl))
  {
    var p := Run(events, ttl).threads[t];
    if events != [] && (p.Applying? || p.Recording?) {
      var before, last := events[..|events| - 1], events[|events| - 1];
      var s := Run(before, ttl);
      assert events == before + [last] && Run(events, ttl) == Next(s, last, ttl);
      hide Next, Passed, PassedSome;
      if p.Applying? {
        EnteringApplying(s, last, t, ttl);
      } else {
        EnteringRecording(s, last, t, ttl);
        PassedBefore(before, last, t, Applying, ttl);
      }
      PassedBefore(before, last, t, Fetching, ttl);
      RecordersHavePassed(before, t, ttl);
    }
  }

  /** The last success moves only in a step of a thread that passed fetch and apply, and then to the present. */
  lemma SuccessMovesOnlyAfterFetchAndApply(events: seq<Event>, e: Event, ttl: nat)
    requires Next(Run(events, ttl), e, ttl).lastSuccessful != Run(events, ttl).lastSuccessful
    ensures e.Advance? && e.ok && Inside(Run(events, ttl), e.thread)
    ensures PassedSome(events, e.thread, Fetching, ttl) && PassedSome(events, e.thread, Applying, ttl)
    ensures Next(Run(events, ttl), e, ttl).lastSuccessful == Some(Run(events, ttl).clock)
  {
    RecordersHavePassed(events, e.thread, ttl);
  }

  // ------------------------------------------------------------- two surprises

  /** A crash while applying leaves "running" recorded behind a free lock: only a failed fetch is noted as an error. */
  lemma ApplyCrashLooksRunning(s: State, t: ThreadId, ok: bool, ttl: nat)
    requires Inv(s) && t in s.threads && s.threads[t].Applying?
    ensures var s' := Next(Next(s, Advance(t, false), ttl), Advance(t, ok), ttl);
      s'.lock == None && s'.threads[t].Over? && s'.status == Running && s'.lastSuccessful == s.lastSuccessful
  {
    assert Inside(s, t);
  }

  /**
   * Staleness is not looked at again under the lock: a thread that found the
   * cache stale syncs once more although another has just succeeded.
   */
  lemma FreshCacheIsSyncedAgain(s: State, t: ThreadId, ttl: nat)
    requires Inv(s) && t in s.threads && s.threads[t].Ready? && s.lock == None && ttl > 0
    requires s.lastSuccessful == Some(s.clock)
    ensures var s' := Next(Next(s, Advance(t, true), ttl), Advance(t, true), ttl);
      !Stale(s, ttl) && s'.lock == Some(t) && s'.threads[t].Fetching? && s'.status == Running
  {
  }

  lemma RunAppend(events: seq<Event>, e: Event, ttl: nat)
    ensures Run(events + [e], ttl) == Next(Run(events, ttl), e, ttl)
  {
    assert (events + [e])[..|events|] == events;
  }

  /** Two calls that overlap: both threads check, then the first one syncs. */
  const OVERLAP: seq<Event> := [
    Call(1, false), Call(2, false), Advance(2, true), Advance(1, true), Advance(1, true),
    Advance(1, true), Advance(1, true), Advance(1, true), Advance(1, true), Advance(1, true)
  ]

  /** Where the first thread stands after each of its own steps. */
  const FIRST: seq<Phase> := [Called(false), Ready, Marking, Fetching, Applying, Recording, Releasing(true), Over]

  /** The state once the second thread waits and the first has taken `k` steps. */
  function Overlapped(k: nat): State
    requires k < |FIRST|
  {
    State(0, if 2 <= k < 7 then Some(1) else None, map[1 := FIRST[k], 2 := Ready],
          if k < 3 then Never else if k < 6 then Running else Ok,
          if k < 6 then None else Some(0), if k < 6 then NoneYet else Completed)
  }

  lemma OverlapBegins(ttl: nat)
    ensures Run(OVERLAP[..3], ttl) == Overlapped(0)
  {
    assert OVERLAP[..3][..2] == OVERLAP[..2] && OVERLAP[..2][..1] == OVERLAP[..1] && OVERLAP[..1][..0] == [];
    assert Run(OVERLAP[..1], ttl) == State(0, None, map[1 := Called(false)], Never, None, NoneYet);
    assert Run(OVERLAP[..2], ttl) == State(0, None, map[1 := Called(false), 2 := Called(false)], Never, None, NoneYet);
  }

  lemma OverlapStep(k: nat, ttl: nat)
    requires k + 1 < |FIRST|
    ensures Next(Overlapped(k), Advance(1, true), ttl) == Overlapped(k + 1)
  {
    assert map[1 := FIRST[k], 2 := Ready][1 := FIRST[k + 1]] == map[1 := FIRST[k + 1], 2 := Ready];
  }

  lemma {:induction false} OverlapReaches(k: nat, ttl: nat)
    requires k < |FIRST|
    ensures Run(OVERLAP[..3 + k], ttl) == Overlapped(k)
  {
    if k == 0 {
      OverlapBegins(ttl);
    } else {
      hide Next, Overlapped, Run;
      OverlapReaches(k - 1, ttl);
      assert OVERLAP[..3 + k] == OVERLAP[..2 + k] + [Advance(1, true)];
      RunAppend(OVERLAP[..2 + k], Advance(1, true), ttl);
      OverlapStep(k - 1, ttl);
    }
  }

  /** That state is reached from the start. */
  lemma FreshCacheIsSyncedAgainReachably(ttl: nat)
    requires ttl > 0
    ensures var s := Run(OVERLAP, ttl);
      2 in s.threads && s.threads[2].Ready? && s.lock == None && s.lastSuccessful == Some(s.clock) && !Stale(s, ttl)
  {
    OverlapReaches(7, ttl);
    assert OVERLAP[..10] == OVERLAP;
  }

  // -------------------------------------- when an unforced sync finds a fresh cache

  /** Step `m` records a success. */
  ghost predicate RecordsSuccess(events: seq<Event>, m: nat, ttl: nat) {
    exists t: ThreadId :: Passed(events, m, t, Recording, ttl)
  }

  /** Step `m`, not before `n`, records a success that is still younger than the TTL at the end. */
  ghost predicate RecentSuccess(events: seq<Event>, n: nat, m: nat, ttl: nat) {
    && n <= m < |events| && RecordsSuccess(events, m, ttl)
    && Run(events, ttl).clock - Run(events[..m], ttl).clock < ttl
  }

  lemma {:induction false} ClockNeverGoesBack(events: seq<Event>, n: nat, ttl: nat)
    requires n <= |events|
    ensures Run(events[..n], ttl).clock <= Run(events, ttl).clock
  {
    if n < |events| {
      var before := events[..|events| - 1];
      assert before[..n] == events[..n];
      ClockNeverGoesBack(before, n, ttl);
    } else {
      assert events[..n] == events;
    }
  }

  lemma SuccessStep(events: seq<Event>, e: Event, ttl: nat)
    ensures RecordsSuccess(events + [e], |events|, ttl) ==>
      Next(Run(events, ttl), e, ttl).lastSuccessful == Some(Run(events, ttl).clock)
    ensures !RecordsSuccess(events + [e], |events|, ttl) ==>
      Next(Run(events, ttl), e, ttl).lastSuccessful == Run(events, ttl).lastSuccessful
  {
    assert (events + [e])[..|events|] == events;
    if Next(Run(events, ttl), e, ttl).lastSuccessful != Run(events, ttl).lastSuccessful {
      assert Passed(events + [e], |events|, e.thread, Recording, ttl);
    }
  }

  /** The last success is the one there was at step `n`, or one recorded since. */
  lemma {:induction false} LastSuccessSince(events: seq<Event>, n: nat, ttl: nat)
    requires n <= |events|
    ensures
      || Run(events, ttl).lastSuccessful == Run(events[..n], ttl).lastSuccessful
      || exists m | n <= m < |events| ::
           RecordsSuccess(events, m, ttl) && Run(events, ttl).lastSuccessful == Some(Run(events[..m], ttl).clock)
  {
    if n == |events| {
      assert events[..n] == events;
    } else {
      var before, last := events[..|events| - 1], events[|events| - 1];
      assert events == before + [last] && before[..n] == events[..n] && events[..|before|] == before;
      LastSuccessSince(before, n, ttl);
      SuccessStep(before, last, ttl);
      if !RecordsSuccess(events, |before|, ttl)
         && Run(before, ttl).lastSuccessful != Run(events[..n], ttl).lastSuccessful {
        var m :| n <= m < |before|
                 && RecordsSuccess(before, m, ttl)
                 && Run(before, ttl).lastSuccessful == Some(Run(before[..m], ttl).clock);
        SuccessStays(before, last, m, ttl);
      }
    }
  }

  lemma SuccessStays(before: seq<Event>, last: Event, m: nat, ttl: nat)
    requires m < |before| && RecordsSuccess(before, m, ttl)
    ensures RecordsSuccess(before + [last], m, ttl) && (before + [last])[..m] == before[..m]
  {
    var t: ThreadId :| Passed(before, m, t, Recording, ttl);
    assert (before + [last])[..m] == before[..m];
    assert Passed(before + [last], m, t, Recording, ttl);
  }

  lemma SuccessIsRemembered(events: seq<Event>, m: nat, ttl: nat)
    requires m < |events| && RecordsSuccess(events, m, ttl)
    ensures NotBefore(Some(Run(events[..m], ttl).clock), Run(events, ttl).lastSuccessful)
  {
    var t: ThreadId :| Passed(events, m, t, Recording, ttl);
    assert events[..m + 1] == events[..m] + [events[m]];
    assert Passed(events[..m + 1], m, t, Recording, ttl) by {
      assert events[..m + 1][..m] == events[..m];
    }
    RunAppend(events[..m], events[m], ttl);
    SuccessStep(events[..m], events[m], ttl);
    LastSuccessNeverGoesBack(events, m + 1, ttl);
  }

  /** A cache found stale is fresh later if and only if a success recorded since is younger than the TTL. */
  lemma FreshAgainExactlyWhen(events: seq<Event>, n: nat, ttl: nat)
    requires n <= |events| && Stale(Run(events[..n], ttl), ttl)
    ensures !Stale(Run(events, ttl), ttl) <==> exists m :: RecentSuccess(events, n, m, ttl)
  {
    hide Run, RecordsSuccess;
    ClockNeverGoesBack(events, n, ttl);
    LastSuccessSince(events, n, ttl);
    if !Stale(Run(events, ttl), ttl) {
      var m :| n <= m < |events|
               && RecordsSuccess(events, m, ttl)
               && Run(events, ttl).lastSuccessful == Some(Run(events[..m], ttl).clock);
      assert RecentSuccess(events, n, m, ttl);
    }
    if m :| RecentSuccess(events, n, m, ttl) {
      SuccessIsRemembered(events, m, ttl);
    }
  }

  /** At step `n` the thread looks at the cache, unforced. */
  ghost predicate ChecksAt(events: seq<Event>, n: nat, t: ThreadId, ttl: nat) {
    && n < |events| && events[n].Advance? && events[n].thread == t
    && t in Run(events[..n], ttl).threads && Run(events[..n], ttl).threads[t] == Called(false)
  }

  /** A thread that has ended stays ended. */
  lemma {:induction false} OverStays(events: seq<Event>, n: nat, t: ThreadId, ttl: nat)
    requires n <= |events| && t in Run(events[..n], ttl).threads && Run(events[..n], ttl).threads[t].Over?
    ensures t in Run(events, ttl).threads && Run(events, ttl).threads[t].Over?
  {
    if n < |events| {
      var before := events[..|events| - 1];
      assert before[..n] == events[..n];
      OverStays(before, n, t, ttl);
    } else {
      assert events[..n] == events;
    }
  }

  /**
   * An unforced thread that is ready to sync found the cache stale at its check,
   * and its next step starts the sync if and only if the lock is free. It then
   * syncs a fresh cache exactly when a success recorded since its check is
   * younger than the TTL.
   */
  lemma UnforcedSyncOfFreshCacheExactlyWhen(events: seq<Event>, n: nat, t: ThreadId, ok: bool, ttl: nat)
    requires ChecksAt(events, n, t, ttl)
    requires t in Run(events, ttl).threads && Run(events, ttl).threads[t].Ready?
    ensures var s := Run(events, ttl);
      && Stale(Run(events[..n], ttl), ttl)
      && (Inside(Next(s, Advance(t, ok), ttl), t) <==> s.lock == None)
      && (!Stale(s, ttl) <==> exists m :: RecentSuccess(events, n, m, ttl))
  {
    if !Stale(Run(events[..n], ttl), ttl) {
      assert events[..n + 1] == events[..n] + [events[n]];
      RunAppend(events[..n], events[n], ttl);
      OverStays(events, n + 1, t, ttl);
      assert false;
    }
    FreshAgainExactlyWhen(events, n, ttl);
  }

  /**
   * A call goes on to try the lock if it is forced, however fresh the cache is,
   * or found it stale: no success yet, or none for the TTL. It then starts the
   * sync if the lock is free, and ends otherwise.
   */
  lemma CallSyncsExactlyWhen(s: State, t: ThreadId, force: bool, ok: bool, next: bool, ttl: nat)
    requires t in s.threads && s.threads[t] == Called(force)
    ensures var goesOn := force || (ok && (s.lastSuccessful == None || s.clock - s.lastSuccessful.value >= ttl));
      var s1 := Next(s, Advance(t, ok), ttl); var s2 := Next(s1, Advance(t, next), ttl);
      && (goesOn && s.lock == None ==> s2.lock == Some(t) && s2.threads[t] == Marking)
      && (!(goesOn && s.lock == None) ==> s2.lock == s.lock && s2.threads[t] == Over)
  {
  }

  /** A background refresh starts a thread exactly when it is forced or the cache is stale. */
  lemma TriggerStartsExactlyWhen(s: State, t: ThreadId, force: bool, ttl: nat)
    requires t !in s.threads
    ensures t in Next(s, Trigger(t, force), ttl).threads <==>
      force || s.lastSuccessful == None || s.clock - s.lastSuccessful.value >= ttl
  {
  }

  /** A sync that meets no error records "ok", the time of its end, and frees the lock. */
  lemma SyncWithoutErrorSucceeds(s: State, t: ThreadId, ttl: nat)
    requires t in s.threads && s.threads[t] == Marking && s.lock == Some(t)
    ensures var s1 := Next(s, Advance(t, true), ttl);
      var s3 := Next(Next(s1, Advance(t, true), ttl), Advance(t, true), ttl);
      var s5 := Next(Next(s3, Advance(t, true), ttl), Advance(t, true), ttl);
      && s1.status == Running && s1.lastSuccessful == s.lastSuccessful
      && s5.status == Ok && s5.lastSuccessful == Some(s.clock) && s5.lock == None && s5.threads[t] == Over
  {
  }

  /** A fetch that fails is recorded as "error" and moves no success. */
  lemma FailedFetchIsRecorded(s: State, t: ThreadId, ttl: nat)
    requires t in s.threads && s.threads[t] == Fetching
    ensures var s2 := Next(Next(s, Advance(t, false), ttl), Advance(t, true), ttl);
      s2.status == Error && s2.lastSuccessful == s.lastSuccessful && s2.threads[t] == Releasing(false)
  {
  }
}
