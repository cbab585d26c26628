/**
 * Overlapping HOL registration requests for one agent (api/main.py,
 * hol_register_local_agent): a request loads the row, waits for the sidecar and
 * perhaps for Pinata, and if it published metadata writes back the whole `meta`
 * it loaded, `hol` entry included. From the commit to its end it does not wait:
 * the broker is called synchronously. HolRegistration has that last part.
 */
module RegistrationOverlap {
  import opened Options
  import opened HolErrors
  import opened HolRegistration

  type RequestId = nat

  datatype Server = Server(row: HolMeta, waiting: map<RequestId, HolMeta>)

  const STARTED := Server(NEW_AGENT, map[])

  datatype Event =
    | Load(id: RequestId)
    /** The request is given up before its commit: an unhealthy sidecar, a failed upload, a 400. */
    | GiveUp(id: RequestId)
    /** It commits, with published metadata or without, and is handled to its end. */
    | Complete(id: RequestId, published: bool, request: Request)

  function Next(s: Server, e: Event): Server {
    match e
    case Load(id) => if id in s.waiting then s else s.(waiting := s.waiting[id := s.row])
    case GiveUp(id) => s.(waiting := s.waiting - {id})
    case Complete(id, published, request) =>
      if id !in s.waiting then s
      else Server(Handle(if published then s.waiting[id] else s.row, request), s.waiting - {id})
  }

  function Run(events: seq<Event>): Server {
    if events == [] then STARTED else Next(Run(events[..|events| - 1]), events[|events| - 1])
  }

  /** The server before event `n` of a run. */
  function At(events: seq<Event>, n: nat): Server
    requires n <= |events|
  {
    Run(events[..n])
  }

  lemma AtNext(events: seq<Event>, n: nat)
    requires n < |events|
    ensures At(events, n + 1) == Next(At(events, n), events[n])
  {
    assert events[..n + 1][..n] == events[..n];
  }

  // -------------------------------------------------------- what overlap keeps

  predicate Sound(m: HolMeta) {
    m.status in {UNREGISTERED, PENDING, REGISTERED, ERROR} && (m.status == REGISTERED ==> Truthy(m.uaid))
  }

  lemma HandleKeepsSound(m: HolMeta, r: Request)
    requires Sound(m)
    ensures Sound(Handle(m, r))
  {
    StatusIsNormal(m.status);
  }

  /** In every interleaving a registered agent has a UAID, in the row and in every copy. */
  lemma {:induction false} RegisteredHasUaid(events: seq<Event>)
    ensures Sound(Run(events).row)
    ensures forall id | id in Run(events).waiting :: Sound(Run(events).waiting[id])
  {
    if events != [] {
      var before, last := events[..|events| - 1], events[|events| - 1];
      RegisteredHasUaid(before);
      if last.Complete? && last.id in Run(before).waiting {
        hide Sound, Handle;
        HandleKeepsSound(if last.published then Run(before).waiting[last.id] else Run(before).row, last.request);
      }
    }
  }

  // ------------------------------------------------------------ how it is lost

  /** The request that waits before event `n` loaded the row at event `m`. */
  ghost predicate LoadedAt(events: seq<Event>, m: nat, n: nat, id: RequestId) {
    && m < n <= |events| && events[m] == Load(id) && id !in At(events, m).waiting
    && forall k | m < k <= n :: id in At(events, k).waiting
  }

  lemma {:induction false} WaitingWasLoaded(events: seq<Event>, n: nat, id: RequestId) returns (m: nat)
    requires n <= |events| && id in At(events, n).waiting
    ensures LoadedAt(events, m, n, id)
  {
    assert n > 0;
    AtNext(events, n - 1);
    if id in At(events, n - 1).waiting {
      m := WaitingWasLoaded(events, n - 1, id);
    } else {
      m := n - 1;
    }
  }

  lemma {:induction false} WaitingHoldsWhatItLoaded(events: seq<Event>, m: nat, n: nat, id: RequestId)
    requires LoadedAt(events, m, n, id)
    ensures At(events, n).waiting[id] == At(events, m).row
  {
    AtNext(events, n - 1);
    if m < n - 1 {
      WaitingHoldsWhatItLoaded(events, m, n - 1, id);
    }
  }

  /** Event `n` writes back the row as event `m` loaded it, and is granted no UAID. */
  ghost predicate WritesBackFrom(events: seq<Event>, m: nat, n: nat) {
    && n < |events| && events[n].Complete? && events[n].published && !GrantsUaid(events[n].request)
    && LoadedAt(events, m, n, events[n].id)
  }

  /**
   * Over every run: an event without a grant changes the stored UAID if and
   * only if its request published metadata and the row it loaded at its start
   * had another one.
   */
  lemma UaidChangesExactlyWhen(events: seq<Event>, n: nat)
    requires n < |events| && (events[n].Complete? ==> !GrantsUaid(events[n].request))
    ensures At(events, n + 1).row.uaid != At(events, n).row.uaid <==>
      exists m :: WritesBackFrom(events, m, n) && At(events, m).row.uaid != At(events, n).row.uaid
  {
    hide At, ResolveErrorStatus;
    var s, e := At(events, n), events[n];
    AtNext(events, n);
    if e.Complete? && e.published && e.id in s.waiting {
      var m := WaitingWasLoaded(events, n, e.id);
      WaitingHoldsWhatItLoaded(events, m, n, e.id);
      assert WritesBackFrom(events, m, n);
    }
    if m :| WritesBackFrom(events, m, n) && At(events, m).row.uaid != s.row.uaid {
      WaitingHoldsWhatItLoaded(events, m, n, e.id);
    }
  }

  /**
   * In particular a stored UAID is lost exactly when a request that loaded the
   * row before there was one publishes metadata and is granted none itself.
   */
  lemma UaidLostExactlyWhen(events: seq<Event>, n: nat)
    requires n < |events| && Truthy(At(events, n).row.uaid)
    ensures !Truthy(At(events, n + 1).row.uaid) <==>
      exists m :: WritesBackFrom(events, m, n) && !Truthy(At(events, m).row.uaid)
  {
    hide At, ResolveErrorStatus;
    var s, e := At(events, n), events[n];
    AtNext(events, n);
    if e.Complete? && e.published && e.id in s.waiting {
      var m := WaitingWasLoaded(events, n, e.id);
      WaitingHoldsWhatItLoaded(events, m, n, e.id);
      if !GrantsUaid(e.request) {
        assert WritesBackFrom(events, m, n);
      }
    }
    if m :| WritesBackFrom(events, m, n) && !Truthy(At(events, m).row.uaid) {
      WaitingHoldsWhatItLoaded(events, m, n, e.id);
    }
  }

  /** A quote that publishes metadata while another request registers the agent erases the registration. */
  lemma QuoteErasesRegistration(uaid: string)
    requires uaid != ""
    ensures
      var s1 := Next(Next(STARTED, Load(1)), Load(2));
      var s2 := Next(s1, Complete(2, false, Register(Replied(Some(uaid)))));
      var s3 := Next(s2, Complete(1, true, Quote(Replied(None))));
      && s2.row.status == REGISTERED && s2.row.uaid == Some(uaid)
      && s3.row.status == UNREGISTERED && s3.row.uaid == None
  {
  }

  // ------------------------------------------------------------ harmless overlap

  /** No request that publishes finds, at its commit, another row than it loaded. */
  ghost predicate Undisturbed(events: seq<Event>) {
    forall n | 0 <= n < |events| :: CurrentAt(At(events, n), events[n])
  }

  predicate CurrentAt(s: Server, e: Event) {
    e.Complete? && e.published && e.id in s.waiting ==> s.waiting[e.id] == s.row
  }

  /** The requests in the order in which they complete. */
  function Completed(events: seq<Event>): seq<Request> {
    if events == [] then []
    else
      var before, last := events[..|events| - 1], events[|events| - 1];
      Completed(before) + if last.Complete? && last.id in Run(before).waiting then [last.request] else []
  }

  /** Otherwise overlapping requests leave what they leave one after another. */
  lemma {:induction false} UndisturbedRunsAreSequential(events: seq<Event>)
    requires Undisturbed(events)
    ensures Run(events).row == HolRegistration.Run(Completed(events))
  {
    if events != [] {
      hide Handle;
      var before, last := events[..|events| - 1], events[|events| - 1];
      forall n | 0 <= n < |before|
        ensures CurrentAt(At(before, n), before[n])
      {
        assert before[..n] == events[..n];
        assert CurrentAt(At(events, n), events[n]);
      }
      UndisturbedRunsAreSequential(before);
      assert CurrentAt(At(events, |before|), last);
      assert events[..|before|] == before;
      if last.Complete? && last.id in Run(before).waiting {
        var done := Completed(before);
        assert (done + [last.request])[..|done|] == done;
        assert Run(events).row == Handle(Run(before).row, last.request);
      } else {
        assert Completed(events) == Completed(before);
        assert Run(events).row == Run(before).row;
      }
    }
  }
}
