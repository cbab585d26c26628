/**
 * Overlapping requests on one dataset (api/routes/data_agent.py): anchoring and
 * HOL use wait for outside calls while holding the `meta` they read at the
 * start, and write all of it back at the end. Verification and reuse do not
 * wait. DatasetProof has the steps themselves.
 */
module DatasetOverlap {
  import opened Options
  import opened DatasetProof

  type RequestId = nat

  /** A waiting request and the copy of `meta` it will write back. */
  datatype Request =
    | Pinning(copy: Meta)
    | Submitting(copy: Meta, cid: string)
    | UsingHol(copy: Meta)

  datatype Server = Server(
    row: Meta,
    waiting: map<RequestId, Request>,
    pins: seq<Pin>,
    submitted: seq<AnchorPayload>)

  const STARTED := Server(DEFAULT_META, map[], [], [])

  datatype Event =
    | VerifyNow(manifest: Manifest)
    | ReuseNow(now: Time)
    /** The anchor route verifies and commits before it waits. */
    | StartAnchor(id: RequestId, manifest: Manifest)
    | PinAnswer(id: RequestId, answer: Call<string>)
    | SubmitAnswer(id: RequestId, receipt: Call<Receipt>, now: Time)
    | StartHol(id: RequestId)
    /** No answer from any agent writes nothing. */
    | HolAnswer(id: RequestId, trace: Option<string>)

  function Drop(s: Server, id: RequestId): Server {
    s.(waiting := s.waiting - {id})
  }

  function OnPinAnswer(s: Server, id: RequestId, copy: Meta, answer: Call<string>): Server {
    match answer
    case Raised(error) => Drop(s, id).(row := PinFailed(copy, error))
    case Returned(cid) =>
      s.(waiting := s.waiting[id := Submitting(copy, cid)], pins := s.pins + [Pin(cid, copy.manifest)])
  }

  function OnSubmitAnswer(s: Server, id: RequestId, copy: Meta, cid: string, receipt: Call<Receipt>, now: Time,
                          digest: Digest): Server
  {
    match receipt
    case Raised(error) => Drop(s, id).(row := SubmitFailed(copy, cid, error, digest))
    case Returned(r) =>
      Drop(s, id).(row := SubmitDone(copy, cid, r, now, digest),
                   submitted := s.submitted + [Payload(copy, cid, digest)])
  }

  function Next(s: Server, e: Event, digest: Digest): Server {
    match e
    case VerifyNow(manifest) => s.(row := s.row.(manifest := manifest))
    case ReuseNow(now) => s.(row := Reused(s.row, now))
    case StartAnchor(id, manifest) =>
      if id in s.waiting then s
      else
        var verified := s.row.(manifest := manifest);
        s.(row := verified, waiting := s.waiting[id := Pinning(verified)])
    case PinAnswer(id, answer) =>
      if id in s.waiting && s.waiting[id].Pinning? then OnPinAnswer(s, id, s.waiting[id].copy, answer) else s
    case SubmitAnswer(id, receipt, now) =>
      if id in s.waiting && s.waiting[id].Submitting? then
        OnSubmitAnswer(s, id, s.waiting[id].copy, s.waiting[id].cid, receipt, now, digest)
      else s
    case StartHol(id) =>
      if id in s.waiting then s else s.(waiting := s.waiting[id := UsingHol(s.row)])
    case HolAnswer(id, trace) =>
      if id in s.waiting && s.waiting[id].UsingHol? then
        if trace.Some? then Drop(s, id).(row := TraceAdded(s.waiting[id].copy, trace.value)) else Drop(s, id)
      else s
  }

  function Run(events: seq<Event>, digest: Digest): Server {
    if events == [] then STARTED
    else Next(Run(events[..|events| - 1], digest), events[|events| - 1], digest)
  }

  ghost predicate RequestInv(r: Request, s: Server, digest: Digest) {
    && Coherent(r.copy, s.pins, s.submitted, digest)
    && (r.Submitting? ==> Pin(r.cid, r.copy.manifest) in s.pins)
  }

  ghost predicate Inv(s: Server, digest: Digest) {
    && Coherent(s.row, s.pins, s.submitted, digest)
    && (forall id | id in s.waiting :: RequestInv(s.waiting[id], s, digest))
  }

  lemma CoherenceGrows(meta: Meta, s: Server, s': Server, digest: Digest)
    requires Coherent(meta, s.pins, s.submitted, digest)
    requires s.pins <= s'.pins && s.submitted <= s'.submitted
    ensures Coherent(meta, s'.pins, s'.submitted, digest)
  {
  }

  lemma SubmittedIsCoherent(s: Server, copy: Meta, cid: string, digest: Digest)
    requires Coherent(copy, s.pins, s.submitted, digest) && Pin(cid, copy.manifest) in s.pins
    ensures forall error :: Coherent(SubmitFailed(copy, cid, error, digest), s.pins, s.submitted, digest)
    ensures forall r, now ::
      Coherent(SubmitDone(copy, cid, r, now, digest), s.pins, s.submitted + [Payload(copy, cid, digest)], digest)
  {
    StoringAPinIsCoherent(copy, cid, s.pins, digest);
    var stored := StoreManifest(copy, cid, digest);
    forall error
      ensures Coherent(SubmitFailed(copy, cid, error, digest), s.pins, s.submitted, digest)
    {
      assert FromOnePin(SubmitFailed(copy, cid, error, digest), s.pins, digest);
    }
    forall r, now
      ensures Coherent(SubmitDone(copy, cid, r, now, digest), s.pins,
                       s.submitted + [Payload(copy, cid, digest)], digest)
    {
      assert FromOnePin(SubmitDone(copy, cid, r, now, digest), s.pins, digest);
    }
  }

  /** What the logs gain in one step. */
  lemma LogsGrow(s: Server, e: Event, digest: Digest)
    ensures s.pins <= Next(s, e, digest).pins && s.submitted <= Next(s, e, digest).submitted
  {
  }

  lemma PinAnswerKeepsRow(s: Server, id: RequestId, answer: Call<string>, digest: Digest)
    requires Inv(s, digest) && id in s.waiting && s.waiting[id].Pinning?
    ensures var s' := OnPinAnswer(s, id, s.waiting[id].copy, answer); Coherent(s'.row, s'.pins, s'.submitted, digest)
  {
    var s' := OnPinAnswer(s, id, s.waiting[id].copy, answer);
    if answer.Returned? {
      CoherenceGrows(s.row, s, s', digest);
    }
  }

  lemma RowStep(s: Server, e: Event, digest: Digest)
    requires Inv(s, digest)
    ensures var s' := Next(s, e, digest); Coherent(s'.row, s'.pins, s'.submitted, digest)
  {
    match e
    case PinAnswer(id, answer) =>
      if id in s.waiting && s.waiting[id].Pinning? {
        PinAnswerKeepsRow(s, id, answer, digest);
      }
    case SubmitAnswer(id, _, _) =>
      if id in s.waiting && s.waiting[id].Submitting? {
        SubmittedIsCoherent(s, s.waiting[id].copy, s.waiting[id].cid, digest);
      }
    case _ =>
  }

  lemma RequestStep(s: Server, e: Event, id: RequestId, digest: Digest)
    requires Inv(s, digest) && id in Next(s, e, digest).waiting
    ensures RequestInv(Next(s, e, digest).waiting[id], Next(s, e, digest), digest)
  {
    var s' := Next(s, e, digest);
    LogsGrow(s, e, digest);
    if id in s.waiting {
      assert RequestInv(s.waiting[id], s, digest);
      CoherenceGrows(s.waiting[id].copy, s, s', digest);
    } else {
      RowStep(s, e, digest);
      assert s'.waiting[id].copy == s'.row;
    }
  }

  lemma InvStep(s: Server, e: Event, digest: Digest)
    requires Inv(s, digest)
    ensures Inv(Next(s, e, digest), digest)
  {
    RowStep(s, e, digest);
    forall id | id in Next(s, e, digest).waiting
      ensures RequestInv(Next(s, e, digest).waiting[id], Next(s, e, digest), digest)
    {
      RequestStep(s, e, id, digest);
    }
  }

  /** Every interleaving keeps the proof coherent, in the row and in every copy. */
  lemma {:induction false} InvAlways(events: seq<Event>, digest: Digest)
    ensures Inv(Run(events, digest), digest)
  {
    if events != [] {
      InvAlways(events[..|events| - 1], digest);
      InvStep(Run(events[..|events| - 1], digest), events[|events| - 1], digest);
    }
  }

  /** The event writes back the copy of a waiting request. */
  predicate WritesBack(s: Server, e: Event, id: RequestId) {
    && id in s.waiting
    && match s.waiting[id]
       case Pinning(_) => e.PinAnswer? && e.id == id && e.answer.Raised?
       case Submitting(_, _) => e.SubmitAnswer? && e.id == id
       case UsingHol(_) => e.HolAnswer? && e.id == id && e.trace.Some?
  }

  /** A step leaves "unanchored" behind for good unless a HOL use writes back a copy from before the first anchoring. */
  lemma UnanchoredReenteredExactlyWhen(s: Server, e: Event, digest: Digest)
    requires s.row.status != Unanchored
    ensures
      Next(s, e, digest).row.status == Unanchored <==>
      e.HolAnswer? && WritesBack(s, e, e.id) && s.waiting[e.id].copy.status == Unanchored
  {
  }

  /** The reuse count falls only when a copy with a smaller count is written back. */
  lemma ReusesLostExactlyWhen(s: Server, e: Event, digest: Digest)
    ensures
      Next(s, e, digest).row.reuseCount < s.row.reuseCount <==>
      exists id :: WritesBack(s, e, id) && s.waiting[id].copy.reuseCount < s.row.reuseCount
  {
    if id :| WritesBack(s, e, id) && s.waiting[id].copy.reuseCount < s.row.reuseCount {
      assert Next(s, e, digest).row.reuseCount == s.waiting[id].copy.reuseCount;
    }
    if Next(s, e, digest).row.reuseCount < s.row.reuseCount {
      match e
      case PinAnswer(id, _) => assert WritesBack(s, e, id);
      case SubmitAnswer(id, _, _) => assert WritesBack(s, e, id);
      case HolAnswer(id, _) => assert WritesBack(s, e, id);
      case _ => assert false;
    }
  }

  // --------------------------------------------------------- losses over a run

  /** The server before event `n` of a run. */
  function At(events: seq<Event>, n: nat, digest: Digest): Server
    requires n <= |events|
  {
    Run(events[..n], digest)
  }

  lemma AtNext(events: seq<Event>, n: nat, digest: Digest)
    requires n < |events|
    ensures At(events, n + 1, digest) == Next(At(events, n, digest), events[n], digest)
  {
    assert events[..n + 1][..n] == events[..n];
  }

  predicate Starts(e: Event, id: RequestId) {
    (e.StartAnchor? || e.StartHol?) && e.id == id
  }

  /** The request that waits before event `n` is the one that event `m` started. */
  ghost predicate StartedAt(events: seq<Event>, m: nat, n: nat, id: RequestId, digest: Digest) {
    && m < n <= |events| && Starts(events[m], id) && id !in At(events, m, digest).waiting
    && forall k | m < k <= n :: id in At(events, k, digest).waiting
  }

  lemma {:induction false} WaitingWasStarted(events: seq<Event>, n: nat, id: RequestId, digest: Digest) returns (m: nat)
    requires n <= |events| && id in At(events, n, digest).waiting
    ensures StartedAt(events, m, n, id, digest)
  {
    assert n > 0;
    AtNext(events, n - 1, digest);
    if id in At(events, n - 1, digest).waiting {
      m := WaitingWasStarted(events, n - 1, id, digest);
    } else {
      m := n - 1;
    }
  }

  /** It holds the row as its start left it, and is a HOL use exactly if it started as one. */
  lemma {:induction false} WaitingHoldsItsStart(events: seq<Event>, m: nat, n: nat, id: RequestId, digest: Digest)
    requires StartedAt(events, m, n, id, digest)
    ensures At(events, n, digest).waiting[id].copy == At(events, m + 1, digest).row
    ensures At(events, n, digest).waiting[id].UsingHol? <==> events[m].StartHol?
  {
    AtNext(events, n - 1, digest);
    if m < n - 1 {
      WaitingHoldsItsStart(events, m, n - 1, id, digest);
    }
  }

  /** Event `n` ends, with an answer, a HOL use that event `m` started. */
  ghost predicate EndsHolUse(events: seq<Event>, m: nat, n: nat, digest: Digest) {
    && n < |events| && events[n].HolAnswer? && events[n].trace.Some?
    && StartedAt(events, m, n, events[n].id, digest) && events[m].StartHol?
  }

  /**
   * Over every run: an event takes the row back to "unanchored" if and only if
   * it ends a HOL use that started while the row was unanchored.
   */
  lemma UnanchoredReenteredInRunExactlyWhen(events: seq<Event>, n: nat, digest: Digest)
    requires n < |events| && At(events, n, digest).row.status != Unanchored
    ensures
      At(events, n + 1, digest).row.status == Unanchored <==>
      exists m :: EndsHolUse(events, m, n, digest) && At(events, m, digest).row.status == Unanchored
  {
    hide At, Next;
    var s, e := At(events, n, digest), events[n];
    AtNext(events, n, digest);
    UnanchoredReenteredExactlyWhen(s, e, digest);
    if e.HolAnswer? && WritesBack(s, e, e.id) {
      var m := WaitingWasStarted(events, n, e.id, digest);
      HolStartLeavesRow(events, m, n, e.id, digest);
      assert EndsHolUse(events, m, n, digest);
    }
    if m :| EndsHolUse(events, m, n, digest) && At(events, m, digest).row.status == Unanchored {
      HolStartLeavesRow(events, m, n, e.id, digest);
    }
  }

  lemma HolStartLeavesRow(events: seq<Event>, m: nat, n: nat, id: RequestId, digest: Digest)
    requires StartedAt(events, m, n, id, digest)
    ensures At(events, n, digest).waiting[id].UsingHol? <==> events[m].StartHol?
    ensures events[m].StartHol? ==> At(events, n, digest).waiting[id].copy == At(events, m, digest).row
  {
    WaitingHoldsItsStart(events, m, n, id, digest);
    AtNext(events, m, digest);
  }

  /** What the row records of the last anchoring. */
  datatype Anchoring = Anchoring(
    payload: Option<AnchorPayload>,
    topic: Option<string>,
    messageStatus: Option<string>,
    anchoredAt: Option<Time>)

  function AnchoringOf(meta: Meta): Anchoring {
    Anchoring(meta.anchorPayload, meta.topic, meta.messageStatus, meta.anchoredAt)
  }

  /** Event `n` writes back the row that event `m` left to a request, without a new submission. */
  ghost predicate WritesBackFrom(events: seq<Event>, m: nat, n: nat, id: RequestId, digest: Digest) {
    && n < |events| && StartedAt(events, m, n, id, digest)
    && WritesBack(At(events, n, digest), events[n], id)
    && At(events, n + 1, digest).submitted == At(events, n, digest).submitted
  }

  /** And that row recorded another anchoring than the present one. */
  ghost predicate RevertsTo(events: seq<Event>, m: nat, n: nat, id: RequestId, digest: Digest) {
    && WritesBackFrom(events, m, n, id, digest)
    && AnchoringOf(At(events, m + 1, digest).row) != AnchoringOf(At(events, n, digest).row)
  }

  lemma UnsubmittedStep(s: Server, e: Event, digest: Digest)
    requires Next(s, e, digest).submitted == s.submitted
    ensures forall id | WritesBack(s, e, id) :: AnchoringOf(Next(s, e, digest).row) == AnchoringOf(s.waiting[id].copy)
    ensures AnchoringOf(Next(s, e, digest).row) != AnchoringOf(s.row) ==> exists id :: WritesBack(s, e, id)
  {
    match e
    case PinAnswer(id, _) => assert WritesBack(s, e, id) || Next(s, e, digest).row == s.row;
    case SubmitAnswer(id, _, _) => assert WritesBack(s, e, id) || Next(s, e, digest).row == s.row;
    case HolAnswer(id, _) => assert WritesBack(s, e, id) || Next(s, e, digest).row == s.row;
    case _ =>
  }

  /**
   * Over every run: an event that submits nothing changes what the row records
   * of its anchoring if and only if it writes back, for a request of any kind, a
   * row that recorded another anchoring when that request started.
   */
  lemma AnchoringLostExactlyWhen(events: seq<Event>, n: nat, digest: Digest)
    requires n < |events| && At(events, n + 1, digest).submitted == At(events, n, digest).submitted
    ensures
      AnchoringOf(At(events, n + 1, digest).row) != AnchoringOf(At(events, n, digest).row) <==>
      exists m, id :: RevertsTo(events, m, n, id, digest)
  {
    hide At, Next, AnchoringOf, WritesBack;
    var s, e := At(events, n, digest), events[n];
    AtNext(events, n, digest);
    UnsubmittedStep(s, e, digest);
    if AnchoringOf(At(events, n + 1, digest).row) != AnchoringOf(s.row) {
      var id :| WritesBack(s, e, id);
      WriterWaits(s, e, id);
      var m := WaitingWasStarted(events, n, id, digest);
      WaitingHoldsItsStart(events, m, n, id, digest);
      assert RevertsTo(events, m, n, id, digest);
    }
    if m, id :| RevertsTo(events, m, n, id, digest) {
      WaitingHoldsItsStart(events, m, n, id, digest);
    }
  }

  lemma WriterWaits(s: Server, e: Event, id: RequestId)
    requires WritesBack(s, e, id)
    ensures id in s.waiting
  {
  }

  // ---------------------------------------------------------- harmless overlap

  /** The copy a waiting request writes back is the row as it stands. */
  ghost predicate Undisturbed(events: seq<Event>, digest: Digest) {
    forall n | 0 <= n < |events| :: CurrentAt(Run(events[..n], digest), events[n])
  }

  ghost predicate CurrentAt(s: Server, e: Event) {
    forall id | WritesBack(s, e, id) :: s.waiting[id].copy == s.row
  }

  /** The requests as DatasetProof has them, each at the moment it writes. */
  function Effect(s: Server, e: Event): seq<Op> {
    match e
    case VerifyNow(manifest) => [Verify(manifest)]
    case ReuseNow(now) => [Reuse(now)]
    case StartAnchor(id, manifest) => if id in s.waiting then [] else [Verify(manifest)]
    case PinAnswer(id, Raised(error)) =>
      if id in s.waiting && s.waiting[id].Pinning? then [Anchor(Raised(error), Raised(""), 0)] else []
    case SubmitAnswer(id, receipt, now) =>
      if id in s.waiting && s.waiting[id].Submitting? then [Anchor(Returned(s.waiting[id].cid), receipt, now)] else []
    case HolAnswer(id, Some(trace)) =>
      if id in s.waiting && s.waiting[id].UsingHol? then [UseHol(trace)] else []
    case _ => []
  }

  function Effects(events: seq<Event>, digest: Digest): seq<Op> {
    if events == [] then []
    else
      var before := events[..|events| - 1];
      Effects(before, digest) + Effect(Run(before, digest), events[|events| - 1])
  }

  lemma EffectAgrees(s: Server, e: Event, d: Dataset, digest: Digest)
    requires CurrentAt(s, e) && d.meta == s.row
    ensures |Effect(s, e)| <= 1
    ensures Next(s, e, digest).row == if Effect(s, e) == [] then d.meta else Step(d, Effect(s, e)[0], digest).meta
  {
    match e
    case PinAnswer(id, Raised(_)) => assert WritesBack(s, e, id) || Effect(s, e) == [];
    case SubmitAnswer(id, _, _) => assert WritesBack(s, e, id) || Effect(s, e) == [];
    case HolAnswer(id, Some(_)) => assert WritesBack(s, e, id) || Effect(s, e) == [];
    case _ =>
  }

  /**
   * Overlap is harmless when nothing is written while a request waits: the row
   * is then the one the same requests leave when run one after another.
   */
  lemma {:induction false} UndisturbedRunsAreSequential(events: seq<Event>, digest: Digest)
    requires Undisturbed(events, digest)
    ensures Run(events, digest).row == DatasetProof.Run(Effects(events, digest), digest).meta
  {
    if events != [] {
      var before, last := events[..|events| - 1], events[|events| - 1];
      forall n | 0 <= n < |before|
        ensures CurrentAt(Run(before[..n], digest), before[n])
      {
        assert events[..n] == before[..n];
      }
      UndisturbedRunsAreSequential(before, digest);
      var ops := Effects(before, digest);
      var d := DatasetProof.Run(ops, digest);
      var s := Run(before, digest);
      EffectAgrees(s, last, d, digest);
      if Effect(s, last) == [] {
        assert ops + Effect(s, last) == ops;
      } else {
        assert (ops + Effect(s, last))[..|ops|] == ops;
      }
    }
  }

  /** A HOL use that spans the first anchoring erases it from the row: the submitted payload is no longer recorded. */
  lemma HolUseErasesAnchoring(manifest: Manifest, cid: string, receipt: Receipt, now: Time, trace: string,
                              digest: Digest)
    ensures
      var s1 := Next(Next(STARTED, StartHol(1), digest), StartAnchor(2, manifest), digest);
      var s2 := Next(Next(s1, PinAnswer(2, Returned(cid)), digest), SubmitAnswer(2, Returned(receipt), now), digest);
      var s3 := Next(s2, HolAnswer(1, Some(trace)), digest);
      && s2.row.status == Anchored && PayloadMatches(s2.row)
      && s3.row.status == Unanchored && s3.row.anchorPayload == None
      && s3.submitted == [AnchorPayload(cid, digest(manifest))]
  {
  }
}
