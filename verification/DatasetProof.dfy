/**
 * Proof of a dataset (api/routes/data_agent.py): verification, pinning of the
 * manifest, anchoring on Hedera, reuse and HOL use, all of which rewrite the
 * one `meta` value of the dataset. Here each request is one step;
 * DatasetOverlap lets requests overlap.
 */
module DatasetProof {
  import opened Options

  type Time = int

  const GATEWAY := "https://gateway.pinata.cloud/ipfs/"
  const TRACES_KEPT := 20

  /** The part of the manifest that can change: the verification status and report. */
  datatype Manifest = Manifest(verificationStatus: string, report: Option<string>)

  /** SHA-256 of the canonical JSON of a manifest. */
  type Digest = Manifest -> string

  datatype ProofStatus = Unanchored | Failed | ManifestPinned | Anchored

  /** The dataset id, lab and upload time of a payload never change. */
  datatype AnchorPayload = AnchorPayload(cid: string, sha256: string)

  datatype Meta = Meta(
    manifest: Manifest,
    status: ProofStatus,
    cid: Option<string>,
    sha256: Option<string>,
    gatewayUrl: Option<string>,
    topic: Option<string>,
    messageStatus: Option<string>,
    anchorPayload: Option<AnchorPayload>,
    anchoredAt: Option<Time>,
    lastError: Option<string>,
    reuseCount: nat,
    lastReusedAt: Option<Time>,
    holSessions: seq<string>)

  const DEFAULT_META := Meta(
    Manifest("pending", None), Unanchored, None, None, None, None, None, None, None, None, 0, None, [])

  datatype Pin = Pin(cid: string, manifest: Manifest)

  datatype Receipt = Receipt(topic: string, messageStatus: string)

  datatype Call<+T> = Returned(value: T) | Raised(error: string)

  /** The stored value, every pin Pinata confirmed and every payload Hedera confirmed. */
  datatype Dataset = Dataset(meta: Meta, pins: seq<Pin>, submitted: seq<AnchorPayload>)

  const UPLOADED := Dataset(DEFAULT_META, [], [])

  datatype Op =
    | Verify(manifest: Manifest)
    | Anchor(pin: Call<string>, submit: Call<Receipt>, now: Time)
    | UseHol(trace: string)
    | Reuse(now: Time)

  function PinFailed(meta: Meta, error: string): Meta {
    meta.(status := Failed, lastError := Some("Pinata upload failed: " + error))
  }

  function StoreManifest(meta: Meta, cid: string, digest: Digest): Meta {
    meta.(cid := Some(cid), sha256 := Some(digest(meta.manifest)), gatewayUrl := Some(GATEWAY + cid))
  }

  function SubmitFailed(meta: Meta, cid: string, error: string, digest: Digest): Meta {
    StoreManifest(meta, cid, digest).(
      status := ManifestPinned,
      lastError := Some("Hedera anchoring failed: " + error))
  }

  function Payload(meta: Meta, cid: string, digest: Digest): AnchorPayload {
    AnchorPayload(cid, digest(meta.manifest))
  }

  function SubmitDone(meta: Meta, cid: string, receipt: Receipt, now: Time, digest: Digest): Meta {
    StoreManifest(meta, cid, digest).(
      status := Anchored,
      topic := Some(receipt.topic),
      messageStatus := Some(receipt.messageStatus),
      anchorPayload := Some(Payload(meta, cid, digest)),
      anchoredAt := Some(now),
      lastError := None)
  }

  function LastTraces(traces: seq<string>): seq<string> {
    if |traces| > TRACES_KEPT then traces[|traces| - TRACES_KEPT..] else traces
  }

  function TraceAdded(meta: Meta, trace: string): Meta {
    meta.(holSessions := LastTraces(meta.holSessions + [trace]))
  }

  function Reused(meta: Meta, now: Time): Meta {
    meta.(reuseCount := meta.reuseCount + 1, lastReusedAt := Some(now))
  }

  function Step(d: Dataset, op: Op, digest: Digest): Dataset {
    match op
    case Verify(manifest) => d.(meta := d.meta.(manifest := manifest))
    case Anchor(Raised(error), _, _) => d.(meta := PinFailed(d.meta, error))
    case Anchor(Returned(cid), Raised(error), _) =>
      Dataset(SubmitFailed(d.meta, cid, error, digest), d.pins + [Pin(cid, d.meta.manifest)], d.submitted)
    case Anchor(Returned(cid), Returned(receipt), now) =>
      Dataset(SubmitDone(d.meta, cid, receipt, now, digest),
              d.pins + [Pin(cid, d.meta.manifest)],
              d.submitted + [Payload(d.meta, cid, digest)])
    case UseHol(trace) => d.(meta := TraceAdded(d.meta, trace))
    case Reuse(now) => d.(meta := Reused(d.meta, now))
  }

  /** The stored row; the two logs exist only in the specification. */
  class DataAsset {
    var meta: Meta
    ghost var pins: seq<Pin>
    ghost var submitted: seq<AnchorPayload>

    ghost function Snapshot(): Dataset
      reads this
    {
      Dataset(meta, pins, submitted)
    }

    constructor ()
      ensures Snapshot() == UPLOADED
    {
      meta, pins, submitted := DEFAULT_META, [], [];
    }

    /** `_apply_verification`. */
    method ApplyVerification(status: string, report: string, ghost digest: Digest)
      modifies this
      ensures Snapshot() == Step(old(Snapshot()), Verify(Manifest(status, Some(report))), digest)
    {
      meta := meta.(manifest := Manifest(status, Some(report)));
    }

    /** `_anchor_dataset_internal`; a false answer is the 502. */
    method AnchorDataset(pin: Call<string>, submit: Call<Receipt>, now: Time, digest: Digest) returns (anchored: bool)
      modifies this
      ensures Snapshot() == Step(old(Snapshot()), Anchor(pin, submit, now), digest)
      ensures anchored <==> pin.Returned? && submit.Returned?
    {
      var sha256 := digest(meta.manifest);
      if pin.Raised? {
        meta := meta.(status := Failed);
        meta := meta.(lastError := Some("Pinata upload failed: " + pin.error));
        return false;
      }
      var cid, gatewayUrl := pin.value, GATEWAY + pin.value;
      pins := pins + [Pin(cid, meta.manifest)];
      var payload := AnchorPayload(cid, sha256);
      if submit.Raised? {
        meta := meta.(status := ManifestPinned);
        meta := meta.(cid := Some(cid), sha256 := Some(sha256), gatewayUrl := Some(gatewayUrl));
        meta := meta.(lastError := Some("Hedera anchoring failed: " + submit.error));
        return false;
      }
      submitted := submitted + [payload];
      meta := meta.(status := Anchored);
      meta := meta.(cid := Some(cid), sha256 := Some(sha256), gatewayUrl := Some(gatewayUrl));
      meta := meta.(topic := Some(submit.value.topic), messageStatus := Some(submit.value.messageStatus));
      meta := meta.(anchorPayload := Some(payload), anchoredAt := Some(now), lastError := None);
      return true;
    }

    /** `_append_hol_session_trace`. */
    method AppendHolSessionTrace(trace: string, ghost digest: Digest)
      modifies this
      ensures Snapshot() == Step(old(Snapshot()), UseHol(trace), digest)
    {
      var sessions := meta.holSessions + [trace];
      if |sessions| > TRACES_KEPT {
        sessions := sessions[|sessions| - TRACES_KEPT..];
      }
      meta := meta.(holSessions := sessions);
    }

    /** `record_dataset_reuse`. */
    method RecordDatasetReuse(now: Time, ghost digest: Digest) returns (count: nat)
      modifies this
      ensures Snapshot() == Step(old(Snapshot()), Reuse(now), digest)
      ensures count == old(meta.reuseCount) + 1
    {
      count := meta.reuseCount + 1;
      meta := meta.(reuseCount := count, lastReusedAt := Some(now));
    }
  }

  // ---------------------------------------------------------- the invariant

  /** CID, hash and gateway URL are all absent, or all taken from one confirmed pin. */
  ghost predicate FromOnePin(meta: Meta, pins: seq<Pin>, digest: Digest) {
    || (meta.cid.None? && meta.sha256.None? && meta.gatewayUrl.None?)
    || exists p | p in pins ::
         meta.cid == Some(p.cid) && meta.sha256 == Some(digest(p.manifest)) && meta.gatewayUrl == Some(GATEWAY + p.cid)
  }

  /** The payload on record names the stored manifest. */
  predicate PayloadMatches(meta: Meta) {
    && meta.anchorPayload.Some?
    && meta.cid == Some(meta.anchorPayload.value.cid)
    && meta.sha256 == Some(meta.anchorPayload.value.sha256)
  }

  ghost predicate Coherent(meta: Meta, pins: seq<Pin>, submitted: seq<AnchorPayload>, digest: Digest) {
    && FromOnePin(meta, pins, digest)
    && (meta.anchorPayload.Some? ==> meta.anchorPayload.value in submitted)
    && (meta.status == Anchored ==>
          PayloadMatches(meta) && meta.lastError == None && meta.anchoredAt.Some? && meta.topic.Some?)
    && (meta.status == Failed || meta.status == ManifestPinned ==> meta.lastError.Some?)
    && (meta.status == ManifestPinned ==> meta.cid.Some?)
    && (meta.status == Unanchored ==> meta.cid.None? && meta.anchorPayload.None? && meta.lastError.None?)
  }

  lemma StoringAPinIsCoherent(meta: Meta, cid: string, pins: seq<Pin>, digest: Digest)
    requires Pin(cid, meta.manifest) in pins
    ensures FromOnePin(StoreManifest(meta, cid, digest), pins, digest)
  {
  }

  lemma CoherentStep(d: Dataset, op: Op, digest: Digest)
    requires Coherent(d.meta, d.pins, d.submitted, digest)
    ensures var d' := Step(d, op, digest); Coherent(d'.meta, d'.pins, d'.submitted, digest)
    ensures Step(d, op, digest).meta.status == Unanchored ==> d.meta.status == Unanchored
  {
    var d' := Step(d, op, digest);
    match op
    case Anchor(Returned(cid), _, _) =>
      StoringAPinIsCoherent(d.meta, cid, d'.pins, digest);
      assert FromOnePin(d'.meta, d'.pins, digest);
    case _ =>
  }

  function Run(ops: seq<Op>, digest: Digest): Dataset {
    if ops == [] then UPLOADED else Step(Run(ops[..|ops| - 1], digest), ops[|ops| - 1], digest)
  }

  /**
   * Over every run, whichever calls fail: an anchored dataset's payload was
   * submitted and names the stored manifest, the three manifest fields come
   * from one pin, and failures carry an error.
   */
  lemma {:induction false} CoherentAlways(ops: seq<Op>, digest: Digest)
    ensures var d := Run(ops, digest); Coherent(d.meta, d.pins, d.submitted, digest)
  {
    if ops != [] {
      CoherentAlways(ops[..|ops| - 1], digest);
      CoherentStep(Run(ops[..|ops| - 1], digest), ops[|ops| - 1], digest);
    }
  }

  // ------------------------------------------------- what history determines

  /** The proof status a history calls for: the outcome of its last anchoring. */
  function StatusFrom(ops: seq<Op>): ProofStatus {
    if ops == [] then Unanchored
    else
      match ops[|ops| - 1]
      case Anchor(Raised(_), _, _) => Failed
      case Anchor(Returned(_), Raised(_), _) => ManifestPinned
      case Anchor(Returned(_), Returned(_), _) => Anchored
      case _ => StatusFrom(ops[..|ops| - 1])
  }

  function Reuses(ops: seq<Op>): nat {
    if ops == [] then 0 else Reuses(ops[..|ops| - 1]) + if ops[|ops| - 1].Reuse? then 1 else 0
  }

  function Traces(ops: seq<Op>): seq<string> {
    if ops == [] then []
    else Traces(ops[..|ops| - 1]) + if ops[|ops| - 1].UseHol? then [ops[|ops| - 1].trace] else []
  }

  ghost predicate LastPinStored(d: Dataset, digest: Digest) {
    if d.pins == [] then d.meta.cid == None && d.meta.sha256 == None
    else
      var p := d.pins[|d.pins| - 1];
      d.meta.cid == Some(p.cid) && d.meta.sha256 == Some(digest(p.manifest))
  }

  ghost predicate LastSubmissionStored(d: Dataset) {
    d.meta.anchorPayload == if d.submitted == [] then None else Some(d.submitted[|d.submitted| - 1])
  }

  lemma {:induction false} StatusIsHistory(ops: seq<Op>, digest: Digest)
    ensures Run(ops, digest).meta.status == StatusFrom(ops)
  {
    if ops != [] {
      StatusIsHistory(ops[..|ops| - 1], digest);
    }
  }

  lemma StepStoresLast(d: Dataset, op: Op, digest: Digest)
    requires LastPinStored(d, digest) && LastSubmissionStored(d)
    ensures LastPinStored(Step(d, op, digest), digest) && LastSubmissionStored(Step(d, op, digest))
  {
  }

  lemma {:induction false} LastOnesAreStored(ops: seq<Op>, digest: Digest)
    ensures LastPinStored(Run(ops, digest), digest) && LastSubmissionStored(Run(ops, digest))
  {
    if ops != [] {
      LastOnesAreStored(ops[..|ops| - 1], digest);
      StepStoresLast(Run(ops[..|ops| - 1], digest), ops[|ops| - 1], digest);
    }
  }

  lemma LastOfLast(traces: seq<string>, trace: string)
    ensures LastTraces(LastTraces(traces) + [trace]) == LastTraces(traces + [trace])
  {
  }

  lemma StepKeepsCounters(d: Dataset, op: Op, digest: Digest)
    ensures Step(d, op, digest).meta.reuseCount == d.meta.reuseCount + if op.Reuse? then 1 else 0
    ensures Step(d, op, digest).meta.holSessions ==
      if op.UseHol? then LastTraces(d.meta.holSessions + [op.trace]) else d.meta.holSessions
  {
  }

  lemma {:induction false} ReusesAndTracesAreKept(ops: seq<Op>, digest: Digest)
    ensures Run(ops, digest).meta.reuseCount == Reuses(ops)
    ensures Run(ops, digest).meta.holSessions == LastTraces(Traces(ops))
  {
    if ops != [] {
      hide Step, LastTraces;
      var before, last := ops[..|ops| - 1], ops[|ops| - 1];
      ReusesAndTracesAreKept(before, digest);
      StepKeepsCounters(Run(before, digest), last, digest);
      if last.UseHol? {
        LastOfLast(Traces(before), last.trace);
      }
    } else {
      assert LastTraces([]) == [];
    }
  }

  /**
   * The stored value is what the whole history calls for: the status is the
   * last anchoring's, the manifest fields the last pin's, the payload the last
   * submission's, every reuse is counted and the newest traces are kept. In
   * particular "unanchored" is never re-entered.
   */
  lemma StoredValueIsHistory(ops: seq<Op>, digest: Digest)
    ensures var d := Run(ops, digest);
      && d.meta.status == StatusFrom(ops)
      && LastPinStored(d, digest) && LastSubmissionStored(d)
      && d.meta.reuseCount == Reuses(ops)
      && d.meta.holSessions == LastTraces(Traces(ops))
  {
    StatusIsHistory(ops, digest);
    LastOnesAreStored(ops, digest);
    ReusesAndTracesAreKept(ops, digest);
  }

  /** The traces kept are the newest 20 of all, in their order. */
  lemma NewestTracesAreKept(ops: seq<Op>, digest: Digest)
    ensures var kept, all := Run(ops, digest).meta.holSessions, Traces(ops);
      && |kept| == (if |all| < 20 then |all| else 20)
      && forall i | 0 <= i < |kept| :: kept[i] == all[|all| - |kept| + i]
  {
    ReusesAndTracesAreKept(ops, digest);
  }

  /** The manifest the last verification wrote. */
  function LastVerified(ops: seq<Op>): Manifest {
    if ops == [] then Manifest("pending", None)
    else if ops[|ops| - 1].Verify? then ops[|ops| - 1].manifest
    else LastVerified(ops[..|ops| - 1])
  }

  /** The receipt and time of the last anchoring that succeeded. */
  function LastAnchored(ops: seq<Op>): Option<(Receipt, Time)> {
    if ops == [] then None
    else
      match ops[|ops| - 1]
      case Anchor(Returned(_), Returned(receipt), now) => Some((receipt, now))
      case _ => LastAnchored(ops[..|ops| - 1])
  }

  /** The time of the last reuse. */
  function LastReuse(ops: seq<Op>): Option<Time> {
    if ops == [] then None
    else if ops[|ops| - 1].Reuse? then Some(ops[|ops| - 1].now)
    else LastReuse(ops[..|ops| - 1])
  }

  /** The error the last anchoring calls for. */
  function LastFailure(ops: seq<Op>): Option<string> {
    if ops == [] then None
    else
      match ops[|ops| - 1]
      case Anchor(Raised(error), _, _) => Some("Pinata upload failed: " + error)
      case Anchor(Returned(_), Raised(error), _) => Some("Hedera anchoring failed: " + error)
      case Anchor(Returned(_), Returned(_), _) => None
      case _ => LastFailure(ops[..|ops| - 1])
  }

  /** Topic, message status and time are those of an anchoring, or there is none. */
  ghost predicate HoldsReceipt(meta: Meta, last: Option<(Receipt, Time)>) {
    match last
    case None => meta.topic == None && meta.messageStatus == None && meta.anchoredAt == None
    case Some((receipt, now)) =>
      meta.topic == Some(receipt.topic) && meta.messageStatus == Some(receipt.messageStatus)
      && meta.anchoredAt == Some(now)
  }

  lemma {:induction false} ReceiptIsHistory(ops: seq<Op>, digest: Digest)
    ensures HoldsReceipt(Run(ops, digest).meta, LastAnchored(ops))
  {
    if ops != [] {
      ReceiptIsHistory(ops[..|ops| - 1], digest);
    }
  }

  lemma {:induction false} ErrorIsHistory(ops: seq<Op>, digest: Digest)
    ensures Run(ops, digest).meta.lastError == LastFailure(ops)
  {
    if ops != [] {
      ErrorIsHistory(ops[..|ops| - 1], digest);
    }
  }

  lemma {:induction false} TimesAreHistory(ops: seq<Op>, digest: Digest)
    ensures var meta := Run(ops, digest).meta;
      && meta.manifest == LastVerified(ops) && meta.lastReusedAt == LastReuse(ops)
      && (meta.cid == None ==> meta.gatewayUrl == None)
      && (meta.cid.Some? ==> meta.gatewayUrl == Some("https://gateway.pinata.cloud/ipfs/" + meta.cid.value))
  {
    if ops != [] {
      TimesAreHistory(ops[..|ops| - 1], digest);
    }
  }

  /**
   * The other fields are the history's too: the manifest is the last
   * verification's, topic, message status and time are the last successful
   * anchoring's, the error the last anchoring's, the reuse time the last reuse's,
   * and the gateway URL leads to the stored CID.
   */
  lemma OtherFieldsAreHistory(ops: seq<Op>, digest: Digest)
    ensures var meta := Run(ops, digest).meta;
      && meta.manifest == LastVerified(ops)
      && HoldsReceipt(meta, LastAnchored(ops))
      && meta.lastError == LastFailure(ops)
      && meta.lastReusedAt == LastReuse(ops)
      && (meta.cid == None ==> meta.gatewayUrl == None)
      && (meta.cid.Some? ==> meta.gatewayUrl == Some("https://gateway.pinata.cloud/ipfs/" + meta.cid.value))
  {
    ReceiptIsHistory(ops, digest);
    ErrorIsHistory(ops, digest);
    TimesAreHistory(ops, digest);
  }

  lemma {:induction false} UnanchoredFromTheStart(ops: seq<Op>, n: nat)
    requires n <= |ops| && StatusFrom(ops) == Unanchored
    ensures StatusFrom(ops[..n]) == Unanchored
  {
    if n < |ops| {
      assert ops[..|ops| - 1][..n] == ops[..n];
      UnanchoredFromTheStart(ops[..|ops| - 1], n);
    } else {
      assert ops[..n] == ops;
    }
  }

  /** A dataset that is unanchored after a run has been so all along, and no anchoring was ever tried. */
  lemma UnanchoredNeverReentered(ops: seq<Op>, n: nat, digest: Digest)
    requires n <= |ops| && Run(ops, digest).meta.status == Unanchored
    ensures Run(ops[..n], digest).meta.status == Unanchored
    ensures n < |ops| ==> !ops[n].Anchor?
  {
    hide Run;
    StatusIsHistory(ops, digest);
    UnanchoredFromTheStart(ops, n);
    StatusIsHistory(ops[..n], digest);
    if n < |ops| {
      UnanchoredFromTheStart(ops, n + 1);
      var longer := ops[..n + 1];
      assert longer[|longer| - 1] == ops[n] && StatusFrom(longer) == Unanchored;
    }
  }

  /**
   * Anchoring again when the pin succeeds and the submission fails leaves the
   * previous payload, topic and time beside the new manifest: they disagree
   * exactly when the new CID or hash differs.
   */
  lemma HalfReanchorLeavesStalePayload(d: Dataset, cid: string, error: string, now: Time, digest: Digest)
    requires Coherent(d.meta, d.pins, d.submitted, digest) && d.meta.status == Anchored
    ensures
      var d' := Step(d, Anchor(Returned(cid), Raised(error), now), digest);
      && d'.meta.status == ManifestPinned
      && d'.meta.anchorPayload == d.meta.anchorPayload && d'.meta.topic == d.meta.topic
      && d'.meta.anchoredAt == d.meta.anchoredAt
      && (PayloadMatches(d'.meta) <==> Some(cid) == d.meta.cid && Some(digest(d.meta.manifest)) == d.meta.sha256)
  {
  }

  /** Verification after anchoring outdates the hash exactly when it changes the digest of the manifest. */
  lemma VerificationOutdatesHash(d: Dataset, cid: string, receipt: Receipt, now: Time, later: Manifest, digest: Digest)
    ensures
      var d1 := Step(d, Anchor(Returned(cid), Returned(receipt), now), digest);
      var d2 := Step(d1, Verify(later), digest);
      && d2.meta.status == Anchored
      && (d2.meta.sha256 == Some(digest(d2.meta.manifest)) <==> digest(later) == digest(d.meta.manifest))
  {
  }
}
