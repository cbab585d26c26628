/**
 * Verification state Synaptica keeps for external HOL agents
 * (shared/hol_agent_usability.py): one compact row per UAID standing for the
 * whole history of successes and hard failures, and the usability tier
 * computed from it.
 */
module HolUsability {
  import opened Options
  import opened Text

  /** Microseconds on the clock that `datetime.utcnow` reads. */
  type Time = int

  const HOL_VERIFIED_TTL: Time := 24 * 60 * 60 * 1_000_000

  datatype Row = Row(
    lastSuccessAt: Option<Time>,
    lastSuccessMode: Option<string>,
    lastHardFailureAt: Option<Time>,
    lastHardFailureReason: Option<string>,
    successCount: nat,
    failureCount: nat,
    lastTransport: Option<string>)

  const FRESH_ROW := Row(None, None, None, None, 0, 0, None)

  datatype Event =
    | Success(at: Time, mode: Option<string>, transport: Option<string>)
    | HardFailure(at: Time, reason: string, transport: Option<string>)

  type History = seq<Event>

  /** `str(value).strip() or None`. */
  function Cleaned(text: string): Option<string> {
    if Strip(text) == "" then None else Some(Strip(text))
  }

  function RecordedTransport(row: Row, transport: Option<string>): Option<string> {
    if transport.Some? && Cleaned(transport.value).Some? then Cleaned(transport.value) else row.lastTransport
  }

  /** The row after one recorded interaction. */
  function Apply(row: Row, e: Event): Row {
    match e
    case Success(at, mode, transport) =>
      row.(lastSuccessAt := Some(at),
           lastSuccessMode := if Truthy(mode) then Some(Strip(mode.value)) else None,
           successCount := row.successCount + 1,
           lastTransport := RecordedTransport(row, transport))
    case HardFailure(at, reason, transport) =>
      row.(lastHardFailureAt := Some(at),
           lastHardFailureReason := Cleaned(reason),
           failureCount := row.failureCount + 1,
           lastTransport := RecordedTransport(row, transport))
  }

  /** The row a history leaves behind; no row exists before the first event. */
  function RowOf(h: History): Option<Row> {
    if h == [] then None else Some(Apply(RowBefore(h), h[|h| - 1]))
  }

  function RowBefore(h: History): Row
    requires h != []
    decreases h, 0
  {
    match RowOf(h[..|h| - 1])
    case None => FRESH_ROW
    case Some(row) => row
  }

  // ------------------------------------------------------------------ table

  function Upsert(rows: map<string, Row>, key: string, e: Event): map<string, Row> {
    rows[key := Apply(if key in rows then rows[key] else FRESH_ROW, e)]
  }

  /** The table of rows, updated in place by the two recording operations. */
  class VerificationTable {
    var rows: map<string, Row>

    constructor ()
      ensures rows == map[]
    {
      rows := map[];
    }

    /** Refuses a blank UAID; otherwise exactly one row changes. */
    method RecordSuccess(uaid: string, now: Time, mode: Option<string>, transport: Option<string>)
      returns (ok: bool)
      modifies this
      ensures ok == (Strip(uaid) != "")
      ensures rows == if ok then Upsert(old(rows), Strip(uaid), Success(now, mode, transport)) else old(rows)
    {
      var key := Strip(uaid);
      if key == "" {
        return false;
      }
      var row := if key in rows then rows[key] else FRESH_ROW;
      row := row.(lastSuccessAt := Some(now));
      row := row.(lastSuccessMode := if Truthy(mode) then Some(Strip(mode.value)) else None);
      row := row.(successCount := row.successCount + 1);
      if Truthy(transport) && Strip(transport.value) != "" {
        row := row.(lastTransport := Some(Strip(transport.value)));
      }
      rows := rows[key := row];
      return true;
    }

    method RecordHardFailure(uaid: string, now: Time, reason: string, transport: Option<string>)
      returns (ok: bool)
      modifies this
      ensures ok == (Strip(uaid) != "")
      ensures rows == if ok then Upsert(old(rows), Strip(uaid), HardFailure(now, reason, transport)) else old(rows)
    {
      var key := Strip(uaid);
      if key == "" {
        return false;
      }
      var row := if key in rows then rows[key] else FRESH_ROW;
      row := row.(lastHardFailureAt := Some(now));
      row := row.(lastHardFailureReason := Cleaned(reason));
      row := row.(failureCount := row.failureCount + 1);
      if Truthy(transport) && Strip(transport.value) != "" {
        row := row.(lastTransport := Some(Strip(transport.value)));
      }
      rows := rows[key := row];
      return true;
    }
  }

  datatype Entry = Entry(key: string, event: Event)

  function Replay(log: seq<Entry>): map<string, Row> {
    if log == [] then map[]
    else Upsert(Replay(log[..|log| - 1]), log[|log| - 1].key, log[|log| - 1].event)
  }

  /** The events of one agent, in the order they were recorded. */
  function HistoryOf(log: seq<Entry>, key: string): History {
    if log == [] then []
    else
      var earlier := HistoryOf(log[..|log| - 1], key);
      if log[|log| - 1].key == key then earlier + [log[|log| - 1].event] else earlier
  }

  /** The table keeps the histories of different agents apart. */
  lemma {:induction false} TableHoldsEachHistory(log: seq<Entry>, key: string)
    ensures key in Replay(log) <==> HistoryOf(log, key) != []
    ensures RowOf(HistoryOf(log, key)) == if key in Replay(log) then Some(Replay(log)[key]) else None
  {
    if log != [] {
      var before, last := log[..|log| - 1], log[|log| - 1];
      TableHoldsEachHistory(before, key);
      if last.key == key {
        var earlier := HistoryOf(before, key);
        assert (earlier + [last.event])[..|earlier|] == earlier;
      }
    }
  }

  // ------------------------------------------------------------------- tier

  datatype Tier = Verified | BrokerAvailable | Exploratory | Blocked

  datatype Reason =
    | FailedBecause(text: string)
    | FailedToReach
    | HolReports(availability: string)
    | VerifiedVia(mode: string, at: Time)
    | MarkedAvailable
    | StaleMetadata
    | NotMarkedAvailable(availability: string)
    | OnlyDiscoverable

  /** What HOL says about an agent; `available` is the older name of the flag. */
  datatype HolAgent = HolAgent(
    availabilityStatus: Option<string>,
    brokerMarkedAvailable: Option<bool>,
    available: Option<bool>)

  function Availability(agent: HolAgent): string {
    if agent.availabilityStatus.None? then "" else Lower(Strip(agent.availabilityStatus.value))
  }

  function MarkedByBroker(agent: HolAgent): Option<bool> {
    if agent.brokerMarkedAvailable.None? then agent.available else agent.brokerMarkedAvailable
  }

  predicate ReportedDown(agent: HolAgent) {
    Availability(agent) in {"offline", "inactive", "error"}
  }

  datatype Fields = Fields(
    brokerMarkedAvailable: Option<bool>,
    synapticaVerified: bool,
    verifiedAt: Option<Time>,
    verificationMode: Option<string>,
    tier: Tier,
    reason: Reason)

  predicate VerifiedIsFresh(row: Row, now: Time) {
    && row.lastSuccessAt.Some?
    && now - row.lastSuccessAt.value <= HOL_VERIFIED_TTL
    && (row.lastHardFailureAt.None? || row.lastHardFailureAt.value <= row.lastSuccessAt.value)
  }

  function ComputeFields(agent: HolAgent, verification: Option<Row>, now: Time): Fields {
    var row := if verification.Some? then verification.value else FRESH_ROW;
    var isFresh := VerifiedIsFresh(row, now);
    var mode := if row.lastSuccessMode.None? then None else Cleaned(row.lastSuccessMode.value);
    var (tier, reason) :=
      if row.lastHardFailureAt.Some?
         && (row.lastSuccessAt.None? || row.lastHardFailureAt.value > row.lastSuccessAt.value) then
        (Blocked,
         if Truthy(row.lastHardFailureReason) then FailedBecause(Strip(row.lastHardFailureReason.value))
         else FailedToReach)
      else if ReportedDown(agent) then
        (Blocked, HolReports(Availability(agent)))
      else if isFresh then
        (Verified, VerifiedVia(if mode.None? then "session" else mode.value, row.lastSuccessAt.value))
      else if MarkedByBroker(agent) == Some(true) then
        (BrokerAvailable, MarkedAvailable)
      else
        (Exploratory,
         if Availability(agent) == "stale" then StaleMetadata
         else if Availability(agent) != "" then NotMarkedAvailable(Availability(agent))
         else OnlyDiscoverable);
    Fields(MarkedByBroker(agent), isFresh, row.lastSuccessAt, mode, tier, reason)
  }

  // -------------------------------------------------- the history as the spec

  ghost predicate NonDecreasing(h: History) {
    forall i, j | 0 <= i <= j < |h| :: h[i].at <= h[j].at
  }

  /** Event `i` is a success that no hard failure is later than. */
  ghost predicate Uncontradicted(h: History, i: nat)
    requires i < |h|
  {
    && h[i].Success?
    && forall j | 0 <= j < |h| && h[j].HardFailure? :: h[j].at <= h[i].at
  }

  /** Event `j` is a hard failure that is later than every success. */
  ghost predicate HasTheLastWord(h: History, j: nat)
    requires j < |h|
  {
    && h[j].HardFailure?
    && forall i | 0 <= i < |h| && h[i].Success? :: h[i].at < h[j].at
  }

  ghost predicate VouchedFor(h: History, now: Time) {
    exists i | 0 <= i < |h| :: Uncontradicted(h, i) && now - h[i].at <= HOL_VERIFIED_TTL
  }

  ghost predicate Unreachable(h: History) {
    exists j | 0 <= j < |h| :: HasTheLastWord(h, j)
  }

  /** The tier read off the full list of events, never looking at a row. */
  ghost function TierOfHistory(agent: HolAgent, h: History, now: Time): Tier {
    if Unreachable(h) then Blocked
    else if ReportedDown(agent) then Blocked
    else if VouchedFor(h, now) then Verified
    else if MarkedByBroker(agent) == Some(true) then BrokerAvailable
    else Exploratory
  }

  function Successes(h: History): nat {
    if h == [] then 0 else Successes(h[..|h| - 1]) + if h[|h| - 1].Success? then 1 else 0
  }

  function HardFailures(h: History): nat {
    if h == [] then 0 else HardFailures(h[..|h| - 1]) + if h[|h| - 1].HardFailure? then 1 else 0
  }

  ghost predicate IsLatest(h: History, success: bool, at: Option<Time>) {
    if at.None? then forall i | 0 <= i < |h| :: h[i].Success? != success
    else
      && (exists i | 0 <= i < |h| :: h[i].Success? == success && h[i].at == at.value)
      && (forall i | 0 <= i < |h| :: h[i].Success? == success ==> h[i].at <= at.value)
  }

  /** The two timestamps of the row are the latest of their kind; the counters count. */
  lemma {:induction false} RowSummarises(h: History)
    requires h != [] && NonDecreasing(h)
    ensures IsLatest(h, true, RowOf(h).value.lastSuccessAt)
    ensures IsLatest(h, false, RowOf(h).value.lastHardFailureAt)
    ensures RowOf(h).value.successCount == Successes(h)
    ensures RowOf(h).value.failureCount == HardFailures(h)
    ensures Successes(h) + HardFailures(h) == |h|
  {
    var before, last := h[..|h| - 1], h[|h| - 1];
    if before != [] {
      RowSummarises(before);
    } else {
      assert RowBefore(h) == FRESH_ROW;
    }
    Extends(before, h, true, RowBefore(h).lastSuccessAt);
    Extends(before, h, false, RowBefore(h).lastHardFailureAt);
  }

  lemma Extends(before: History, h: History, success: bool, at: Option<Time>)
    requires h != [] && before == h[..|h| - 1] && NonDecreasing(h)
    requires IsLatest(before, success, at)
    ensures IsLatest(h, success, if h[|h| - 1].Success? == success then Some(h[|h| - 1].at) else at)
  {
    forall i | 0 <= i < |before|
      ensures h[i] == before[i]
    {
    }
  }

  /** The compact row decides the same tier as the full history of events. */
  lemma RowRefinesHistory(agent: HolAgent, h: History, now: Time)
    requires NonDecreasing(h)
    ensures ComputeFields(agent, RowOf(h), now).tier == TierOfHistory(agent, h, now)
    ensures ComputeFields(agent, RowOf(h), now).synapticaVerified == VouchedFor(h, now)
  {
    if h != [] {
      RowSummarises(h);
      var row := RowOf(h).value;
      RowSaysUnreachable(h);
      RowSaysVouched(h, now);
    }
  }

  lemma RowSaysUnreachable(h: History)
    requires h != [] && NonDecreasing(h)
    ensures var row := RowOf(h).value;
      Unreachable(h) <==>
      (row.lastHardFailureAt.Some?
       && (row.lastSuccessAt.None? || row.lastHardFailureAt.value > row.lastSuccessAt.value))
  {
    RowSummarises(h);
    var row := RowOf(h).value;
    if row.lastHardFailureAt.Some? {
      var j :| 0 <= j < |h| && h[j].Success? == false && h[j].at == row.lastHardFailureAt.value;
      if row.lastSuccessAt.None? || row.lastHardFailureAt.value > row.lastSuccessAt.value {
        assert HasTheLastWord(h, j);
      } else {
        var i :| 0 <= i < |h| && h[i].Success? == true && h[i].at == row.lastSuccessAt.value;
        forall k | 0 <= k < |h|
          ensures !HasTheLastWord(h, k)
        {
          assert h[k].HardFailure? ==> h[k].at <= h[i].at;
        }
      }
    }
  }

  lemma RowSaysVouched(h: History, now: Time)
    requires h != [] && NonDecreasing(h)
    ensures VouchedFor(h, now) <==> VerifiedIsFresh(RowOf(h).value, now)
  {
    RowSummarises(h);
    var row := RowOf(h).value;
    if row.lastSuccessAt.Some? {
      var i :| 0 <= i < |h| && h[i].Success? == true && h[i].at == row.lastSuccessAt.value;
      if VerifiedIsFresh(row, now) {
        assert Uncontradicted(h, i);
      }
      if VouchedFor(h, now) {
        var k :| 0 <= k < |h| && Uncontradicted(h, k) && now - h[k].at <= HOL_VERIFIED_TTL;
        if row.lastHardFailureAt.Some? {
          var j :| 0 <= j < |h| && h[j].Success? == false && h[j].at == row.lastHardFailureAt.value;
          assert h[j].HardFailure? && h[j].at <= h[k].at <= h[i].at;
        }
      }
    }
  }

  /**
   * An agent counts as verified exactly when HOL does not report it down and
   * some success of the last 24 hours has no strictly later hard failure.
   */
  lemma VerifiedExactlyWhenVouchedFor(agent: HolAgent, h: History, now: Time)
    requires NonDecreasing(h)
    ensures ComputeFields(agent, RowOf(h), now).tier == Verified <==> !ReportedDown(agent) && VouchedFor(h, now)
  {
    RowRefinesHistory(agent, h, now);
  }

  /**
   * With no new event, the passage of time changes a tier only from verified
   * to an unverified tier, exactly when the last success passes its 24 hours;
   * it never lifts a block.
   */
  lemma TimeAloneOnlyExpires(agent: HolAgent, verification: Option<Row>, now: Time, later: Time)
    requires now <= later
    ensures
      var before, after := ComputeFields(agent, verification, now).tier, ComputeFields(agent, verification, later).tier;
      && (before == Blocked <==> after == Blocked)
      && (after == Verified ==> before == Verified)
      && (before != after <==>
           before == Verified && later - verification.value.lastSuccessAt.value > HOL_VERIFIED_TTL)
      && (before != after ==>
           after == if MarkedByBroker(agent) == Some(true) then BrokerAvailable else Exploratory)
  {
  }

  /** A clock that steps back breaks the refinement: the row forgets the later success. */
  lemma SteppedBackClockLosesASuccess()
    ensures
      var agent := HolAgent(None, None, None);
      var h := [Success(10, None, None), HardFailure(8, "", None), Success(5, None, None)];
      && TierOfHistory(agent, h, 10) == Verified
      && ComputeFields(agent, RowOf(h), 10).tier == Blocked
  {
    var h := [Success(10, None, None), HardFailure(8, "", None), Success(5, None, None)];
    assert Uncontradicted(h, 0) && 10 - h[0].at <= HOL_VERIFIED_TTL;
    forall j | 0 <= j < |h|
      ensures !HasTheLastWord(h, j)
    {
      assert h[0].Success?;
    }
    assert h[..2] == [h[0], h[1]] && h[..2][..1] == [h[0]];
    assert RowOf([h[0]]).value.lastSuccessAt == Some(10);
    assert RowOf(h[..2]).value.lastHardFailureAt == Some(8);
  }

  // ------------------------------------------------ what a row needs of the clock

  /** The time of the last recorded event of a kind. */
  function LastRecorded(h: History, success: bool): Option<Time> {
    if h == [] then None
    else if h[|h| - 1].Success? == success then Some(h[|h| - 1].at)
    else LastRecorded(h[..|h| - 1], success)
  }

  /** The greatest time of any event of a kind. */
  function Latest(h: History, success: bool): Option<Time> {
    if h == [] then None
    else
      var earlier, last := Latest(h[..|h| - 1], success), h[|h| - 1];
      if last.Success? == success && (earlier.None? || earlier.value < last.at) then Some(last.at) else earlier
  }

  /** A failure at the one time outweighs a success at the other. */
  predicate Outweighs(failure: Option<Time>, success: Option<Time>) {
    failure.Some? && (success.None? || success.value < failure.value)
  }

  lemma {:induction false} RowRecordsLast(h: History)
    requires h != []
    ensures RowOf(h).value.lastSuccessAt == LastRecorded(h, true)
    ensures RowOf(h).value.lastHardFailureAt == LastRecorded(h, false)
  {
    var before := h[..|h| - 1];
    if before != [] {
      RowRecordsLast(before);
    } else {
      assert RowBefore(h) == FRESH_ROW;
      assert LastRecorded(before, true) == None && LastRecorded(before, false) == None;
    }
  }

  lemma {:induction false} LatestIsLatest(h: History, success: bool)
    ensures IsLatest(h, success, Latest(h, success))
  {
    if h != [] {
      LatestIsLatest(h[..|h| - 1], success);
      assert h == h[..|h| - 1] + [h[|h| - 1]];
    }
  }

  lemma UnreachableByLatest(h: History)
    ensures Unreachable(h) <==> Outweighs(Latest(h, false), Latest(h, true))
  {
    LatestIsLatest(h, true);
    LatestIsLatest(h, false);
    hide Latest;
    if Outweighs(Latest(h, false), Latest(h, true)) {
      var j :| 0 <= j < |h| && h[j].Success? == false && h[j].at == Latest(h, false).value;
      assert HasTheLastWord(h, j);
    }
  }

  lemma VouchedByLatest(h: History, now: Time)
    requires !Unreachable(h)
    ensures VouchedFor(h, now) <==> Latest(h, true).Some? && now - Latest(h, true).value <= HOL_VERIFIED_TTL
  {
    LatestIsLatest(h, true);
    LatestIsLatest(h, false);
    UnreachableByLatest(h);
    hide Latest;
    if Latest(h, true).Some? {
      var i :| 0 <= i < |h| && h[i].Success? == true && h[i].at == Latest(h, true).value;
      assert Uncontradicted(h, i);
    }
  }

  /** The row agrees with the history on the last word, and on the last success where that has it. */
  predicate RowSuffices(h: History) {
    && (Outweighs(LastRecorded(h, false), LastRecorded(h, true)) <==> Outweighs(Latest(h, false), Latest(h, true)))
    && (!Outweighs(Latest(h, false), Latest(h, true)) ==> LastRecorded(h, true) == Latest(h, true))
  }

  ghost predicate RowDecidesTier(h: History) {
    forall agent, now :: ComputeFields(agent, RowOf(h), now).tier == TierOfHistory(agent, h, now)
  }

  /**
   * Without any assumption on the clock: the row decides the tier of the whole
   * history, for all agents and times, if and only if the last recorded failure
   * outweighs the last recorded success exactly when the latest ones do so, and
   * otherwise the last recorded success is the latest.
   */
  lemma RowDecidesTierExactlyWhen(h: History)
    ensures RowDecidesTier(h) <==> RowSuffices(h)
  {
    UnreachableByLatest(h);
    if h != [] {
      RowRecordsLast(h);
    }
    if RowSuffices(h) {
      forall agent, now
        ensures ComputeFields(agent, RowOf(h), now).tier == TierOfHistory(agent, h, now)
      {
        if !Unreachable(h) {
          VouchedByLatest(h, now);
        }
      }
    } else {
      RowMisleads(h);
    }
  }

  lemma LatestIsNotBefore(h: History, success: bool)
    ensures LastRecorded(h, success).Some? <==> Latest(h, success).Some?
    ensures LastRecorded(h, success).Some? ==> LastRecorded(h, success).value <= Latest(h, success).value
  {
    if h != [] {
      LatestIsNotBefore(h[..|h| - 1], success);
    }
  }

  /** Otherwise an agent of which HOL says nothing is misjudged when its latest success turns 24 hours old. */
  lemma RowMisleads(h: History)
    requires !RowSuffices(h)
    ensures !RowDecidesTier(h)
  {
    var silent := HolAgent(None, None, None);
    var now := if Latest(h, true).Some? then Latest(h, true).value + HOL_VERIFIED_TTL else 0;
    UnreachableByLatest(h);
    LatestIsNotBefore(h, true);
    LatestIsNotBefore(h, false);
    assert h != [];
    RowRecordsLast(h);
    assert Availability(silent) == "";
    if !Unreachable(h) {
      VouchedByLatest(h, now);
    }
    assert ComputeFields(silent, RowOf(h), now).tier != TierOfHistory(silent, h, now);
  }

  // ------------------------------------------------------------- in plain terms

  /** HOL reports the agent offline, inactive or in error. */
  predicate SaysDown(agent: HolAgent) {
    && agent.availabilityStatus.Some?
    && var status := Lower(Strip(agent.availabilityStatus.value));
       status == "offline" || status == "inactive" || status == "error"
  }

  /** The broker's flag, or the older one where that is missing, is set. */
  predicate SaysAvailable(agent: HolAgent) {
    agent.brokerMarkedAvailable == Some(true) || (agent.brokerMarkedAvailable == None && agent.available == Some(true))
  }

  /** The tier by the row's two times and what HOL says; a day has 86,400,000,000 microseconds. */
  lemma TierIs(agent: HolAgent, row: Row, now: Time)
    ensures var tier := ComputeFields(agent, Some(row), now).tier;
      var failed := row.lastHardFailureAt.Some?
                    && (row.lastSuccessAt == None || row.lastHardFailureAt.value > row.lastSuccessAt.value);
      var recent := row.lastSuccessAt.Some? && now - row.lastSuccessAt.value <= 86_400_000_000;
      && (tier == Blocked <==> failed || SaysDown(agent))
      && (tier == Verified <==> !failed && !SaysDown(agent) && recent)
      && (tier == BrokerAvailable <==> !failed && !SaysDown(agent) && !recent && SaysAvailable(agent))
      && (tier == Exploratory <==> !failed && !SaysDown(agent) && !recent && !SaysAvailable(agent))
  {
    hide Lower, Strip;
    assert HOL_VERIFIED_TTL == 86_400_000_000;
  }

  /** The tier of an agent nothing is known of. */
  lemma TierOfStranger(agent: HolAgent, now: Time)
    ensures var tier := ComputeFields(agent, None, now).tier;
      && (tier == Blocked <==> SaysDown(agent))
      && (tier == BrokerAvailable <==> !SaysDown(agent) && SaysAvailable(agent))
      && tier != Verified
  {
    hide Lower, Strip;
  }

  /** The text of the last event of a kind: a mode or a reason. */
  function LastText(h: History, success: bool): Option<string> {
    if h == [] then None
    else
      match h[|h| - 1]
      case Success(_, mode, _) => if success then mode else LastText(h[..|h| - 1], success)
      case HardFailure(_, reason, _) => if success then LastText(h[..|h| - 1], success) else Some(reason)
  }

  /** The last transport that was given and not blank. */
  function LastTransport(h: History): Option<string> {
    if h == [] then None
    else
      var transport := h[|h| - 1].transport;
      if transport.Some? && Strip(transport.value) != "" then Some(Strip(transport.value))
      else LastTransport(h[..|h| - 1])
  }

  /** The row also keeps the last success's mode, the last failure's reason and the last transport, stripped. */
  lemma {:induction false} RowRemembersTexts(h: History)
    requires h != []
    ensures var row, mode, reason := RowOf(h).value, LastText(h, true), LastText(h, false);
      && row.lastTransport == LastTransport(h)
      && (mode.Some? && mode.value != "" ==> row.lastSuccessMode == Some(Strip(mode.value)))
      && (mode == None || mode.value == "" ==> row.lastSuccessMode == None)
      && (reason.Some? && Strip(reason.value) != "" ==> row.lastHardFailureReason == Some(Strip(reason.value)))
      && (reason == None || Strip(reason.value) == "" ==> row.lastHardFailureReason == None)
  {
    hide Strip;
    var before := h[..|h| - 1];
    if before != [] {
      RowRemembersTexts(before);
    } else {
      assert RowBefore(h) == FRESH_ROW;
      assert LastText(before, true) == None && LastText(before, false) == None && LastTransport(before) == None;
    }
  }

  /** The other computed fields: the flag, the last success, its mode, and the reason given for the tier. */
  lemma FieldsAre(agent: HolAgent, row: Row, now: Time)
    ensures var f := ComputeFields(agent, Some(row), now);
      var failed := row.lastHardFailureAt.Some?
                    && (row.lastSuccessAt == None || row.lastHardFailureAt.value > row.lastSuccessAt.value);
      var mode := if row.lastSuccessMode.Some? then Strip(row.lastSuccessMode.value) else "";
      && (f.synapticaVerified <==>
            !failed && row.lastSuccessAt.Some? && now - row.lastSuccessAt.value <= 86_400_000_000)
      && f.verifiedAt == row.lastSuccessAt
      && f.verificationMode == (if mode == "" then None else Some(mode))
      && f.brokerMarkedAvailable ==
           (if agent.brokerMarkedAvailable == None then agent.available else agent.brokerMarkedAvailable)
      && (failed ==>
            f.reason == if row.lastHardFailureReason.Some? && row.lastHardFailureReason.value != "" then
                          FailedBecause(Strip(row.lastHardFailureReason.value)) else FailedToReach)
      && (!failed && SaysDown(agent) ==> f.reason == HolReports(Lower(Strip(agent.availabilityStatus.value))))
      && (f.tier == Verified ==>
            f.reason == VerifiedVia(if mode == "" then "session" else mode, row.lastSuccessAt.value))
      && (f.tier == BrokerAvailable ==> f.reason == MarkedAvailable)
  {
    hide Lower, Strip;
    assert HOL_VERIFIED_TTL == 86_400_000_000;
  }
}
