/**
 * Discovery after discovery (api/routes/data_agent.py with
 * shared/hol_agent_usability.py): what one call records about agents decides
 * whom the next one contacts.
 */
module DiscoveryRuns {
  import opened Options
  import opened Text
  import opened HolErrors
  import opened HolUsability
  import opened RankedSelection
  import opened HolFailover

  /** An agent as the search finds it: what HOL says of it, and the rest of its card. UAIDs come stripped. */
  datatype Found = Found(agent: HolAgent, card: Candidate)

  /** One call: what was found, how the broker behaves, and the clock, also at each recording. */
  datatype Discovery = Discovery(
    found: seq<Found>,
    broker: Broker,
    uuid: string,
    transport: Option<string>,
    now: Time,
    times: nat -> Time)

  /** The interactions recorded so far, in order; the table holds their rows. */
  type Log = seq<Entry>

  /** The card with the fields that are computed from the agent's row. */
  function Assessed(f: Found, rows: map<string, Row>, now: Time): Candidate {
    var row := if f.card.uaid in rows then Some(rows[f.card.uaid]) else None;
    var fields := ComputeFields(f.agent, row, now);
    f.card.(tier := fields.tier,
            verified := fields.synapticaVerified,
            brokerMarkedAvailable := fields.brokerMarkedAvailable)
  }

  function Candidates(d: Discovery, rows: map<string, Row>): (cs: seq<Candidate>)
    ensures |cs| == |d.found|
    ensures forall i | 0 <= i < |cs| :: cs[i] == Assessed(d.found[i], rows, d.now)
  {
    seq(|d.found|, i requires 0 <= i < |d.found| => Assessed(d.found[i], rows, d.now))
  }

  function FailureEntries(recorded: seq<Attempted>, d: Discovery): (es: seq<Entry>)
    ensures |es| == |recorded|
  {
    seq(|recorded|, i requires 0 <= i < |recorded| =>
      Entry(Strip(recorded[i].uaid), HardFailure(d.times(i), recorded[i].error.text, d.transport)))
  }

  /** The success that ends a call, recorded after its failures. */
  function SuccessEntries(cs: seq<Candidate>, d: Discovery, at: nat): seq<Entry> {
    if LastAnswers(cs, d.broker) then
      var chosen := Contacted(cs, d.broker)[|Contacted(cs, d.broker)| - 1];
      [Entry(Strip(chosen.uaid), Success(d.times(at), Some(ReplyOf(d.broker(chosen.uaid)).mode), d.transport))]
    else []
  }

  function Entries(cs: seq<Candidate>, d: Discovery): seq<Entry> {
    var recorded := RecordedBy(cs, d.broker);
    FailureEntries(recorded, d) + SuccessEntries(cs, d, |recorded|)
  }

  function After(log: Log, d: Discovery): Log {
    log + Entries(Candidates(d, Replay(log)), d)
  }

  function Run(log: Log, ds: seq<Discovery>): Log {
    if ds == [] then log else After(Run(log, ds[..|ds| - 1]), ds[|ds| - 1])
  }

  /** Search results come with stripped UAIDs that are not empty. */
  ghost predicate WellFormed(d: Discovery) {
    forall i | 0 <= i < |d.found| :: Stripped(d.found[i].card.uaid) && d.found[i].card.uaid != ""
  }

  // ------------------------------------------------------------ the call itself

  lemma ReplayAppend(log: Log, e: Entry)
    ensures Replay(log + [e]) == Upsert(Replay(log), e.key, e.event)
  {
    assert (log + [e])[..|log|] == log;
  }

  /** The hard failures of a call go to the table one by one. */
  method RecordFailures(table: VerificationTable, recorded: seq<Attempted>, d: Discovery, ghost log: Log)
    requires table.rows == Replay(log)
    requires forall i | 0 <= i < |recorded| :: Strip(recorded[i].uaid) != ""
    modifies table
    ensures table.rows == Replay(log + FailureEntries(recorded, d))
  {
    hide Replay, Upsert, Strip;
    ghost var es := FailureEntries(recorded, d);
    assert log + es[..0] == log;
    for i := 0 to |recorded|
      invariant table.rows == Replay(log + es[..i])
    {
      var ok := table.RecordHardFailure(recorded[i].uaid, d.times(i), recorded[i].error.text, d.transport);
      ReplayAppend(log + es[..i], es[i]);
      assert log + es[..i + 1] == log + es[..i] + [es[i]];
    }
    assert es[..|recorded|] == es;
  }

  /** What a call has to record: its hard failures and the agent that answered, with the mode. */
  method Converse(cs: seq<Candidate>, d: Discovery)
    returns (contact: Option<Contact>, recorded: seq<Attempted>, chosen: Option<(string, string)>)
    ensures recorded == RecordedBy(cs, d.broker)
    ensures contact.Some? && Succeeded(contact.value) <==> LastAnswers(cs, d.broker)
    ensures chosen.Some? <==> LastAnswers(cs, d.broker)
    ensures chosen.Some? ==>
      && chosen.value.0 == Contacted(cs, d.broker)[|Contacted(cs, d.broker)| - 1].uaid
      && chosen.value.1 == ReplyOf(d.broker(chosen.value.0)).mode
  {
    hide AllRecorded, Answers, ReplyOf, SessionOf, Key, BrokerChatable, BestResponder;
    contact := UseDiscovered(cs, d.broker, d.uuid);
    if contact.None? {
      NothingContacted(cs, d.broker);
      return contact, [], None;
    }
    recorded := contact.value.recorded;
    if Succeeded(contact.value) {
      chosen := Some((contact.value.selected.uaid, contact.value.reply.value.mode));
    } else {
      chosen := None;
    }
  }

  /** One discovery from beginning to end; `None` is the 404 raised when no candidate is chatable. */
  method Discover(table: VerificationTable, d: Discovery, ghost log: Log) returns (contact: Option<Contact>)
    requires table.rows == Replay(log) && WellFormed(d)
    modifies table
    ensures table.rows == Replay(After(log, d))
    ensures contact.Some? && Succeeded(contact.value) <==> LastAnswers(Candidates(d, Replay(log)), d.broker)
  {
    hide Replay, Contacted, LastAnswers, Upsert, Answers, ReplyOf, Strip, RecordedBy, Candidates, FailureEntries;
    var cs := Candidates(d, table.rows);
    var recorded, chosen;
    contact, recorded, chosen := Converse(cs, d);
    ContactedHaveUaids(cs, d, Replay(log));
    RecordFailures(table, recorded, d, log);
    ghost var failures := FailureEntries(recorded, d);
    if chosen.Some? {
      var uaid, mode := chosen.value.0, chosen.value.1;
      ghost var success := Entry(Strip(uaid), Success(d.times(|recorded|), Some(mode), d.transport));
      assert SuccessEntries(cs, d, |recorded|) == [success];
      LastIsContacted(cs, d.broker);
      var ok := table.RecordSuccess(uaid, d.times(|recorded|), Some(mode), d.transport);
      ReplayAppend(log + failures, success);
      assert After(log, d) == log + failures + [success];
    } else {
      assert After(log, d) == log + failures;
    }
  }

  lemma ContactedHaveUaids(cs: seq<Candidate>, d: Discovery, rows: map<string, Row>)
    requires WellFormed(d) && cs == Candidates(d, rows)
    ensures forall a | a in RecordedBy(cs, d.broker) :: Strip(a.uaid) != ""
    ensures forall c | c in Contacted(cs, d.broker) :: Strip(c.uaid) != ""
  {
    hide Contacted, RecordedBy;
    RecordedAreContacted(cs, d.broker);
    forall a | a in RecordedBy(cs, d.broker)
      ensures Strip(a.uaid) != ""
    {
      ContactedAreFound(cs, d, rows, a.uaid);
    }
    forall c | c in Contacted(cs, d.broker)
      ensures Strip(c.uaid) != ""
    {
      ContactedAreFound(cs, d, rows, c.uaid);
    }
  }

  /** Somebody with this UAID is among the contacted. */
  ghost predicate IsContacted(cs: seq<Candidate>, broker: Broker, uaid: string) {
    exists c :: c in Contacted(cs, broker) && c.uaid == uaid
  }

  lemma {:induction false} RecordedHaveTried(cs: seq<Candidate>, broker: Broker, n: nat, a: Attempted)
    requires n <= |cs| && a in AllRecorded(cs, broker, n)
    ensures exists i | 0 <= i < n :: cs[i].uaid == a.uaid
  {
    hide HardOnes, Errors;
    if a in AllRecorded(cs, broker, n - 1) {
      RecordedHaveTried(cs, broker, n - 1, a);
    } else {
      HardOnesAreErrors(ErrorsOf(cs[n - 1], broker), a);
    }
  }

  lemma {:induction false} HardOnesAreErrors(errors: seq<Attempted>, a: Attempted)
    requires a in HardOnes(errors)
    ensures a in errors && IsHardAvailabilityFailure(a.error.text)
  {
    hide IsHardAvailabilityFailure;
    if a in HardOnes(errors[..|errors| - 1]) {
      HardOnesAreErrors(errors[..|errors| - 1], a);
    }
  }

  lemma RecordedAreContacted(cs: seq<Candidate>, broker: Broker)
    ensures forall a | a in RecordedBy(cs, broker) :: IsContacted(cs, broker, a.uaid)
  {
    hide Reach;
    var ranked := Ranked(Chatable(cs), Key);
    forall a | a in RecordedBy(cs, broker)
      ensures IsContacted(cs, broker, a.uaid)
    {
      RecordedHaveTried(ranked, broker, Reach(cs, broker), a);
      var i :| 0 <= i < Reach(cs, broker) && ranked[i].uaid == a.uaid;
      assert Contacted(cs, broker)[i] == ranked[i];
    }
  }

  lemma NothingContacted(cs: seq<Candidate>, broker: Broker)
    requires Contacted(cs, broker) == []
    ensures RecordedBy(cs, broker) == [] && !LastAnswers(cs, broker)
  {
  }

  lemma ContactedAreFound(cs: seq<Candidate>, d: Discovery, rows: map<string, Row>, uaid: string)
    requires WellFormed(d) && cs == Candidates(d, rows) && IsContacted(cs, d.broker, uaid)
    ensures Strip(uaid) == uaid && uaid != ""
  {
    var c :| c in Contacted(cs, d.broker) && c.uaid == uaid;
    var i :| 0 <= i < |cs| && cs[i] == c;
    assert d.found[i].card.uaid == uaid;
  }

  // ----------------------------------------------------------------- over runs

  /** By its row, the agent's last hard failure is later than its last success. */
  predicate IsBlocked(log: Log, uaid: string) {
    var h := HistoryOf(log, uaid);
    Outweighs(LastRecorded(h, false), LastRecorded(h, true))
  }

  lemma BlockedTier(log: Log, uaid: string, agent: HolAgent, now: Time)
    requires IsBlocked(log, uaid)
    ensures uaid in Replay(log) && ComputeFields(agent, Some(Replay(log)[uaid]), now).tier == Blocked
  {
    hide Replay;
    TableHoldsEachHistory(log, uaid);
    RowRecordsLast(HistoryOf(log, uaid));
  }

  /** The table has a row for the agent that blocks it whatever HOL says of it, at any time. */
  ghost predicate TierIsBlocked(rows: map<string, Row>, uaid: string) {
    uaid in rows && forall agent, now :: ComputeFields(agent, Some(rows[uaid]), now).tier == Blocked
  }

  lemma BlockedByTable(log: Log, uaid: string)
    requires IsBlocked(log, uaid)
    ensures TierIsBlocked(Replay(log), uaid)
  {
    hide Replay;
    BlockedTier(log, uaid, HolAgent(None, None, None), 0);
    forall agent, now
      ensures ComputeFields(agent, Some(Replay(log)[uaid]), now).tier == Blocked
    {
      BlockedTier(log, uaid, agent, now);
    }
  }

  lemma {:induction false} HistoryConcat(a: Log, b: Log, uaid: string)
    ensures HistoryOf(a + b, uaid) == HistoryOf(a, uaid) + HistoryOf(b, uaid)
  {
    if b == [] {
      assert a + b == a;
    } else {
      var init := b[..|b| - 1];
      assert (a + b)[..|a + b| - 1] == a + init;
      HistoryConcat(a, init, uaid);
    }
  }

  lemma {:induction false} NoHistory(es: Log, uaid: string)
    requires forall e | e in es :: e.key != uaid
    ensures HistoryOf(es, uaid) == []
  {
    if es != [] {
      assert es == es[..|es| - 1] + [es[|es| - 1]];
      NoHistory(es[..|es| - 1], uaid);
    }
  }

  /** A call records only about agents it contacts. */
  lemma EntriesAreOfContacted(cs: seq<Candidate>, d: Discovery, rows: map<string, Row>, uaid: string)
    requires WellFormed(d) && cs == Candidates(d, rows) && !IsContacted(cs, d.broker, uaid)
    ensures forall e | e in Entries(cs, d) :: e.key != uaid
  {
    hide Contacted, RecordedBy, LastAnswers, Strip, FailureEntries, SuccessEntries;
    var recorded := RecordedBy(cs, d.broker);
    RecordedAreContacted(cs, d.broker);
    KeysOfFailures(cs, d, rows);
    KeyOfSuccess(cs, d, rows, |recorded|);
    if LastAnswers(cs, d.broker) {
      LastIsContacted(cs, d.broker);
    }
    var failures := FailureEntries(recorded, d);
    forall e | e in failures
      ensures e.key != uaid
    {
      var i :| 0 <= i < |failures| && failures[i] == e;
      assert recorded[i] in recorded;
    }
  }

  lemma LastIsContacted(cs: seq<Candidate>, broker: Broker)
    requires LastAnswers(cs, broker)
    ensures Contacted(cs, broker) != []
    ensures Contacted(cs, broker)[|Contacted(cs, broker)| - 1] in Contacted(cs, broker)
    ensures IsContacted(cs, broker, Contacted(cs, broker)[|Contacted(cs, broker)| - 1].uaid)
  {
    assert Contacted(cs, broker)[|Contacted(cs, broker)| - 1] in Contacted(cs, broker);
  }

  /** One discovery neither contacts a blocked agent nor records anything of it. */
  lemma BlockedIsPassedOver(log: Log, d: Discovery, uaid: string)
    requires WellFormed(d) && IsBlocked(log, uaid)
    ensures !IsContacted(Candidates(d, Replay(log)), d.broker, uaid)
    ensures HistoryOf(After(log, d), uaid) == HistoryOf(log, uaid)
  {
    hide Replay, Entries, IsBlocked;
    var cs := Candidates(d, Replay(log));
    if IsContacted(cs, d.broker, uaid) {
      var c :| c in Contacted(cs, d.broker) && c.uaid == uaid;
      var i :| 0 <= i < |cs| && cs[i] == c;
      BlockedTier(log, uaid, d.found[i].agent, d.now);
      assert false;
    }
    EntriesAreOfContacted(cs, d, Replay(log), uaid);
    NoHistory(Entries(cs, d), uaid);
    HistoryConcat(log, Entries(cs, d), uaid);
  }

  /**
   * Over any sequence of discoveries, whatever is found, however the broker
   * behaves and the clock runs: an agent blocked by a hard failure is never
   * contacted again, so it stays blocked, for whatever HOL says of it.
   */
  lemma {:induction false} BlockedStaysBlocked(log: Log, ds: seq<Discovery>, uaid: string)
    requires IsBlocked(log, uaid) && forall n | 0 <= n < |ds| :: WellFormed(ds[n])
    ensures HistoryOf(Run(log, ds), uaid) == HistoryOf(log, uaid) && IsBlocked(Run(log, ds), uaid)
    ensures forall n | 0 <= n < |ds| :: !IsContacted(Candidates(ds[n], Replay(Run(log, ds[..n]))), ds[n].broker, uaid)
    ensures TierIsBlocked(Replay(Run(log, ds)), uaid)
  {
    hide Replay, Candidates, IsContacted, TierIsBlocked, After;
    if ds != [] {
      var before, last := ds[..|ds| - 1], ds[|ds| - 1];
      BlockedStaysBlocked(log, before, uaid);
      BlockedIsPassedOver(Run(log, before), last, uaid);
      forall n | 0 <= n < |ds|
        ensures !IsContacted(Candidates(ds[n], Replay(Run(log, ds[..n]))), ds[n].broker, uaid)
      {
        if n < |before| {
          assert ds[..n] == before[..n] && ds[n] == before[n];
        }
      }
    }
    BlockedByTable(Run(log, ds), uaid);
  }

  /** The call records a hard failure of the agent and no success, later than anything known of it. */
  ghost predicate FailsHard(log: Log, d: Discovery, uaid: string) {
    var cs := Candidates(d, Replay(log));
    && (exists i | 0 <= i < |RecordedBy(cs, d.broker)| :: RecordedBy(cs, d.broker)[i].uaid == uaid)
    && !(LastAnswers(cs, d.broker) && Contacted(cs, d.broker)[|Contacted(cs, d.broker)| - 1].uaid == uaid)
    && (forall i: nat, k | 0 <= k < |HistoryOf(log, uaid)| :: HistoryOf(log, uaid)[k].at < d.times(i))
  }

  lemma {:induction false} FailuresOnly(es: Log, uaid: string)
    requires forall e | e in es && e.key == uaid :: e.event.HardFailure?
    ensures forall k | 0 <= k < |HistoryOf(es, uaid)| ::
      HistoryOf(es, uaid)[k].HardFailure? && Entry(uaid, HistoryOf(es, uaid)[k]) in es
    ensures (exists e :: e in es && e.key == uaid) ==> HistoryOf(es, uaid) != []
  {
    if es != [] {
      var init, last := es[..|es| - 1], es[|es| - 1];
      assert es == init + [last];
      FailuresOnly(init, uaid);
    }
  }

  lemma {:induction false} LastOfConcat(h: History, fs: History)
    requires fs != [] && forall k | 0 <= k < |fs| :: fs[k].HardFailure?
    ensures LastRecorded(h + fs, false) == Some(fs[|fs| - 1].at)
    ensures LastRecorded(h + fs, true) == LastRecorded(h, true)
  {
    var init := fs[..|fs| - 1];
    assert (h + fs)[..|h + fs| - 1] == h + init;
    if init != [] {
      LastOfConcat(h, init);
    } else {
      assert h + init == h;
    }
  }

  lemma {:induction false} LastRecordedOccurs(h: History, success: bool)
    requires LastRecorded(h, success).Some?
    ensures exists k | 0 <= k < |h| :: h[k].at == LastRecorded(h, success).value
  {
    if h[|h| - 1].Success? != success {
      LastRecordedOccurs(h[..|h| - 1], success);
      var k :| 0 <= k < |h| - 1 && h[..|h| - 1][k].at == LastRecorded(h[..|h| - 1], success).value;
      assert h[k].at == LastRecorded(h, success).value;
    } else {
      assert h[|h| - 1].at == LastRecorded(h, success).value;
    }
  }

  /** Such a failure blocks the agent, from then on over every sequence of discoveries. */
  lemma HardFailureBlocksForGood(log: Log, d: Discovery, ds: seq<Discovery>, uaid: string)
    requires WellFormed(d) && FailsHard(log, d, uaid) && forall n | 0 <= n < |ds| :: WellFormed(ds[n])
    ensures IsBlocked(After(log, d), uaid) && IsBlocked(Run(After(log, d), ds), uaid)
    ensures forall n | 0 <= n < |ds| ::
      !IsContacted(Candidates(ds[n], Replay(Run(After(log, d), ds[..n]))), ds[n].broker, uaid)
  {
    hide Replay, Candidates, IsContacted, RecordedBy, Contacted, LastAnswers;
    HardFailureBlocks(log, d, uaid);
    BlockedStaysBlocked(After(log, d), ds, uaid);
  }

  lemma HardFailureBlocks(log: Log, d: Discovery, uaid: string)
    requires WellFormed(d) && FailsHard(log, d, uaid)
    ensures IsBlocked(After(log, d), uaid)
  {
    hide Replay, Entries;
    var es, h := Entries(Candidates(d, Replay(log)), d), HistoryOf(log, uaid);
    EntriesOfFailure(log, d, uaid);
    FailuresOnly(es, uaid);
    HistoryConcat(log, es, uaid);
    var fs := HistoryOf(es, uaid);
    LastOfConcat(h, fs);
    if LastRecorded(h, true).Some? {
      LastRecordedOccurs(h, true);
      assert Entry(uaid, fs[|fs| - 1]) in es;
    }
  }

  lemma KeysOfFailures(cs: seq<Candidate>, d: Discovery, rows: map<string, Row>)
    requires WellFormed(d) && cs == Candidates(d, rows)
    ensures var recorded := RecordedBy(cs, d.broker); var es := FailureEntries(recorded, d);
      forall i | 0 <= i < |recorded| ::
        es[i].key == recorded[i].uaid && es[i].event.HardFailure? && es[i].event.at == d.times(i)
  {
    hide Contacted, RecordedBy, Strip;
    RecordedAreContacted(cs, d.broker);
    var recorded := RecordedBy(cs, d.broker);
    forall i | 0 <= i < |recorded|
      ensures Strip(recorded[i].uaid) == recorded[i].uaid
    {
      ContactedAreFound(cs, d, rows, recorded[i].uaid);
    }
  }

  lemma KeyOfSuccess(cs: seq<Candidate>, d: Discovery, rows: map<string, Row>, at: nat)
    requires WellFormed(d) && cs == Candidates(d, rows)
    ensures forall e | e in SuccessEntries(cs, d, at) ::
      LastAnswers(cs, d.broker) && e.key == Contacted(cs, d.broker)[|Contacted(cs, d.broker)| - 1].uaid
  {
    hide Contacted, LastAnswers, Strip, ReplyOf, Answers;
    if LastAnswers(cs, d.broker) {
      LastIsContacted(cs, d.broker);
      ContactedAreFound(cs, d, rows, Contacted(cs, d.broker)[|Contacted(cs, d.broker)| - 1].uaid);
    }
  }

  /** What such a call records of the agent: hard failures only, each at one of its times, and at least one. */
  lemma EntriesOfFailure(log: Log, d: Discovery, uaid: string)
    requires WellFormed(d) && FailsHard(log, d, uaid)
    ensures var es := Entries(Candidates(d, Replay(log)), d);
      && (forall e | e in es && e.key == uaid :: e.event.HardFailure? && exists i: nat :: e.event.at == d.times(i))
      && (exists e :: e in es && e.key == uaid)
  {
    hide Replay, Contacted, RecordedBy, LastAnswers, Strip, Candidates, FailureEntries, SuccessEntries;
    var cs := Candidates(d, Replay(log));
    var recorded := RecordedBy(cs, d.broker);
    var i :| 0 <= i < |recorded| && recorded[i].uaid == uaid;
    KeysOfFailures(cs, d, Replay(log));
    KeyOfSuccess(cs, d, Replay(log), |recorded|);
    var failures := FailureEntries(recorded, d);
    assert failures[i] in failures && failures[i] in Entries(cs, d);
    forall e | e in Entries(cs, d) && e.key == uaid
      ensures e.event.HardFailure? && exists i: nat :: e.event.at == d.times(i)
    {
      assert e in failures;
      var k :| 0 <= k < |failures| && failures[k] == e;
    }
  }
}
