/**
 * Choosing and contacting a HOL data agent for a dataset
 * (api/routes/data_agent.py, use_hol_data_agent): candidates are filtered,
 * ranked, and tried in order, by chat session or by direct message.
 */
module HolFailover {
  import opened Options
  import opened Text
  import opened HolErrors
  import opened HolUsability
  import opened RankedSelection

  // ------------------------------------------------------------- candidates

  datatype Candidate = Candidate(
    uaid: string,
    tier: Tier,
    verified: bool,
    brokerMarkedAvailable: Option<bool>,
    availability: string,
    transports: seq<string>,
    sourceUrl: Option<string>,
    protocol: string,
    adapter: string)

  predicate HasHttpTransport(c: Candidate) {
    exists i | 0 <= i < |c.transports| :: Lower(Strip(c.transports[i])) == "http"
  }

  /** `_get_broker_chatable_rejection_reason(agent) is None`. */
  predicate BrokerChatable(c: Candidate) {
    if c.tier == Blocked then false
    else if HasHttpTransport(c) then true
    else if Lower(Strip(c.protocol)) in {"a2a", "uagent"} then false
    else if Lower(Strip(c.adapter)) in {"a2a-registry-adapter", "agentverse-adapter"} then false
    else c.sourceUrl.Some? && Strip(c.sourceUrl.value) != ""
  }

  function Bit(b: bool): nat {
    if b then 1 else 0
  }

  /** `_hol_candidate_sort_key`. Unlike the filter above, it compares the transports without stripping them. */
  function Key(c: Candidate): RankKey {
    RankKey(
      match c.tier { case Verified => 3 case BrokerAvailable => 2 case Exploratory => 1 case Blocked => 0 },
      Bit(c.verified),
      Bit(c.brokerMarkedAvailable == Some(true)),
      Bit(Lower(Strip(c.availability)) in {"online", "ok", "available"}),
      Bit(Truthy(c.sourceUrl) || exists i | 0 <= i < |c.transports| :: Lower(c.transports[i]) == "http"),
      Bit(Lower(Strip(c.availability)) != "stale"))
  }

  function Chatable(cs: seq<Candidate>): seq<Candidate> {
    Filter(cs, BrokerChatable)
  }

  // ---------------------------------------------------------------- one try

  /** What the broker does if asked: open a session, take a message in it, take a direct message. */
  datatype Script = Script(
    openSession: Outcome<string>,
    sendInSession: Outcome<string>,
    sendDirect: Outcome<string>)

  type Broker = string -> Script

  const DIRECT_SESSION_PREFIX := "hol-direct:"

  datatype Reply = Reply(body: string, mode: string, fallbackReason: Option<string>)

  predicate AnswersInSession(s: Script) {
    s.openSession.Answer? && s.sendInSession.Answer?
  }

  predicate AnswersDirectly(s: Script) {
    s.openSession.Failure? && ShouldUseDirectFallback(s.openSession.error) && s.sendDirect.Answer?
  }

  predicate Answers(s: Script) {
    AnswersInSession(s) || AnswersDirectly(s)
  }

  function SessionOf(s: Script, uuid: string): string
    requires Answers(s)
  {
    if AnswersInSession(s) then s.openSession.value else DIRECT_SESSION_PREFIX + uuid
  }

  function ReplyOf(s: Script): Reply
    requires Answers(s)
  {
    if AnswersInSession(s) then Reply(s.sendInSession.value, "session", None)
    else Reply(s.sendDirect.value, "direct", FallbackReason(s.openSession.error))
  }

  function FallbackReason(e: CallError): Option<string> {
    if e.text == "" then None else Some(e.text)
  }

  /** The errors one try runs into, in order. */
  function Errors(s: Script): seq<CallError> {
    match s.openSession
    case Answer(_) => if s.sendInSession.Failure? then [s.sendInSession.error] else []
    case Failure(e) =>
      if ShouldUseDirectFallback(e) && s.sendDirect.Failure? then [e, s.sendDirect.error] else [e]
  }

  datatype Attempted = Attempted(uaid: string, error: CallError)

  function Tagged(uaid: string, errors: seq<CallError>): seq<Attempted> {
    seq(|errors|, i requires 0 <= i < |errors| => Attempted(uaid, errors[i]))
  }

  /** The definitive reachability failures, each to be recorded against its agent. */
  function HardOnes(errors: seq<Attempted>): seq<Attempted> {
    if errors == [] then []
    else
      var last := errors[|errors| - 1];
      HardOnes(errors[..|errors| - 1]) + if IsHardAvailabilityFailure(last.error.text) then [last] else []
  }

  function ErrorsOf(c: Candidate, broker: Broker): seq<Attempted> {
    Tagged(c.uaid, Errors(broker(c.uaid)))
  }

  /** All errors of the first `n` candidates, tried in turn. */
  function AllErrors(cs: seq<Candidate>, broker: Broker, n: nat): seq<Attempted>
    requires n <= |cs|
  {
    if n == 0 then [] else AllErrors(cs, broker, n - 1) + ErrorsOf(cs[n - 1], broker)
  }

  /** The hard failures recorded while trying the first `n` candidates. */
  function AllRecorded(cs: seq<Candidate>, broker: Broker, n: nat): seq<Attempted>
    requires n <= |cs|
  {
    if n == 0 then [] else AllRecorded(cs, broker, n - 1) + HardOnes(ErrorsOf(cs[n - 1], broker))
  }

  /** What one candidate yields: a session and reply, if it answers, and its errors. */
  method TryOne(uaid: string, s: Script, uuid: string)
    returns (session: Option<string>, reply: Option<Reply>, errors: seq<Attempted>)
    ensures reply == if Answers(s) then Some(ReplyOf(s)) else None
    ensures Answers(s) ==> session == Some(SessionOf(s, uuid))
    ensures !Answers(s) ==> session == if s.openSession.Answer? then Some(s.openSession.value) else None
    ensures errors == Tagged(uaid, Errors(s))
    ensures s.openSession.Answer? && s.sendInSession.Answer? ==>
      && reply == Some(Reply(s.sendInSession.value, "session", None)) && session == Some(s.openSession.value)
      && errors == []
    ensures s.openSession.Answer? && s.sendInSession.Failure? ==>
      reply == None && errors == [Attempted(uaid, s.sendInSession.error)]
    ensures s.openSession.Failure? ==> var e := s.openSession.error;
      if e.configuration || !IsTransient(e.text) then reply == None && errors == [Attempted(uaid, e)]
      else if s.sendDirect.Failure? then
        reply == None && errors == [Attempted(uaid, e), Attempted(uaid, s.sendDirect.error)]
      else
        && reply == Some(Reply(s.sendDirect.value, "direct", if e.text == "" then None else Some(e.text)))
        && session == Some("hol-direct:" + uuid) && errors == [Attempted(uaid, e)]
  {
    hide IsTransient;
    session, reply, errors := None, None, [];
    match s.openSession {
      case Failure(e) =>
        errors := errors + [Attempted(uaid, e)];
        if ShouldUseDirectFallback(e) {
          match s.sendDirect {
            case Answer(body) =>
              session := Some(DIRECT_SESSION_PREFIX + uuid);
              reply := Some(Reply(body, "direct", FallbackReason(e)));
            case Failure(direct) =>
              errors := errors + [Attempted(uaid, direct)];
          }
        }
      case Answer(sid) =>
        session := Some(sid);
        match s.sendInSession {
          case Answer(body) =>
            reply := Some(Reply(body, "session", None));
          case Failure(e) =>
            errors := errors + [Attempted(uaid, e)];
        }
    }
  }

  lemma HardOnesSnoc(errors: seq<Attempted>, i: nat)
    requires i < |errors|
    ensures HardOnes(errors[..i + 1]) ==
      HardOnes(errors[..i]) + if IsHardAvailabilityFailure(errors[i].error.text) then [errors[i]] else []
  {
    hide IsHardAvailabilityFailure;
    assert errors[..i + 1][..i] == errors[..i];
  }

  method RecordHard(recorded: seq<Attempted>, errors: seq<Attempted>) returns (r: seq<Attempted>)
    ensures r == recorded + HardOnes(errors)
  {
    assert HardOnes(errors[..0]) == [];
    hide IsHardAvailabilityFailure, HardOnes;
    r := recorded;
    for i := 0 to |errors|
      invariant r == recorded + HardOnes(errors[..i])
    {
      HardOnesSnoc(errors, i);
      if IsHardAvailabilityFailure(errors[i].error.text) {
        r := r + [errors[i]];
      }
    }
    assert errors[..|errors|] == errors;
  }

  // --------------------------------------------------------------- the loop

  datatype Contact = Contact(
    session: Option<string>,
    reply: Option<Reply>,
    selected: Candidate,
    errors: seq<Attempted>,
    recorded: seq<Attempted>)

  /** `session_id is not None and broker_response is not None`. */
  predicate Succeeded(c: Contact) {
    c.session.Some? && c.reply.Some?
  }

  /** Everything returned belongs to candidate `c`, and to no other. */
  ghost predicate BelongsTo(contact: Contact, c: Candidate, broker: Broker, uuid: string) {
    && Answers(broker(c.uaid))
    && contact.selected == c
    && contact.session == Some(SessionOf(broker(c.uaid), uuid))
    && contact.reply == Some(ReplyOf(broker(c.uaid)))
  }

  function Responsive(broker: Broker): Candidate -> bool {
    (c: Candidate) => Answers(broker(c.uaid))
  }

  /**
   * Tries the candidates in order. On success everything returned belongs to
   * the first candidate that answers, though an earlier one may have opened a
   * session; every error up to it is reported, and the hard ones are recorded.
   */
  method TryCandidates(cs: seq<Candidate>, broker: Broker, uuid: string) returns (contact: Contact)
    requires cs != []
    ensures var k := FirstIndex(cs, Responsive(broker));
      && (Succeeded(contact) <==> k < |cs|)
      && (k < |cs| ==>
            && BelongsTo(contact, cs[k], broker, uuid)
            && contact.errors == AllErrors(cs, broker, k + 1)
            && contact.recorded == AllRecorded(cs, broker, k + 1))
      && (k == |cs| ==>
            && contact.reply == None
            && contact.errors == AllErrors(cs, broker, k)
            && contact.recorded == AllRecorded(cs, broker, k))
  {
    hide Answers, SessionOf, ReplyOf, Errors, Tagged, HardOnes, FirstIndex;
    var session: Option<string> := None;
    var errors: seq<Attempted>, recorded: seq<Attempted> := [], [];
    var n := 0;
    while n < |cs|
      invariant 0 <= n <= |cs|
      invariant forall i | 0 <= i < n :: !Responsive(broker)(cs[i])
      invariant errors == AllErrors(cs, broker, n)
      invariant recorded == AllRecorded(cs, broker, n)
    {
      var opened', reply, failures := TryOne(cs[n].uaid, broker(cs[n].uaid), uuid);
      if opened'.Some? {
        session := opened';
      }
      recorded := RecordHard(recorded, failures);
      errors := errors + failures;
      if reply.Some? {
        FirstIndexIs(cs, Responsive(broker), n);
        return Contact(session, reply, cs[n], errors, recorded);
      }
      n := n + 1;
    }
    return Contact(session, None, cs[0], errors, recorded);
  }

  lemma FirstIndexIs<T>(items: seq<T>, ok: T -> bool, n: nat)
    requires n < |items| && ok(items[n]) && forall i | 0 <= i < n :: !ok(items[i])
    ensures FirstIndex(items, ok) == n
  {
  }

  /** A candidate that does not answer costs one or two errors, one that answers none or one. */
  lemma ErrorsPerCandidate(s: Script)
    ensures !Answers(s) ==> 1 <= |Errors(s)| <= 2
    ensures Answers(s) ==> |Errors(s)| == if AnswersDirectly(s) then 1 else 0
  {
  }

  /** Before the first answer, each candidate tried accounts for one or two reported errors. */
  lemma {:induction false} ErrorsOfUnanswered(cs: seq<Candidate>, broker: Broker, n: nat)
    requires n <= |cs| && forall i | 0 <= i < n :: !Responsive(broker)(cs[i])
    ensures n <= |AllErrors(cs, broker, n)| <= 2 * n
  {
    if n > 0 {
      ErrorsOfUnanswered(cs, broker, n - 1);
      ErrorsPerCandidate(broker(cs[n - 1].uaid));
    }
  }

  // ------------------------------------------------- discovery as a whole

  /** `c` answers, is chatable, and ranks at least as high as every candidate that is both. */
  ghost predicate BestResponder(cs: seq<Candidate>, broker: Broker, c: Candidate) {
    IsTop(cs, BrokerChatable, Responsive(broker), Key, c)
  }

  predicate IsOnline(c: Candidate) {
    || Lower(Strip(c.availability)) == "online"
    || Lower(Strip(c.availability)) == "ok"
    || Lower(Strip(c.availability)) == "available"
  }

  /** A source URL, or a transport that is "http" in any case. */
  predicate LooksReachable(c: Candidate) {
    || (c.sourceUrl.Some? && c.sourceUrl.value != "")
    || exists i | 0 <= i < |c.transports| :: Lower(c.transports[i]) == "http"
  }

  /**
   * `c` is in no better tier than `best`; in the same tier it is not verified
   * while `best` is not; and so on down: marked available by the broker,
   * online, reachable, not stale.
   */
  ghost predicate NoBetter(c: Candidate, best: Candidate) {
    && (c.tier == Verified ==> best.tier == Verified)
    && (c.tier == BrokerAvailable ==> best.tier == Verified || best.tier == BrokerAvailable)
    && (c.tier == Exploratory ==> best.tier != Blocked)
    && (c.tier == best.tier ==>
          && (c.verified ==> best.verified)
          && (c.verified == best.verified ==>
                && (c.brokerMarkedAvailable == Some(true) ==> best.brokerMarkedAvailable == Some(true))
                && ((c.brokerMarkedAvailable == Some(true) <==> best.brokerMarkedAvailable == Some(true)) ==>
                      NoBetterByCard(c, best))))
  }

  ghost predicate NoBetterByCard(c: Candidate, best: Candidate) {
    && (IsOnline(c) ==> IsOnline(best))
    && ((IsOnline(c) <==> IsOnline(best)) ==>
          && (LooksReachable(c) ==> LooksReachable(best))
          && ((LooksReachable(c) <==> LooksReachable(best)) ==>
                (Lower(Strip(c.availability)) != "stale" ==> Lower(Strip(best.availability)) != "stale")))
  }

  lemma RankingIsByMerit(c: Candidate, best: Candidate)
    requires !Below(Key(best), Key(c))
    ensures NoBetter(c, best)
  {
    hide Lower, Strip;
  }

  /** How many candidates discovery contacts: up to the first that answers, or all of them. */
  function Reach(cs: seq<Candidate>, broker: Broker): (n: nat)
    ensures n <= |Ranked(Chatable(cs), Key)|
  {
    var ranked := Ranked(Chatable(cs), Key);
    var k := FirstIndex(ranked, Responsive(broker));
    if k < |ranked| then k + 1 else k
  }

  /** The candidates discovery contacts, in rank order. */
  function Contacted(cs: seq<Candidate>, broker: Broker): (r: seq<Candidate>)
    ensures |r| == Reach(cs, broker)
    ensures forall c :: c in r ==> c in cs && BrokerChatable(c)
  {
    var ranked := Ranked(Chatable(cs), Key);
    var r := ranked[..Reach(cs, broker)];
    assert forall c | c in r :: c in ranked && c in multiset(ranked);
    r
  }

  /** The last candidate contacted is the one that answers, if any does. */
  predicate LastAnswers(cs: seq<Candidate>, broker: Broker) {
    var r := Contacted(cs, broker);
    r != [] && Responsive(broker)(r[|r| - 1])
  }

  /** The hard failures discovery records. */
  function RecordedBy(cs: seq<Candidate>, broker: Broker): seq<Attempted> {
    AllRecorded(Ranked(Chatable(cs), Key), broker, Reach(cs, broker))
  }

  lemma BestIsNoBetter(cs: seq<Candidate>, broker: Broker, best: Candidate)
    requires BestResponder(cs, broker, best)
    ensures forall c | c in cs && BrokerChatable(c) && Responsive(broker)(c) :: NoBetter(c, best)
  {
    hide Key, NoBetter, BrokerChatable;
    forall c | c in cs && BrokerChatable(c) && Responsive(broker)(c)
      ensures NoBetter(c, best)
    {
      RankingIsByMerit(c, best);
    }
  }

  lemma LastContacted(cs: seq<Candidate>, broker: Broker)
    ensures var ranked := Ranked(Chatable(cs), Key); var k := FirstIndex(ranked, Responsive(broker));
      && (LastAnswers(cs, broker) <==> k < |ranked|)
      && (k < |ranked| ==> Contacted(cs, broker)[|Contacted(cs, broker)| - 1] == ranked[k])
  {
    hide Ranked, Chatable, Key, FirstIndex, Answers, BrokerChatable;
  }

  /**
   * Discovery without an explicit UAID. `None` stands for the 404 raised when
   * no candidate is chatable. Otherwise the call fails exactly when no chatable
   * candidate answers, and what it returns belongs to the best one that does,
   * the earliest discovered among equals.
   */
  method UseDiscovered(cs: seq<Candidate>, broker: Broker, uuid: string) returns (contact: Option<Contact>)
    ensures contact.None? <==> forall c | c in cs :: !BrokerChatable(c)
    ensures contact.Some? ==>
      (Succeeded(contact.value) <==> exists c :: c in cs && BrokerChatable(c) && Responsive(broker)(c))
    ensures contact.None? ==> Contacted(cs, broker) == []
    ensures contact.Some? ==>
      && contact.value.recorded == RecordedBy(cs, broker)
      && (Succeeded(contact.value) <==> LastAnswers(cs, broker))
      && (Succeeded(contact.value) ==> contact.value.selected == Contacted(cs, broker)[|Contacted(cs, broker)| - 1])
    ensures contact.Some? && Succeeded(contact.value) ==>
      forall c | c in cs && BrokerChatable(c) && Responsive(broker)(c) :: NoBetter(c, contact.value.selected)
    ensures contact.Some? && Succeeded(contact.value) ==>
      && BestResponder(cs, broker, contact.value.selected)
      && BelongsTo(contact.value, contact.value.selected, broker, uuid)
      && exists i | 0 <= i < |Chatable(cs)| ::
           Chatable(cs)[i] == contact.value.selected && IsBest(Chatable(cs), Key, Responsive(broker), i)
  {
    var chatable := Chatable(cs);
    if chatable == [] {
      forall c | c in cs
        ensures !BrokerChatable(c)
      {
        assert c !in chatable;
      }
      return None;
    }
    assert chatable[0] in chatable;
    var c := TryCandidates(Ranked(chatable, Key), broker, uuid);
    ghost var i := FirstRankedIsBest(chatable, Key, Responsive(broker));
    FirstOfFilteredIsTop(cs, BrokerChatable, Responsive(broker), Key);
    LastContacted(cs, broker);
    if Succeeded(c) {
      BestIsNoBetter(cs, broker, c.selected);
    }
    return Some(c);
  }

  /** Discovery never contacts an agent whose last word to Synaptica was a hard failure. */
  lemma UnreachableIsNeverContacted(cs: seq<Candidate>, c: Candidate, agent: HolAgent, h: History, now: Time)
    requires NonDecreasing(h) && Unreachable(h)
    requires c.tier == ComputeFields(agent, RowOf(h), now).tier
    ensures c !in Ranked(Chatable(cs), Key)
  {
    RowRefinesHistory(agent, h, now);
    assert !BrokerChatable(c);
    assert c in Ranked(Chatable(cs), Key) <==> c in multiset(Ranked(Chatable(cs), Key));
  }

  // ------------------------------------------------------------- in plain terms

  /** Recorded are exactly the errors whose text reports a definitive reachability failure. */
  lemma {:induction false} HardOnesAre(errors: seq<Attempted>, a: Attempted)
    ensures a in HardOnes(errors) <==> a in errors && IsHardAvailabilityFailure(a.error.text)
  {
    hide IsHardAvailabilityFailure;
    if errors != [] {
      assert errors == errors[..|errors| - 1] + [errors[|errors| - 1]];
      HardOnesAre(errors[..|errors| - 1], a);
    }
  }

  /** What discovery records are exactly the hard ones among the errors of those it contacts. */
  lemma {:induction false} RecordedAre(cs: seq<Candidate>, broker: Broker, n: nat, a: Attempted)
    requires n <= |cs|
    ensures a in AllRecorded(cs, broker, n) <==>
      a in AllErrors(cs, broker, n) && IsHardAvailabilityFailure(a.error.text)
  {
    hide IsHardAvailabilityFailure, HardOnes, ErrorsOf;
    if n > 0 {
      RecordedAre(cs, broker, n - 1, a);
      HardOnesAre(ErrorsOf(cs[n - 1], broker), a);
    }
  }

  /**
   * A candidate is chatable if it is not blocked and either has an HTTP
   * transport, or has a source URL and neither protocol nor adapter rules it out.
   */
  lemma ChatableExactlyWhen(c: Candidate)
    ensures BrokerChatable(c) <==>
      && c.tier != Blocked
      && ((exists i | 0 <= i < |c.transports| :: Lower(Strip(c.transports[i])) == "http")
          || (&& Lower(Strip(c.protocol)) != "a2a" && Lower(Strip(c.protocol)) != "uagent"
              && Lower(Strip(c.adapter)) != "a2a-registry-adapter" && Lower(Strip(c.adapter)) != "agentverse-adapter"
              && c.sourceUrl.Some? && Strip(c.sourceUrl.value) != ""))
  {
    hide Lower, Strip;
  }
}
