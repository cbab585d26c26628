/**
 * Registering a local agent with HOL (api/main.py, hol_register_local_agent):
 * the stored registration status, UAID and last error, over any sequence of
 * quote and register requests and any broker behaviour.
 */
module HolRegistration {
  import opened Options
  import opened Text
  import opened HolErrors

  const UNREGISTERED := "unregistered"
  const PENDING := "pending"
  const REGISTERED := "registered"
  const ERROR := "error"

  datatype HolMeta = HolMeta(uaid: Option<string>, status: string, lastError: Option<string>)

  const NEW_AGENT := HolMeta(None, UNREGISTERED, None)

  /**
   * How a broker call ends: a reply, from which a non-blank UAID may be
   * extracted; a HolClientError, with the text of the credit diagnostics if any
   * could be fetched; or an exception of another kind, which nobody catches.
   */
  datatype BrokerCall =
    | Replied(uaid: Option<string>)
    | Refused(text: string, diagnostics: string)
    | Crashed

  datatype Request =
    | Quote(call: BrokerCall)
    | Register(call: BrokerCall)
    | NotReady

  /** The message that is stored and classified: diagnostics are added to credit errors only. */
  function FinalMessage(text: string, diagnostics: string): string {
    if Contains(Lower(text), "insufficient_credits") && diagnostics != "" then
      text + ". HOL diagnostics: " + diagnostics
    else text
  }

  function ResolveErrorStatus(previous: string, message: string): string {
    if IsTransient(message) then
      if Lower(Strip(previous)) in {REGISTERED, "ok"} then REGISTERED else UNREGISTERED
    else ERROR
  }

  /** `_set_hol_meta`: a missing UAID never overwrites a stored one. */
  function SetHolMeta(m: HolMeta, status: string, uaid: Option<string>, lastError: Option<string>): HolMeta {
    HolMeta(if uaid.Some? then uaid else m.uaid, status, lastError)
  }

  function Handle(m: HolMeta, r: Request): HolMeta {
    match r
    case NotReady => m
    case Quote(_) => m
    case Register(Crashed) => m.(status := PENDING, lastError := None)
    case Register(Refused(text, diagnostics)) =>
      var message := FinalMessage(text, diagnostics);
      m.(status := ResolveErrorStatus(m.status, message), lastError := Some(message))
    case Register(Replied(uaid)) =>
      if Truthy(uaid) then HolMeta(uaid, REGISTERED, None) else m.(status := PENDING, lastError := None)
  }

  /** The agent row, written twice by a register request: once before the call and once after. */
  class AgentRow {
    var hol: HolMeta

    constructor ()
      ensures hol == NEW_AGENT
    {
      hol := NEW_AGENT;
    }

    method RegisterLocalAgent(r: Request)
      modifies this
      ensures hol == Handle(old(hol), r)
    {
      if r.NotReady? {
        return;
      }
      var current := hol;
      if r.Register? {
        hol := SetHolMeta(hol, PENDING, current.uaid, None);
      }
      match r.call {
        case Crashed =>
        case Refused(text, diagnostics) =>
          if r.Register? {
            var message := FinalMessage(text, diagnostics);
            var next := ResolveErrorStatus(current.status, message);
            hol := SetHolMeta(hol, next, current.uaid, Some(message));
          }
        case Replied(uaid) =>
          if r.Register? {
            var next := if Truthy(uaid) then REGISTERED else PENDING;
            hol := SetHolMeta(hol, next, if Truthy(uaid) then uaid else current.uaid, None);
          }
      }
    }
  }

  // --------------------------------------------------------------- whole runs

  function Run(requests: seq<Request>): HolMeta {
    if requests == [] then NEW_AGENT
    else Handle(Run(requests[..|requests| - 1]), requests[|requests| - 1])
  }

  predicate GrantsUaid(r: Request) {
    r.Register? && r.call.Replied? && Truthy(r.call.uaid)
  }

  predicate IsTransientRefusal(r: Request) {
    r.Register? && r.call.Refused? && IsTransient(FinalMessage(r.call.text, r.call.diagnostics))
  }

  /** The request leaves a registered agent registered. */
  predicate KeepsRegistered(r: Request) {
    !r.Register? || IsTransientRefusal(r)
  }

  /** Request `i` granted a UAID, and each later register request failed transiently. */
  ghost predicate LastDecisiveGrant(requests: seq<Request>, i: nat)
    requires i < |requests|
  {
    && GrantsUaid(requests[i])
    && forall j | i < j < |requests| :: KeepsRegistered(requests[j])
  }

  lemma StatusIsNormal(status: string)
    requires status in {UNREGISTERED, PENDING, REGISTERED, ERROR}
    ensures Lower(Strip(status)) == status
  {
    assert Stripped(status);
    assert Lower(status) == status;
  }

  lemma {:induction false} StatusRange(requests: seq<Request>)
    ensures Run(requests).status in {UNREGISTERED, PENDING, REGISTERED, ERROR}
  {
    if requests != [] {
      StatusRange(requests[..|requests| - 1]);
    }
  }

  /**
   * An agent is registered after a run exactly when some register request was
   * granted a UAID and every register request after it failed transiently.
   */
  lemma {:induction false} RegisteredExactlyWhen(requests: seq<Request>)
    ensures Run(requests).status == REGISTERED <==> exists i | 0 <= i < |requests| :: LastDecisiveGrant(requests, i)
  {
    if requests != [] {
      var before, last := requests[..|requests| - 1], requests[|requests| - 1];
      RegisteredExactlyWhen(before);
      StatusRange(before);
      StatusIsNormal(Run(before).status);
      StepKeepsRegistered(Run(before), last);
      if GrantsUaid(last) {
        assert LastDecisiveGrant(requests, |before|);
      } else if KeepsRegistered(last) {
        DecisiveGrantExtends(requests);
      } else {
        forall i | 0 <= i < |requests|
          ensures !LastDecisiveGrant(requests, i)
        {
          assert i < |before| ==> !KeepsRegistered(requests[|before|]);
        }
      }
    }
  }

  lemma StepKeepsRegistered(m: HolMeta, r: Request)
    requires Lower(Strip(m.status)) == m.status && m.status != "ok"
    ensures Handle(m, r).status == REGISTERED <==> GrantsUaid(r) || (m.status == REGISTERED && KeepsRegistered(r))
  {
  }

  lemma DecisiveGrantExtends(requests: seq<Request>)
    requires requests != [] && KeepsRegistered(requests[|requests| - 1]) && !GrantsUaid(requests[|requests| - 1])
    ensures
      var before := requests[..|requests| - 1];
      (exists i | 0 <= i < |requests| :: LastDecisiveGrant(requests, i)) <==>
      (exists i | 0 <= i < |before| :: LastDecisiveGrant(before, i))
  {
    var before := requests[..|requests| - 1];
    if i :| 0 <= i < |requests| && LastDecisiveGrant(requests, i) {
      assert i < |before| && before[i] == requests[i];
      assert forall j | i < j < |before| :: before[j] == requests[j];
      assert LastDecisiveGrant(before, i);
    }
    if i :| 0 <= i < |before| && LastDecisiveGrant(before, i) {
      assert forall j | i < j < |before| :: requests[j] == before[j];
      assert LastDecisiveGrant(requests, i);
    }
  }

  /** How the last register request that reached the broker ended. */
  function LastRegister(requests: seq<Request>): Option<BrokerCall> {
    if requests == [] then None
    else if requests[|requests| - 1].Register? then Some(requests[|requests| - 1].call)
    else LastRegister(requests[..|requests| - 1])
  }

  /**
   * The other statuses, read off the last register request: "pending" after a
   * crash or a reply without UAID, "error" after a refusal that is not transient,
   * "unregistered" when there was none or after a transient refusal of an agent
   * that is not registered.
   */
  lemma {:induction false} StatusIsThatOfLastRegister(requests: seq<Request>)
    ensures var status := Run(requests).status;
      match LastRegister(requests)
      case None => status == "unregistered"
      case Some(Crashed) => status == "pending"
      case Some(Replied(Some(uaid))) => status == if uaid != "" then "registered" else "pending"
      case Some(Replied(None)) => status == "pending"
      case Some(Refused(text, diagnostics)) =>
        if IsTransient(FinalMessage(text, diagnostics)) then status == "registered" || status == "unregistered"
        else status == "error"
  {
    hide IsTransient, FinalMessage, Strip, Lower;
    if requests != [] {
      StatusIsThatOfLastRegister(requests[..|requests| - 1]);
    }
  }

  /** The stored error is the last register request's: its text, with the diagnostics of a credit error after it. */
  lemma {:induction false} ErrorIsThatOfLastRegister(requests: seq<Request>)
    ensures var error := Run(requests).lastError;
      match LastRegister(requests)
      case Some(Refused(text, diagnostics)) =>
        error == Some(if Contains(Lower(text), "insufficient_credits") && diagnostics != ""
                      then text + ". HOL diagnostics: " + diagnostics else text)
      case _ => error == None
  {
    hide IsTransient, Contains, ResolveErrorStatus, Lower;
    if requests != [] {
      ErrorIsThatOfLastRegister(requests[..|requests| - 1]);
    }
  }

  /** The UAID of the last request that was granted one. */
  function LastUaid(requests: seq<Request>): Option<string> {
    if requests == [] then None
    else if GrantsUaid(requests[|requests| - 1]) then requests[|requests| - 1].call.uaid
    else LastUaid(requests[..|requests| - 1])
  }

  /** The stored UAID is the last one granted, so it is never lost, and a registered agent has one. */
  lemma {:induction false} StoredUaid(requests: seq<Request>)
    ensures Run(requests).uaid == LastUaid(requests)
    ensures Run(requests).status == REGISTERED ==> Truthy(Run(requests).uaid)
  {
    if requests != [] {
      StoredUaid(requests[..|requests| - 1]);
      StatusRange(requests[..|requests| - 1]);
      StatusIsNormal(Run(requests[..|requests| - 1]).status);
    }
  }

  lemma {:induction false} UaidNeverLost(requests: seq<Request>, more: seq<Request>)
    requires Truthy(Run(requests).uaid)
    ensures Truthy(Run(requests + more).uaid)
  {
    if more == [] {
      assert requests + more == requests;
    } else {
      var init := more[..|more| - 1];
      UaidNeverLost(requests, init);
      assert (requests + more)[..|requests + more| - 1] == requests + init;
    }
  }

  /**
   * An exception outside HolClientError leaves "pending" behind; a transient
   * failure after it then reports a once registered agent as unregistered,
   * although its UAID is still stored.
   */
  lemma CrashForgetsRegistration(m: HolMeta, text: string)
    requires m.status == REGISTERED && IsTransient(FinalMessage(text, ""))
    ensures
      var m' := Handle(Handle(m, Register(Crashed)), Register(Refused(text, "")));
      m'.status == UNREGISTERED && m'.uaid == m.uaid
  {
    StatusIsNormal(PENDING);
  }

  /**
   * Diagnostics appended to a credit error can only make it look transient,
   * never the other way round.
   */
  lemma DiagnosticsOnlySoften(previous: string, text: string, diagnostics: string)
    ensures ResolveErrorStatus(previous, FinalMessage(text, diagnostics)) == ERROR ==>
      ResolveErrorStatus(previous, text) == ERROR
  {
    if IsTransient(text) {
      AddedTextKeepsTransient(text, ". HOL diagnostics: ");
      AddedTextKeepsTransient(text + ". HOL diagnostics: ", diagnostics);
    }
  }
}
