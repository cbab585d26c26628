/**
 * Publish-on-change of agent metadata before a HOL registration (api/main.py,
 * _prepare_hol_registration_payload and the commit after it). URL parsing is a
 * parameter: which URLs are not public, and what they are rewritten to.
 */
module MetadataPublish {
  import opened Options
  import opened Text

  datatype Agent = Agent(
    isData: bool,
    metadataUri: Option<string>,
    endpointUrl: Option<string>,
    healthCheckUrl: Option<string>,
    gatewayUrl: Option<string>,
    publishedEndpoint: Option<string>,
    publishedHealth: Option<string>)

  /** `rewrite` answers `None` when HOL_PUBLIC_BASE_URL is missing or unusable. */
  datatype Env = Env(notPublic: string -> bool, rewrite: string -> Option<string>)

  datatype Args = Args(endpointOverride: Option<string>, metadataOverride: Option<string>)

  /** What Pinata does if asked to pin. */
  datatype Upload = Pinned(cid: string, gatewayUrl: string) | UploadFailed

  datatype Payload = Payload(endpoint: string, metadataUri: string)

  datatype Prepared = Ready(payload: Payload) | Rejected

  function StripText(value: Option<string>): string {
    if value.Some? then Strip(value.value) else ""
  }

  /** `str(value or "").strip() or None`. */
  function NonBlank(value: Option<string>): Option<string> {
    if StripText(value) == "" then None else Some(StripText(value))
  }

  /** A URL as registered: rewritten when it is neither empty nor public. `None` is the 400. */
  function Effective(url: string, env: Env): Option<string> {
    if url != "" && env.notPublic(url) then env.rewrite(url) else Some(url)
  }

  function EndpointOf(a: Agent, args: Args, env: Env): Option<string> {
    Effective(StripText(if args.endpointOverride.Some? then args.endpointOverride else a.endpointUrl), env)
  }

  /** The health URL may be absent; the outer option is again the 400. */
  function HealthOf(a: Agent, env: Env): Option<Option<string>> {
    match NonBlank(a.healthCheckUrl)
    case None => Some(None)
    case Some(url) => (match Effective(url, env) case None => None case Some(u) => Some(Some(u)))
  }

  function UriOf(a: Agent, args: Args): Option<string> {
    NonBlank(if args.metadataOverride.Some? then args.metadataOverride else OrElse(a.metadataUri, a.gatewayUrl))
  }

  predicate NeedsPublish(a: Agent, args: Args, endpoint: string, health: Option<string>) {
    && a.isData
    && StripText(args.metadataOverride) == ""
    && (|| UriOf(a, args).None?
        || NonBlank(a.publishedEndpoint) != Some(endpoint)
        || NonBlank(a.publishedHealth) != health)
  }

  function Published(a: Agent, endpoint: string, health: Option<string>, pin: Upload): Agent
    requires pin.Pinned?
  {
    a.(gatewayUrl := Some(pin.gatewayUrl),
       publishedEndpoint := Some(endpoint),
       publishedHealth := health,
       metadataUri := Some("ipfs://" + pin.cid))
  }

  /** `_build_hol_registration_payload`: both URLs are required. */
  function Build(a: Agent, endpoint: string, uri: Option<string>): Prepared {
    var url := if endpoint != "" then endpoint else StripText(a.endpointUrl);
    var metadata := if uri.Some? then uri else OrElse(a.metadataUri, a.gatewayUrl);
    if Strip(url) == "" || !Truthy(metadata) then Rejected else Ready(Payload(Strip(url), metadata.value))
  }

  /** The row after the request, whether metadata was pinned, and the payload. A rejection commits nothing. */
  datatype Effect = Effect(agent: Agent, pinned: bool, result: Prepared)

  function Prepare(a: Agent, args: Args, env: Env, upload: Upload): Effect {
    var endpoint, health := EndpointOf(a, args, env), HealthOf(a, env);
    if endpoint.None? || health.None? then Effect(a, false, Rejected)
    else if !NeedsPublish(a, args, endpoint.value, health.value) then
      Effect(a, false, Build(a, endpoint.value, UriOf(a, args)))
    else if upload.UploadFailed? then Effect(a, false, Rejected)
    else
      var a' := Published(a, endpoint.value, health.value, upload);
      var result := Build(a', endpoint.value, NonBlank(OrElse(a'.metadataUri, a'.gatewayUrl)));
      Effect(if result.Ready? then a' else a, true, result)
  }

  /** The row, as the handler changes it and either commits or abandons the change. */
  class AgentRow {
    var committed: Agent

    constructor (a: Agent)
      ensures committed == a
    {
      committed := a;
    }

    method PrepareRegistration(args: Args, env: Env, upload: Upload) returns (pinned: bool, result: Prepared)
      modifies this
      ensures Effect(committed, pinned, result) == Prepare(old(committed), args, env, upload)
    {
      hide EndpointOf, HealthOf, UriOf, Build, NeedsPublish, NonBlank, Strip;
      var agent := committed;
      var urls := PublicUrls(agent, args, env);
      if urls.None? {
        return false, Rejected;
      }
      var (endpoint, health) := urls.value;
      var uri := UriOf(agent, args);
      pinned := false;
      if NeedsPublish(agent, args, endpoint, health) {
        if upload.UploadFailed? {
          return false, Rejected;
        }
        pinned := true;
        agent := agent.(gatewayUrl := Some(upload.gatewayUrl));
        agent := agent.(publishedEndpoint := Some(endpoint));
        agent := agent.(publishedHealth := health);
        agent := agent.(metadataUri := Some("ipfs://" + upload.cid));
        uri := NonBlank(OrElse(agent.metadataUri, agent.gatewayUrl));
      }
      result := Build(agent, endpoint, uri);
      if result.Ready? {
        committed := agent;
      }
    }
  }

  /** The endpoint and health URL to be registered, made public where they are not; `None` is the 400. */
  method PublicUrls(agent: Agent, args: Args, env: Env) returns (urls: Option<(string, Option<string>)>)
    ensures urls.Some? <==> EndpointOf(agent, args, env).Some? && HealthOf(agent, env).Some?
    ensures urls.Some? ==> urls.value == (EndpointOf(agent, args, env).value, HealthOf(agent, env).value)
  {
    hide Strip;
    var endpoint := StripText(if args.endpointOverride.Some? then args.endpointOverride else agent.endpointUrl);
    var health := NonBlank(agent.healthCheckUrl);
    if endpoint != "" && env.notPublic(endpoint) {
      var public := env.rewrite(endpoint);
      if public.None? {
        return None;
      }
      endpoint := public.value;
    }
    if health.Some? && env.notPublic(health.value) {
      var public := env.rewrite(health.value);
      if public.None? {
        return None;
      }
      health := public;
    }
    return Some((endpoint, health));
  }

  // --------------------------------------------------------------- properties

  /**
   * With no metadata override, a data agent is published exactly when it has no
   * metadata URI or the URLs to be registered differ from those last published.
   */
  lemma PublishesOnChange(a: Agent, args: Args, env: Env, pin: Upload)
    requires a.isData && args.metadataOverride.None? && pin.Pinned?
    requires EndpointOf(a, args, env).Some? && HealthOf(a, env).Some?
    ensures Prepare(a, args, env, pin).pinned <==>
      || (NonBlank(OrElse(a.metadataUri, a.gatewayUrl)) == None)
      || ((NonBlank(a.publishedEndpoint), NonBlank(a.publishedHealth)) !=
          (EndpointOf(a, args, env), HealthOf(a, env).value))
  {
  }

  /** The URL survives being stored and read back, as stripped text that is not empty. */
  predicate Stable(url: Option<string>) {
    url.Some? && NonBlank(url) == url
  }

  /** The arguments and the effective URLs settle: a blank override or an unstripped URL never does. */
  predicate Settles(a: Agent, args: Args, env: Env)
    requires EndpointOf(a, args, env).Some? && HealthOf(a, env).Some?
  {
    && args.metadataOverride.None?
    && Stable(EndpointOf(a, args, env))
    && (HealthOf(a, env).value.None? || Stable(HealthOf(a, env).value))
  }

  lemma PinnedUriIsUsable(cid: string)
    ensures NonBlank(Some("ipfs://" + cid)).Some?
  {
    assert ("ipfs://" + cid)[0] == 'i';
  }

  /**
   * After a request that pinned metadata, committed or not, an identical
   * request pins again exactly when the URLs or the override do not settle.
   */
  lemma RepublishesExactlyWhen(a: Agent, args: Args, env: Env, first: Upload, second: Upload)
    requires EndpointOf(a, args, env).Some? && HealthOf(a, env).Some? && second.Pinned?
    requires Prepare(a, args, env, first).pinned
    ensures Prepare(Prepare(a, args, env, first).agent, args, env, second).pinned <==> !Settles(a, args, env)
  {
    hide Strip, Effective, Build;
    PinnedUriIsUsable(first.cid);
    if Settles(a, args, env) {
      SettledPinIsCommitted(a, args, env, first);
    }
  }

  lemma SettledPinIsCommitted(a: Agent, args: Args, env: Env, pin: Upload)
    requires EndpointOf(a, args, env).Some? && HealthOf(a, env).Some? && Settles(a, args, env)
    requires Prepare(a, args, env, pin).pinned
    ensures Prepare(a, args, env, pin).result.Ready?
  {
    hide Effective;
    PinnedUriIsUsable(pin.cid);
  }

  /** Pins made by a series of identical requests, each meeting its own Pinata outcome. */
  function Pins(a: Agent, args: Args, env: Env, uploads: seq<Upload>): nat
    decreases uploads
  {
    if uploads == [] then 0
    else
      var e := Prepare(a, args, env, uploads[0]);
      (if e.pinned then 1 else 0) + Pins(e.agent, args, env, uploads[1..])
  }

  /** With settled URLs a pinned request is committed, and nothing is left to publish. */
  lemma PinSettles(a: Agent, args: Args, env: Env, pin: Upload)
    requires EndpointOf(a, args, env).Some? && HealthOf(a, env).Some? && Settles(a, args, env)
    ensures
      var e := Prepare(a, args, env, pin);
      && EndpointOf(e.agent, args, env) == EndpointOf(a, args, env)
      && HealthOf(e.agent, env) == HealthOf(a, env)
      && (if e.pinned then !NeedsPublish(e.agent, args, EndpointOf(a, args, env).value, HealthOf(a, env).value)
          else e.agent == a)
  {
    hide Strip, Effective;
    if pin.Pinned? {
      PinnedUriIsUsable(pin.cid);
    }
  }

  /** When they settle, any number of identical requests pins metadata at most once. */
  lemma {:induction false} AtMostOnePin(a: Agent, args: Args, env: Env, uploads: seq<Upload>)
    requires EndpointOf(a, args, env).Some? && HealthOf(a, env).Some? && Settles(a, args, env)
    ensures Pins(a, args, env, uploads) <= 1
    decreases uploads
  {
    if uploads != [] {
      var e := Prepare(a, args, env, uploads[0]);
      PinSettles(a, args, env, uploads[0]);
      if e.pinned {
        PinnedOnceStays(e.agent, args, env, uploads[1..]);
      } else {
        AtMostOnePin(e.agent, args, env, uploads[1..]);
      }
    }
  }

  function Uploaded(uploads: seq<Upload>): nat
    decreases uploads
  {
    if uploads == [] then 0 else (if uploads[0].Pinned? then 1 else 0) + Uploaded(uploads[1..])
  }

  /** An unsettled request that needs publishing still needs it afterwards, whatever became of it. */
  lemma UnsettledStillNeedsPublish(a: Agent, args: Args, env: Env, upload: Upload)
    requires EndpointOf(a, args, env).Some? && HealthOf(a, env).Some? && !Settles(a, args, env)
    requires NeedsPublish(a, args, EndpointOf(a, args, env).value, HealthOf(a, env).value)
    ensures
      var e := Prepare(a, args, env, upload);
      && (e.pinned <==> upload.Pinned?)
      && EndpointOf(e.agent, args, env) == EndpointOf(a, args, env) && HealthOf(e.agent, env) == HealthOf(a, env)
      && NeedsPublish(e.agent, args, EndpointOf(a, args, env).value, HealthOf(a, env).value)
  {
    hide Strip, Effective, Build;
  }

  /** When they do not settle, every repetition whose upload succeeds pins again. */
  lemma {:induction false} EveryRepetitionPins(a: Agent, args: Args, env: Env, uploads: seq<Upload>)
    requires EndpointOf(a, args, env).Some? && HealthOf(a, env).Some? && !Settles(a, args, env)
    requires NeedsPublish(a, args, EndpointOf(a, args, env).value, HealthOf(a, env).value)
    ensures Pins(a, args, env, uploads) == Uploaded(uploads)
    decreases uploads
  {
    if uploads != [] {
      UnsettledStillNeedsPublish(a, args, env, uploads[0]);
      EveryRepetitionPins(Prepare(a, args, env, uploads[0]).agent, args, env, uploads[1..]);
    }
  }

  lemma {:induction false} PinnedOnceStays(a: Agent, args: Args, env: Env, uploads: seq<Upload>)
    requires EndpointOf(a, args, env).Some? && HealthOf(a, env).Some?
    requires !NeedsPublish(a, args, EndpointOf(a, args, env).value, HealthOf(a, env).value)
    ensures Pins(a, args, env, uploads) == 0
    decreases uploads
  {
    if uploads != [] {
      PinnedOnceStays(a, args, env, uploads[1..]);
    }
  }

  // ---------------------------------------------------------- what is registered

  /** The endpoint as the request and the row give it, before it is made public. */
  function AskedEndpoint(a: Agent, args: Args): string {
    match args.endpointOverride
    case Some(url) => Strip(url)
    case None => (match a.endpointUrl case Some(url) => Strip(url) case None => "")
  }

  /** The metadata URI asked for, if any text is given: the override's, else the row's, else its gateway's. */
  function AskedUri(a: Agent, args: Args): string {
    match args.metadataOverride
    case Some(uri) => Strip(uri)
    case None =>
      if a.metadataUri.Some? && a.metadataUri.value != "" then Strip(a.metadataUri.value)
      else if a.gatewayUrl.Some? then Strip(a.gatewayUrl.value)
      else ""
  }

  lemma EffectiveIs(a: Agent, args: Args, env: Env)
    ensures EndpointOf(a, args, env) ==
      var asked := AskedEndpoint(a, args);
      if asked != "" && env.notPublic(asked) then env.rewrite(asked) else Some(asked)
  {
    hide Strip;
  }

  lemma UriIs(a: Agent, args: Args)
    ensures UriOf(a, args) == if AskedUri(a, args) == "" then None else Some(AskedUri(a, args))
  {
    hide Strip;
  }

  lemma BuildIs(a: Agent, endpoint: string, uri: Option<string>)
    requires Build(a, endpoint, uri).Ready?
    ensures endpoint != "" ==> Build(a, endpoint, uri).payload.endpoint == Strip(endpoint)
    ensures uri.Some? ==> Build(a, endpoint, uri).payload.metadataUri == uri.value
  {
    hide Strip;
  }

  /**
   * The payload names the asked endpoint, rewritten if it is not public, and the
   * metadata just pinned or else the asked URI.
   */
  lemma PayloadNames(a: Agent, args: Args, env: Env, upload: Upload)
    requires EndpointOf(a, args, env).Some? && HealthOf(a, env).Some? && Prepare(a, args, env, upload).result.Ready?
    ensures var payload := Prepare(a, args, env, upload).result.payload; var asked := AskedEndpoint(a, args);
      && (asked != "" && !env.notPublic(asked) ==> payload.endpoint == asked)
      && (asked != "" && env.notPublic(asked) && env.rewrite(asked) != Some("") ==>
            payload.endpoint == Strip(env.rewrite(asked).value))
    ensures var e := Prepare(a, args, env, upload);
      && (e.pinned ==> upload.Pinned? && e.result.payload.metadataUri == Strip("ipfs://" + upload.cid))
      && (!e.pinned && AskedUri(a, args) != "" ==> e.result.payload.metadataUri == AskedUri(a, args))
  {
    EffectiveIs(a, args, env);
    UriIs(a, args);
    AskedIsStripped(a, args);
    var endpoint, health := EndpointOf(a, args, env).value, HealthOf(a, env).value;
    hide EndpointOf, HealthOf, UriOf, Build, NeedsPublish, AskedEndpoint, AskedUri, Strip;
    if NeedsPublish(a, args, endpoint, health) {
      PinnedUriIsUsable(upload.cid);
      var a' := Published(a, endpoint, health, upload);
      BuildIs(a', endpoint, NonBlank(OrElse(a'.metadataUri, a'.gatewayUrl)));
    } else {
      BuildIs(a, endpoint, UriOf(a, args));
    }
  }

  lemma AskedIsStripped(a: Agent, args: Args)
    ensures Strip(AskedEndpoint(a, args)) == AskedEndpoint(a, args)
  {
    hide Strip;
  }

  /** A committed pin records what was pinned and the URLs it was pinned for; nothing else is ever committed. */
  lemma CommitRecordsPin(a: Agent, args: Args, env: Env, upload: Upload)
    requires EndpointOf(a, args, env).Some? && HealthOf(a, env).Some?
    ensures var e := Prepare(a, args, env, upload);
      if e.pinned && e.result.Ready? then
        && upload.Pinned? && e.agent.metadataUri == Some("ipfs://" + upload.cid)
        && e.agent.gatewayUrl == Some(upload.gatewayUrl)
        && e.agent.publishedEndpoint == EndpointOf(a, args, env)
        && e.agent.publishedHealth == HealthOf(a, env).value
        && e.agent.endpointUrl == a.endpointUrl && e.agent.healthCheckUrl == a.healthCheckUrl
        && e.agent.isData == a.isData
      else e.agent == a
  {
    hide NeedsPublish, Strip, Build, Effective;
  }

  /** A payload is refused exactly when no endpoint or no metadata URI is there to name. */
  lemma RefusesExactlyWhen(a: Agent, endpoint: string, uri: Option<string>)
    ensures Build(a, endpoint, uri) == Rejected <==>
      || (endpoint != "" && Strip(endpoint) == "")
      || (endpoint == "" && (a.endpointUrl == None || Strip(a.endpointUrl.value) == ""))
      || uri == Some("")
      || (uri == None && (a.metadataUri == None || a.metadataUri == Some(""))
          && (a.gatewayUrl == None || a.gatewayUrl == Some("")))
  {
    hide Strip;
  }

  /** Other agents, and requests that name their metadata, never publish. */
  lemma OthersNeverPublish(a: Agent, args: Args, env: Env, upload: Upload)
    requires !a.isData || (args.metadataOverride.Some? && Strip(args.metadataOverride.value) != "")
    ensures !Prepare(a, args, env, upload).pinned && Prepare(a, args, env, upload).agent == a
  {
    hide Strip, Build, Effective;
  }
}
