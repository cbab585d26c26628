/**
 * Where a metadata URI leads and how its document is fetched
 * (shared/registry_sync.py): gateways are tried in order until one answers.
 */
module MetadataFetch {
  import opened Options
  import opened Text
  import opened RegistryTypes
  import opened MetadataCache

  const IPFS := "ipfs://"

  /** The gateway addresses in use, without trailing slashes. */
  datatype Config = Config(gateway: string, gateways: seq<string>)

  datatype Target = Target(url: Option<string>, cid: Option<string>)

  /** MetadataFetchJob. */
  datatype Job = Job(uri: string, cid: Option<string>, urls: seq<string>)

  /** One GET: a JSON document, which may be null, or any failure. */
  datatype WebAnswer = Document(payload: Option<Payload>) | NoAnswer

  /** The answer that the job of a URI gets from an address. */
  type Web = (string, string) -> WebAnswer

  /** `_resolve_metadata_uri`. */
  function Resolve(uri: string, cfg: Config): Target {
    var trimmed := Strip(uri);
    if IPFS <= trimmed then
      var cid := trimmed[|IPFS|..];
      Target(Some(cfg.gateway + "/" + cid), Some(cid))
    else if "http://" <= trimmed || "https://" <= trimmed then Target(Some(trimmed), None)
    else Target(None, None)
  }

  predicate Fetchable(uri: string) {
    var trimmed := Strip(uri);
    IPFS <= trimmed || "http://" <= trimmed || "https://" <= trimmed
  }

  function AddUrl(urls: seq<string>, url: Option<string>): seq<string> {
    if Truthy(url) && url.value !in urls then urls + [url.value] else urls
  }

  function AddGateways(urls: seq<string>, gateways: seq<string>, cid: string): seq<string> {
    if gateways == [] then urls
    else AddUrl(AddGateways(urls, gateways[..|gateways| - 1], cid), Some(gateways[|gateways| - 1] + "/" + cid))
  }

  function JobUrls(target: Target, cfg: Config): seq<string> {
    var urls := AddUrl([], target.url);
    if Truthy(target.cid) then AddGateways(urls, cfg.gateways, target.cid.value) else urls
  }

  function JobFor(uri: string, cfg: Config): Option<Job> {
    var target := Resolve(uri, cfg);
    var urls := JobUrls(target, cfg);
    if uri == "" || urls == [] then None else Some(Job(uri, target.cid, urls))
  }

  /** `_build_metadata_fetch_job`. */
  method BuildMetadataFetchJob(uri: string, cfg: Config) returns (job: Option<Job>)
    ensures job == JobFor(uri, cfg)
    ensures job.Some? <==> Fetchable(uri)
  {
    JobsExactlyForFetchable(uri, cfg);
    if uri == "" {
      return None;
    }
    var target := Resolve(uri, cfg);
    var urls := AddUrl([], target.url);
    if Truthy(target.cid) {
      for i := 0 to |cfg.gateways|
        invariant urls == AddGateways(AddUrl([], target.url), cfg.gateways[..i], target.cid.value)
      {
        assert cfg.gateways[..i + 1][..i] == cfg.gateways[..i];
        urls := AddUrl(urls, Some(cfg.gateways[i] + "/" + target.cid.value));
      }
      assert cfg.gateways[..|cfg.gateways|] == cfg.gateways;
    }
    if urls == [] {
      return None;
    }
    return Some(Job(uri, target.cid, urls));
  }

  lemma {:induction false} GatewaysOnlyAdd(urls: seq<string>, gateways: seq<string>, cid: string)
    ensures urls <= AddGateways(urls, gateways, cid)
    ensures forall u :: u in AddGateways(urls, gateways, cid) <==>
      u in urls || exists g :: g in gateways && u == g + "/" + cid
    ensures NoRepeats(urls) ==> NoRepeats(AddGateways(urls, gateways, cid))
  {
    if gateways != [] {
      var before, last := gateways[..|gateways| - 1], gateways[|gateways| - 1];
      GatewaysOnlyAdd(urls, before, cid);
      assert gateways == before + [last];
      assert last in gateways;
    }
  }

  ghost predicate NoRepeats(s: seq<string>) {
    forall i, j | 0 <= i < j < |s| :: s[i] != s[j]
  }

  /** A job exists exactly for a fetchable URI, and it starts at the resolved address. */
  lemma JobsExactlyForFetchable(uri: string, cfg: Config)
    ensures JobFor(uri, cfg).Some? <==> Fetchable(uri)
    ensures Fetchable(uri) ==>
      JobFor(uri, cfg).value.urls[0] == Resolve(uri, cfg).url.value && JobFor(uri, cfg).value.urls[0] != ""
  {
    var target := Resolve(uri, cfg);
    if Truthy(target.cid) {
      GatewaysOnlyAdd(AddUrl([], target.url), cfg.gateways, target.cid.value);
    }
  }

  /** The addresses of a job: no address twice, and exactly the resolved one and the gateways'. */
  lemma JobAddresses(uri: string, cfg: Config)
    requires Fetchable(uri)
    ensures var urls, target := JobFor(uri, cfg).value.urls, Resolve(uri, cfg);
      && NoRepeats(urls)
      && forall u :: u in urls <==>
           || Some(u) == target.url
           || (Truthy(target.cid) && exists g :: g in cfg.gateways && u == g + "/" + target.cid.value)
  {
    JobsExactlyForFetchable(uri, cfg);
    var target := Resolve(uri, cfg);
    assert AddUrl([], target.url) == [target.url.value];
    if Truthy(target.cid) {
      GatewaysOnlyAdd(AddUrl([], target.url), cfg.gateways, target.cid.value);
    }
  }

  lemma {:induction false} EarlierGatewaysFirst(urls: seq<string>, gateways: seq<string>, cid: string, k: nat)
    requires k <= |gateways|
    ensures AddGateways(urls, gateways[..k], cid) <= AddGateways(urls, gateways, cid)
  {
    if k < |gateways| {
      var before := gateways[..|gateways| - 1];
      EarlierGatewaysFirst(urls, before, cid, k);
      assert before[..k] == gateways[..k];
    } else {
      assert gateways[..k] == gateways;
    }
  }

  /** The addresses are tried gateway by gateway: some beginning of them serves just the first `k` gateways. */
  ghost predicate ServesFirst(urls: seq<string>, first: string, gateways: seq<string>, cid: string, k: nat)
    requires k <= |gateways|
  {
    exists n | 1 <= n <= |urls| ::
      forall u :: u in urls[..n] <==> u == first || exists g :: g in gateways[..k] && u == g + "/" + cid
  }

  /**
   * The job of an IPFS URI: the CID is what follows the scheme, the first
   * address is the main gateway's, and then come the others in their order.
   */
  lemma IpfsJob(uri: string, cid: string, cfg: Config)
    requires Strip(uri) == "ipfs://" + cid && cid != ""
    ensures var job := JobFor(uri, cfg);
      && job.Some? && job.value.uri == uri && job.value.cid == Some(cid)
      && job.value.urls != [] && job.value.urls[0] == cfg.gateway + "/" + cid
      && NoRepeats(job.value.urls)
      && (forall u :: u in job.value.urls <==>
            u == cfg.gateway + "/" + cid || exists g :: g in cfg.gateways && u == g + "/" + cid)
      && (forall k | 0 <= k <= |cfg.gateways| ::
            ServesFirst(job.value.urls, cfg.gateway + "/" + cid, cfg.gateways, cid, k))
  {
    var first := cfg.gateway + "/" + cid;
    assert ("ipfs://" + cid)[|IPFS|..] == cid;
    assert Resolve(uri, cfg) == Target(Some(first), Some(cid));
    JobsExactlyForFetchable(uri, cfg);
    JobAddresses(uri, cfg);
    assert AddUrl([], Some(first)) == [first];
    forall k | 0 <= k <= |cfg.gateways|
      ensures ServesFirst(JobFor(uri, cfg).value.urls, first, cfg.gateways, cid, k)
    {
      EarlierGatewaysFirst([first], cfg.gateways, cid, k);
      GatewaysOnlyAdd([first], cfg.gateways[..k], cid);
      var some := AddGateways([first], cfg.gateways[..k], cid);
      assert JobFor(uri, cfg).value.urls[..|some|] == some;
    }
  }

  /** The job of an HTTP URI has that one address and no CID; an IPFS URI without a CID has the bare gateway. */
  lemma OtherJobs(uri: string, cfg: Config)
    ensures "http://" <= Strip(uri) || "https://" <= Strip(uri) ==>
      JobFor(uri, cfg) == Some(Job(uri, None, [Strip(uri)]))
    ensures Strip(uri) == "ipfs://" ==> JobFor(uri, cfg) == Some(Job(uri, Some(""), [cfg.gateway + "/"]))
    ensures !("http://" <= Strip(uri)) && !("https://" <= Strip(uri)) && !("ipfs://" <= Strip(uri)) ==>
      JobFor(uri, cfg) == None && Resolve(uri, cfg) == Target(None, None)
  {
    assert forall u: string | u != "" :: AddUrl([], Some(u)) == [u];
    if "http://" <= Strip(uri) || "https://" <= Strip(uri) {
      assert Strip(uri)[0] == 'h';
    } else if Strip(uri) == "ipfs://" {
      assert Strip(uri)[|IPFS|..] == "";
      assert cfg.gateway + "/" + "" == cfg.gateway + "/";
      assert AddUrl([], Some(cfg.gateway + "/")) == [cfg.gateway + "/"];
    }
  }

  /** A fetchable URI is never a CID key. */
  lemma FetchableIsNotCidKey(uri: string)
    requires Fetchable(uri)
    ensures !IsCidKey(uri)
  {
  }

  /** The first address, from the n-th on, that answers; or the length. */
  function FirstAnswer(job: Job, web: Web, n: nat): (k: nat)
    requires n <= |job.urls|
    ensures n <= k <= |job.urls|
    ensures forall i | n <= i < k :: web(job.uri, job.urls[i]).NoAnswer?
    ensures k < |job.urls| ==> web(job.uri, job.urls[k]).Document?
    decreases |job.urls| - n
  {
    if n == |job.urls| || web(job.uri, job.urls[n]).Document? then n else FirstAnswer(job, web, n + 1)
  }

  /** What fetching a job yields. */
  function Fetched(job: Job, web: Web): Entry {
    var k := FirstAnswer(job, web, 0);
    if k < |job.urls| then Entry(web(job.uri, job.urls[k]).payload, Some(job.urls[k]), job.cid)
    else Entry(None, if job.urls == [] then None else Some(job.urls[0]), job.cid)
  }

  /**
   * `_fetch_metadata_from_job`: the first address that answers settles the
   * matter, even when its document is null.
   */
  method FetchMetadataFromJob(job: Job, web: Web) returns (entry: Entry)
    ensures entry == Fetched(job, web)
    ensures entry.cid == job.cid
    ensures forall k | 0 <= k < |job.urls| && web(job.uri, job.urls[k]).Document?
                       && (forall i | 0 <= i < k :: web(job.uri, job.urls[i]).NoAnswer?) ::
      entry.url == Some(job.urls[k]) && entry.payload == web(job.uri, job.urls[k]).payload
    ensures (forall i | 0 <= i < |job.urls| :: web(job.uri, job.urls[i]).NoAnswer?) ==>
      entry.payload == None && entry.url == if job.urls == [] then None else Some(job.urls[0])
    ensures entry.payload.Some? <==>
      exists k | 0 <= k < |job.urls| ::
        && web(job.uri, job.urls[k]).Document? && web(job.uri, job.urls[k]).payload.Some?
        && forall i | 0 <= i < k :: web(job.uri, job.urls[i]).NoAnswer?
  {
    if job.urls == [] {
      return Entry(None, None, job.cid);
    }
    for k := 0 to |job.urls|
      invariant forall i | 0 <= i < k :: web(job.uri, job.urls[i]).NoAnswer?
    {
      var answer := web(job.uri, job.urls[k]);
      if answer.Document? {
        return Entry(answer.payload, Some(job.urls[k]), job.cid);
      }
    }
    return Entry(None, Some(job.urls[0]), job.cid);
  }
}
