/** What the registry sync moves around (shared/registry_sync.py): documents, snapshots and table rows. */
module RegistryTypes {
  import opened Options
  import opened Text

  type Time = int

  /** A metadata document; every other profile field is a function of it. */
  datatype Payload = Payload(agentId: Option<string>, name: Option<string>, document: string)

  /** What the reputation registry reports; zero counts as absent. */
  datatype Reputation = Reputation(reputationScore: real, score: real, document: string)

  /** An agent as the identity, reputation and validation registries describe it. */
  datatype AgentInfo = AgentInfo(
    registryId: int,
    domain: string,
    address: string,
    uri: Option<string>,
    reputation: Reputation,
    validation: string)

  /** AgentSnapshot. */
  datatype Snapshot = Snapshot(
    agentId: string,
    name: string,
    info: AgentInfo,
    url: Option<string>,
    cid: Option<string>,
    metadata: Option<Payload>,
    score: real)

  datatype Status = Active | Inactive

  /** A row of the agents table; `extra` is whatever else its meta document holds. */
  datatype AgentRow = AgentRow(
    name: string,
    status: Status,
    uri: Option<string>,
    url: Option<string>,
    cid: Option<string>,
    metadata: Option<Payload>,
    info: Option<AgentInfo>,
    managed: bool,
    syncedAt: Option<Time>,
    extra: string)

  /** A row of the reputations table. */
  datatype ScoreRow = ScoreRow(score: real, reputation: Option<Reputation>, validation: Option<string>, extra: string)

  datatype Tables = Tables(agents: map<string, AgentRow>, scores: map<string, ScoreRow>)

  function Clamp01(x: real): real {
    if x < 0.0 then 0.0 else if x > 1.0 then 1.0 else x
  }

  /** `_normalize_reputation_score`: values above one are percentages. */
  function NormalizedScore(r: Reputation): (score: real)
    ensures 0.0 <= score <= 1.0
  {
    var raw := if r.reputationScore != 0.0 then r.reputationScore else r.score;
    Clamp01(if raw > 1.0 then raw / 100.0 else raw)
  }

  /**
   * Because values above one are read as percentages, a higher report can give
   * a lower score: for positive reports exactly when it leaves the fractions
   * without reaching a hundred times the other.
   */
  lemma ScoreDropsExactlyWhen(lower: Reputation, higher: Reputation)
    requires 0.0 < lower.reputationScore <= higher.reputationScore
    ensures NormalizedScore(higher) < NormalizedScore(lower) <==>
      && lower.reputationScore <= 1.0 < higher.reputationScore
      && higher.reputationScore < 100.0 * lower.reputationScore
  {
  }

  const SUPPORTED_AGENTS: seq<string> := ["problem-framer-001", "literature-miner-001", "knowledge-synthesizer-001"]

  const REPUTATION_FLOOR := 0.8

  /** `_effective_reputation_score`. */
  function EffectiveScore(agentId: string, raw: real): (score: real)
    ensures 0.0 <= score <= 1.0
    ensures agentId in SUPPORTED_AGENTS ==> score >= REPUTATION_FLOOR
    ensures agentId !in SUPPORTED_AGENTS && 0.0 <= raw <= 1.0 ==> score == raw
  {
    var normalized := Clamp01(raw);
    if agentId in SUPPORTED_AGENTS && normalized < REPUTATION_FLOOR then REPUTATION_FLOOR else normalized
  }

  /** The agent id of `_extract_metadata_fields`: the document's own id, else the domain. */
  function AgentIdOf(domain: string, metadata: Option<Payload>): string {
    var own := if metadata.Some? && Truthy(metadata.value.agentId) then metadata.value.agentId.value else domain;
    if Strip(own) != "" then Strip(own) else domain
  }

  /** `_build_snapshot`. */
  function BuildSnapshot(info: AgentInfo, metadata: Option<Payload>, url: Option<string>, cid: Option<string>): Snapshot
  {
    var id := AgentIdOf(info.domain, metadata);
    var name := if metadata.Some? && Truthy(metadata.value.name) then metadata.value.name.value else id;
    Snapshot(id, name, info, url, cid, metadata, NormalizedScore(info.reputation))
  }

  /** A report of zero counts as missing; negatives are cut off; values above one are percentages, at most a hundred. */
  lemma NormalizedScoreIs(r: Reputation)
    ensures var x := if r.reputationScore == 0.0 then r.score else r.reputationScore;
      && (x <= 0.0 ==> NormalizedScore(r) == 0.0)
      && (0.0 <= x <= 1.0 ==> NormalizedScore(r) == x)
      && (1.0 < x <= 100.0 ==> NormalizedScore(r) * 100.0 == x)
      && (x > 100.0 ==> NormalizedScore(r) == 1.0)
  {
  }

  /** A snapshot goes by its document's id and name where that has them, else by its domain and its id. */
  lemma SnapshotIdentity(info: AgentInfo, metadata: Option<Payload>, url: Option<string>, cid: Option<string>)
    ensures var s := BuildSnapshot(info, metadata, url, cid);
      && s.info == info && s.metadata == metadata && s.url == url && s.cid == cid
      && (metadata.Some? && metadata.value.agentId.Some? && Strip(metadata.value.agentId.value) != "" ==>
            s.agentId == Strip(metadata.value.agentId.value))
      && (metadata == None || metadata.value.agentId == None || metadata.value.agentId == Some("") ==>
            s.agentId == if Strip(info.domain) != "" then Strip(info.domain) else info.domain)
      && (metadata.Some? && metadata.value.name.Some? && metadata.value.name.value != "" ==>
            s.name == metadata.value.name.value)
      && (metadata == None || metadata.value.name == None || metadata.value.name == Some("") ==> s.name == s.agentId)
      && s.score == NormalizedScore(info.reputation)
  {
    hide Strip;
  }
}
