/**
 * Reconciliation of the agents and reputations tables with a list of registry
 * snapshots (shared/registry_sync.py, _apply_snapshots and _upsert_reputation).
 */
module RegistryApply {
  import opened Options
  import opened RegistryTypes

  const NEW_ROW := AgentRow("", Active, None, None, None, None, None, false, None, "")

  const NEW_SCORE := ScoreRow(0.0, None, None, "")

  /** What a snapshot makes of the row it finds, or of a new one. */
  function WrittenRow(row: AgentRow, s: Snapshot, now: Time): AgentRow {
    AgentRow(if s.name != "" then s.name else s.agentId, Active, s.info.uri, s.url, s.cid, s.metadata,
             Some(s.info), true, Some(now), row.extra)
  }

  function WrittenScore(row: ScoreRow, s: Snapshot): ScoreRow {
    ScoreRow(EffectiveScore(s.agentId, s.score), Some(s.info.reputation), Some(s.info.validation), row.extra)
  }

  function RowOf(t: Tables, id: string): AgentRow {
    if id in t.agents then t.agents[id] else NEW_ROW
  }

  function ScoreOf(t: Tables, id: string): ScoreRow {
    if id in t.scores then t.scores[id] else NEW_SCORE
  }

  function Upsert(t: Tables, s: Snapshot, now: Time): Tables {
    Tables(t.agents[s.agentId := WrittenRow(RowOf(t, s.agentId), s, now)],
           t.scores[s.agentId := WrittenScore(ScoreOf(t, s.agentId), s)])
  }

  function UpsertAll(t: Tables, snaps: seq<Snapshot>, now: Time): Tables {
    if snaps == [] then t else Upsert(UpsertAll(t, snaps[..|snaps| - 1], now), snaps[|snaps| - 1], now)
  }

  function Ids(snaps: seq<Snapshot>): (ids: seq<string>)
    ensures |ids| == |snaps|
    ensures forall i | 0 <= i < |ids| :: ids[i] == snaps[i].agentId
  {
    seq(|snaps|, i requires 0 <= i < |snaps| => snaps[i].agentId)
  }

  /** A managed row outside the list loses its active status, and nothing else. */
  function Retired(row: AgentRow, listed: bool): AgentRow {
    if !listed && row.managed then row.(status := Inactive) else row
  }

  function Retire(agents: map<string, AgentRow>, seen: seq<string>): map<string, AgentRow> {
    map id | id in agents :: Retired(agents[id], id in seen)
  }

  /** One whole reconciliation: an empty list retires nobody. */
  function Reconciled(t: Tables, snaps: seq<Snapshot>, now: Time): Tables {
    var upserted := UpsertAll(t, snaps, now);
    if snaps == [] then upserted else upserted.(agents := Retire(upserted.agents, Ids(snaps)))
  }

  class RegistryTables {
    var agents: map<string, AgentRow>
    var scores: map<string, ScoreRow>

    ghost function Snap(): Tables
      reads this
    {
      Tables(agents, scores)
    }

    constructor (agents: map<string, AgentRow>, scores: map<string, ScoreRow>)
      ensures Snap() == Tables(agents, scores)
    {
      this.agents, this.scores := agents, scores;
    }

    /** The body of the loop of `_apply_snapshots`, with `_upsert_reputation`. */
    method UpsertSnapshot(s: Snapshot, now: Time)
      modifies this
      ensures Snap() == Upsert(old(Snap()), s, now)
    {
      var row := NEW_ROW;
      if s.agentId in agents {
        row := agents[s.agentId];
      }
      row := row.(name := if s.name != "" then s.name else s.agentId, uri := s.info.uri, status := Active);
      row := row.(url := s.url, cid := s.cid, metadata := s.metadata, info := Some(s.info));
      row := row.(syncedAt := Some(now), managed := true);
      agents := agents[s.agentId := row];
      var effective := EffectiveScore(s.agentId, s.score);
      var score := if s.agentId in scores then scores[s.agentId].(score := effective)
                   else ScoreRow(effective, None, None, "");
      score := score.(reputation := Some(s.info.reputation), validation := Some(s.info.validation));
      scores := scores[s.agentId := score];
    }

    /** `_apply_snapshots`. */
    method ApplySnapshots(snaps: seq<Snapshot>, now: Time) returns (seen: seq<string>)
      modifies this
      ensures Snap() == Reconciled(old(Snap()), snaps, now)
      ensures seen == Ids(snaps)
    {
      seen := [];
      for i := 0 to |snaps|
        invariant Snap() == UpsertAll(old(Snap()), snaps[..i], now)
        invariant seen == Ids(snaps[..i])
      {
        assert snaps[..i + 1][..i] == snaps[..i];
        UpsertSnapshot(snaps[i], now);
        seen := seen + [snaps[i].agentId];
      }
      assert snaps[..|snaps|] == snaps;
      if seen != [] {
        RetireUnlisted(seen);
      }
    }

    /** The second loop: every row whose id is not in the list. */
    method RetireUnlisted(seen: seq<string>)
      modifies this`agents
      ensures agents == Retire(old(agents), seen)
    {
      var rest := agents.Keys - set id | id in seen;
      var before := agents;
      while rest != {}
        invariant agents.Keys == before.Keys && rest <= before.Keys
        invariant forall id | id in rest :: id !in seen && agents[id] == before[id]
        invariant forall id | id in before && id !in rest :: agents[id] == Retired(before[id], id in seen)
        decreases rest
      {
        var id :| id in rest;
        if agents[id].managed {
          agents := agents[id := agents[id].(status := Inactive)];
        }
        rest := rest - {id};
      }
    }
  }

  // ------------------------------------------------------- one reconciliation

  /** Both rows of an id are what one snapshot makes of the original rows. */
  ghost predicate WrittenBy(t: Tables, t': Tables, s: Snapshot, now: Time) {
    && s.agentId in t'.agents && t'.agents[s.agentId] == WrittenRow(RowOf(t, s.agentId), s, now)
    && s.agentId in t'.scores && t'.scores[s.agentId] == WrittenScore(ScoreOf(t, s.agentId), s)
  }

  /** Both rows of an id are as they were, or still absent. */
  ghost predicate SameAt(t: Tables, t': Tables, id: string) {
    && (id in t'.agents <==> id in t.agents) && (id in t.agents ==> t'.agents[id] == t.agents[id])
    && (id in t'.scores <==> id in t.scores) && (id in t.scores ==> t'.scores[id] == t.scores[id])
  }

  lemma UpsertOverwrites(t: Tables, t': Tables, s: Snapshot, now: Time)
    requires SameAt(t, t', s.agentId) || exists r: Snapshot :: r.agentId == s.agentId && WrittenBy(t, t', r, now)
    ensures WrittenBy(t, Upsert(t', s, now), s, now)
  {
  }

  lemma UpsertElsewhere(t': Tables, s: Snapshot, now: Time, id: string)
    requires s.agentId != id
    ensures SameAt(t', Upsert(t', s, now), id)
  {
  }

  lemma SameEverywhere(a: Tables, b: Tables)
    requires forall id :: SameAt(a, b, id)
    ensures a == b
  {
    assert forall id :: SameAt(a, b, id) ==>
      (id in b.agents <==> id in a.agents) && (id in b.scores <==> id in a.scores);
    assert a.agents.Keys == b.agents.Keys && a.scores.Keys == b.scores.Keys;
    forall id | id in a.agents
      ensures a.agents[id] == b.agents[id]
    {
      assert SameAt(a, b, id);
    }
    forall id | id in a.scores
      ensures a.scores[id] == b.scores[id]
    {
      assert SameAt(a, b, id);
    }
  }

  /** What the upserts leave in both tables, id by id. */
  lemma {:induction false} UpsertAllAt(t: Tables, snaps: seq<Snapshot>, now: Time, id: string)
    ensures id !in Ids(snaps) ==> SameAt(t, UpsertAll(t, snaps, now), id)
    ensures id in Ids(snaps) ==>
      exists s :: s in snaps && s.agentId == id && WrittenBy(t, UpsertAll(t, snaps, now), s, now)
  {
    if snaps != [] {
      var before, last := snaps[..|snaps| - 1], snaps[|snaps| - 1];
      UpsertAllAt(t, before, now, id);
      assert snaps == before + [last];
      assert Ids(snaps) == Ids(before) + [last.agentId];
      var t1 := UpsertAll(t, before, now);
      hide Upsert, WrittenRow, WrittenScore, RowOf, ScoreOf, Ids;
      if last.agentId == id {
        UpsertOverwrites(t, t1, last, now);
        assert last in snaps;
      } else {
        UpsertElsewhere(t1, last, now, id);
      }
    }
  }

  /** A later snapshot of the same agent replaces an earlier one. */
  lemma LaterDuplicateWins(t: Tables, snaps: seq<Snapshot>, last: Snapshot, now: Time)
    ensures Reconciled(t, snaps + [last], now).agents[last.agentId] == WrittenRow(RowOf(t, last.agentId), last, now)
  {
    assert (snaps + [last])[..|snaps|] == snaps;
    assert last in snaps + [last];
    UpsertAllAt(t, snaps, now, last.agentId);
  }

  ghost predicate DistinctIds(snaps: seq<Snapshot>) {
    forall r, s | r in snaps && s in snaps && r.agentId == s.agentId :: r == s
  }

  /** The order of the snapshots is immaterial when their agent ids differ. */
  lemma ReconciliationIgnoresOrder(t: Tables, snaps: seq<Snapshot>, others: seq<Snapshot>, now: Time)
    requires DistinctIds(snaps)
    requires forall s :: s in snaps <==> s in others
    ensures Reconciled(t, snaps, now) == Reconciled(t, others, now)
  {
    var a, b := UpsertAll(t, snaps, now), UpsertAll(t, others, now);
    forall id
      ensures id in Ids(snaps) <==> id in Ids(others)
      ensures SameAt(a, b, id)
    {
      UpsertsAgreeAt(t, snaps, others, now, id);
    }
    SameEverywhere(a, b);
    assert snaps == [] <==> others == [] by {
      if snaps != [] { assert snaps[0] in others; }
      if others != [] { assert others[0] in snaps; }
    }
  }

  lemma UpsertsAgreeAt(t: Tables, snaps: seq<Snapshot>, others: seq<Snapshot>, now: Time, id: string)
    requires DistinctIds(snaps)
    requires forall s :: s in snaps <==> s in others
    ensures id in Ids(snaps) <==> id in Ids(others)
    ensures SameAt(UpsertAll(t, snaps, now), UpsertAll(t, others, now), id)
  {
    UpsertAllAt(t, snaps, now, id);
    UpsertAllAt(t, others, now, id);
    if id in Ids(snaps) {
      var r :| r in snaps && r.agentId == id && WrittenBy(t, UpsertAll(t, snaps, now), r, now);
      var s :| s in others && s.agentId == id && WrittenBy(t, UpsertAll(t, others, now), s, now);
      assert r == s;
    }
  }

  predicate ActiveManaged(row: AgentRow) {
    row.managed && row.status == Active
  }

  /** The effect of one sync on the row of one id. */
  lemma ReconciledAt(t: Tables, snaps: seq<Snapshot>, now: Time, id: string)
    ensures var t' := Reconciled(t, snaps, now);
      && (id in t'.agents <==> id in t.agents || id in Ids(snaps))
      && (id in Ids(snaps) ==> ActiveManaged(t'.agents[id]))
      && (id !in Ids(snaps) && id in t.agents ==> t'.agents[id] == Retired(t.agents[id], snaps == []))
      && (id !in Ids(snaps) ==>
            (id in t'.scores <==> id in t.scores) && (id in t.scores ==> t'.scores[id] == t.scores[id]))
  {
    UpsertAllAt(t, snaps, now, id);
  }

  /** No snapshot changes no row. */
  lemma EmptyListChangesNothing(t: Tables, now: Time)
    ensures Reconciled(t, [], now) == t
  {
  }

  // ---------------------------------------------------------------- whole runs

  datatype Sync = Sync(snaps: seq<Snapshot>, now: Time)

  function AfterAll(t: Tables, syncs: seq<Sync>): Tables {
    if syncs == [] then t
    else Reconciled(AfterAll(t, syncs[..|syncs| - 1]), syncs[|syncs| - 1].snaps, syncs[|syncs| - 1].now)
  }

  /** The last list that was not empty, or the empty list. */
  function LastList(syncs: seq<Sync>): seq<Snapshot> {
    if syncs == [] then []
    else if syncs[|syncs| - 1].snaps != [] then syncs[|syncs| - 1].snaps
    else LastList(syncs[..|syncs| - 1])
  }

  ghost predicate EverListed(syncs: seq<Sync>, id: string) {
    exists y | y in syncs :: id in Ids(y.snaps)
  }

  /**
   * After any sequence of syncs of which one had snapshots, the active managed
   * agents are exactly those of the last list that was not empty.
   */
  lemma {:induction false} ActiveManagedAreLastList(t: Tables, syncs: seq<Sync>, id: string)
    requires LastList(syncs) != []
    ensures var t' := AfterAll(t, syncs);
      id in t'.agents && ActiveManaged(t'.agents[id]) <==> id in Ids(LastList(syncs))
  {
    var before, last := syncs[..|syncs| - 1], syncs[|syncs| - 1];
    ReconciledAt(AfterAll(t, before), last.snaps, last.now, id);
    if last.snaps == [] {
      ActiveManagedAreLastList(t, before, id);
    }
  }

  /** Over any sequence of syncs no row disappears, managed stays managed, and listed agents are managed. */
  lemma {:induction false} ManagedIsForever(t: Tables, syncs: seq<Sync>, id: string)
    ensures var t' := AfterAll(t, syncs);
      && (id in t'.agents <==> id in t.agents || EverListed(syncs, id))
      && (id in t.agents && t.agents[id].managed ==> t'.agents[id].managed)
      && (EverListed(syncs, id) ==> t'.agents[id].managed)
  {
    if syncs != [] {
      var before, last := syncs[..|syncs| - 1], syncs[|syncs| - 1];
      assert syncs == before + [last];
      ManagedIsForever(t, before, id);
      ReconciledAt(AfterAll(t, before), last.snaps, last.now, id);
      assert EverListed(syncs, id) <==> EverListed(before, id) || id in Ids(last.snaps);
    }
  }

  /** An agent that is neither managed nor ever listed keeps both of its rows as they were. */
  lemma {:induction false} OthersAreUntouched(t: Tables, syncs: seq<Sync>, id: string)
    requires !EverListed(syncs, id) && id in t.agents && !t.agents[id].managed
    ensures var t' := AfterAll(t, syncs);
      && id in t'.agents && t'.agents[id] == t.agents[id]
      && (id in t'.scores <==> id in t.scores) && (id in t.scores ==> t'.scores[id] == t.scores[id])
  {
    if syncs != [] {
      var before, last := syncs[..|syncs| - 1], syncs[|syncs| - 1];
      assert syncs == before + [last];
      assert last in syncs;
      forall y | y in before
        ensures id !in Ids(y.snaps)
      {
        assert y in syncs;
      }
      OthersAreUntouched(t, before, id);
      ReconciledAt(AfterAll(t, before), last.snaps, last.now, id);
    }
  }

  // ----------------------------------------------------- what the rows then hold

  /** The last snapshot of an agent in one list. */
  function LastOf(snaps: seq<Snapshot>, id: string): (r: Option<Snapshot>)
    ensures r.Some? ==> r.value.agentId == id
  {
    if snaps == [] then None
    else if snaps[|snaps| - 1].agentId == id then Some(snaps[|snaps| - 1])
    else LastOf(snaps[..|snaps| - 1], id)
  }

  /** The last listing of an agent in a sequence of syncs, with the time of its sync. */
  function LastListing(syncs: seq<Sync>, id: string): Option<(Snapshot, Time)> {
    if syncs == [] then None
    else
      var last := syncs[|syncs| - 1];
      match LastOf(last.snaps, id)
      case Some(s) => Some((s, last.now))
      case None => LastListing(syncs[..|syncs| - 1], id)
  }

  /**
   * The score a listing calls for: its own, kept within [0, 1], and for the three
   * supported built-in agents at least 0.8.
   */
  ghost predicate HoldsScore(row: ScoreRow, id: string, s: Snapshot) {
    && 0.0 <= row.score <= 1.0
    && (id == "problem-framer-001" || id == "literature-miner-001" || id == "knowledge-synthesizer-001" ==>
          && row.score >= 0.8
          && (0.8 <= s.score <= 1.0 ==> row.score == s.score)
          && (s.score < 0.8 ==> row.score == 0.8))
    && (id != "problem-framer-001" && id != "literature-miner-001" && id != "knowledge-synthesizer-001" ==>
          && (0.0 <= s.score <= 1.0 ==> row.score == s.score)
          && (s.score < 0.0 ==> row.score == 0.0))
    && (s.score > 1.0 ==> row.score == 1.0)
    && row.reputation == Some(s.info.reputation) && row.validation == Some(s.info.validation)
  }

  /** The row holds what the listing says, and is marked as the registry's. */
  ghost predicate HoldsListing(row: AgentRow, id: string, s: Snapshot, now: Time) {
    && (s.name != "" ==> row.name == s.name) && (s.name == "" ==> row.name == id)
    && row.uri == s.info.uri && row.url == s.url && row.cid == s.cid && row.metadata == s.metadata
    && row.info == Some(s.info) && row.managed && row.syncedAt == Some(now)
  }

  lemma ScoreOfSnapshot(row: ScoreRow, s: Snapshot)
    ensures HoldsScore(WrittenScore(row, s), s.agentId, s)
  {
    assert SUPPORTED_AGENTS[0] == "problem-framer-001" && SUPPORTED_AGENTS[1] == "literature-miner-001"
           && SUPPORTED_AGENTS[2] == "knowledge-synthesizer-001";
    assert s.agentId in SUPPORTED_AGENTS <==>
      s.agentId == SUPPORTED_AGENTS[0] || s.agentId == SUPPORTED_AGENTS[1] || s.agentId == SUPPORTED_AGENTS[2];
  }

  /** After the upserts of one list, an agent's rows are what its last snapshot makes of them. */
  lemma {:induction false} LastSnapshotDecides(t: Tables, snaps: seq<Snapshot>, now: Time, id: string)
    ensures id in Ids(snaps) <==> LastOf(snaps, id).Some?
    ensures LastOf(snaps, id).Some? ==> WrittenBy(t, UpsertAll(t, snaps, now), LastOf(snaps, id).value, now)
  {
    if snaps != [] {
      var before, last := snaps[..|snaps| - 1], snaps[|snaps| - 1];
      LastSnapshotDecides(t, before, now, id);
      UpsertAllAt(t, before, now, id);
      assert snaps == before + [last];
      assert Ids(snaps) == Ids(before) + [last.agentId];
      if last.agentId == id {
        UpsertOverwrites(t, UpsertAll(t, before, now), last, now);
      } else {
        UpsertElsewhere(UpsertAll(t, before, now), last, now, id);
      }
    }
  }

  lemma SyncWritesListing(t: Tables, snaps: seq<Snapshot>, now: Time, id: string)
    requires LastOf(snaps, id).Some?
    ensures var t' := Reconciled(t, snaps, now); var s := LastOf(snaps, id).value;
      && id in t'.agents && HoldsListing(t'.agents[id], id, s, now) && t'.agents[id].status == Active
      && t'.agents[id].extra == RowOf(t, id).extra
      && id in t'.scores && HoldsScore(t'.scores[id], id, s)
      && t'.scores[id].extra == ScoreOf(t, id).extra
  {
    LastSnapshotDecides(t, snaps, now, id);
    ScoreOfSnapshot(ScoreOf(t, id), LastOf(snaps, id).value);
    hide EffectiveScore, HoldsScore;
  }

  lemma SyncKeepsListing(t: Tables, snaps: seq<Snapshot>, now: Time, id: string)
    requires LastOf(snaps, id).None?
    ensures var t' := Reconciled(t, snaps, now);
      && (id in t.agents ==> id in t'.agents && RowButStatus(t'.agents[id]) == RowButStatus(t.agents[id]))
      && (id in t.scores ==> id in t'.scores && t'.scores[id] == t.scores[id])
  {
    LastSnapshotDecides(t, snaps, now, id);
    ReconciledAt(t, snaps, now, id);
  }

  function RowButStatus(row: AgentRow): AgentRow {
    row.(status := Inactive)
  }

  /**
   * Over any sequence of syncs: the rows of an agent that was ever listed hold
   * what its last listing said, its score in [0, 1] and, for a supported
   * built-in agent, raised to 0.8; what else the rows held from before stays.
   */
  lemma {:induction false} RowsHoldLastListing(t: Tables, syncs: seq<Sync>, id: string)
    requires LastListing(syncs, id).Some?
    ensures var t' := AfterAll(t, syncs); var (s, now) := LastListing(syncs, id).value;
      && id in t'.agents && HoldsListing(t'.agents[id], id, s, now)
      && id in t'.scores && HoldsScore(t'.scores[id], id, s)
    ensures LastListing(syncs, id).value.0.agentId == id
  {
    var before, last := syncs[..|syncs| - 1], syncs[|syncs| - 1];
    var t1 := AfterAll(t, before);
    if LastOf(last.snaps, id).Some? {
      SyncWritesListing(t1, last.snaps, last.now, id);
    } else {
      hide HoldsScore;
      RowsHoldLastListing(t, before, id);
      SyncKeepsListing(t1, last.snaps, last.now, id);
    }
  }

  /** What the rows hold besides, no sync ever changes. */
  lemma {:induction false} ExtrasAreKept(t: Tables, syncs: seq<Sync>, id: string)
    ensures var t' := AfterAll(t, syncs);
      && (id in t.agents ==> id in t'.agents && t'.agents[id].extra == t.agents[id].extra)
      && (id in t.scores ==> id in t'.scores && t'.scores[id].extra == t.scores[id].extra)
  {
    if syncs != [] {
      var before, last := syncs[..|syncs| - 1], syncs[|syncs| - 1];
      ExtrasAreKept(t, before, id);
      var t1 := AfterAll(t, before);
      if LastOf(last.snaps, id).Some? {
        SyncWritesListing(t1, last.snaps, last.now, id);
      } else {
        SyncKeepsListing(t1, last.snaps, last.now, id);
      }
    }
  }
}
