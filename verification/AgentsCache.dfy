/**
 * The cached listing of agents (shared/agents_cache.py): registry-managed
 * agents first, then the others, newest first within each group, hidden
 * built-in agents left out.
 */
module AgentsCache {
  import opened Options

  type Time = int

  datatype Agent = Agent(id: string, createdAt: Time, managed: bool, details: string)

  datatype Listed = Listed(agent: Agent, reputation: Option<real>)

  datatype Payload = Payload(total: nat, agents: seq<Listed>, syncedAt: Option<Time>)

  /** The agents table in the order of the query, newest first; ids are primary keys. */
  ghost predicate QueryOrder(rows: seq<Agent>) {
    && (forall i, j | 0 <= i < j < |rows| :: rows[i].createdAt >= rows[j].createdAt)
    && (forall i, j | 0 <= i < j < |rows| :: rows[i].id != rows[j].id)
  }

  function Keep(rows: seq<Agent>, p: Agent -> bool): (r: seq<Agent>)
    ensures forall a :: a in r <==> a in rows && p(a)
  {
    if rows == [] then []
    else
      var init := Keep(rows[..|rows| - 1], p);
      assert rows == rows[..|rows| - 1] + [rows[|rows| - 1]];
      if p(rows[|rows| - 1]) then init + [rows[|rows| - 1]] else init
  }

  function List(agents: seq<Agent>, scores: map<string, real>): (r: seq<Listed>)
    ensures |r| == |agents|
    ensures forall i | 0 <= i < |r| ::
      r[i] == Listed(agents[i], if agents[i].id in scores then Some(scores[agents[i].id]) else None)
  {
    seq(|agents|, i requires 0 <= i < |agents| =>
      Listed(agents[i], if agents[i].id in scores then Some(scores[agents[i].id]) else None))
  }

  const IsManaged: Agent -> bool := (a: Agent) => a.managed
  const IsLocal: Agent -> bool := (a: Agent) => !a.managed

  /** Managed agents, then local ones, each group in query order, without the hidden ones. */
  function Listing(rows: seq<Agent>, isPublic: string -> bool): seq<Agent> {
    Keep(Keep(rows, IsManaged) + Keep(rows, IsLocal), (a: Agent) => isPublic(a.id))
  }

  /**
   * The `source` list of `build_agents_payload`: every agent whose id is not
   * among the managed ones is appended to them; without managed agents the
   * query result is used as it is.
   */
  method BuildSource(rows: seq<Agent>) returns (source: seq<Agent>)
    requires QueryOrder(rows)
    ensures source == Keep(rows, IsManaged) + Keep(rows, IsLocal)
  {
    assert rows[..0] == [] && Keep([], IsLocal) == [];
    hide Keep;
    var managed := Keep(rows, IsManaged);
    if managed == [] {
      NoneManaged(rows);
      return rows;
    }
    source := managed;
    var seen := set a | a in managed :: a.id;
    for i := 0 to |rows|
      invariant source == managed + Keep(rows[..i], IsLocal)
    {
      SeenExactlyManaged(rows, managed, i);
      KeepSnoc(rows, IsLocal, i);
      if rows[i].id !in seen {
        source := source + [rows[i]];
      }
    }
    assert rows[..|rows|] == rows;
  }

  /** `build_agents_payload`. */
  method BuildAgentsPayload(rows: seq<Agent>, scores: map<string, real>, isPublic: string -> bool)
    returns (payload: Payload)
    requires QueryOrder(rows)
    ensures payload.agents == List(Listing(rows, isPublic), scores)
    ensures payload.total == |payload.agents| && payload.syncedAt == None
  {
    var source := BuildSource(rows);
    var shown := Keep(source, (a: Agent) => isPublic(a.id));
    payload := Payload(|shown|, List(shown, scores), None);
  }

  lemma KeepSnoc(rows: seq<Agent>, p: Agent -> bool, i: nat)
    requires i < |rows|
    ensures Keep(rows[..i + 1], p) == Keep(rows[..i], p) + if p(rows[i]) then [rows[i]] else []
  {
    assert rows[..i + 1][..i] == rows[..i];
  }

  lemma SeenExactlyManaged(rows: seq<Agent>, managed: seq<Agent>, i: nat)
    requires QueryOrder(rows) && managed == Keep(rows, IsManaged) && i < |rows|
    ensures rows[i].id in (set a | a in managed :: a.id) <==> rows[i].managed
  {
    if a :| a in managed && a.id == rows[i].id {
      var j :| 0 <= j < |rows| && rows[j] == a;
      assert i == j;
    }
  }

  lemma {:induction false} NoneManaged(rows: seq<Agent>)
    requires Keep(rows, IsManaged) == []
    ensures Keep(rows, IsManaged) + Keep(rows, IsLocal) == rows
  {
    if rows != [] {
      assert rows == rows[..|rows| - 1] + [rows[|rows| - 1]];
      NoneManaged(rows[..|rows| - 1]);
    }
  }

  // --------------------------------------------------------------- properties

  ghost predicate NewestFirst(agents: seq<Agent>) {
    forall i, j | 0 <= i < j < |agents| :: agents[i].createdAt >= agents[j].createdAt
  }

  ghost predicate DistinctIds(agents: seq<Agent>) {
    forall i, j | 0 <= i < j < |agents| :: agents[i].id != agents[j].id
  }

  /** `sub` picks elements of `full` in their order: `at` gives their positions. */
  ghost predicate PicksInOrder(sub: seq<Agent>, full: seq<Agent>, at: seq<nat>) {
    && |at| == |sub|
    && (forall i | 0 <= i < |at| :: at[i] < |full| && full[at[i]] == sub[i])
    && (forall i, j | 0 <= i < j < |at| :: at[i] < at[j])
  }

  lemma {:induction false} KeepPicksInOrder(rows: seq<Agent>, p: Agent -> bool) returns (at: seq<nat>)
    ensures PicksInOrder(Keep(rows, p), rows, at)
  {
    at := [];
    if rows != [] {
      var init, last := rows[..|rows| - 1], rows[|rows| - 1];
      at := KeepPicksInOrder(init, p);
      assert rows == init + [last];
      PicksExtend(Keep(init, p), init, at, last);
      if p(last) {
        at := at + [|rows| - 1];
      }
    }
  }

  lemma PicksExtend(sub: seq<Agent>, full: seq<Agent>, at: seq<nat>, last: Agent)
    requires PicksInOrder(sub, full, at)
    ensures PicksInOrder(sub, full + [last], at)
    ensures PicksInOrder(sub + [last], full + [last], at + [|full|])
  {
  }

  lemma {:induction false} KeepSplits(a: seq<Agent>, b: seq<Agent>, p: Agent -> bool)
    ensures Keep(a + b, p) == Keep(a, p) + Keep(b, p)
  {
    if b == [] {
      assert a + b == a;
    } else {
      var init := b[..|b| - 1];
      assert (a + b)[..|a + b| - 1] == a + init;
      KeepSplits(a, init, p);
    }
  }

  lemma PicksCompose(sub: seq<Agent>, mid: seq<Agent>, full: seq<Agent>, at: seq<nat>, midAt: seq<nat>)
    returns (through: seq<nat>)
    requires PicksInOrder(sub, mid, at) && PicksInOrder(mid, full, midAt)
    ensures PicksInOrder(sub, full, through)
  {
    through := seq(|at|, i requires 0 <= i < |at| => midAt[at[i]]);
  }

  /** The two filters one after the other keep the order of the query. */
  lemma GroupPicksInOrder(rows: seq<Agent>, p: Agent -> bool, q: Agent -> bool) returns (at: seq<nat>)
    ensures PicksInOrder(Keep(Keep(rows, p), q), rows, at)
  {
    var outer := KeepPicksInOrder(rows, p);
    var inner := KeepPicksInOrder(Keep(rows, p), q);
    at := PicksCompose(Keep(Keep(rows, p), q), Keep(rows, p), rows, inner, outer);
  }

  /**
   * The listing is a stable partition of exactly the public agents: managed
   * ones, then local ones, nobody twice, each group newest first and, among
   * equal times too, in the order of the query (`first` and `second` are the
   * positions there).
   */
  lemma ListingIsStablePartition(rows: seq<Agent>, isPublic: string -> bool)
    returns (cut: nat, first: seq<nat>, second: seq<nat>)
    requires QueryOrder(rows)
    ensures var shown := Listing(rows, isPublic);
      && cut <= |shown|
      && (forall a :: a in shown <==> a in rows && isPublic(a.id))
      && DistinctIds(shown)
      && (forall i | 0 <= i < |shown| :: shown[i].managed <==> i < cut)
      && NewestFirst(shown[..cut]) && NewestFirst(shown[cut..])
      && PicksInOrder(shown[..cut], rows, first) && PicksInOrder(shown[cut..], rows, second)
  {
    hide Keep;
    var visible := (a: Agent) => isPublic(a.id);
    var managed, local := Keep(Keep(rows, IsManaged), visible), Keep(Keep(rows, IsLocal), visible);
    first := GroupPicksInOrder(rows, IsManaged, visible);
    second := GroupPicksInOrder(rows, IsLocal, visible);
    KeepSplits(Keep(rows, IsManaged), Keep(rows, IsLocal), visible);
    cut := |managed|;
    var shown := Listing(rows, isPublic);
    assert shown == managed + local && shown[..cut] == managed && shown[cut..] == local;
    forall i, j | 0 <= i < j < |shown|
      ensures shown[i].id != shown[j].id
    {
      if i < cut <= j {
        assert shown[i] in managed && shown[j] in local;
        var k :| 0 <= k < |rows| && rows[k] == shown[i];
        var l :| 0 <= l < |rows| && rows[l] == shown[j];
        assert k != l;
      }
    }
  }

  // ---------------------------------------------------------------- the cache

  datatype CacheEntry = CacheEntry(payload: Payload, syncedAt: Option<Time>)

  /** The stored entry next to the live table it was built from. */
  class AgentsCacheTable {
    var rows: seq<Agent>
    var scores: map<string, real>
    var entry: Option<CacheEntry>

    constructor (rows: seq<Agent>, scores: map<string, real>)
      ensures this.rows == rows && this.scores == scores && entry == None
    {
      this.rows, this.scores, this.entry := rows, scores, None;
    }

    /** `rebuild_agents_cache`. */
    method Rebuild(isPublic: string -> bool, syncedAt: Option<Time>) returns (payload: Payload)
      requires QueryOrder(rows)
      modifies this`entry
      ensures payload.agents == List(Listing(rows, isPublic), scores)
      ensures payload.total == |payload.agents| && payload.syncedAt == syncedAt
      ensures CachedPayload() == Some(payload)
    {
      payload := BuildAgentsPayload(rows, scores, isPublic);
      payload := payload.(syncedAt := if syncedAt.Some? then syncedAt else payload.syncedAt);
      entry := Some(CacheEntry(payload, syncedAt));
    }

    /** Any other part of the system changes the agents and reputations tables. */
    method ChangeTables(newRows: seq<Agent>, newScores: map<string, real>)
      modifies this`rows, this`scores
      ensures rows == newRows && scores == newScores
      ensures CachedPayload() == old(CachedPayload())
    {
      rows, scores := newRows, newScores;
    }

    /** `get_cached_agents_payload`: a missing sync time in the payload is taken from the entry. */
    function CachedPayload(): Option<Payload>
      reads this`entry
    {
      if entry.None? then None
      else if entry.value.syncedAt.Some? && entry.value.payload.syncedAt.None? then
        Some(entry.value.payload.(syncedAt := entry.value.syncedAt))
      else Some(entry.value.payload)
    }
  }
}
