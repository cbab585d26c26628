/**
 * Greedy selection of research agents within a budget (api/pipeline.py,
 * select_agents_for_budget). Prices and reputations are `real`.
 */
module BudgetSelection {
  import opened Options

  datatype Agent = Agent(id: string, price: real, reputation: real)

  const ESSENTIAL: seq<string> := ["problem-framer-001", "knowledge-synthesizer-001", "insight-generator-001"]

  /** The remaining budget below which the second loop stops looking. */
  const MIN_PRICE := 2.0

  function Eligible(agents: seq<Agent>, minReputation: real): (r: seq<Agent>)
    ensures forall a :: a in r <==> a in agents && a.reputation >= minReputation
  {
    if agents == [] then []
    else
      assert agents == [agents[0]] + agents[1..];
      var rest := Eligible(agents[1..], minReputation);
      if agents[0].reputation >= minReputation then [agents[0]] + rest else rest
  }

  /** Price per unit of reputation; Python raises on a zero reputation. */
  function Ratio(a: Agent): real
    requires a.reputation != 0.0
  {
    a.price / a.reputation
  }

  predicate Rateable(agents: seq<Agent>) {
    forall i | 0 <= i < |agents| :: agents[i].reputation != 0.0
  }

  function InsertByRatio(a: Agent, ranked: seq<Agent>): (r: seq<Agent>)
    requires a.reputation != 0.0 && Rateable(ranked)
    ensures Rateable(r) && |r| == |ranked| + 1
    ensures forall x :: x in r <==> x == a || x in ranked
  {
    if ranked == [] then [a]
    else if Ratio(ranked[0]) < Ratio(a) then
      assert ranked == [ranked[0]] + ranked[1..];
      [ranked[0]] + InsertByRatio(a, ranked[1..])
    else [a] + ranked
  }

  /** `sorted(eligible.items(), key=price/reputation)`, stable and ascending. */
  function ByRatio(agents: seq<Agent>): (r: seq<Agent>)
    requires Rateable(agents)
    ensures Rateable(r) && |r| == |agents|
    ensures forall a :: a in r <==> a in agents
  {
    if agents == [] then []
    else
      assert agents == [agents[0]] + agents[1..];
      InsertByRatio(agents[0], ByRatio(agents[1..]))
  }

  ghost predicate Ascending(ranked: seq<Agent>)
    requires Rateable(ranked)
  {
    forall i, j | 0 <= i < j < |ranked| :: Ratio(ranked[i]) <= Ratio(ranked[j])
  }

  lemma {:induction false} InsertKeepsAscending(a: Agent, ranked: seq<Agent>)
    requires a.reputation != 0.0 && Rateable(ranked) && Ascending(ranked)
    ensures Ascending(InsertByRatio(a, ranked))
  {
    if ranked != [] && Ratio(ranked[0]) < Ratio(a) {
      var rest := InsertByRatio(a, ranked[1..]);
      InsertKeepsAscending(a, ranked[1..]);
      forall k | 0 <= k < |rest|
        ensures Ratio(ranked[0]) <= Ratio(rest[k])
      {
        assert rest[k] in rest;
        if rest[k] != a {
          assert rest[k] in ranked[1..];
        }
      }
    }
  }

  /** The second loop looks at the agents from the best price per reputation upwards. */
  lemma {:induction false} ByRatioIsAscending(agents: seq<Agent>)
    requires Rateable(agents)
    ensures Ascending(ByRatio(agents))
  {
    if agents != [] {
      ByRatioIsAscending(agents[1..]);
      InsertKeepsAscending(agents[0], ByRatio(agents[1..]));
    }
  }

  // ------------------------------------------------------------ the two loops

  datatype Choice = Choice(selected: seq<Agent>, remaining: real)

  predicate Has(selected: seq<Agent>, id: string) {
    exists i | 0 <= i < |selected| :: selected[i].id == id
  }

  function Buy(c: Choice, a: Agent): Choice {
    if a.price <= c.remaining then Choice(c.selected + [a], c.remaining - a.price) else c
  }

  function Find(agents: seq<Agent>, id: string): (r: Option<Agent>)
    ensures r.Some? ==> r.value in agents && r.value.id == id
    ensures r.None? ==> forall a | a in agents :: a.id != id
  {
    if agents == [] then None
    else
      assert agents == [agents[0]] + agents[1..];
      if agents[0].id == id then Some(agents[0]) else Find(agents[1..], id)
  }

  /** The first loop: the essential ids in their fixed order. */
  function BuyEssentials(eligible: seq<Agent>, ids: seq<string>, c: Choice): Choice {
    if ids == [] then c
    else
      var found := Find(eligible, ids[0]);
      BuyEssentials(eligible, ids[1..], if found.Some? then Buy(c, found.value) else c)
  }

  predicate Wanted(c: Choice, a: Agent) {
    !Has(c.selected, a.id) && a.price <= c.remaining
  }

  /** The second loop; `stop` says whether it breaks once the remaining budget is below MIN_PRICE. */
  function Fill(todo: seq<Agent>, c: Choice, stop: bool): Choice
    decreases todo
  {
    if todo == [] then c
    else if !Wanted(c, todo[0]) then Fill(todo[1..], c, stop)
    else
      var c' := Buy(c, todo[0]);
      if stop && c'.remaining < MIN_PRICE then c' else Fill(todo[1..], c', stop)
  }

  function Select(agents: seq<Agent>, budget: real, minReputation: real, stop: bool): Choice
    requires Rateable(Eligible(agents, minReputation))
  {
    var eligible := Eligible(agents, minReputation);
    Fill(ByRatio(eligible), BuyEssentials(eligible, ESSENTIAL, Choice([], budget)), stop)
  }

  /** `None` is the division by zero raised by an eligible agent of reputation zero. */
  method SelectAgentsForBudget(agents: seq<Agent>, budget: real, minReputation: real)
    returns (selected: Option<seq<Agent>>)
    ensures selected.Some? <==> Rateable(Eligible(agents, minReputation))
    ensures selected.Some? ==> selected.value == Select(agents, budget, minReputation, true).selected
  {
    var eligible := Eligible(agents, minReputation);
    if !Rateable(eligible) {
      return None;
    }
    var sorted := ByRatio(eligible);
    var chosen, remaining := TakeEssentials(eligible, budget);
    chosen := TakeRest(sorted, chosen, remaining);
    return Some(chosen);
  }

  /** The first loop. */
  method TakeEssentials(eligible: seq<Agent>, budget: real) returns (chosen: seq<Agent>, remaining: real)
    ensures Choice(chosen, remaining) == BuyEssentials(eligible, ESSENTIAL, Choice([], budget))
  {
    chosen, remaining := [], budget;
    for i := 0 to |ESSENTIAL|
      invariant BuyEssentials(eligible, ESSENTIAL[i..], Choice(chosen, remaining)) ==
                BuyEssentials(eligible, ESSENTIAL, Choice([], budget))
    {
      var found := Find(eligible, ESSENTIAL[i]);
      if found.Some? && found.value.price <= remaining {
        chosen := chosen + [found.value];
        remaining := remaining - found.value.price;
      }
      assert ESSENTIAL[i..][1..] == ESSENTIAL[i + 1..];
    }
  }

  /** The second loop, with its early break. */
  method TakeRest(sorted: seq<Agent>, bought: seq<Agent>, left: real) returns (chosen: seq<Agent>)
    ensures chosen == Fill(sorted, Choice(bought, left), true).selected
  {
    var remaining := left;
    chosen := bought;
    var n := 0;
    while n < |sorted|
      invariant 0 <= n <= |sorted|
      invariant Fill(sorted[n..], Choice(chosen, remaining), true) == Fill(sorted, Choice(bought, left), true)
    {
      var a := sorted[n];
      assert sorted[n..][1..] == sorted[n + 1..];
      if !Has(chosen, a.id) && a.price <= remaining {
        chosen := chosen + [a];
        remaining := remaining - a.price;
        if remaining < MIN_PRICE {
          break;
        }
      }
      n := n + 1;
    }
  }

  // --------------------------------------------------------------- properties

  function Sum(agents: seq<Agent>): real {
    if agents == [] then 0.0 else Sum(agents[..|agents| - 1]) + agents[|agents| - 1].price
  }

  ghost predicate PricedFrom(agents: seq<Agent>, least: real) {
    forall a | a in agents :: a.price >= least
  }

  /** The books of a partial selection balance and nothing was bought twice. */
  ghost predicate Sound(c: Choice, budget: real, eligible: seq<Agent>) {
    && Sum(c.selected) + c.remaining == budget
    && c.remaining >= 0.0
    && (forall a | a in c.selected :: a in eligible)
    && (forall i, j | 0 <= i < j < |c.selected| :: c.selected[i].id != c.selected[j].id)
  }

  lemma BuyIsSound(c: Choice, a: Agent, budget: real, eligible: seq<Agent>)
    requires Sound(c, budget, eligible) && a in eligible && !Has(c.selected, a.id)
    ensures Sound(Buy(c, a), budget, eligible)
  {
    assert (c.selected + [a])[..|c.selected|] == c.selected;
  }

  /** No id of `rest` occurs in `selected`, and `rest` itself has no repetition. */
  ghost predicate Unbought(ids: seq<string>, selected: seq<Agent>) {
    && (forall i | 0 <= i < |ids| :: !Has(selected, ids[i]))
    && (forall i, j | 0 <= i < j < |ids| :: ids[i] != ids[j])
  }

  lemma {:induction false} EssentialsAreSound(eligible: seq<Agent>, ids: seq<string>, c: Choice, budget: real)
    requires Sound(c, budget, eligible) && Unbought(ids, c.selected)
    ensures Sound(BuyEssentials(eligible, ids, c), budget, eligible)
    decreases ids
  {
    if ids != [] {
      var found := Find(eligible, ids[0]);
      if found.Some? {
        BuyIsSound(c, found.value, budget, eligible);
        var c' := Buy(c, found.value);
        assert Unbought(ids[1..], c'.selected);
        EssentialsAreSound(eligible, ids[1..], c', budget);
      } else {
        EssentialsAreSound(eligible, ids[1..], c, budget);
      }
    }
  }

  lemma {:induction false} FillIsSound(todo: seq<Agent>, c: Choice, stop: bool, budget: real, eligible: seq<Agent>)
    requires Sound(c, budget, eligible) && forall a | a in todo :: a in eligible
    ensures Sound(Fill(todo, c, stop), budget, eligible)
    decreases todo
  {
    if todo != [] {
      var c' := if Wanted(c, todo[0]) then Buy(c, todo[0]) else c;
      if Wanted(c, todo[0]) {
        BuyIsSound(c, todo[0], budget, eligible);
      }
      FillIsSound(todo[1..], c', stop, budget, eligible);
    }
  }

  /** Breaking early never changes the outcome when no agent is cheaper than MIN_PRICE. */
  lemma {:induction false} BreakIsHarmless(todo: seq<Agent>, c: Choice)
    requires PricedFrom(todo, MIN_PRICE)
    ensures Fill(todo, c, true) == Fill(todo, c, false)
    decreases todo
  {
    if todo != [] {
      var c' := if Wanted(c, todo[0]) then Buy(c, todo[0]) else c;
      BreakIsHarmless(todo[1..], c');
      if c'.remaining < MIN_PRICE {
        NothingAffordable(todo[1..], c');
      }
    }
  }

  /** The agents still to come when the loop breaks, with the choice made so far; none if it never does. */
  function AtBreak(todo: seq<Agent>, c: Choice): Option<(seq<Agent>, Choice)>
    decreases todo
  {
    if todo == [] then None
    else if !Wanted(c, todo[0]) then AtBreak(todo[1..], c)
    else
      var c' := Buy(c, todo[0]);
      if c'.remaining < MIN_PRICE then Some((todo[1..], c')) else AtBreak(todo[1..], c')
  }

  predicate SomeWanted(todo: seq<Agent>, c: Choice) {
    exists i | 0 <= i < |todo| :: Wanted(c, todo[i])
  }

  /** Without the break, the loop changes the choice exactly when some agent to come is wanted. */
  lemma {:induction false} FillChangesExactlyWhen(todo: seq<Agent>, c: Choice)
    ensures |Fill(todo, c, false).selected| >= |c.selected|
    ensures Fill(todo, c, false) == c <==> !SomeWanted(todo, c)
    decreases todo
  {
    if todo != [] {
      var c' := if Wanted(c, todo[0]) then Buy(c, todo[0]) else c;
      FillChangesExactlyWhen(todo[1..], c');
      if Wanted(c, todo[0]) {
        assert |c'.selected| == |c.selected| + 1;
      } else {
        assert forall i | 0 < i < |todo| :: todo[i] == todo[1..][i - 1];
      }
    }
  }

  /**
   * For any prices the early break changes the outcome if and only if, at the
   * purchase that leaves less than MIN_PRICE, an agent still to come is wanted.
   */
  lemma {:induction false} BreakMattersExactlyWhen(todo: seq<Agent>, c: Choice)
    ensures Fill(todo, c, true) != Fill(todo, c, false) <==>
      AtBreak(todo, c).Some? && SomeWanted(AtBreak(todo, c).value.0, AtBreak(todo, c).value.1)
    decreases todo
  {
    if todo != [] {
      var c' := if Wanted(c, todo[0]) then Buy(c, todo[0]) else c;
      if Wanted(c, todo[0]) && c'.remaining < MIN_PRICE {
        FillChangesExactlyWhen(todo[1..], c');
      } else {
        BreakMattersExactlyWhen(todo[1..], c');
      }
    }
  }

  lemma {:induction false} NothingAffordable(todo: seq<Agent>, c: Choice)
    requires PricedFrom(todo, MIN_PRICE) && c.remaining < MIN_PRICE
    ensures Fill(todo, c, false) == c
    decreases todo
  {
    if todo != [] {
      NothingAffordable(todo[1..], c);
    }
  }

  /** A choice only grows while its remaining budget shrinks. */
  lemma {:induction false} FillExtends(todo: seq<Agent>, c: Choice)
    requires PricedFrom(todo, 0.0)
    ensures c.selected <= Fill(todo, c, false).selected && Fill(todo, c, false).remaining <= c.remaining
    decreases todo
  {
    if todo != [] {
      FillExtends(todo[1..], if Wanted(c, todo[0]) then Buy(c, todo[0]) else c);
    }
  }

  /** Whatever the loop has looked at is selected or does not fit in what is left at the end. */
  lemma {:induction false} FillIsMaximal(todo: seq<Agent>, c: Choice, a: Agent)
    requires PricedFrom(todo, 0.0) && a in todo
    ensures !Wanted(Fill(todo, c, false), a)
    decreases todo
  {
    var c' := if Wanted(c, todo[0]) then Buy(c, todo[0]) else c;
    if a == todo[0] {
      FillExtends(todo[1..], c');
      if Wanted(c, a) {
        assert c'.selected[|c.selected|] == a;
      }
      var end := Fill(todo, c, false);
      if Has(c'.selected, a.id) {
        var i :| 0 <= i < |c'.selected| && c'.selected[i].id == a.id;
        assert end.selected[i] == c'.selected[i];
      }
    } else {
      FillIsMaximal(todo[1..], c', a);
    }
  }

  /**
   * Feasible and maximal, early break included: the selection is paid for by
   * the budget and no eligible agent that was left out fits in what remains.
   */
  lemma SelectionIsFeasibleAndMaximal(agents: seq<Agent>, budget: real, minReputation: real)
    requires Rateable(Eligible(agents, minReputation)) && PricedFrom(agents, MIN_PRICE) && budget >= 0.0
    ensures
      var c := Select(agents, budget, minReputation, true);
      && Sum(c.selected) + c.remaining == budget && c.remaining >= 0.0
      && (forall a | a in c.selected :: a in agents && a.reputation >= minReputation)
      && (forall i, j | 0 <= i < j < |c.selected| :: c.selected[i].id != c.selected[j].id)
      && (forall a | a in agents && a.reputation >= minReputation && !Has(c.selected, a.id) :: a.price > c.remaining)
  {
    var eligible := Eligible(agents, minReputation);
    var start := BuyEssentials(eligible, ESSENTIAL, Choice([], budget));
    var sorted := ByRatio(eligible);
    EssentialsAreSound(eligible, ESSENTIAL, Choice([], budget), budget);
    FillIsSound(sorted, start, true, budget, eligible);
    BreakIsHarmless(sorted, start);
    forall a | a in agents && a.reputation >= minReputation
      ensures !Wanted(Select(agents, budget, minReputation, true), a)
    {
      assert a in sorted;
      FillIsMaximal(sorted, start, a);
    }
  }

  /** The price of the eligible essential agents among `ids`. */
  function EssentialCost(eligible: seq<Agent>, ids: seq<string>): real {
    if ids == [] then 0.0
    else
      var found := Find(eligible, ids[0]);
      (if found.Some? then found.value.price else 0.0) + EssentialCost(eligible, ids[1..])
  }

  lemma {:induction false} EssentialsBought(eligible: seq<Agent>, ids: seq<string>, c: Choice)
    requires PricedFrom(eligible, 0.0) && EssentialCost(eligible, ids) <= c.remaining
    ensures c.selected <= BuyEssentials(eligible, ids, c).selected
    ensures forall k | 0 <= k < |ids| && Find(eligible, ids[k]).Some? ::
      Has(BuyEssentials(eligible, ids, c).selected, ids[k])
    decreases ids
  {
    if ids != [] {
      var found := Find(eligible, ids[0]);
      CostIsNonNegative(eligible, ids[1..]);
      var c' := if found.Some? then Buy(c, found.value) else c;
      EssentialsBought(eligible, ids[1..], c');
      var end := BuyEssentials(eligible, ids, c);
      if found.Some? {
        assert end.selected[|c.selected|] == c'.selected[|c.selected|] == found.value;
      }
      forall k | 0 < k < |ids| && Find(eligible, ids[k]).Some?
        ensures Has(end.selected, ids[k])
      {
        assert ids[1..][k - 1] == ids[k];
      }
    }
  }

  lemma {:induction false} CostIsNonNegative(eligible: seq<Agent>, ids: seq<string>)
    requires PricedFrom(eligible, 0.0)
    ensures EssentialCost(eligible, ids) >= 0.0
  {
    if ids != [] {
      CostIsNonNegative(eligible, ids[1..]);
    }
  }

  /** When the budget covers the eligible essential agents together, all of them are selected. */
  lemma EssentialsAreIncluded(agents: seq<Agent>, budget: real, minReputation: real, a: Agent)
    requires Rateable(Eligible(agents, minReputation)) && PricedFrom(agents, MIN_PRICE)
    requires EssentialCost(Eligible(agents, minReputation), ESSENTIAL) <= budget
    requires a in agents && a.reputation >= minReputation
    requires a.id == "problem-framer-001" || a.id == "knowledge-synthesizer-001" || a.id == "insight-generator-001"
    ensures Has(Select(agents, budget, minReputation, true).selected, a.id)
  {
    var eligible := Eligible(agents, minReputation);
    var start := BuyEssentials(eligible, ESSENTIAL, Choice([], budget));
    var sorted := ByRatio(eligible);
    EssentialsBought(eligible, ESSENTIAL, Choice([], budget));
    BreakIsHarmless(sorted, start);
    FillExtends(sorted, start);
    assert ESSENTIAL[0] == "problem-framer-001" && ESSENTIAL[1] == "knowledge-synthesizer-001"
           && ESSENTIAL[2] == "insight-generator-001";
    var k :| 0 <= k < |ESSENTIAL| && ESSENTIAL[k] == a.id;
    assert a in eligible;
    assert Find(eligible, ESSENTIAL[k]).Some?;
    var i :| 0 <= i < |start.selected| && start.selected[i].id == a.id;
    assert Fill(sorted, start, false).selected[i] == start.selected[i];
  }

  /** RESEARCH_AGENTS, the table the function selects from. */
  const RESEARCH_AGENTS: seq<Agent> := [
    Agent("problem-framer-001", 5.0, 4.8),
    Agent("literature-miner-001", 8.0, 4.7),
    Agent("feasibility-analyst-001", 6.0, 4.9),
    Agent("goal-planner-001", 5.0, 4.6),
    Agent("knowledge-synthesizer-001", 7.0, 4.8),
    Agent("hypothesis-designer-001", 6.0, 4.7),
    Agent("experiment-runner-001", 10.0, 4.5),
    Agent("code-generator-001", 9.0, 4.9),
    Agent("insight-generator-001", 7.0, 4.8),
    Agent("bias-detector-001", 5.0, 4.7),
    Agent("compliance-checker-001", 4.0, 4.6),
    Agent("paper-writer-001", 12.0, 4.8),
    Agent("peer-reviewer-001", 6.0, 4.9),
    Agent("reputation-manager-001", 3.0, 4.5),
    Agent("archiver-001", 2.0, 4.7)
  ]

  lemma PoolIsPriced()
    ensures forall a | a in RESEARCH_AGENTS :: a.price >= MIN_PRICE && a.reputation > 0.0
  {
    forall a | a in RESEARCH_AGENTS
      ensures a.price >= MIN_PRICE && a.reputation > 0.0
    {
      var i :| 0 <= i < |RESEARCH_AGENTS| && RESEARCH_AGENTS[i] == a;
      assert i < 8 || 8 <= i < 15;
    }
  }

  /** A table of positive reputations and prices of at least MIN_PRICE never makes the function raise or stop short. */
  lemma PricedTablesAreSelectedFrom(agents: seq<Agent>, budget: real, minReputation: real)
    requires budget >= 0.0 && forall a | a in agents :: a.price >= MIN_PRICE && a.reputation > 0.0
    ensures Rateable(Eligible(agents, minReputation))
    ensures Select(agents, budget, minReputation, true) == Select(agents, budget, minReputation, false)
  {
    var eligible := Eligible(agents, minReputation);
    forall i | 0 <= i < |eligible|
      ensures eligible[i].reputation != 0.0
    {
      assert eligible[i] in agents;
    }
    BreakIsHarmless(ByRatio(eligible), BuyEssentials(eligible, ESSENTIAL, Choice([], budget)));
  }

  /** Over the table as it is, no budget or minimum reputation makes the function raise, overspend or stop short. */
  lemma RealSelectionIsFeasibleAndMaximal(budget: real, minReputation: real)
    requires budget >= 0.0
    ensures Rateable(Eligible(RESEARCH_AGENTS, minReputation))
    ensures
      var c := Select(RESEARCH_AGENTS, budget, minReputation, true);
      && c == Select(RESEARCH_AGENTS, budget, minReputation, false)
      && Sum(c.selected) + c.remaining == budget && c.remaining >= 0.0
      && forall a | a in RESEARCH_AGENTS && a.reputation >= minReputation && !Has(c.selected, a.id) ::
           a.price > c.remaining
  {
    hide Eligible, ByRatio, Fill, BuyEssentials, Sum, Has, Select, Rateable, RESEARCH_AGENTS;
    PoolIsPriced();
    PricedTablesAreSelectedFrom(RESEARCH_AGENTS, budget, minReputation);
    SelectionIsFeasibleAndMaximal(RESEARCH_AGENTS, budget, minReputation);
  }

  /** The bound on prices is needed: with an agent cheaper than MIN_PRICE the break can leave it out. */
  lemma BreakCanMissACheapAgent()
    ensures
      var agents := [Agent("a", 3.0, 5.0), Agent("b", 1.0, 1.0)];
      && Rateable(Eligible(agents, 0.0))
      && !Has(Select(agents, 4.5, 0.0, true).selected, "b")
      && 1.0 <= Select(agents, 4.5, 0.0, true).remaining
  {
    var a, b := Agent("a", 3.0, 5.0), Agent("b", 1.0, 1.0);
    var agents := [a, b];
    assert agents[1..] == [b] && [b][1..] == [];
    assert Eligible([b], 0.0) == [b] && Eligible(agents, 0.0) == agents;
    assert Ratio(a) == 0.6 && Ratio(b) == 1.0;
    assert ByRatio([b]) == [b] && ByRatio(agents) == agents;
    assert "problem-framer-001"[0] == 'p' && "knowledge-synthesizer-001"[0] == 'k' && "insight-generator-001"[0] == 'i';
    forall k | 0 <= k < |ESSENTIAL|
      ensures Find(agents, ESSENTIAL[k]) == None
    {
      assert ESSENTIAL[k][0] != 'a' && ESSENTIAL[k][0] != 'b';
      assert "a"[0] == 'a' && "b"[0] == 'b';
    }
    NoEssentials(agents, ESSENTIAL, Choice([], 4.5));
    assert Fill(agents, Choice([], 4.5), true) == Choice([a], 1.5);
  }

  lemma {:induction false} NoEssentials(eligible: seq<Agent>, ids: seq<string>, c: Choice)
    requires forall k | 0 <= k < |ids| :: Find(eligible, ids[k]) == None
    ensures BuyEssentials(eligible, ids, c) == c
    decreases ids
  {
    if ids != [] {
      forall k | 0 <= k < |ids[1..]|
        ensures Find(eligible, ids[1..][k]) == None
      {
        assert ids[1..][k] == ids[k + 1];
      }
      NoEssentials(eligible, ids[1..], c);
    }
  }

  // ------------------------------------------------------------ who is selected

  /** `a` costs no more per unit of reputation than `b`; reputations are positive. */
  predicate NoDearer(a: Agent, b: Agent) {
    a.price * b.reputation <= b.price * a.reputation
  }

  lemma RatioIsPriceOverReputation(a: Agent, b: Agent)
    requires a.reputation > 0.0 && b.reputation > 0.0
    ensures Ratio(a) <= Ratio(b) <==> NoDearer(a, b)
  {
    var x, y, p, q := Ratio(a), Ratio(b), a.reputation, b.reputation;
    assert x * p == a.price && y * q == b.price;
    assert a.price * q == x * (p * q) && b.price * p == y * (p * q);
    assert p * q > 0.0;
    assert (y - x) * (p * q) == y * (p * q) - x * (p * q);
    SameSign(y - x, p * q);
  }

  lemma SameSign(d: real, p: real)
    requires p > 0.0
    ensures d >= 0.0 <==> d * p >= 0.0
  {
  }

  /** What the second loop buys comes from the agents it looks at, after what was bought before. */
  lemma {:induction false} FillBuysFrom(todo: seq<Agent>, c: Choice)
    ensures c.selected <= Fill(todo, c, false).selected
    ensures forall i | |c.selected| <= i < |Fill(todo, c, false).selected| :: Fill(todo, c, false).selected[i] in todo
    decreases todo
  {
    if todo != [] {
      var c' := if Wanted(c, todo[0]) then Buy(c, todo[0]) else c;
      FillBuysFrom(todo[1..], c');
      assert todo == [todo[0]] + todo[1..];
    }
  }

  predicate RatioUpTo(a: Agent, b: Agent) {
    a.reputation != 0.0 && b.reputation != 0.0 && Ratio(a) <= Ratio(b)
  }

  /**
   * Of the purchases from `lo` on, those before `k` cost no more per reputation
   * than `b`, those from `k` on no less, and what is left at `k` does not pay for it.
   */
  ghost predicate HadItsTurn(end: seq<Agent>, lo: nat, k: nat, b: Agent, budget: real) {
    && lo <= k <= |end|
    && (forall i | lo <= i < k :: RatioUpTo(end[i], b))
    && (forall i | k <= i < |end| :: RatioUpTo(b, end[i]))
    && b.price > budget - Sum(end[..k])
  }

  lemma FirstHadItsTurn(todo: seq<Agent>, c: Choice, budget: real)
    requires todo != [] && Rateable(todo) && Ascending(todo)
    requires !Has(Fill(todo, c, false).selected, todo[0].id)
    requires Sum(c.selected) + c.remaining == budget
    ensures HadItsTurn(Fill(todo, c, false).selected, |c.selected|, |c.selected|, todo[0], budget)
  {
    var b, end := todo[0], Fill(todo, c, false).selected;
    FillBuysFrom(todo, c);
    if Has(c.selected, b.id) {
      HasStays(c.selected, end, b.id);
      assert false;
    }
    if b.price <= c.remaining {
      BoughtIsHad(c, b);
      FillBuysFrom(todo[1..], Buy(c, b));
      HasStays(Buy(c, b).selected, end, b.id);
      assert false;
    }
    assert end[..|c.selected|] == c.selected;
    forall i | |c.selected| <= i < |end|
      ensures RatioUpTo(b, end[i])
    {
      var j :| 0 <= j < |todo| && todo[j] == end[i];
    }
  }

  /** What looking at the first agent leaves to do. */
  lemma FillStep(todo: seq<Agent>, c: Choice, budget: real)
    requires todo != [] && Sum(c.selected) + c.remaining == budget
    ensures var c' := if Wanted(c, todo[0]) then Buy(c, todo[0]) else c;
      var end := Fill(todo, c, false).selected;
      && Fill(todo, c, false) == Fill(todo[1..], c', false)
      && Sum(c'.selected) + c'.remaining == budget
      && |c'.selected| <= |end|
      && (|c'.selected| == |c.selected| || (|c'.selected| == |c.selected| + 1 && end[|c.selected|] == todo[0]))
  {
    BuyKeepsBooks(c, todo[0], budget);
    FillBuysFrom(todo[1..], if Wanted(c, todo[0]) then Buy(c, todo[0]) else c);
  }

  lemma TurnAfterOneMore(end: seq<Agent>, lo: nat, lo': nat, k: nat, b: Agent, budget: real)
    requires HadItsTurn(end, lo', k, b, budget)
    requires lo' == lo || (lo' == lo + 1 && lo < |end| && RatioUpTo(end[lo], b))
    ensures HadItsTurn(end, lo, k, b, budget)
  {
    hide Sum, RatioUpTo;
  }

  lemma BuyKeepsBooks(c: Choice, a: Agent, budget: real)
    requires Sum(c.selected) + c.remaining == budget
    ensures Sum(Buy(c, a).selected) + Buy(c, a).remaining == budget
  {
    assert (c.selected + [a])[..|c.selected|] == c.selected;
  }

  /** An agent the second loop leaves out did not fit when its turn came. */
  lemma {:induction false} FillIsGreedy(todo: seq<Agent>, c: Choice, budget: real, b: Agent) returns (k: nat)
    requires Rateable(todo) && Ascending(todo) && b in todo && !Has(Fill(todo, c, false).selected, b.id)
    requires Sum(c.selected) + c.remaining == budget
    ensures HadItsTurn(Fill(todo, c, false).selected, |c.selected|, k, b, budget)
    decreases todo
  {
    if b == todo[0] {
      FirstHadItsTurn(todo, c, budget);
      k := |c.selected|;
    } else {
      var j :| 0 <= j < |todo| && todo[j] == b;
      assert RatioUpTo(todo[0], b) && todo[1..][j - 1] == b;
      assert Ascending(todo[1..]);
      hide Fill, Sum, Has, HadItsTurn, RatioUpTo, Ascending;
      FillStep(todo, c, budget);
      var c' := if Wanted(c, todo[0]) then Buy(c, todo[0]) else c;
      k := FillIsGreedy(todo[1..], c', budget, b);
      TurnAfterOneMore(Fill(todo, c, false).selected, |c.selected|, |c'.selected|, k, b, budget);
    }
  }

  lemma HasStays(selected: seq<Agent>, end: seq<Agent>, id: string)
    requires selected <= end && Has(selected, id)
    ensures Has(end, id)
  {
    var i :| 0 <= i < |selected| && selected[i].id == id;
    assert end[i].id == id;
  }

  lemma BoughtIsHad(c: Choice, a: Agent)
    requires a.price <= c.remaining
    ensures Has(Buy(c, a).selected, a.id)
  {
    assert Buy(c, a).selected[|c.selected|] == a;
  }

  /**
   * The selection over positive reputations and prices of at least 2.0: first
   * some essential agents, then others. An eligible agent left out did not fit
   * when its turn came, after the essential ones and all those selected that
   * cost less per reputation.
   */
  lemma SelectionIsGreedy(agents: seq<Agent>, budget: real, minReputation: real, b: Agent) returns (m: nat, k: nat)
    requires budget >= 0.0 && forall a | a in agents :: a.price >= 2.0 && a.reputation > 0.0
    requires Rateable(Eligible(agents, minReputation))
    requires b in agents && b.reputation >= minReputation
    requires !Has(Select(agents, budget, minReputation, true).selected, b.id)
    ensures var chosen := Select(agents, budget, minReputation, true).selected;
      && m <= k <= |chosen|
      && (forall i | 0 <= i < m ::
            || chosen[i].id == "problem-framer-001"
            || chosen[i].id == "knowledge-synthesizer-001"
            || chosen[i].id == "insight-generator-001")
      && (forall i | m <= i < k :: NoDearer(chosen[i], b))
      && (forall i | k <= i < |chosen| :: NoDearer(b, chosen[i]))
      && b.price > budget - Sum(chosen[..k])
  {
    var eligible := Eligible(agents, minReputation);
    var start := BuyEssentials(eligible, ESSENTIAL, Choice([], budget));
    var sorted := ByRatio(eligible);
    EssentialsAreSound(eligible, ESSENTIAL, Choice([], budget), budget);
    EssentialsAreEssential(eligible, ESSENTIAL, Choice([], budget));
    BreakIsHarmless(sorted, start);
    ByRatioIsAscending(eligible);
    FillBuysFrom(sorted, start);
    m := |start.selected|;
    k := FillIsGreedy(sorted, start, budget, b);
    var chosen := Select(agents, budget, minReputation, true).selected;
    hide Fill, BuyEssentials, ByRatio, Eligible, Select, Ratio;
    forall i | m <= i < |chosen|
      ensures i < k ==> NoDearer(chosen[i], b)
      ensures i >= k ==> NoDearer(b, chosen[i])
    {
      assert chosen[i] in sorted;
      assert chosen[i] in agents;
      RatioIsPriceOverReputation(chosen[i], b);
      RatioIsPriceOverReputation(b, chosen[i]);
    }
    forall i | 0 <= i < m
      ensures chosen[i].id == "problem-framer-001" || chosen[i].id == "knowledge-synthesizer-001"
              || chosen[i].id == "insight-generator-001"
    {
      assert chosen[i] == start.selected[i];
      var j :| 0 <= j < |ESSENTIAL| && ESSENTIAL[j] == chosen[i].id;
      assert j == 0 || j == 1 || j == 2;
    }
  }

  lemma {:induction false} EssentialsAreEssential(eligible: seq<Agent>, ids: seq<string>, c: Choice)
    ensures c.selected <= BuyEssentials(eligible, ids, c).selected
    ensures forall i | |c.selected| <= i < |BuyEssentials(eligible, ids, c).selected| ::
      BuyEssentials(eligible, ids, c).selected[i].id in ids
    decreases ids
  {
    if ids != [] {
      assert ids == [ids[0]] + ids[1..];
      var found := Find(eligible, ids[0]);
      EssentialsAreEssential(eligible, ids[1..], if found.Some? then Buy(c, found.value) else c);
    }
  }

  /** The first id of the list has no agent bought: its agent costs more than is left. */
  lemma FirstEssentialSkipped(eligible: seq<Agent>, ids: seq<string>, c: Choice)
    requires ids != [] && Find(eligible, ids[0]).Some? && !Has(BuyEssentials(eligible, ids, c).selected, ids[0])
    ensures Find(eligible, ids[0]).value.price > c.remaining
    ensures BuyEssentials(eligible, ids, c) == BuyEssentials(eligible, ids[1..], c)
  {
    var a := Find(eligible, ids[0]).value;
    if a.price <= c.remaining {
      BoughtIsHad(c, a);
      EssentialsAreEssential(eligible, ids[1..], Buy(c, a));
      HasStays(Buy(c, a).selected, BuyEssentials(eligible, ids, c).selected, a.id);
      assert false;
    }
  }

  /**
   * The purchases from `lo` to `k` are of ids `before`, later ones of ids
   * `after`, and those up to `k` leave less than `price`.
   */
  ghost predicate DidNotFit(end: seq<Agent>, lo: nat, k: nat, before: seq<string>, after: seq<string>, price: real,
                            budget: real)
  {
    && lo <= k <= |end|
    && (forall i | lo <= i < k :: end[i].id in before)
    && (forall i | k <= i < |end| :: end[i].id in after)
    && price > budget - Sum(end[..k])
  }

  lemma DidNotFitEither(end: seq<Agent>, lo: nat, lo': nat, k: nat, ids: seq<string>, p: nat, price: real, budget: real)
    requires 0 < p < |ids| && DidNotFit(end, lo', k, ids[1..][..p - 1], ids[1..][p..], price, budget)
    requires lo' == lo || (lo' == lo + 1 && lo < |end| && end[lo].id == ids[0])
    ensures DidNotFit(end, lo, k, ids[..p], ids[p + 1..], price, budget)
  {
    hide Sum;
    assert ids[1..][..p - 1] == ids[1..p] && ids[1..][p..] == ids[p + 1..];
    assert ids[..p] == [ids[0]] + ids[1..p];
  }

  /** What the first loop makes of one essential id. */
  function AfterFirst(eligible: seq<Agent>, ids: seq<string>, c: Choice): Choice
    requires ids != []
  {
    var found := Find(eligible, ids[0]);
    if found.Some? then Buy(c, found.value) else c
  }

  lemma FirstStep(eligible: seq<Agent>, ids: seq<string>, c: Choice, budget: real)
    requires ids != [] && Sum(c.selected) + c.remaining == budget
    ensures var c', end := AfterFirst(eligible, ids, c), BuyEssentials(eligible, ids, c).selected;
      && BuyEssentials(eligible, ids, c) == BuyEssentials(eligible, ids[1..], c')
      && Sum(c'.selected) + c'.remaining == budget
      && |c'.selected| <= |end|
      && (|c'.selected| == |c.selected|
          || (|c'.selected| == |c.selected| + 1 && end[|c.selected|].id == ids[0]))
  {
    var found := Find(eligible, ids[0]);
    EssentialsAreEssential(eligible, ids[1..], AfterFirst(eligible, ids, c));
    if found.Some? {
      BuyKeepsBooks(c, found.value, budget);
    }
  }

  lemma FirstDidNotFit(eligible: seq<Agent>, ids: seq<string>, c: Choice, budget: real)
    requires ids != [] && Find(eligible, ids[0]).Some? && !Has(BuyEssentials(eligible, ids, c).selected, ids[0])
    requires Sum(c.selected) + c.remaining == budget
    ensures DidNotFit(BuyEssentials(eligible, ids, c).selected, |c.selected|, |c.selected|, ids[..0], ids[1..],
                      Find(eligible, ids[0]).value.price, budget)
  {
    FirstEssentialSkipped(eligible, ids, c);
    EssentialsAreEssential(eligible, ids[1..], c);
    hide BuyEssentials, Find, Has;
    var end := BuyEssentials(eligible, ids, c).selected;
    assert end[..|c.selected|] == c.selected;
  }

  /** An essential agent left out by the first loop did not fit after the essential agents listed before it. */
  lemma {:induction false} EssentialsAreGreedy(eligible: seq<Agent>, ids: seq<string>, c: Choice, budget: real, p: nat)
    returns (k: nat)
    requires p < |ids| && Find(eligible, ids[p]).Some?
    requires !Has(BuyEssentials(eligible, ids, c).selected, ids[p])
    requires Sum(c.selected) + c.remaining == budget
    ensures DidNotFit(BuyEssentials(eligible, ids, c).selected, |c.selected|, k, ids[..p], ids[p + 1..],
                      Find(eligible, ids[p]).value.price, budget)
    decreases ids
  {
    hide BuyEssentials, Find, Sum, Has, DidNotFit, AfterFirst;
    if p == 0 {
      FirstDidNotFit(eligible, ids, c, budget);
      k := |c.selected|;
    } else {
      FirstStep(eligible, ids, c, budget);
      var c', end := AfterFirst(eligible, ids, c), BuyEssentials(eligible, ids, c).selected;
      k := EssentialsAreGreedy(eligible, ids[1..], c', budget, p - 1);
      DidNotFitEither(end, |c.selected|, |c'.selected|, k, ids, p, Find(eligible, ids[p]).value.price, budget);
    }
  }
}
