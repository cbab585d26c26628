/**
 * The five-phase research pipeline (agents/research/research_pipeline.py):
 * phase records, spending, and a full run with its budget check.
 */
module PhasedPipeline {
  import opened Options

  datatype Phase = Ideation | KnowledgeRetrieval | Experimentation | Interpretation | Publication

  const PHASES: seq<Phase> := [Ideation, KnowledgeRetrieval, Experimentation, Interpretation, Publication]

  datatype PhaseStatus = Pending | InProgress | Completed | Failed

  /**
   * What the agents of a phase deliver: an outcome with a cost, or a failure,
   * reported or raised. `complete` tells whether all the outputs that the next
   * phase requires are there.
   */
  datatype Work = Done(cost: real, complete: bool) | Broke

  datatype Record = Record(status: PhaseStatus, cost: real, hasOutputs: bool)

  datatype Pipeline = Pipeline(
    started: bool,
    budget: real,
    spent: real,
    totalCost: real,
    phases: map<Phase, Record>,
    outputs: map<Phase, bool>,
    current: Option<Phase>,
    completed: bool)

  const UNSTARTED := Pipeline(false, 0.0, 0.0, 0.0, map[], map[], None, false)

  function Started(budget: real): Pipeline {
    Pipeline(true, budget, 0.0, 0.0, map p | p in PHASES :: Record(Pending, 0.0, false), map[], Some(Ideation), false)
  }

  /** `execute_phase`: without a phase record nothing happens. */
  function Execute(s: Pipeline, p: Phase, w: Work): Pipeline {
    if p !in s.phases then s
    else
      match w
      case Done(cost, complete) =>
        s.(phases := s.phases[p := Record(Completed, cost, true)],
           spent := s.spent + cost,
           totalCost := s.spent + cost,
           outputs := s.outputs[p := complete],
           current := Some(p))
      case Broke =>
        s.(phases := s.phases[p := s.phases[p].(status := Failed)], current := Some(p))
  }

  datatype Stop =
    | Success
    | CannotEnter(phase: Phase)
    | PhaseFailed(phase: Phase)
    | BudgetExceeded(phase: Phase)

  datatype Result = Result(stop: Stop, completed: seq<Phase>)

  class ResearchPipeline {
    var pipeline: Pipeline

    constructor ()
      ensures pipeline == UNSTARTED
    {
      pipeline := UNSTARTED;
    }

    method StartPipeline(budget: real)
      modifies this
      ensures pipeline == Started(budget)
    {
      var phases: map<Phase, Record> := map[];
      for i := 0 to |PHASES|
        invariant phases == map p | p in PHASES[..i] :: Record(Pending, 0.0, false)
      {
        phases := phases[PHASES[i] := Record(Pending, 0.0, false)];
        assert PHASES[..i + 1] == PHASES[..i] + [PHASES[i]];
      }
      assert PHASES[..|PHASES|] == PHASES;
      pipeline := Pipeline(true, budget, 0.0, 0.0, phases, map[], Some(Ideation), false);
    }

    method ExecutePhase(p: Phase, w: Work) returns (ok: bool)
      modifies this
      ensures pipeline == Execute(old(pipeline), p, w)
      ensures ok == (p in old(pipeline).phases && w.Done?)
    {
      if p !in pipeline.phases {
        return false;
      }
      var r := pipeline.phases[p].(status := InProgress);
      pipeline := pipeline.(phases := pipeline.phases[p := r], current := Some(p));
      match w {
        case Done(cost, complete) =>
          assert pipeline.phases[p := Record(Completed, cost, true)] ==
                 old(pipeline.phases)[p := Record(Completed, cost, true)];
          pipeline := pipeline.(phases := pipeline.phases[p := Record(Completed, cost, true)]);
          pipeline := pipeline.(spent := pipeline.spent + cost);
          pipeline := pipeline.(totalCost := pipeline.spent);
          pipeline := pipeline.(outputs := pipeline.outputs[p := complete]);
          return true;
        case Broke =>
          assert pipeline.phases[p := r.(status := Failed)] == old(pipeline.phases)[p := r.(status := Failed)];
          pipeline := pipeline.(phases := pipeline.phases[p := r.(status := Failed)]);
          return false;
      }
    }

    /**
     * Runs the phases in order. `work(i)` is what phase `i` delivers. The loop
     * stops at the first obstacle; `Trail` says which one and in what state.
     */
    method ExecuteFullPipeline(work: nat -> Work) returns (r: Result)
      modifies this
      ensures Outcome(pipeline, r) == Trail(old(pipeline), work, 0)
    {
      hide Execute;
      var done: seq<Phase> := [];
      var i := 0;
      while i < |PHASES|
        invariant 0 <= i <= |PHASES|
        invariant done == PHASES[..i]
        invariant Trail(pipeline, work, i) == Trail(old(pipeline), work, 0)
      {
        var phase := PHASES[i];
        if |done| > 0 {
          var previous := PHASES[i - 1];
          if !CanLeave(pipeline, previous) {
            return Result(CannotEnter(phase), done);
          }
        }
        var ok := ExecutePhase(phase, work(i));
        if !ok {
          return Result(PhaseFailed(phase), done);
        }
        done := done + [phase];
        if pipeline.totalCost > pipeline.budget {
          return Result(BudgetExceeded(phase), done);
        }
        i := i + 1;
      }
      pipeline := pipeline.(completed := true);
      return Result(Success, done);
    }
  }

  /** `validate_phase_transition`: the outputs of the phase before are all there. */
  predicate CanLeave(s: Pipeline, p: Phase) {
    p in s.outputs && s.outputs[p]
  }

  datatype Outcome = Outcome(end: Pipeline, result: Result)

  /** The rest of a full run once the first `i` phases have been executed in it. */
  function Trail(s: Pipeline, work: nat -> Work, i: nat): Outcome
    requires i <= |PHASES|
    decreases |PHASES| - i
  {
    if i == |PHASES| then Outcome(s.(completed := true), Result(Success, PHASES[..i]))
    else if i > 0 && !CanLeave(s, PHASES[i - 1]) then
      Outcome(s, Result(CannotEnter(PHASES[i]), PHASES[..i]))
    else
      var s' := Execute(s, PHASES[i], work(i));
      if PHASES[i] !in s.phases || work(i).Broke? then
        Outcome(s', Result(PhaseFailed(PHASES[i]), PHASES[..i]))
      else if s'.totalCost > s'.budget then
        Outcome(s', Result(BudgetExceeded(PHASES[i]), PHASES[..i + 1]))
      else Trail(s', work, i + 1)
  }

  // --------------------------------------------------------------- properties

  datatype Execution = Execution(phase: Phase, work: Work)

  function RunPhases(budget: real, log: seq<Execution>): Pipeline {
    if log == [] then Started(budget)
    else Execute(RunPhases(budget, log[..|log| - 1]), log[|log| - 1].phase, log[|log| - 1].work)
  }

  function SuccessfulCost(log: seq<Execution>): real {
    if log == [] then 0.0
    else
      SuccessfulCost(log[..|log| - 1]) + if log[|log| - 1].work.Done? then log[|log| - 1].work.cost else 0.0
  }

  lemma PhasesAre()
    ensures forall p: Phase :: p in PHASES
    ensures forall i, j | 0 <= i < j < |PHASES| :: PHASES[i] != PHASES[j]
  {
    forall p: Phase
      ensures p in PHASES
    {
      assert p == PHASES[0] || p == PHASES[1] || p == PHASES[2] || p == PHASES[3] || p == PHASES[4];
    }
  }

  /**
   * Phases may be executed singly, in any order and repeatedly: what is spent
   * is the cost of every successful execution, repeated ones included.
   */
  lemma {:induction false} SpentIsSumOfSuccesses(budget: real, log: seq<Execution>)
    ensures
      var s := RunPhases(budget, log);
      && s.spent == s.totalCost == SuccessfulCost(log)
      && s.budget == budget
      && (forall p: Phase :: p in s.phases)
      && s.current == Some(if log == [] then Ideation else log[|log| - 1].phase)
  {
    PhasesAre();
    if log != [] {
      SpentIsSumOfSuccesses(budget, log[..|log| - 1]);
    }
  }

  function CostOf(w: Work): real {
    if w.Done? then w.cost else 0.0
  }

  /** Cost of the first `n` phases. */
  function CostUpTo(work: nat -> Work, n: nat): real {
    if n == 0 then 0.0 else CostUpTo(work, n - 1) + CostOf(work(n - 1))
  }

  ghost predicate CostsAreNonNegative(work: nat -> Work) {
    forall i: nat :: CostOf(work(i)) >= 0.0
  }

  /** State of a full run on a freshly started pipeline after `i` phases. */
  ghost predicate Midway(s: Pipeline, budget: real, work: nat -> Work, i: nat)
    requires i <= |PHASES|
  {
    && s.budget == budget
    && s.spent == s.totalCost == CostUpTo(work, i) <= budget
    && (forall k | 0 <= k < |PHASES| ::
          PHASES[k] in s.phases && (s.phases[PHASES[k]].status == Completed <==> k < i))
  }

  /** The end of a full run, in terms of the budget and of what the phases delivered. */
  ghost predicate Accounted(o: Outcome, budget: real, work: nat -> Work) {
    var done := o.result.completed;
    && done <= PHASES
    && o.end.spent == CostUpTo(work, |done|)
    && (forall k | 0 <= k < |PHASES| ::
          PHASES[k] in o.end.phases && (o.end.phases[PHASES[k]].status == Completed <==> k < |done|))
    && (o.result.stop.Success? <==> o.end.completed)
    && (o.result.stop.Success? ==> done == PHASES && o.end.spent <= budget)
    && (o.result.stop.BudgetExceeded? <==> o.end.spent > budget)
    && (o.end.spent > budget ==> |done| > 0 && o.end.spent - budget <= CostOf(work(|done| - 1)))
  }

  /** One more phase that delivers within the budget. */
  lemma StepMidway(s: Pipeline, budget: real, work: nat -> Work, i: nat)
    requires i < |PHASES| && Midway(s, budget, work, i) && work(i).Done?
    ensures var s' := Execute(s, PHASES[i], work(i));
      && s'.budget == budget && s'.completed == s.completed
      && s'.spent == s'.totalCost == CostUpTo(work, i + 1)
      && (s'.totalCost <= budget ==> Midway(s', budget, work, i + 1))
      && (CanLeave(s', PHASES[i]) <==> work(i).complete)
      && (forall k | 0 <= k < |PHASES| ::
            PHASES[k] in s'.phases && (s'.phases[PHASES[k]].status == Completed <==> k < i + 1))
  {
    PhasesAre();
    assert CostUpTo(work, i + 1) == CostUpTo(work, i) + CostOf(work(i));
  }

  lemma {:induction false} TrailIsAccounted(s: Pipeline, budget: real, work: nat -> Work, i: nat)
    requires i <= |PHASES| && Midway(s, budget, work, i) && !s.completed
    requires CostsAreNonNegative(work)
    ensures Accounted(Trail(s, work, i), budget, work)
    decreases |PHASES| - i
  {
    PhasesAre();
    assert |PHASES[..i]| == i;
    if i < |PHASES| && (i == 0 || CanLeave(s, PHASES[i - 1])) && work(i).Done? {
      StepMidway(s, budget, work, i);
      var s' := Execute(s, PHASES[i], work(i));
      if s'.totalCost <= s'.budget {
        TrailIsAccounted(s', budget, work, i + 1);
      }
    }
  }

  /**
   * A full run on a freshly started pipeline: the completed phases are a prefix
   * of the fixed order and cost exactly what was spent; success means all five
   * phases within the budget; only a budget stop overshoots, by no more than
   * the cost of its last phase.
   */
  lemma FullRunIsAccounted(budget: real, work: nat -> Work)
    requires budget >= 0.0 && CostsAreNonNegative(work)
    ensures Accounted(Trail(Started(budget), work, 0), budget, work)
  {
    PhasesAre();
    TrailIsAccounted(Started(budget), budget, work, 0);
  }

  /** The phases from `i` on deliver, completely where a phase follows. */
  predicate AllDeliver(work: nat -> Work, i: nat)
    requires i <= |PHASES|
    decreases |PHASES| - i
  {
    i == |PHASES| || (work(i).Done? && (i == |PHASES| - 1 || work(i).complete) && AllDeliver(work, i + 1))
  }

  /**
   * A full run succeeds exactly when every phase delivers, completely where a
   * phase follows, within the budget throughout.
   */
  lemma SucceedsExactlyWhen(budget: real, work: nat -> Work)
    requires budget >= 0.0 && CostsAreNonNegative(work)
    ensures Trail(Started(budget), work, 0).result.stop.Success? <==>
      && (forall i | 0 <= i < |PHASES| :: work(i).Done? && (i < |PHASES| - 1 ==> work(i).complete))
      && CostUpTo(work, |PHASES|) <= budget
  {
    PhasesAre();
    TrailSucceeds(Started(budget), budget, work, 0);
    AllDeliverIs(work, 0);
  }

  lemma {:induction false} AllDeliverIs(work: nat -> Work, i: nat)
    requires i <= |PHASES|
    ensures AllDeliver(work, i) <==>
      forall k | i <= k < |PHASES| :: work(k).Done? && (k < |PHASES| - 1 ==> work(k).complete)
    decreases |PHASES| - i
  {
    if i < |PHASES| {
      AllDeliverIs(work, i + 1);
    }
  }

  lemma {:induction false} CostsGrow(work: nat -> Work, i: nat, j: nat)
    requires i <= j && CostsAreNonNegative(work)
    ensures CostUpTo(work, i) <= CostUpTo(work, j)
    decreases j
  {
    if i < j {
      CostsGrow(work, i, j - 1);
      assert CostOf(work(j - 1)) >= 0.0;
    }
  }

  lemma {:induction false} TrailSucceeds(s: Pipeline, budget: real, work: nat -> Work, i: nat)
    requires i <= |PHASES| && Midway(s, budget, work, i) && CostsAreNonNegative(work)
    requires i > 0 ==> work(i - 1).Done? && (CanLeave(s, PHASES[i - 1]) <==> work(i - 1).complete)
    ensures Trail(s, work, i).result.stop.Success? <==>
      && (i == 0 || i == |PHASES| || work(i - 1).complete)
      && AllDeliver(work, i) && CostUpTo(work, |PHASES|) <= budget
    decreases |PHASES| - i
  {
    if i < |PHASES| {
      assert PHASES[i] in s.phases;
      if (i == 0 || CanLeave(s, PHASES[i - 1])) && work(i).Done? {
        StepMidway(s, budget, work, i);
        CostsGrow(work, i + 1, |PHASES|);
        hide Execute, Midway, CanLeave, CostUpTo;
        var s' := Execute(s, PHASES[i], work(i));
        if s'.totalCost <= s'.budget {
          TrailSucceeds(s', budget, work, i + 1);
        }
      }
    }
  }

  // ---------------------------------------------------------- where a run stops

  /** The stop names the phase it concerns, and that phase is the reason. */
  ghost predicate StopIsExplained(o: Outcome, work: nat -> Work) {
    var n := |o.result.completed|;
    match o.result.stop
    case Success => n == 5
    case CannotEnter(p) => 0 < n < 5 && p == PHASES[n] && work(n - 1).Done? && !work(n - 1).complete
    case PhaseFailed(p) => n < 5 && p == PHASES[n] && work(n).Broke?
    case BudgetExceeded(p) => 0 < n <= 5 && p == PHASES[n - 1] && work(n - 1).Done?
  }

  /** Completed phases are on record with their cost and outputs; the phase that failed is on record as failed. */
  ghost predicate OnRecord(s: Pipeline, work: nat -> Work, n: nat)
    requires n <= |PHASES|
  {
    forall k | 0 <= k < n :: PHASES[k] in s.phases && work(k).Done?
      && s.phases[PHASES[k]] == Record(Completed, work(k).cost, true)
  }

  lemma {:induction false} TrailIsExplained(s: Pipeline, budget: real, work: nat -> Work, i: nat)
    requires i <= |PHASES| && Midway(s, budget, work, i) && OnRecord(s, work, i)
    requires i > 0 ==> (CanLeave(s, PHASES[i - 1]) <==> work(i - 1).complete)
    ensures var o := Trail(s, work, i);
      && StopIsExplained(o, work)
      && |o.result.completed| <= |PHASES| && OnRecord(o.end, work, |o.result.completed|)
      && (o.result.stop.PhaseFailed? ==>
            o.result.stop.phase in o.end.phases && o.end.phases[o.result.stop.phase].status == Failed)
    decreases |PHASES| - i
  {
    assert |PHASES[..i]| == i;
    if i < |PHASES| {
      assert PHASES[i] in s.phases;
      if (i == 0 || CanLeave(s, PHASES[i - 1])) && work(i).Done? {
        StepMidway(s, budget, work, i);
        RecordedStep(s, work, i);
        assert |PHASES[..i + 1]| == i + 1;
        hide Execute, Midway, CanLeave, OnRecord;
        var s' := Execute(s, PHASES[i], work(i));
        if s'.totalCost <= s'.budget {
          TrailIsExplained(s', budget, work, i + 1);
        }
      } else if i == 0 || CanLeave(s, PHASES[i - 1]) {
        FailureKeepsRecords(s, work, i);
      }
    }
  }

  lemma RecordedStep(s: Pipeline, work: nat -> Work, i: nat)
    requires i < |PHASES| && OnRecord(s, work, i) && PHASES[i] in s.phases && work(i).Done?
    ensures OnRecord(Execute(s, PHASES[i], work(i)), work, i + 1)
  {
    PhasesAre();
  }

  lemma FailureKeepsRecords(s: Pipeline, work: nat -> Work, i: nat)
    requires i < |PHASES| && OnRecord(s, work, i) && PHASES[i] in s.phases && work(i).Broke?
    ensures OnRecord(Execute(s, PHASES[i], work(i)), work, i)
    ensures Execute(s, PHASES[i], work(i)).phases[PHASES[i]].status == Failed
  {
    PhasesAre();
  }

  /**
   * A full run on a freshly started pipeline takes ideation, knowledge retrieval,
   * experimentation, interpretation and publication in this order; where it stops
   * is explained by what the phases delivered, and the records say the same.
   */
  lemma FullRunIsExplained(budget: real, work: nat -> Work)
    requires budget >= 0.0 && CostsAreNonNegative(work)
    ensures PHASES == [Ideation, KnowledgeRetrieval, Experimentation, Interpretation, Publication]
    ensures var o := Trail(Started(budget), work, 0);
      && StopIsExplained(o, work)
      && |o.result.completed| <= |PHASES| && OnRecord(o.end, work, |o.result.completed|)
      && (o.result.stop.PhaseFailed? ==>
            o.result.stop.phase in o.end.phases && o.end.phases[o.result.stop.phase].status == Failed)
  {
    PhasesAre();
    TrailIsExplained(Started(budget), budget, work, 0);
  }
}
