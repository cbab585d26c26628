/**
 * Reputation of a research agent (agents/research/base_research_agent.py,
 * _update_reputation): running average, score and payment band. Floats are
 * modelled as `real`.
 */
module Reputation {

  datatype Record = Record(
    total: nat,
    successful: nat,
    failed: nat,
    average: real,
    score: real,
    multiplier: real)

  /** The row `_register_in_database` creates. */
  const NEW_RECORD := Record(0, 0, 0, 0.0, 0.5, 1.0)

  /** One finished task as `execute` reports it. */
  datatype Outcome = Outcome(success: bool, quality: real)

  const SUCCEEDED := Outcome(true, 0.8)
  const FAILED := Outcome(false, 0.0)

  /** The payment bands, worst to best. */
  function Band(score: real): (b: nat)
    ensures b <= 3
  {
    if score >= 0.8 then 3 else if score >= 0.6 then 2 else if score >= 0.4 then 1 else 0
  }

  function MultiplierOf(band: nat): real {
    if band >= 3 then 1.2 else if band == 2 then 1.0 else if band == 1 then 0.9 else 0.8
  }

  function Score(successful: nat, total: nat, average: real): real
    requires total > 0
  {
    0.6 * (successful as real / total as real) + 0.4 * average
  }

  function NewAverage(average: real, total: nat, quality: real): (a: real)
    requires total > 0
    ensures a * total as real == average * (total - 1) as real + quality
  {
    (average * (total - 1) as real + quality) / total as real
  }

  function AfterOutcome(r: Record, o: Outcome): Record {
    var total := r.total + 1;
    var successful := if o.success then r.successful + 1 else r.successful;
    var failed := if o.success then r.failed else r.failed + 1;
    var average := NewAverage(r.average, total, o.quality);
    var score := Score(successful, total, average);
    Record(total, successful, failed, average, score, MultiplierOf(Band(score)))
  }

  /** The row itself, updated field by field. */
  class ReputationRow {
    var total: nat
    var successful: nat
    var failed: nat
    var average: real
    var score: real
    var multiplier: real

    function Snapshot(): Record
      reads this
    {
      Record(total, successful, failed, average, score, multiplier)
    }

    constructor ()
      ensures Snapshot() == NEW_RECORD
    {
      total, successful, failed := 0, 0, 0;
      average, score, multiplier := 0.0, 0.5, 1.0;
    }

    method UpdateReputation(success: bool, quality: real)
      modifies this
      ensures Snapshot() == AfterOutcome(old(Snapshot()), Outcome(success, quality))
    {
      hide NewAverage, Score;
      total := total + 1;
      if success {
        successful := successful + 1;
      } else {
        failed := failed + 1;
      }
      average := NewAverage(average, total, quality);
      score := Score(successful, total, average);
      if score >= 0.8 {
        multiplier := 1.2;
      } else if score >= 0.6 {
        multiplier := 1.0;
      } else if score >= 0.4 {
        multiplier := 0.9;
      } else {
        multiplier := 0.8;
      }
      assert multiplier == MultiplierOf(Band(score));
    }

    /** A registry sync overwrites the score and nothing else. */
    method OverwriteScore(registryScore: real)
      modifies this
      ensures Snapshot() == old(Snapshot()).(score := registryScore)
    {
      score := registryScore;
    }
  }

  // ---------------------------------------------------------- whole histories

  /** Row `i + 1` of the run is row `i` after outcome `i`. */
  ghost predicate StepAt(rows: seq<Record>, outcomes: seq<Outcome>, i: nat)
    requires i < |outcomes| && |rows| == |outcomes| + 1
  {
    rows[i + 1] == AfterOutcome(rows[i], outcomes[i])
  }

  /** The successive states of one row, from the record made at registration. */
  ghost predicate IsRun(rows: seq<Record>, outcomes: seq<Outcome>) {
    && |rows| == |outcomes| + 1
    && rows[0] == NEW_RECORD
    && forall i | 0 <= i < |outcomes| :: StepAt(rows, outcomes, i)
  }

  /** Sum of the first `n` qualities. */
  function QualitySum(outcomes: seq<Outcome>, n: nat): real
    requires n <= |outcomes|
  {
    if n == 0 then 0.0 else QualitySum(outcomes, n - 1) + outcomes[n - 1].quality
  }

  /** Number of successes among the first `n` outcomes. */
  function Wins(outcomes: seq<Outcome>, n: nat): (k: nat)
    requires n <= |outcomes|
    ensures k <= n
  {
    if n == 0 then 0 else Wins(outcomes, n - 1) + if outcomes[n - 1].success then 1 else 0
  }

  /** For any qualities, after n tasks the counters count and the running average is the mean of all n. */
  lemma {:induction false} AverageIsMean(rows: seq<Record>, outcomes: seq<Outcome>, n: nat)
    requires IsRun(rows, outcomes) && n <= |outcomes|
    ensures rows[n].total == n == rows[n].successful + rows[n].failed
    ensures rows[n].successful == Wins(outcomes, n)
    ensures rows[n].average * n as real == QualitySum(outcomes, n)
  {
    if n > 0 {
      AverageIsMean(rows, outcomes, n - 1);
      assert StepAt(rows, outcomes, n - 1);
      assert rows[n].average == NewAverage(rows[n - 1].average, n, outcomes[n - 1].quality);
    }
  }

  lemma ScoreTimesTotal(k: nat, n: nat, a: real, q: real)
    requires n > 0 && a * n as real == q
    ensures Score(k, n, a) * n as real == 0.6 * k as real + 0.4 * q
  {
    var x, m := k as real / n as real, n as real;
    assert x * m == k as real;
    assert (0.6 * x + 0.4 * a) * m == 0.6 * (x * m) + 0.4 * (a * m);
  }

  /** For any qualities, n times the score is 0.6 k + 0.4 Q after n tasks with k successes and quality sum Q. */
  lemma GeneralClosedForm(rows: seq<Record>, outcomes: seq<Outcome>, n: nat)
    requires IsRun(rows, outcomes) && 0 < n <= |outcomes|
    ensures rows[n].score * n as real == 0.6 * Wins(outcomes, n) as real + 0.4 * QualitySum(outcomes, n)
    ensures rows[n].multiplier == MultiplierOf(Band(rows[n].score))
  {
    hide Score, Wins, QualitySum, NewAverage, Band;
    AverageIsMean(rows, outcomes, n);
    AverageIsMean(rows, outcomes, n - 1);
    assert StepAt(rows, outcomes, n - 1);
    ScoreTimesTotal(Wins(outcomes, n), n, rows[n].average, QualitySum(outcomes, n));
  }

  /** What a task of quality `q` adds to n (n + 1) times the score. */
  function Gain(k: nat, n: nat, sum: real, success: bool, q: real): real
    requires k <= n
  {
    (if success then 0.6 * (n - k) as real else -0.6 * k as real) + 0.4 * (n as real * q - sum)
  }

  /** With m tasks before, w and w' the successes before and after: the difference of the scores, scaled. */
  lemma ScaledDifference(before: real, after: real, m: real, w: real, w': real, sum: real, q: real)
    requires before * m == 0.6 * w + 0.4 * sum
    requires after * (m + 1.0) == 0.6 * w' + 0.4 * (sum + q)
    ensures (after - before) * (m * (m + 1.0)) == 0.6 * (m * w' - (m + 1.0) * w) + 0.4 * (m * q - sum)
  {
    var d := (after - before) * (m * (m + 1.0));
    assert d == m * (after * (m + 1.0)) - (m + 1.0) * (before * m);
    assert m * (0.6 * w' + 0.4 * (sum + q)) == 0.6 * (m * w') + 0.4 * (m * sum) + 0.4 * (m * q);
    assert (m + 1.0) * (0.6 * w + 0.4 * sum) == 0.6 * ((m + 1.0) * w) + 0.4 * (m * sum) + 0.4 * sum;
  }

  lemma GainScaled(m: real, w: real)
    ensures m * (w + 1.0) - (m + 1.0) * w == m - w
    ensures m * w - (m + 1.0) * w == -w
    ensures m > 0.0 ==> m * (m + 1.0) > 0.0
  {
  }

  lemma GainIsDifference(before: real, after: real, k: nat, n: nat, sum: real, success: bool, q: real)
    requires 0 < n && k <= n && before * n as real == 0.6 * k as real + 0.4 * sum
    requires after * (n + 1) as real == 0.6 * (if success then k + 1 else k) as real + 0.4 * (sum + q)
    ensures after >= before <==> Gain(k, n, sum, success, q) >= 0.0
    ensures after <= before <==> Gain(k, n, sum, success, q) <= 0.0
  {
    var m, w := n as real, k as real;
    var w' := if success then w + 1.0 else w;
    assert (n + 1) as real == m + 1.0 && (n - k) as real == m - w;
    ScaledDifference(before, after, m, w, w', sum, q);
    GainScaled(m, w);
    assert Gain(k, n, sum, success, q) == 0.6 * (m * w' - (m + 1.0) * w) + 0.4 * (m * q - sum);
    SameSign(after - before, m * (m + 1.0));
  }

  lemma SameSign(d: real, p: real)
    requires p > 0.0
    ensures d >= 0.0 <==> d * p >= 0.0
    ensures d <= 0.0 <==> d * p <= 0.0
  {
  }

  /**
   * For any qualities: a task does not lower the score if and only if its gain
   * is not negative, and does not raise it if and only if its gain is not positive.
   */
  lemma ScoreMovesExactlyWhen(rows: seq<Record>, outcomes: seq<Outcome>, n: nat)
    requires IsRun(rows, outcomes) && 0 < n < |outcomes|
    ensures var gain := Gain(Wins(outcomes, n), n, QualitySum(outcomes, n), outcomes[n].success, outcomes[n].quality);
      && (rows[n + 1].score >= rows[n].score <==> gain >= 0.0)
      && (rows[n + 1].score <= rows[n].score <==> gain <= 0.0)
  {
    GeneralClosedForm(rows, outcomes, n);
    GeneralClosedForm(rows, outcomes, n + 1);
    GainIsDifference(rows[n].score, rows[n + 1].score, Wins(outcomes, n), n, QualitySum(outcomes, n),
                     outcomes[n].success, outcomes[n].quality);
  }

  const THRESHOLDS: seq<real> := [0.4, 0.6, 0.8]

  /** After n tasks with k successes and quality sum Q the payment is past threshold `t`; a new record is past 0.6. */
  predicate Reaches(k: nat, n: nat, sum: real, t: real) {
    if n == 0 then t <= 0.6 else 0.6 * k as real + 0.4 * sum >= t * n as real
  }

  lemma ReachesIsScore(score: real, k: nat, n: nat, sum: real, t: real)
    requires n > 0 && score * n as real == 0.6 * k as real + 0.4 * sum
    ensures Reaches(k, n, sum, t) <==> score >= t
  {
    var m := n as real;
    assert (score - t) * m == score * m - t * m;
    SameSign(score - t, m);
  }

  /** The multiplier of a row is that of the highest threshold reached. */
  lemma MultiplierByThresholds(rows: seq<Record>, outcomes: seq<Outcome>, n: nat)
    requires IsRun(rows, outcomes) && n <= |outcomes|
    ensures var k, sum := Wins(outcomes, n), QualitySum(outcomes, n);
      && rows[n].multiplier == MultiplierOf(
           if Reaches(k, n, sum, 0.8) then 3
           else if Reaches(k, n, sum, 0.6) then 2
           else if Reaches(k, n, sum, 0.4) then 1
           else 0)
      && (Reaches(k, n, sum, 0.8) ==> Reaches(k, n, sum, 0.6))
      && (Reaches(k, n, sum, 0.6) ==> Reaches(k, n, sum, 0.4))
  {
    if n > 0 {
      hide Wins, QualitySum;
      var k, sum := Wins(outcomes, n), QualitySum(outcomes, n);
      GeneralClosedForm(rows, outcomes, n);
      ReachesIsScore(rows[n].score, k, n, sum, 0.8);
      ReachesIsScore(rows[n].score, k, n, sum, 0.6);
      ReachesIsScore(rows[n].score, k, n, sum, 0.4);
    }
  }

  /** The multipliers themselves: 1.2, 1.0, 0.9 or 0.8 by where 0.6 k + 0.4 Q stands between multiples of n. */
  lemma MultiplierIs(rows: seq<Record>, outcomes: seq<Outcome>, n: nat)
    requires IsRun(rows, outcomes) && n <= |outcomes|
    ensures n == 0 ==> rows[n].multiplier == 1.0
    ensures n > 0 ==> var x := 0.6 * Wins(outcomes, n) as real + 0.4 * QualitySum(outcomes, n);
      rows[n].multiplier ==
      if x >= 0.8 * n as real then 1.2
      else if x >= 0.6 * n as real then 1.0
      else if x >= 0.4 * n as real then 0.9
      else 0.8
  {
    hide Wins, QualitySum;
    MultiplierByThresholds(rows, outcomes, n);
  }

  /** The threshold is crossed downwards by task n + 1 if `down`, upwards otherwise. */
  predicate Crosses(outcomes: seq<Outcome>, n: nat, t: real, down: bool)
    requires n < |outcomes|
  {
    && Reaches(Wins(outcomes, n), n, QualitySum(outcomes, n), t) == down
    && Reaches(Wins(outcomes, n + 1), n + 1, QualitySum(outcomes, n + 1), t) != down
  }

  predicate CrossesSome(outcomes: seq<Outcome>, n: nat, down: bool)
    requires n < |outcomes|
  {
    exists i | 0 <= i < |THRESHOLDS| :: Crosses(outcomes, n, THRESHOLDS[i], down)
  }

  lemma CrossesSomeIs(outcomes: seq<Outcome>, n: nat, down: bool)
    requires n < |outcomes|
    ensures CrossesSome(outcomes, n, down) <==>
      Crosses(outcomes, n, 0.4, down) || Crosses(outcomes, n, 0.6, down) || Crosses(outcomes, n, 0.8, down)
  {
    hide Crosses;
    assert THRESHOLDS[0] == 0.4 && THRESHOLDS[1] == 0.6 && THRESHOLDS[2] == 0.8;
  }

  /**
   * For any qualities: a task lowers the payment if and only if it takes
   * 0.6 k + 0.4 Q from at least t n to below t (n + 1) for some threshold t, and
   * raises it if and only if it does the opposite.
   */
  lemma PaymentMovesExactlyWhen(rows: seq<Record>, outcomes: seq<Outcome>, n: nat)
    requires IsRun(rows, outcomes) && n < |outcomes|
    ensures rows[n + 1].multiplier < rows[n].multiplier <==> CrossesSome(outcomes, n, true)
    ensures rows[n + 1].multiplier > rows[n].multiplier <==> CrossesSome(outcomes, n, false)
  {
    hide Reaches, Wins, QualitySum;
    MultiplierByThresholds(rows, outcomes, n);
    MultiplierByThresholds(rows, outcomes, n + 1);
    CrossesSomeIs(outcomes, n, true);
    CrossesSomeIs(outcomes, n, false);
  }

  /** A lower score need not lower the payment: two successes of the literature miner. */
  lemma ScoreCanFallAlone()
    ensures
      var r1 := AfterOutcome(NEW_RECORD, Outcome(true, 0.88));
      var r2 := AfterOutcome(r1, Outcome(true, 0.6));
      r2.score < r1.score && r2.multiplier == r1.multiplier == 1.2
  {
    var r1 := AfterOutcome(NEW_RECORD, Outcome(true, 0.88));
    assert r1.average == 0.88 && r1.total == 1 && r1.successful == 1;
    var r2 := AfterOutcome(r1, Outcome(true, 0.6));
    assert r2.average == 0.74;
  }

  /** A success of the literature miner's lowest quality tier can cost a payment band. */
  lemma SuccessCanLowerPayment()
    ensures
      var r2 := AfterOutcome(AfterOutcome(NEW_RECORD, Outcome(true, 0.3)), Outcome(true, 0.88));
      var r3 := AfterOutcome(r2, Outcome(true, 0.3));
      r2.multiplier == 1.2 && r3.multiplier == 1.0
  {
    var r1 := AfterOutcome(NEW_RECORD, Outcome(true, 0.3));
    assert r1.average == 0.3 && r1.total == 1 && r1.successful == 1;
    var r2 := AfterOutcome(r1, Outcome(true, 0.88));
    assert r2.average == 0.59 && r2.total == 2 && r2.successful == 2 && r2.score == 0.836;
    var r3 := AfterOutcome(r2, Outcome(true, 0.3));
    assert r3.average * 3.0 == 1.48 && 0.79 < r3.score < 0.8;
  }

  /** The base class's `execute` reports a success as 0.8 and a failure as 0.0. */
  ghost predicate FromExecute(outcomes: seq<Outcome>) {
    forall i | 0 <= i < |outcomes| :: outcomes[i] == SUCCEEDED || outcomes[i] == FAILED
  }

  lemma {:induction false} QualityOfExecute(outcomes: seq<Outcome>, n: nat)
    requires FromExecute(outcomes) && n <= |outcomes|
    ensures QualitySum(outcomes, n) == 0.8 * Wins(outcomes, n) as real
  {
    if n > 0 {
      QualityOfExecute(outcomes, n - 1);
    }
  }

  lemma MeanOfWins(a: real, k: nat, n: nat)
    requires n > 0 && a * n as real == 0.8 * k as real
    ensures Score(k, n, a) == 0.92 * (k as real / n as real)
  {
    var x, m := k as real / n as real, n as real;
    assert x * m == k as real;
    assert (0.8 * x) * m == 0.8 * (x * m);
    assert (a - 0.8 * x) * m == 0.0;
    assert a == 0.8 * x;
  }

  /** The score has the closed form 0.92 k/n after n tasks with k successes, and fixes the multiplier. */
  lemma ClosedForm(rows: seq<Record>, outcomes: seq<Outcome>, n: nat)
    requires IsRun(rows, outcomes) && FromExecute(outcomes) && 0 < n <= |outcomes|
    ensures rows[n].score == 0.92 * (Wins(outcomes, n) as real / n as real)
    ensures rows[n].multiplier == MultiplierOf(BandAfter(Wins(outcomes, n), n))
  {
    AverageIsMean(rows, outcomes, n);
    QualityOfExecute(outcomes, n);
    MeanOfWins(rows[n].average, Wins(outcomes, n), n);
    AverageIsMean(rows, outcomes, n - 1);
    assert StepAt(rows, outcomes, n - 1);
  }

  /** The band after n tasks with k successes; a new record starts in the third band. */
  function BandAfter(k: nat, n: nat): nat
    requires k <= n
  {
    if n == 0 then 2 else Band(0.92 * (k as real / n as real))
  }

  /** The band boundaries as integer inequalities. */
  lemma BandInIntegers(k: nat, n: nat)
    requires 0 < n && k <= n
    ensures BandAfter(k, n) ==
      if 92 * k >= 80 * n then 3 else if 92 * k >= 60 * n then 2 else if 92 * k >= 40 * n then 1 else 0
  {
    var x, m := k as real / n as real, n as real;
    assert x * m == k as real;
    Threshold(x, m, k as real, 0.8);
    Threshold(x, m, k as real, 0.6);
    Threshold(x, m, k as real, 0.4);
  }

  lemma Threshold(x: real, m: real, k: real, t: real)
    requires m > 0.0 && x * m == k
    ensures 0.92 * x >= t <==> 0.92 * k >= t * m
  {
    var d := 0.92 * x - t;
    assert d * m == 0.92 * k - t * m;
  }

  /** A success never lowers the payment band and a failure never raises it. */
  lemma OneOutcomeMovesTheRightWay(k: nat, n: nat)
    requires k <= n
    ensures BandAfter(k + 1, n + 1) >= BandAfter(k, n) >= BandAfter(k, n + 1)
  {
    BandInIntegers(k + 1, n + 1);
    BandInIntegers(k, n + 1);
    if n > 0 {
      BandInIntegers(k, n);
    }
  }

  /**
   * One outcome moves the payment by more than one band exactly when it is a
   * failure that either opens the record or follows a single success. In
   * particular it never does so from the fifth task on.
   */
  lemma MovesAtMostOneBand(k: nat, n: nat)
    requires k <= n
    ensures BandAfter(k + 1, n + 1) <= BandAfter(k, n) + 1
    ensures BandAfter(k, n) > BandAfter(k, n + 1) + 1 <==> n == k && n <= 1
  {
    BandInIntegers(k + 1, n + 1);
    BandInIntegers(k, n + 1);
    if n > 0 {
      BandInIntegers(k, n);
    }
  }

  /** The same, read on the rows: what task n + 1 does to the multiplier. */
  lemma NextTaskMovesPayment(rows: seq<Record>, outcomes: seq<Outcome>, n: nat)
    requires IsRun(rows, outcomes) && FromExecute(outcomes) && n < |outcomes|
    ensures outcomes[n].success ==> rows[n + 1].multiplier >= rows[n].multiplier
    ensures !outcomes[n].success ==> rows[n + 1].multiplier <= rows[n].multiplier
    ensures n >= 4 ==> exists b: nat, c: nat | b <= 3 && c <= 3 ::
      rows[n].multiplier == MultiplierOf(b) && rows[n + 1].multiplier == MultiplierOf(c) && b <= c + 1 && c <= b + 1
  {
    var k := Wins(outcomes, n);
    if n > 0 {
      ClosedForm(rows, outcomes, n);
    }
    ClosedForm(rows, outcomes, n + 1);
    OneOutcomeMovesTheRightWay(k, n);
    MovesAtMostOneBand(k, n);
  }

  /**
   * Scores written by registry syncs in between leave no trace: the next task
   * recomputes score and multiplier from the counters and the average alone.
   */
  lemma OverwrittenScoresAreForgotten(r: Record, registryScore: real, o: Outcome)
    ensures AfterOutcome(r.(score := registryScore), o) == AfterOutcome(r, o)
  {
  }
}
