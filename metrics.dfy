/** The engine's performance counters and running averages, and the learning
    rate of its continuous-improvement module. */
module Metrics {
  import opened Wrappers
  import opened Text
  import opened Reals
  import Catalog
  import Specification

  // ---------------------------------------------------------------- averages

  /** The sum of the scores. */
  function Sum(xs: seq<real>): real
  {
    if xs == [] then 0.0 else Sum(xs[..|xs| - 1]) + xs[|xs| - 1]
  }

  /** The mean of the scores, 0 for none. */
  function Mean(xs: seq<real>): real
  {
    if xs == [] then 0.0 else Sum(xs) / (|xs| as real)
  }

  /** The update `(current_avg * (n - 1) + score) / n`. */
  function RunningMean(avg: real, n: nat, score: real): real
    requires n > 0
  {
    (avg * ((n - 1) as real) + score) / (n as real)
  }

  /** Folding one more score into the mean of the earlier ones gives the mean
      of all of them: when every update supplies a score with a new idea, the
      stored average is the mean of the supplied scores. */
  lemma RunningMeanIsMean(xs: seq<real>, x: real)
    ensures RunningMean(Mean(xs), |xs| + 1, x) == Mean(xs + [x])
  {
    var n := |xs| as real;
    var t := n + 1.0;
    assert (xs + [x])[..|xs|] == xs;
    assert Sum(xs + [x]) == Sum(xs) + x;
    assert Mean(xs) * n == Sum(xs) by {
      if xs != [] {
        assert (Sum(xs) / n) * n == Sum(xs);
      }
    }
    var lhs := RunningMean(Mean(xs), |xs| + 1, x);
    var rhs := Mean(xs + [x]);
    assert lhs * t == Sum(xs) + x;
    assert rhs * t == Sum(xs) + x;
    Cancel(lhs, rhs, t);
  }

  /** A running mean of scores in [0, 1] stays in [0, 1]. */
  lemma RunningMeanBounds(avg: real, n: nat, score: real)
    requires n > 0
    requires 0.0 <= avg <= 1.0 && 0.0 <= score <= 1.0
    ensures 0.0 <= RunningMean(avg, n, score) <= 1.0
  {
    var m := (n - 1) as real;
    ScaleRange(avg, m);
    ShareRange(avg * m + score, n as real);
  }

  /** `len(set(concepts)) / len(concepts)`, 0 for no concepts. */
  function DistinctShare(concepts: seq<string>): real
  {
    if concepts == [] then 0.0 else (|set c | c in concepts| as real) / (|concepts| as real)
  }

  /** The share lies in [0, 1] and is 1 exactly when there are concepts and
      none repeats. */
  lemma DistinctShareRange(concepts: seq<string>)
    ensures 0.0 <= DistinctShare(concepts) <= 1.0
    ensures DistinctShare(concepts) == 1.0 <==>
      concepts != [] && forall i, j :: 0 <= i < j < |concepts| ==> concepts[i] != concepts[j]
  {
    if concepts != [] {
      var d := |set c | c in concepts|;
      ElementsCount(concepts);
      ShareRange(d as real, |concepts| as real);
      if forall i, j :: 0 <= i < j < |concepts| ==> concepts[i] != concepts[j] {
        DistinctCount(concepts);
      } else {
        var i, j :| 0 <= i < j < |concepts| && concepts[i] == concepts[j];
        RepeatCount(concepts, i, j);
      }
    }
  }

  /** The engine's own concept vocabulary has no repeats, so it scores 1. */
  lemma VocabularyShare()
    ensures DistinctShare(Catalog.Concepts) == 1.0
  {
    Specification.ConceptsDistinct();
    DistinctShareRange(Catalog.Concepts);
  }

  // ---------------------------------------------------------------- counters

  function Flag(b: bool): nat
  {
    if b then 1 else 0
  }

  /** The `performance_metrics` dictionary. The timing, implementation and
      satisfaction entries are never updated by the modelled code. */
  class PerformanceMetrics {
    var ideasGenerated: nat
    var conceptsRefined: nat
    var ethicalReviewsConducted: nat
    var averageFeasibilityScore: real
    var averageImpactScore: real
    var diversityScore: real

    /** Every counter and score starts at 0. */
    constructor()
      ensures ideasGenerated == 0 && conceptsRefined == 0 && ethicalReviewsConducted == 0
      ensures averageFeasibilityScore == 0.0 && averageImpactScore == 0.0 && diversityScore == 0.0
    {
      ideasGenerated, conceptsRefined, ethicalReviewsConducted := 0, 0, 0;
      averageFeasibilityScore, averageImpactScore, diversityScore := 0.0, 0.0, 0.0;
    }

    /** `update_performance_metrics`: each set flag adds one to its own
        counter; a supplied score is folded into its average over the
        (already incremented) idea count, and with no ideas the division
        raises ZeroDivisionError after the counters have moved. */
    method UpdatePerformanceMetrics(newIdea: bool, conceptRefined: bool, ethicalReview: bool,
                                    feasibilityScore: Option<real>, impactScore: Option<real>)
      returns (outcome: Outcome<Fault>)
      modifies this
      ensures ideasGenerated == old(ideasGenerated) + Flag(newIdea)
      ensures conceptsRefined == old(conceptsRefined) + Flag(conceptRefined)
      ensures ethicalReviewsConducted == old(ethicalReviewsConducted) + Flag(ethicalReview)
      ensures diversityScore == old(diversityScore)
      ensures outcome == if (feasibilityScore.Some? || impactScore.Some?) && ideasGenerated == 0
                         then Fail(ZeroDivisionError) else Pass
      ensures averageFeasibilityScore ==
        if outcome.Pass? && feasibilityScore.Some?
        then RunningMean(old(averageFeasibilityScore), ideasGenerated, feasibilityScore.value)
        else old(averageFeasibilityScore)
      ensures averageImpactScore ==
        if outcome.Pass? && impactScore.Some?
        then RunningMean(old(averageImpactScore), ideasGenerated, impactScore.value)
        else old(averageImpactScore)
    {
      if newIdea {
        ideasGenerated := ideasGenerated + 1;
      }
      if conceptRefined {
        conceptsRefined := conceptsRefined + 1;
      }
      if ethicalReview {
        ethicalReviewsConducted := ethicalReviewsConducted + 1;
      }
      if feasibilityScore.Some? {
        if ideasGenerated == 0 {
          return Fail(ZeroDivisionError);
        }
        averageFeasibilityScore := RunningMean(averageFeasibilityScore, ideasGenerated, feasibilityScore.value);
      }
      if impactScore.Some? {
        if ideasGenerated == 0 {
          return Fail(ZeroDivisionError);
        }
        averageImpactScore := RunningMean(averageImpactScore, ideasGenerated, impactScore.value);
      }
      return Pass;
    }

    /** `calculate_diversity_score`: the share of distinct concepts in the
        engine's concept list. */
    method CalculateDiversityScore(concepts: seq<string>)
      modifies this
      ensures diversityScore == DistinctShare(concepts)
      ensures ideasGenerated == old(ideasGenerated) && conceptsRefined == old(conceptsRefined)
      ensures ethicalReviewsConducted == old(ethicalReviewsConducted)
      ensures averageFeasibilityScore == old(averageFeasibilityScore) && averageImpactScore == old(averageImpactScore)
    {
      diversityScore := DistinctShare(concepts);
    }

    /** `evaluate_performance`: the mean of the two averages and the diversity
        score, so a third of their sum, and in [0, 1] when they all are. */
    function Performance(): (r: real)
      reads this
      ensures 3.0 * r == averageFeasibilityScore + averageImpactScore + diversityScore
      ensures (0.0 <= averageFeasibilityScore <= 1.0 && 0.0 <= averageImpactScore <= 1.0
               && 0.0 <= diversityScore <= 1.0) ==> 0.0 <= r <= 1.0
    {
      SumOfThree(averageFeasibilityScore, averageImpactScore, diversityScore);
      Mean([averageFeasibilityScore, averageImpactScore, diversityScore])
    }
  }

  lemma SumOfThree(a: real, b: real, c: real)
    ensures Sum([a, b, c]) == a + b + c
  {
    assert [a, b, c][..2] == [a, b] && [a, b][..1] == [a] && [a][..0] == [];
    assert Sum([a]) == a;
    assert Sum([a, b]) == a + b;
  }

  // ---------------------------------------------------------------- learning rate

  /** The learning rate after a history of performances: 0.1, times 1.1 for
      every step that improved on the one before and 0.9 for every other. */
  function Rate(history: seq<real>): (r: real)
    ensures r > 0.0
  {
    if |history| <= 1 then 0.1
    else Rate(history[..|history| - 1]) * (if history[|history| - 1] - history[|history| - 2] > 0.0 then 1.1 else 0.9)
  }

  /** The part of `ContinuousImprovementModule` that keeps state. */
  class ImprovementModule {
    var improvementHistory: seq<real>
    var learningRate: real

    /** The rate is the one the recorded history has led to. */
    predicate Valid()
      reads this
    {
      learningRate == Rate(improvementHistory)
    }

    constructor()
      ensures Valid() && improvementHistory == [] && learningRate == 0.1
    {
      improvementHistory := [];
      learningRate := 0.1;
    }

    /** The bookkeeping of `suggest_improvements` for the current performance:
        record it, then raise the rate by a tenth after an improvement and
        lower it by a tenth otherwise. */
    method RecordPerformance(current: real)
      requires Valid()
      modifies this
      ensures Valid()
      ensures improvementHistory == old(improvementHistory) + [current]
      ensures |old(improvementHistory)| >= 1 ==>
        learningRate == old(learningRate) * (if current - old(improvementHistory)[|old(improvementHistory)| - 1] > 0.0 then 1.1 else 0.9)
      ensures learningRate > 0.0
    {
      ghost var before := improvementHistory;
      improvementHistory := improvementHistory + [current];
      if |improvementHistory| > 1 {
        var change := current - improvementHistory[|improvementHistory| - 2];
        if change > 0.0 {
          learningRate := learningRate * 1.1;
        } else {
          learningRate := learningRate * 0.9;
        }
      }
      assert improvementHistory[..|improvementHistory| - 1] == before;
    }
  }
}
