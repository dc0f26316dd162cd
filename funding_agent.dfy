/**
 * Funding attractiveness (longevity_map/agents/funding_agent.py): up to four
 * bounded factors are added to a score, each only when the gap has the data
 * it needs, and the gaps with the highest impact are re-ranked by that score.
 * The database query of the ranking becomes the sequence of gaps it is given.
 */
module FundingAgent {
  import opened Wrappers
  import opened GapModel
  import Seqs

  /** The prediction dictionary; `factors` holds the factors that fired, by name. */
  datatype FundingPrediction = FundingPrediction(
    gapId: Option<int>,
    score: real,
    factors: map<string, real>,
    likelihood: string)

  /** The nested `"gap"` dictionary of a ranking entry. */
  datatype GapSummary = GapSummary(
    id: Option<int>,
    capabilityId: Option<int>,
    priority: string,
    blockedValue: real,
    numBlocked: nat)

  /** One ranking entry: the prediction merged with the summary of its gap. */
  datatype RankedGap = RankedGap(prediction: FundingPrediction, gap: GapSummary)

  const FactorNames: set<string> := {"impact", "cost_efficiency", "market_size", "feasibility"}

  /** Impact (up to 0.3): only for a gap that blocks some problem. */
  function ImpactFactor(g: Gap): (f: Option<real>)
    ensures f.Some? <==> g.numBlocked > 0
    ensures f.Some? ==> 0.0 < f.value <= 0.3
  {
    if g.numBlocked > 0 then Some(Seqs.MinReal(0.3, g.numBlocked as real / 20.0 * 0.3)) else None
  }

  /** Cost efficiency by cost per blocked problem, for a truthy (non-zero) cost and some blocked problem. */
  function CostFactor(g: Gap): (f: Option<real>)
    ensures f.Some? <==> g.estimatedCost.Some? && g.estimatedCost.value != 0.0 && g.numBlocked > 0
  {
    if g.estimatedCost.Some? && g.estimatedCost.value != 0.0 && g.numBlocked > 0 then
      var perProblem := g.estimatedCost.value / g.numBlocked as real;
      Some(if perProblem < 1000000.0 then 0.2 else if perProblem < 5000000.0 then 0.1 else 0.05)
    else None
  }

  /** Market size by blocked research value, for a truthy (non-zero) value. */
  function MarketFactor(g: Gap): (f: Option<real>)
    ensures f.Some? <==> g.blockedValue != 0.0
  {
    if g.blockedValue != 0.0 then
      Some(if g.blockedValue >= 100000000.0 then 0.3 else if g.blockedValue >= 10000000.0 then 0.2 else 0.1)
    else None
  }

  /** Technical feasibility by estimated months, for a truthy (non-zero) time. */
  function FeasibilityFactor(g: Gap): (f: Option<real>)
    ensures f.Some? <==> g.estimatedTime.Some? && g.estimatedTime.value != 0.0
  {
    if g.estimatedTime.Some? && g.estimatedTime.value != 0.0 then
      Some(if g.estimatedTime.value <= 12.0 then 0.2 else if g.estimatedTime.value <= 24.0 then 0.15 else 0.1)
    else None
  }

  /** Adds `name` to the factor dictionary when the factor fired. */
  function WithFactor(m: map<string, real>, name: string, f: Option<real>): map<string, real>
  {
    if f.Some? then m[name := f.value] else m
  }

  /** The factor dictionary after the four steps. */
  function FiredFactors(g: Gap): map<string, real>
  {
    WithFactor(WithFactor(WithFactor(WithFactor(map[], "impact", ImpactFactor(g)),
      "cost_efficiency", CostFactor(g)), "market_size", MarketFactor(g)), "feasibility", FeasibilityFactor(g))
  }

  /** The accumulated score before `min(1.0, ...)`. */
  function RawScore(g: Gap): real
  {
    ImpactFactor(g).GetOr(0.0) + CostFactor(g).GetOr(0.0) + MarketFactor(g).GetOr(0.0)
      + FeasibilityFactor(g).GetOr(0.0)
  }

  function Likelihood(score: real): string
  {
    if score >= 0.7 then "high" else if score >= 0.4 then "medium" else "low"
  }

  /** The value `predict_funding_attractiveness` returns. */
  function Prediction(g: Gap): FundingPrediction
  {
    FundingPrediction(g.id, Seqs.MinReal(1.0, RawScore(g)), FiredFactors(g), Likelihood(RawScore(g)))
  }

  /** The value of a factor in the dictionary, 0 when it did not fire. */
  function FactorValue(m: map<string, real>, name: string): real
  {
    if name in m then m[name] else 0.0
  }

  /** The factors together lie in [0, 1], so the final `min(1.0, ...)` never binds. */
  lemma RawScoreBounds(g: Gap)
    ensures 0.0 <= RawScore(g) <= 1.0
    ensures Prediction(g).score == RawScore(g)
  {
  }

  /**
   * The dictionary records exactly the factors that fired, each with the
   * value that was added, and the score is their total.
   */
  lemma {:induction false} FactorsAreTheSummands(g: Gap)
    ensures FiredFactors(g).Keys <= FactorNames
    ensures ("impact" in FiredFactors(g)) == ImpactFactor(g).Some?
    ensures ("cost_efficiency" in FiredFactors(g)) == CostFactor(g).Some?
    ensures ("market_size" in FiredFactors(g)) == MarketFactor(g).Some?
    ensures ("feasibility" in FiredFactors(g)) == FeasibilityFactor(g).Some?
    ensures RawScore(g) == FactorValue(FiredFactors(g), "impact") + FactorValue(FiredFactors(g), "cost_efficiency")
                         + FactorValue(FiredFactors(g), "market_size") + FactorValue(FiredFactors(g), "feasibility")
  {
    var m1 := WithFactor(map[], "impact", ImpactFactor(g));
    var m2 := WithFactor(m1, "cost_efficiency", CostFactor(g));
    var m3 := WithFactor(m2, "market_size", MarketFactor(g));
    var m4 := WithFactor(m3, "feasibility", FeasibilityFactor(g));
    assert m4 == FiredFactors(g);
    assert FactorValue(m4, "impact") == ImpactFactor(g).GetOr(0.0);
    assert FactorValue(m4, "cost_efficiency") == CostFactor(g).GetOr(0.0);
    assert FactorValue(m4, "market_size") == MarketFactor(g).GetOr(0.0);
    assert FactorValue(m4, "feasibility") == FeasibilityFactor(g).GetOr(0.0);
  }

  /** A cheaper cost per problem never earns a lower cost-efficiency factor. */
  lemma CostFactorMonotone(g1: Gap, g2: Gap)
    requires CostFactor(g1).Some? && CostFactor(g2).Some?
    requires g1.estimatedCost.value / g1.numBlocked as real <= g2.estimatedCost.value / g2.numBlocked as real
    ensures CostFactor(g1).value >= CostFactor(g2).value
  {
  }

  /** Market size has exactly three tiers, and a larger blocked value never earns a lower one. */
  lemma MarketFactorTiers(g1: Gap, g2: Gap)
    requires MarketFactor(g1).Some? && MarketFactor(g2).Some?
    ensures MarketFactor(g1).value == 0.1 || MarketFactor(g1).value == 0.2 || MarketFactor(g1).value == 0.3
    ensures g1.blockedValue <= g2.blockedValue ==> MarketFactor(g1).value <= MarketFactor(g2).value
  {
  }

  /** A quicker capability never earns a lower feasibility factor. */
  lemma FeasibilityMonotone(g1: Gap, g2: Gap)
    requires FeasibilityFactor(g1).Some? && FeasibilityFactor(g2).Some?
    requires g1.estimatedTime.value <= g2.estimatedTime.value
    ensures FeasibilityFactor(g1).value >= FeasibilityFactor(g2).value
  {
  }

  /**
   * What the prediction promises: a score in [0, 1] that is the total of the
   * factors recorded, each recorded exactly when its data is there, and a
   * likelihood tier that follows the score.
   */
  lemma PredictionProperties(g: Gap)
    ensures Prediction(g).gapId == g.id
    ensures 0.0 <= Prediction(g).score <= 1.0
    ensures Prediction(g).factors.Keys <= FactorNames
    ensures ("impact" in Prediction(g).factors) <==> g.numBlocked > 0
    ensures ("cost_efficiency" in Prediction(g).factors)
        <==> g.estimatedCost.Some? && g.estimatedCost.value != 0.0 && g.numBlocked > 0
    ensures ("market_size" in Prediction(g).factors) <==> g.blockedValue != 0.0
    ensures ("feasibility" in Prediction(g).factors) <==> g.estimatedTime.Some? && g.estimatedTime.value != 0.0
    ensures Prediction(g).score
         == FactorValue(Prediction(g).factors, "impact") + FactorValue(Prediction(g).factors, "cost_efficiency")
          + FactorValue(Prediction(g).factors, "market_size") + FactorValue(Prediction(g).factors, "feasibility")
    ensures Prediction(g).likelihood == "high" <==> Prediction(g).score >= 0.7
    ensures Prediction(g).likelihood == "medium" <==> 0.4 <= Prediction(g).score < 0.7
    ensures Prediction(g).likelihood == "low" <==> Prediction(g).score < 0.4
  {
    RawScoreBounds(g);
    FactorsAreTheSummands(g);
  }

  /** The impact step of `predict_funding_attractiveness`. */
  method AddImpact(g: Gap, score: real, factors: map<string, real>) returns (score': real, factors': map<string, real>)
    ensures score' == score + ImpactFactor(g).GetOr(0.0)
    ensures factors' == WithFactor(factors, "impact", ImpactFactor(g))
  {
    score', factors' := score, factors;
    if g.numBlocked > 0 {
      var impact := Seqs.MinReal(0.3, g.numBlocked as real / 20.0 * 0.3);
      score' := score' + impact;
      factors' := factors'["impact" := impact];
    }
  }

  /** The cost-efficiency step. */
  method AddCostEfficiency(g: Gap, score: real, factors: map<string, real>) returns (score': real, factors': map<string, real>)
    ensures score' == score + CostFactor(g).GetOr(0.0)
    ensures factors' == WithFactor(factors, "cost_efficiency", CostFactor(g))
  {
    score', factors' := score, factors;
    if g.estimatedCost.Some? && g.estimatedCost.value != 0.0 && g.numBlocked > 0 {
      var perProblem := g.estimatedCost.value / g.numBlocked as real;
      var cost: real;
      if perProblem < 1000000.0 {
        cost := 0.2;
      } else if perProblem < 5000000.0 {
        cost := 0.1;
      } else {
        cost := 0.05;
      }
      score' := score' + cost;
      factors' := factors'["cost_efficiency" := cost];
    }
  }

  /** The market-size step. */
  method AddMarketSize(g: Gap, score: real, factors: map<string, real>) returns (score': real, factors': map<string, real>)
    ensures score' == score + MarketFactor(g).GetOr(0.0)
    ensures factors' == WithFactor(factors, "market_size", MarketFactor(g))
  {
    score', factors' := score, factors;
    if g.blockedValue != 0.0 {
      var market: real;
      if g.blockedValue >= 100000000.0 {
        market := 0.3;
      } else if g.blockedValue >= 10000000.0 {
        market := 0.2;
      } else {
        market := 0.1;
      }
      score' := score' + market;
      factors' := factors'["market_size" := market];
    }
  }

  /** The feasibility step. */
  method AddFeasibility(g: Gap, score: real, factors: map<string, real>) returns (score': real, factors': map<string, real>)
    ensures score' == score + FeasibilityFactor(g).GetOr(0.0)
    ensures factors' == WithFactor(factors, "feasibility", FeasibilityFactor(g))
  {
    score', factors' := score, factors;
    if g.estimatedTime.Some? && g.estimatedTime.value != 0.0 {
      var feasibility: real;
      if g.estimatedTime.value <= 12.0 {
        feasibility := 0.2;
      } else if g.estimatedTime.value <= 24.0 {
        feasibility := 0.15;
      } else {
        feasibility := 0.1;
      }
      score' := score' + feasibility;
      factors' := factors'["feasibility" := feasibility];
    }
  }

  /**
   * `predict_funding_attractiveness`: accumulates the score and the factor
   * dictionary step by step; `PredictionProperties` states what the result means.
   */
  method PredictFundingAttractiveness(g: Gap) returns (p: FundingPrediction)
    ensures p == Prediction(g)
    ensures 0.0 <= p.score <= 1.0
    ensures p.factors.Keys <= FactorNames
    ensures p.score == FactorValue(p.factors, "impact") + FactorValue(p.factors, "cost_efficiency")
                     + FactorValue(p.factors, "market_size") + FactorValue(p.factors, "feasibility")
  {
    var score := 0.0;
    var factors: map<string, real> := map[];
    score, factors := AddImpact(g, score, factors);
    score, factors := AddCostEfficiency(g, score, factors);
    score, factors := AddMarketSize(g, score, factors);
    score, factors := AddFeasibility(g, score, factors);
    var likelihood := if score >= 0.7 then "high" else if score >= 0.4 then "medium" else "low";
    p := FundingPrediction(g.id, Seqs.MinReal(1.0, score), factors, likelihood);
    PredictionProperties(g);
  }

  function ImpactOf(g: Gap): real { g.impactScore }

  function ScoreOf(e: RankedGap): real { e.prediction.score }

  function Summary(g: Gap): GapSummary
  {
    GapSummary(g.id, g.capabilityId, g.priority.Value(), g.blockedValue, g.numBlocked)
  }

  function Entry(g: Gap): RankedGap
  {
    RankedGap(Prediction(g), Summary(g))
  }

  /** `ORDER BY impact_score DESC LIMIT 2 * top_n`. */
  function Candidates(gaps: seq<Gap>, topN: nat): seq<Gap>
  {
    Seqs.Take(Seqs.SortDesc(gaps, ImpactOf), 2 * topN)
  }

  function Entries(gs: seq<Gap>): (r: seq<RankedGap>)
    ensures |r| == |gs|
    ensures forall k :: 0 <= k < |gs| ==> r[k] == Entry(gs[k])
  {
    seq(|gs|, k requires 0 <= k < |gs| => Entry(gs[k]))
  }

  lemma EntriesSnoc(gs: seq<Gap>, i: nat)
    requires i < |gs|
    ensures Entries(gs[..i + 1]) == Entries(gs[..i]) + [Entry(gs[i])]
  {
    assert gs[..i + 1] == gs[..i] + [gs[i]];
  }

  /** What the ranking keeps is drawn from the entries it sorted. */
  lemma KeptAreEntries(entries: seq<RankedGap>, topN: nat)
    ensures forall k :: 0 <= k < |Seqs.Take(Seqs.SortDesc(entries, ScoreOf), topN)| ==>
      Seqs.Take(Seqs.SortDesc(entries, ScoreOf), topN)[k] in entries
  {
    Seqs.SortDescSameElements(entries, ScoreOf);
  }

  /** The default `top_n` of `rank_gaps_by_funding_potential`. */
  const DefaultTopN: nat := 20

  /**
   * `rank_gaps_by_funding_potential`: predicts every candidate, sorts the
   * entries by score (stably, so ties keep impact order) and keeps `top_n`.
   */
  method RankGapsByFundingPotential(gaps: seq<Gap>, topN: nat) returns (ranked: seq<RankedGap>)
    ensures ranked == Seqs.Take(Seqs.SortDesc(Entries(Candidates(gaps, topN)), ScoreOf), topN)
    ensures |ranked| == Seqs.Min(topN, |Candidates(gaps, topN)|)
    ensures |Candidates(gaps, topN)| == Seqs.Min(2 * topN, |gaps|)
    ensures Seqs.SortedDesc(ranked, ScoreOf)
    ensures forall k :: 0 <= k < |ranked| ==> ranked[k] in Entries(Candidates(gaps, topN))
  {
    var candidates := Candidates(gaps, topN);
    var entries: seq<RankedGap> := [];
    for i := 0 to |candidates|
      invariant entries == Entries(candidates[..i])
    {
      var p := PredictFundingAttractiveness(candidates[i]);
      EntriesSnoc(candidates, i);
      entries := entries + [RankedGap(p, Summary(candidates[i]))];
    }
    assert candidates[..|candidates|] == candidates;
    ranked := Seqs.Take(Seqs.SortDesc(entries, ScoreOf), topN);
    KeptAreEntries(entries, topN);
  }

  /** Every candidate has an impact score at least that of every gap left out of the ranking. */
  lemma CandidatesHaveTopImpact(gaps: seq<Gap>, topN: nat)
    ensures forall i, j :: 0 <= i < |Candidates(gaps, topN)| <= j < |gaps| ==>
      Candidates(gaps, topN)[i].impactScore >= Seqs.SortDesc(gaps, ImpactOf)[j].impactScore
  {
    Seqs.SortedPrefixDominates(Seqs.SortDesc(gaps, ImpactOf), ImpactOf, 2 * topN);
  }

  /** Among candidates with equal funding score, the ranking keeps their impact order. */
  lemma RankingTiesKeepImpactOrder(gaps: seq<Gap>, topN: nat, v: real)
    ensures Seqs.WithKey(Seqs.SortDesc(Entries(Candidates(gaps, topN)), ScoreOf), ScoreOf, v)
         == Seqs.WithKey(Entries(Candidates(gaps, topN)), ScoreOf, v)
  {
    Seqs.SortDescStable(Entries(Candidates(gaps, topN)), ScoreOf, v);
  }
}
