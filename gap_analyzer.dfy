/**
 * Gap scoring (longevity_map/agents/gap_analyzer.py): a capability with no
 * well-matched resource is a gap; its blocked value and count come from the
 * required problem mappings, its priority from a threshold chain and its
 * impact score from a clamped weighted sum. The two database queries of
 * `process` become the sequences of mappings it is given.
 */
module GapAnalyzer {
  import opened Wrappers
  import opened CapabilityModel
  import opened GapModel
  import opened MappingModel
  import Seqs

  /** The configurable weights of the impact score. */
  datatype Weights = Weights(cost: real, time: real, impact: real)

  /** The weights used when the configuration names none. */
  const DefaultWeights: Weights := Weights(0.3, 0.3, 0.4)

  /** A resource mapping at least this good means the capability is available. */
  const ResourceMatchThreshold: real := 0.7

  /** The research value assumed blocked by each problem that requires the capability. */
  const ValuePerProblem: real := 2000000.0

  /**
   * SQL `capability_id == capability.id`: a capability that was never
   * persisted has a NULL id, which equals nothing.
   */
  predicate SameCapability(id: Option<int>, capabilityId: int)
  {
    id == Some(capabilityId)
  }

  predicate IsGoodMatch(id: Option<int>, m: CapabilityResourceMapping)
  {
    SameCapability(id, m.capabilityId) && m.matchScore >= ResourceMatchThreshold
  }

  /** The first query of `process` finds a row. */
  predicate HasResources(cap: Capability, rms: seq<CapabilityResourceMapping>)
  {
    exists k :: 0 <= k < |rms| && IsGoodMatch(cap.id, rms[k])
  }

  predicate IsRequiredFor(id: Option<int>, m: ProblemCapabilityMapping)
  {
    SameCapability(id, m.capabilityId) && m.isRequired == 1
  }

  /** The second query's `count()`: mappings of this capability that are required. */
  function CountRequired(pms: seq<ProblemCapabilityMapping>, id: Option<int>): (n: nat)
    ensures n <= |pms|
    ensures n == 0 <==> forall k :: 0 <= k < |pms| ==> !IsRequiredFor(id, pms[k])
    ensures n == |pms| <==> forall k :: 0 <= k < |pms| ==> IsRequiredFor(id, pms[k])
    decreases |pms|
  {
    if |pms| == 0 then 0
    else
      var rest := CountRequired(pms[1..], id);
      assert forall k :: 1 <= k < |pms| ==> pms[k] == pms[1..][k - 1];
      (if IsRequiredFor(id, pms[0]) then 1 else 0) + rest
  }

  /** The count adds up over the two halves of the mapping table. */
  lemma {:induction false} CountRequiredAppend(a: seq<ProblemCapabilityMapping>, b: seq<ProblemCapabilityMapping>, id: Option<int>)
    ensures CountRequired(a + b, id) == CountRequired(a, id) + CountRequired(b, id)
    decreases |a|
  {
    if |a| > 0 {
      assert (a + b)[1..] == a[1..] + b;
      CountRequiredAppend(a[1..], b, id);
    } else {
      assert a + b == b;
    }
  }

  /** Optional mappings (`is_required` other than 1) never change the count. */
  lemma CountRequiredIgnoresOptional(pms: seq<ProblemCapabilityMapping>, m: ProblemCapabilityMapping, id: Option<int>)
    requires m.isRequired != 1
    ensures CountRequired(pms + [m], id) == CountRequired(pms, id)
  {
    CountRequiredAppend(pms, [m], id);
  }

  /** `_determine_priority`: the first rule that fires, tried from critical down to low. */
  function DeterminePriority(blockedValue: real, numBlocked: int): GapPriority
  {
    if blockedValue >= 100000000.0 || numBlocked >= 10 then Critical
    else if blockedValue >= 10000000.0 || numBlocked >= 5 then High
    else if blockedValue >= 1000000.0 || numBlocked >= 2 then Medium
    else Low
  }

  /**
   * Each tier is reached exactly when one of its two thresholds is met, so
   * the chain behaves as three nested threshold tests.
   */
  lemma PriorityThresholds(blockedValue: real, numBlocked: int)
    ensures DeterminePriority(blockedValue, numBlocked).Rank() >= 3
        <==> blockedValue >= 100000000.0 || numBlocked >= 10
    ensures DeterminePriority(blockedValue, numBlocked).Rank() >= 2
        <==> blockedValue >= 10000000.0 || numBlocked >= 5
    ensures DeterminePriority(blockedValue, numBlocked).Rank() >= 1
        <==> blockedValue >= 1000000.0 || numBlocked >= 2
  {
  }

  /** Raising the blocked value or the number of blocked problems never lowers the tier. */
  lemma PriorityMonotone(v1: real, n1: int, v2: real, n2: int)
    requires v1 <= v2 && n1 <= n2
    ensures DeterminePriority(v1, n1).Rank() <= DeterminePriority(v2, n2).Rank()
  {
    PriorityThresholds(v1, n1);
    PriorityThresholds(v2, n2);
  }

  /**
   * With the blocked value derived from the count as `process` does, the
   * tier depends on the count alone: low for none, medium for 1-4, high for
   * 5-9 and critical from 10 on.
   */
  lemma PriorityOfBlockedCount(n: nat)
    ensures DeterminePriority(n as real * ValuePerProblem, n) == Low <==> n == 0
    ensures DeterminePriority(n as real * ValuePerProblem, n) == Medium <==> 1 <= n <= 4
    ensures DeterminePriority(n as real * ValuePerProblem, n) == High <==> 5 <= n <= 9
    ensures DeterminePriority(n as real * ValuePerProblem, n) == Critical <==> n >= 10
  {
    var v := n as real * ValuePerProblem;
    if n >= 10 {
      assert DeterminePriority(v, n) == Critical;
    } else if n >= 5 {
      assert v >= 10000000.0 && v < 100000000.0;
    } else if n >= 1 {
      assert v >= 1000000.0 && v < 10000000.0;
    } else {
      assert v == 0.0;
    }
  }

  /** Lower cost scores higher; negative once the cost exceeds 10M. */
  function CostScore(cost: real): real
  {
    Seqs.MinReal(1.0, 1.0 - cost / 10000000.0)
  }

  /** Shorter time scores higher; negative once the time exceeds 60 months. */
  function TimeScore(time: real): real
  {
    Seqs.MinReal(1.0, 1.0 - time / 60.0)
  }

  function ValueScore(blockedValue: real): real
  {
    Seqs.MinReal(1.0, blockedValue / 100000000.0)
  }

  function ProblemsScore(numBlocked: nat): real
  {
    Seqs.MinReal(1.0, numBlocked as real / 20.0)
  }

  /** The weighted combination before the final clamp. */
  function RawImpact(w: Weights, cost: real, time: real, blockedValue: real, numBlocked: nat): real
  {
    WeightedSum(w, CostScore(cost), TimeScore(time), ValueScore(blockedValue) + ProblemsScore(numBlocked))
  }

  /** `w_cost * x + w_time * y + w_impact * z / 2`. */
  function WeightedSum(w: Weights, x: real, y: real, z: real): real
  {
    w.cost * x + w.time * y + w.impact * z / 2.0
  }

  /** `_calculate_impact_score`: only the total is clamped into [0, 1]. */
  function CalculateImpactScore(w: Weights, cost: real, time: real, blockedValue: real, numBlocked: nat): (r: real)
    ensures 0.0 <= r <= 1.0
    ensures 0.0 <= RawImpact(w, cost, time, blockedValue, numBlocked) <= 1.0
        ==> r == RawImpact(w, cost, time, blockedValue, numBlocked)
    ensures RawImpact(w, cost, time, blockedValue, numBlocked) < 0.0 ==> r == 0.0
    ensures RawImpact(w, cost, time, blockedValue, numBlocked) > 1.0 ==> r == 1.0
  {
    Seqs.MinReal(1.0, Seqs.MaxReal(0.0, RawImpact(w, cost, time, blockedValue, numBlocked)))
  }

  /** The component scores are not clamped from below: large costs and times score negative. */
  lemma ComponentScoresMayBeNegative(cost: real, time: real)
    ensures cost > 10000000.0 ==> CostScore(cost) < 0.0
    ensures time > 60.0 ==> TimeScore(time) < 0.0
    ensures cost >= 0.0 ==> CostScore(cost) <= 1.0
    ensures time >= 0.0 ==> TimeScore(time) <= 1.0
  {
  }

  lemma MulMonotone(w: real, a: real, b: real)
    requires w >= 0.0 && a <= b
    ensures w * a <= w * b
  {
    assert w * b - w * a == w * (b - a);
  }

  /** A non-negatively weighted sum of the three parts grows with each part. */
  lemma WeightedSumMonotone(w: Weights, x1: real, y1: real, z1: real, x2: real, y2: real, z2: real)
    requires w.cost >= 0.0 && w.time >= 0.0 && w.impact >= 0.0
    requires x1 <= x2 && y1 <= y2 && z1 <= z2
    ensures WeightedSum(w, x1, y1, z1) <= WeightedSum(w, x2, y2, z2)
  {
    MulMonotone(w.cost, x1, x2);
    MulMonotone(w.time, y1, y2);
    MulMonotone(w.impact, z1, z2);
  }

  lemma {:induction false} ClampMonotone(x: real, y: real)
    requires x <= y
    ensures Seqs.MinReal(1.0, Seqs.MaxReal(0.0, x)) <= Seqs.MinReal(1.0, Seqs.MaxReal(0.0, y))
  {
  }

  /**
   * With non-negative weights the score never drops when the capability gets
   * cheaper or quicker, or when it blocks more value or more problems.
   */
  lemma ImpactMonotone(w: Weights, c1: real, t1: real, v1: real, n1: nat, c2: real, t2: real, v2: real, n2: nat)
    requires w.cost >= 0.0 && w.time >= 0.0 && w.impact >= 0.0
    requires c2 <= c1 && t2 <= t1 && v1 <= v2 && n1 <= n2
    ensures CalculateImpactScore(w, c1, t1, v1, n1) <= CalculateImpactScore(w, c2, t2, v2, n2)
  {
    RawImpactMonotone(w, c1, t1, v1, n1, c2, t2, v2, n2);
    ClampMonotone(RawImpact(w, c1, t1, v1, n1), RawImpact(w, c2, t2, v2, n2));
  }

  lemma RawImpactMonotone(w: Weights, c1: real, t1: real, v1: real, n1: nat, c2: real, t2: real, v2: real, n2: nat)
    requires w.cost >= 0.0 && w.time >= 0.0 && w.impact >= 0.0
    requires c2 <= c1 && t2 <= t1 && v1 <= v2 && n1 <= n2
    ensures RawImpact(w, c1, t1, v1, n1) <= RawImpact(w, c2, t2, v2, n2)
  {
    ComponentScoresMonotone(c1, t1, v1, n1, c2, t2, v2, n2);
    WeightedSumMonotone(w, CostScore(c1), TimeScore(t1), ValueScore(v1) + ProblemsScore(n1),
                        CostScore(c2), TimeScore(t2), ValueScore(v2) + ProblemsScore(n2));
  }

  lemma ComponentScoresMonotone(c1: real, t1: real, v1: real, n1: nat, c2: real, t2: real, v2: real, n2: nat)
    requires c2 <= c1 && t2 <= t1 && v1 <= v2 && n1 <= n2
    ensures CostScore(c1) <= CostScore(c2) && TimeScore(t1) <= TimeScore(t2)
    ensures ValueScore(v1) + ProblemsScore(n1) <= ValueScore(v2) + ProblemsScore(n2)
  {
  }

  /**
   * With the default weights, a capability costing 100000 and taking 12
   * months that blocks 12 problems scores 0.3*0.99 + 0.3*0.8 + 0.4*(0.24+0.6)/2.
   */
  lemma WorkedExample()
    ensures CalculateImpactScore(DefaultWeights, 100000.0, 12.0, 12 as real * ValuePerProblem, 12) == 0.705
  {
    assert CostScore(100000.0) == 0.99;
    assert TimeScore(12.0) == 0.8;
    assert ValueScore(24000000.0) == 0.24;
    assert ProblemsScore(12) == 0.6;
  }

  /**
   * `process`: no gap when a resource mapping with score >= 0.7 exists;
   * otherwise a gap carrying the capability's own (possibly missing)
   * estimates, scored with a missing cost or time counted as 0.
   */
  function Process(w: Weights, cap: Capability, rms: seq<CapabilityResourceMapping>, pms: seq<ProblemCapabilityMapping>): (r: Option<Gap>)
    ensures r.None? <==> HasResources(cap, rms)
    ensures r.Some? ==>
      && r.value.id == None
      && r.value.capabilityId == cap.id
      && r.value.description == "Missing capability: " + cap.name
      && r.value.estimatedCost == cap.estimatedCost
      && r.value.estimatedTime == cap.estimatedTime
      && r.value.numBlocked == CountRequired(pms, cap.id)
      && r.value.blockedValue == r.value.numBlocked as real * ValuePerProblem
      && r.value.priority == DeterminePriority(r.value.blockedValue, r.value.numBlocked)
      && r.value.impactScore == CalculateImpactScore(w, cap.estimatedCost.GetOr(0.0),
                                  cap.estimatedTime.GetOr(0.0), r.value.blockedValue, r.value.numBlocked)
  {
    if HasResources(cap, rms) then None
    else
      var n := CountRequired(pms, cap.id);
      var value := n as real * ValuePerProblem;
      Some(Gap(None, cap.id, "Missing capability: " + cap.name, cap.estimatedCost, cap.estimatedTime,
               value, n, DeterminePriority(value, n),
               CalculateImpactScore(w, cap.estimatedCost.GetOr(0.0), cap.estimatedTime.GetOr(0.0), value, n)))
  }

  /**
   * What a produced gap guarantees: its priority is low exactly when no
   * problem requires the capability, it is critical from ten problems on,
   * and its impact score lies in [0, 1]. A capability that was never
   * persisted blocks nothing.
   */
  lemma ProcessedGapProperties(w: Weights, cap: Capability, rms: seq<CapabilityResourceMapping>, pms: seq<ProblemCapabilityMapping>)
    requires !HasResources(cap, rms)
    ensures Process(w, cap, rms, pms).Some?
    ensures var g := Process(w, cap, rms, pms).value;
      && (g.priority == Low <==> forall k :: 0 <= k < |pms| ==> !IsRequiredFor(cap.id, pms[k]))
      && (g.priority == Critical <==> g.numBlocked >= 10)
      && 0.0 <= g.impactScore <= 1.0
      && g.blockedValue >= 0.0
    ensures cap.id.None? ==> Process(w, cap, rms, pms).value.numBlocked == 0
  {
    var g := Process(w, cap, rms, pms).value;
    PriorityOfBlockedCount(g.numBlocked);
  }

  /** Adding a mapping that covers the capability with score >= 0.7 closes the gap. */
  lemma GoodMappingClosesGap(w: Weights, cap: Capability, rms: seq<CapabilityResourceMapping>, m: CapabilityResourceMapping, pms: seq<ProblemCapabilityMapping>)
    requires IsGoodMatch(cap.id, m)
    ensures Process(w, cap, rms + [m], pms).None?
  {
    assert (rms + [m])[|rms|] == m;
  }
}
