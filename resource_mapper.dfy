/**
 * Resource matching and duplicate grouping
 * (longevity_map/agents/resource_mapper.py). The catalog query becomes the
 * sequence of resources it is given, in catalog order. The similarity used by
 * `process` and `find_duplicates` is a parameter: with no embedding model
 * `process` falls back to the token-set similarity `SimpleSimilarity`
 * defined here, and `find_duplicates` needs the model, whose cosine
 * similarity is not part of this model.
 */
module ResourceMapper {
  import opened Wrappers
  import opened ResourceModel
  import C = CapabilityModel
  import Text
  import Seqs

  /** The default `similarity_threshold` of `process`. */
  const DefaultSimilarityThreshold: real := 0.7

  /** The default `threshold` of `find_duplicates`. */
  const DefaultDuplicateThreshold: real := 0.9

  /**
   * `_get_compatible_resource_types`: a fixed list per named capability type,
   * every resource type for one the table does not name (`other`).
   */
  function CompatibleResourceTypes(t: C.CapabilityType): (r: seq<ResourceType>)
    ensures |r| > 0
    ensures forall i, j :: 0 <= i < j < |r| ==> r[i] != r[j]
    ensures t == C.CapabilityType.Other ==> r == AllResourceTypes
    ensures t != C.CapabilityType.Other ==> ResourceType.Other !in r && |r| <= 3
  {
    match t
    case MeasurementTool => [CoreFacility, Hardware, Software]
    case ModelSystem => [MouseModel, CellLine]
    case Dataset => [ResourceType.Dataset, Database]
    case ComputationalMethod => [ResourceType.Software]
    case Software => [ResourceType.Software]
    case Hardware => [ResourceType.Hardware, CoreFacility]
    case Protocol => [ResourceType.Protocol]
    case Infrastructure => [CoreFacility, ResourceType.Infrastructure, ResourceType.Hardware]
    case Other => AllResourceTypes
  }

  /** `list(ResourceType)` lists every resource type, so an unmapped capability type is compatible with all. */
  lemma UnmappedTypeAcceptsEverything(rt: ResourceType)
    ensures rt in CompatibleResourceTypes(C.CapabilityType.Other)
  {
  }

  // ----- token-set similarity -----

  /** `set(s.lower().split())`. */
  function TokenSet(s: string): set<string>
  {
    set w | w in Text.Words(Text.Lower(s))
  }

  /** A subset is no larger than its superset, and one of the same size is the superset. */
  lemma SubsetCardinality(a: set<string>, b: set<string>)
    requires a <= b
    ensures |a| <= |b|
    ensures |a| == |b| ==> a == b
  {
    var d := b - a;
    assert b == a + d;
    assert a * d == {};
    assert |a + d| + |a * d| == |a| + |d|;
    assert |b| == |a| + |d|;
    if |a| == |b| {
      assert |d| == 0;
      assert d == {};
    }
  }

  /** The set facts behind the Jaccard bounds, for two non-empty sets. */
  lemma JaccardSets(a: set<string>, b: set<string>)
    requires a != {} && b != {}
    ensures 0 < |a + b| && |a * b| <= |a + b|
    ensures |a * b| == |a + b| <==> a == b
    ensures |a * b| > 0 <==> a * b != {}
  {
    SubsetCardinality(a * b, a + b);
    SubsetCardinality(a, a + b);
    if |a * b| == |a + b| {
      assert a <= a * b && b <= a * b;
    }
    if a == b {
      assert a * b == a + b;
    }
    if a * b != {} {
      var x :| x in a * b;
      assert {x} <= a * b;
      SubsetCardinality({x}, a * b);
    }
  }

  /** A ratio of a count to a larger positive count. */
  lemma RatioBounds(i: nat, u: nat)
    requires 0 < u && i <= u
    ensures 0.0 <= (i as real) / (u as real) <= 1.0
    ensures (i as real) / (u as real) == 1.0 <==> i == u
    ensures (i as real) / (u as real) > 0.0 <==> i > 0
  {
  }

  /** |A & B| / |A | B|, or 0 when either set is empty. */
  function Jaccard(a: set<string>, b: set<string>): (r: real)
    ensures 0.0 <= r <= 1.0
    ensures r == 1.0 <==> a == b && a != {}
    ensures r > 0.0 <==> a * b != {}
  {
    if a == {} || b == {} then 0.0
    else
      JaccardSets(a, b);
      RatioBounds(|a * b|, |a + b|);
      (|a * b| as real) / (|a + b| as real)
  }

  lemma JaccardSymmetric(a: set<string>, b: set<string>)
    ensures Jaccard(a, b) == Jaccard(b, a)
  {
    assert a * b == b * a && a + b == b + a;
  }

  function ResourceText(r: Resource): string
  {
    r.name + " " + r.description
  }

  /** `_simple_similarity`: Jaccard similarity of the two texts' lower-cased word sets. */
  function SimpleSimilarity(capabilityText: string, r: Resource): (s: real)
    ensures 0.0 <= s <= 1.0
    ensures s == 1.0 <==> TokenSet(capabilityText) == TokenSet(ResourceText(r)) && TokenSet(capabilityText) != {}
  {
    Jaccard(TokenSet(capabilityText), TokenSet(ResourceText(r)))
  }

  /** Texts with the same words in any case or spacing are fully similar, provided they have a word. */
  lemma SimpleSimilarityOfSameWords(capabilityText: string, r: Resource)
    requires TokenSet(capabilityText) == TokenSet(ResourceText(r))
    ensures SimpleSimilarity(capabilityText, r) == (if TokenSet(capabilityText) == {} then 0.0 else 1.0)
  {
  }

  // ----- process: threshold filter then descending sort -----

  datatype ResourceMatch = ResourceMatch(resource: Resource, score: real)

  function MatchScore(m: ResourceMatch): real { m.score }

  function CapabilityText(cap: C.Capability): string
  {
    cap.name + " " + cap.description
  }

  predicate IsCandidate(cap: C.Capability, r: Resource)
  {
    r.isActive && r.rtype in CompatibleResourceTypes(cap.ctype)
  }

  /** The resource query of `process`: active resources of a compatible type, in catalog order. */
  function CandidateResources(cap: C.Capability, catalog: seq<Resource>): seq<Resource>
  {
    Seqs.Filter(catalog, (r: Resource) => IsCandidate(cap, r))
  }

  /** The scored resources that reach the threshold, in their original order. */
  function ScoredAbove(rs: seq<Resource>, text: string, threshold: real, sim: (string, Resource) -> real): (r: seq<ResourceMatch>)
    ensures |r| <= |rs|
    ensures forall k :: 0 <= k < |r| ==>
      r[k].resource in rs && r[k].score == sim(text, r[k].resource) && r[k].score >= threshold
    ensures forall k :: 0 <= k < |rs| && sim(text, rs[k]) >= threshold ==>
      ResourceMatch(rs[k], sim(text, rs[k])) in r
    decreases |rs|
  {
    if |rs| == 0 then []
    else
      var last := rs[|rs| - 1];
      var init := rs[..|rs| - 1];
      assert forall k :: 0 <= k < |rs| - 1 ==> rs[k] == init[k];
      ScoredAbove(init, text, threshold, sim)
        + (if sim(text, last) >= threshold then [ResourceMatch(last, sim(text, last))] else [])
  }

  /** What `process` returns, as a function of the catalog. */
  function Matches(cap: C.Capability, catalog: seq<Resource>, threshold: real, sim: (string, Resource) -> real): seq<ResourceMatch>
  {
    Seqs.SortDesc(ScoredAbove(CandidateResources(cap, catalog), CapabilityText(cap), threshold, sim), MatchScore)
  }

  /**
   * Every match is a candidate resource of the catalog scoring at least the
   * threshold, and every such resource is matched.
   */
  lemma MatchesExactlyTheCandidatesAbove(cap: C.Capability, catalog: seq<Resource>, threshold: real, sim: (string, Resource) -> real)
    ensures var ms := Matches(cap, catalog, threshold, sim);
      forall k :: 0 <= k < |ms| ==>
        && ms[k].score >= threshold
        && ms[k].score == sim(CapabilityText(cap), ms[k].resource)
        && ms[k].resource in catalog
        && IsCandidate(cap, ms[k].resource)
    ensures var ms := Matches(cap, catalog, threshold, sim);
      forall k :: (0 <= k < |catalog| && IsCandidate(cap, catalog[k])
                   && sim(CapabilityText(cap), catalog[k]) >= threshold) ==>
        ResourceMatch(catalog[k], sim(CapabilityText(cap), catalog[k])) in ms
  {
    var rs := CandidateResources(cap, catalog);
    var found := ScoredAbove(rs, CapabilityText(cap), threshold, sim);
    Seqs.SortDescSameElements(found, MatchScore);
    forall k | 0 <= k < |catalog| && IsCandidate(cap, catalog[k])
      ensures catalog[k] in rs
    {
    }
  }

  /** With no candidate resource in the catalog there is no match. */
  lemma NoCandidatesNoMatches(cap: C.Capability, catalog: seq<Resource>, threshold: real, sim: (string, Resource) -> real)
    requires forall k :: 0 <= k < |catalog| ==> !IsCandidate(cap, catalog[k])
    ensures Matches(cap, catalog, threshold, sim) == []
  {
  }

  /**
   * `process`: scores every candidate resource, keeps those whose score
   * reaches the threshold and sorts them by descending score.
   */
  method MatchResources(cap: C.Capability, catalog: seq<Resource>, threshold: real, sim: (string, Resource) -> real)
    returns (matches: seq<ResourceMatch>)
    ensures matches == Matches(cap, catalog, threshold, sim)
    ensures Seqs.SortedDesc(matches, MatchScore)
    ensures forall k :: 0 <= k < |matches| ==> matches[k].score >= threshold && IsCandidate(cap, matches[k].resource)
  {
    var resources := CandidateResources(cap, catalog);
    var text := CapabilityText(cap);
    if |resources| == 0 {
      return [];
    }
    var found: seq<ResourceMatch> := [];
    for i := 0 to |resources|
      invariant found == ScoredAbove(resources[..i], text, threshold, sim)
    {
      var score := sim(text, resources[i]);
      assert resources[..i + 1][..i] == resources[..i];
      if score >= threshold {
        found := found + [ResourceMatch(resources[i], score)];
      }
    }
    assert resources[..|resources|] == resources;
    matches := Seqs.SortDesc(found, MatchScore);
    MatchesExactlyTheCandidatesAbove(cap, catalog, threshold, sim);
  }

  /** Matches of equal score keep the catalog order. */
  lemma MatchTiesKeepCatalogOrder(cap: C.Capability, catalog: seq<Resource>, threshold: real, sim: (string, Resource) -> real, v: real)
    ensures var found := ScoredAbove(CandidateResources(cap, catalog), CapabilityText(cap), threshold, sim);
      Seqs.WithKey(Seqs.SortDesc(found, MatchScore), MatchScore, v) == Seqs.WithKey(found, MatchScore, v)
  {
    var found := ScoredAbove(CandidateResources(cap, catalog), CapabilityText(cap), threshold, sim);
    Seqs.SortDescStable(found, MatchScore, v);
  }

  // ----- find_duplicates: greedy grouping around seeds -----

  /** Index `j` is close enough to seed `i` (the seed's text against the other resource). */
  predicate Close(rs: seq<Resource>, sim: (string, Resource) -> real, threshold: real, i: int, j: int)
  {
    0 <= i < |rs| && 0 <= j < |rs| && sim(ResourceText(rs[i]), rs[j]) >= threshold
  }

  function SetOf(s: seq<int>): set<int>
  {
    set x | x in s
  }

  /**
   * The inner loop for seed `seed` up to (not including) `hi`: the later
   * indices not already taken whose similarity to the seed reaches the threshold.
   */
  function Partners(rs: seq<Resource>, sim: (string, Resource) -> real, threshold: real, seed: nat, taken: set<int>, hi: nat): seq<int>
    decreases hi
  {
    if hi <= seed + 1 then []
    else
      Partners(rs, sim, threshold, seed, taken, hi - 1)
        + (if hi - 1 !in taken && Close(rs, sim, threshold, seed, hi - 1) then [hi - 1] else [])
  }

  /** The partners come in increasing index order. */
  lemma {:induction false} PartnersOrdered(rs: seq<Resource>, sim: (string, Resource) -> real, threshold: real, seed: nat, taken: set<int>, hi: nat)
    ensures forall a, b :: 0 <= a < b < |Partners(rs, sim, threshold, seed, taken, hi)| ==>
      Partners(rs, sim, threshold, seed, taken, hi)[a] < Partners(rs, sim, threshold, seed, taken, hi)[b]
    decreases hi
  {
    if hi > seed + 1 {
      var prev := Partners(rs, sim, threshold, seed, taken, hi - 1);
      var ps := Partners(rs, sim, threshold, seed, taken, hi);
      assert ps == prev + (if hi - 1 !in taken && Close(rs, sim, threshold, seed, hi - 1) then [hi - 1] else []);
      PartnersOrdered(rs, sim, threshold, seed, taken, hi - 1);
      PartnersSound(rs, sim, threshold, seed, taken, hi - 1);
      forall a, b | 0 <= a < b < |ps|
        ensures ps[a] < ps[b]
      {
        assert ps[a] == prev[a];
        if b < |prev| {
          assert ps[b] == prev[b];
        } else {
          assert ps[b] == hi - 1;
        }
      }
    }
  }

  /** Every partner lies between the seed and `hi`, was not taken and is close to the seed. */
  lemma {:induction false} PartnersSound(rs: seq<Resource>, sim: (string, Resource) -> real, threshold: real, seed: nat, taken: set<int>, hi: nat)
    ensures forall m :: 0 <= m < |Partners(rs, sim, threshold, seed, taken, hi)| ==>
      var p := Partners(rs, sim, threshold, seed, taken, hi)[m];
      seed < p < hi && p !in taken && Close(rs, sim, threshold, seed, p)
    decreases hi
  {
    if hi > seed + 1 {
      var prev := Partners(rs, sim, threshold, seed, taken, hi - 1);
      var ps := Partners(rs, sim, threshold, seed, taken, hi);
      assert ps == prev + (if hi - 1 !in taken && Close(rs, sim, threshold, seed, hi - 1) then [hi - 1] else []);
      PartnersSound(rs, sim, threshold, seed, taken, hi - 1);
      forall m | 0 <= m < |ps|
        ensures seed < ps[m] < hi && ps[m] !in taken && Close(rs, sim, threshold, seed, ps[m])
      {
        if m < |prev| {
          assert ps[m] == prev[m];
        } else {
          assert ps[m] == hi - 1;
        }
      }
    }
  }

  /** Every untaken index between the seed and `hi` that is close to the seed is a partner. */
  lemma {:induction false} PartnersComplete(rs: seq<Resource>, sim: (string, Resource) -> real, threshold: real, seed: nat, taken: set<int>, hi: nat)
    ensures forall j :: seed < j < hi && j !in taken && Close(rs, sim, threshold, seed, j) ==>
      j in Partners(rs, sim, threshold, seed, taken, hi)
    decreases hi
  {
    if hi > seed + 1 {
      PartnersComplete(rs, sim, threshold, seed, taken, hi - 1);
    }
  }

  /** A seed none of whose untaken successors is close to it gets no partner. */
  lemma {:induction false} NoPartners(rs: seq<Resource>, sim: (string, Resource) -> real, threshold: real, seed: nat, taken: set<int>, hi: nat)
    requires forall j :: seed < j < hi && j !in taken ==> !Close(rs, sim, threshold, seed, j)
    ensures Partners(rs, sim, threshold, seed, taken, hi) == []
    decreases hi
  {
    if hi > seed + 1 {
      NoPartners(rs, sim, threshold, seed, taken, hi - 1);
    }
  }

  /** The union of the groups' indices. */
  function Union(groups: seq<seq<int>>): set<int>
    decreases |groups|
  {
    if |groups| == 0 then {} else Union(groups[..|groups| - 1]) + SetOf(groups[|groups| - 1])
  }

  lemma UnionSnoc(groups: seq<seq<int>>, g: seq<int>)
    ensures Union(groups + [g]) == Union(groups) + SetOf(g)
  {
    assert (groups + [g])[..|groups|] == groups;
  }

  lemma {:induction false} UnionContains(groups: seq<seq<int>>, k: nat)
    requires k < |groups|
    ensures SetOf(groups[k]) <= Union(groups)
    decreases |groups|
  {
    if k < |groups| - 1 {
      UnionContains(groups[..|groups| - 1], k);
    }
  }

  /** The first index of a group, its seed. */
  function Seed(g: seq<int>): int
  {
    if |g| > 0 then g[0] else 0
  }

  /**
   * A group: a seed followed by its partners in catalog order, each close
   * to the seed (partners are never compared with one another).
   */
  predicate IsGroup(rs: seq<Resource>, sim: (string, Resource) -> real, threshold: real, g: seq<int>)
  {
    && |g| >= 2
    && 0 <= g[0] < |rs|
    && (forall a, b :: 0 <= a < b < |g| ==> g[a] < g[b])
    && (forall m :: 1 <= m < |g| ==> g[0] < g[m] && Close(rs, sim, threshold, g[0], g[m]))
  }

  /** The loop state after some seeds: the groups found and the `processed` set. */
  datatype GreedyState = GreedyState(groups: seq<seq<int>>, taken: set<int>)

  /** One turn of the outer loop, for index `seed`. */
  function Step(rs: seq<Resource>, sim: (string, Resource) -> real, threshold: real, st: GreedyState, seed: nat): GreedyState
  {
    if seed in st.taken then st
    else
      var ps := Partners(rs, sim, threshold, seed, st.taken, |rs|);
      if |ps| == 0 then st
      else GreedyState(st.groups + [[seed] + ps], st.taken + SetOf([seed] + ps))
  }

  /** A seed with its partners forms a group that shares no index with `taken`. */
  lemma NewGroup(rs: seq<Resource>, sim: (string, Resource) -> real, threshold: real, seed: nat, taken: set<int>)
    requires seed < |rs| && seed !in taken
    requires |Partners(rs, sim, threshold, seed, taken, |rs|)| > 0
    ensures var g := [seed] + Partners(rs, sim, threshold, seed, taken, |rs|);
      IsGroup(rs, sim, threshold, g) && Seed(g) == seed && taken !! SetOf(g)
  {
    var ps := Partners(rs, sim, threshold, seed, taken, |rs|);
    PartnersOrdered(rs, sim, threshold, seed, taken, |rs|);
    PartnersSound(rs, sim, threshold, seed, taken, |rs|);
    var g := [seed] + ps;
    forall a, b | 0 <= a < b < |g|
      ensures g[a] < g[b]
    {
      assert g[b] == ps[b - 1];
      if a > 0 {
        assert g[a] == ps[a - 1];
      }
    }
    forall m | 1 <= m < |g|
      ensures g[0] < g[m] && Close(rs, sim, threshold, g[0], g[m])
    {
      assert g[m] == ps[m - 1];
    }
    forall x | x in SetOf(g)
      ensures x !in taken
    {
      var m :| 0 <= m < |g| && g[m] == x;
      if m > 0 {
        assert g[m] == ps[m - 1];
      }
    }
  }

  /** `find_duplicates` on the active resources, carried out for the seeds `0 .. i-1`. */
  function Greedy(rs: seq<Resource>, sim: (string, Resource) -> real, threshold: real, i: nat): GreedyState
    decreases i
  {
    if i == 0 then GreedyState([], {})
    else Step(rs, sim, threshold, Greedy(rs, sim, threshold, i - 1), i - 1)
  }

  /** `processed` is always exactly the set of indices in the groups found so far. */
  lemma {:induction false} GreedyTakenIsUnion(rs: seq<Resource>, sim: (string, Resource) -> real, threshold: real, i: nat)
    ensures Greedy(rs, sim, threshold, i).taken == Union(Greedy(rs, sim, threshold, i).groups)
    decreases i
  {
    if i > 0 {
      var prev := Greedy(rs, sim, threshold, i - 1);
      GreedyTakenIsUnion(rs, sim, threshold, i - 1);
      assert Greedy(rs, sim, threshold, i) == Step(rs, sim, threshold, prev, i - 1);
      var ps := Partners(rs, sim, threshold, i - 1, prev.taken, |rs|);
      UnionSnoc(prev.groups, [i - 1] + ps);
    }
  }

  /** Every group found before seed `i` is well formed and has its seed before `i`. */
  lemma {:induction false} GreedyGroupsWellFormed(rs: seq<Resource>, sim: (string, Resource) -> real, threshold: real, i: nat)
    requires i <= |rs|
    ensures forall k :: 0 <= k < |Greedy(rs, sim, threshold, i).groups| ==>
      IsGroup(rs, sim, threshold, Greedy(rs, sim, threshold, i).groups[k]) && Seed(Greedy(rs, sim, threshold, i).groups[k]) < i
    decreases i
  {
    if i > 0 {
      var prev := Greedy(rs, sim, threshold, i - 1);
      var cur := Greedy(rs, sim, threshold, i);
      GreedyGroupsWellFormed(rs, sim, threshold, i - 1);
      assert cur == Step(rs, sim, threshold, prev, i - 1);
      if cur.groups != prev.groups {
        var ps := Partners(rs, sim, threshold, i - 1, prev.taken, |rs|);
        NewGroup(rs, sim, threshold, i - 1, prev.taken);
        assert cur.groups == prev.groups + [[i - 1] + ps];
        forall k | 0 <= k < |cur.groups|
          ensures IsGroup(rs, sim, threshold, cur.groups[k]) && Seed(cur.groups[k]) < i
        {
          if k < |prev.groups| {
            assert cur.groups[k] == prev.groups[k];
          }
        }
      }
    }
  }

  /** Every group shares no index with the groups before it. */
  predicate EarlierDisjoint(groups: seq<seq<int>>)
    decreases |groups|
  {
    |groups| == 0 ||
    (EarlierDisjoint(groups[..|groups| - 1]) && Union(groups[..|groups| - 1]) !! SetOf(groups[|groups| - 1]))
  }

  /** Reading `EarlierDisjoint` at one group. */
  lemma {:induction false} EarlierDisjointAt(groups: seq<seq<int>>, k: nat)
    requires EarlierDisjoint(groups) && k < |groups|
    ensures Union(groups[..k]) !! SetOf(groups[k])
    decreases |groups|
  {
    if k < |groups| - 1 {
      var init := groups[..|groups| - 1];
      EarlierDisjointAt(init, k);
      assert init[..k] == groups[..k];
    }
  }

  /** Appending a group disjoint from all earlier ones keeps every group disjoint from those before it. */
  lemma AppendDisjointGroup(groups: seq<seq<int>>, g: seq<int>)
    requires EarlierDisjoint(groups)
    requires Union(groups) !! SetOf(g)
    ensures EarlierDisjoint(groups + [g])
  {
    assert (groups + [g])[..|groups|] == groups;
  }

  /** One turn of the outer loop keeps the groups pairwise disjoint when `processed` is their union. */
  lemma StepKeepsDisjoint(rs: seq<Resource>, sim: (string, Resource) -> real, threshold: real, st: GreedyState, seed: nat)
    requires seed < |rs|
    requires st.taken == Union(st.groups) && EarlierDisjoint(st.groups)
    ensures EarlierDisjoint(Step(rs, sim, threshold, st, seed).groups)
  {
    if seed !in st.taken {
      var ps := Partners(rs, sim, threshold, seed, st.taken, |rs|);
      if |ps| > 0 {
        NewGroup(rs, sim, threshold, seed, st.taken);
        AppendDisjointGroup(st.groups, [seed] + ps);
      }
    }
  }

  /** Every group shares no index with the groups found before it. */
  lemma {:induction false} GreedyGroupsDisjoint(rs: seq<Resource>, sim: (string, Resource) -> real, threshold: real, i: nat)
    requires i <= |rs|
    ensures EarlierDisjoint(Greedy(rs, sim, threshold, i).groups)
    decreases i
  {
    if i > 0 {
      var prev := Greedy(rs, sim, threshold, i - 1);
      assert Greedy(rs, sim, threshold, i) == Step(rs, sim, threshold, prev, i - 1);
      GreedyGroupsDisjoint(rs, sim, threshold, i - 1);
      GreedyTakenIsUnion(rs, sim, threshold, i - 1);
      StepKeepsDisjoint(rs, sim, threshold, prev, i - 1);
    }
  }

  /** No resource is in two groups. */
  lemma GroupsDisjoint(rs: seq<Resource>, sim: (string, Resource) -> real, threshold: real, i: nat, k1: nat, k2: nat)
    requires i <= |rs|
    requires k1 < k2 < |Greedy(rs, sim, threshold, i).groups|
    ensures SetOf(Greedy(rs, sim, threshold, i).groups[k1]) !! SetOf(Greedy(rs, sim, threshold, i).groups[k2])
  {
    var groups := Greedy(rs, sim, threshold, i).groups;
    GreedyGroupsDisjoint(rs, sim, threshold, i);
    EarlierDisjointAt(groups, k2);
    UnionContains(groups[..k2], k1);
    assert groups[..k2][k1] == groups[k1];
  }

  /** Later steps only append groups, each seeded at or after the step they start from. */
  lemma {:induction false} GreedyExtends(rs: seq<Resource>, sim: (string, Resource) -> real, threshold: real, i: nat, i2: nat)
    requires i <= i2
    ensures Greedy(rs, sim, threshold, i).groups <= Greedy(rs, sim, threshold, i2).groups
    ensures forall k :: |Greedy(rs, sim, threshold, i).groups| <= k < |Greedy(rs, sim, threshold, i2).groups| ==>
      Seed(Greedy(rs, sim, threshold, i2).groups[k]) >= i
    decreases i2
  {
    if i < i2 {
      GreedyExtends(rs, sim, threshold, i, i2 - 1);
      var prev := Greedy(rs, sim, threshold, i2 - 1);
      var cur := Greedy(rs, sim, threshold, i2);
      assert cur == Step(rs, sim, threshold, prev, i2 - 1);
      if cur.groups != prev.groups {
        var ps := Partners(rs, sim, threshold, i2 - 1, prev.taken, |rs|);
        assert cur.groups == prev.groups + [[i2 - 1] + ps];
      }
    }
  }

  /**
   * Maximality: a group takes every later resource close to its seed that no
   * earlier group absorbed.
   */
  lemma {:induction false} GreedyMaximal(rs: seq<Resource>, sim: (string, Resource) -> real, threshold: real, i: nat, k: nat, j: nat)
    requires i <= |rs|
    requires k < |Greedy(rs, sim, threshold, i).groups|
    requires Seed(Greedy(rs, sim, threshold, i).groups[k]) < j
    requires Close(rs, sim, threshold, Seed(Greedy(rs, sim, threshold, i).groups[k]), j)
    requires j !in Union(Greedy(rs, sim, threshold, i).groups[..k])
    ensures j in Greedy(rs, sim, threshold, i).groups[k]
    decreases i
  {
    var prev := Greedy(rs, sim, threshold, i - 1);
    var cur := Greedy(rs, sim, threshold, i);
    assert cur == Step(rs, sim, threshold, prev, i - 1);
    if k < |prev.groups| {
      assert cur.groups[..k] == prev.groups[..k];
      assert cur.groups[k] == prev.groups[k];
      GreedyMaximal(rs, sim, threshold, i - 1, k, j);
    } else {
      GreedyTakenIsUnion(rs, sim, threshold, i - 1);
      assert cur.groups[..k] == prev.groups;
      var ps := Partners(rs, sim, threshold, i - 1, prev.taken, |rs|);
      PartnersComplete(rs, sim, threshold, i - 1, prev.taken, |rs|);
      assert cur.groups[k] == [i - 1] + ps;
      assert j in ps;
    }
  }

  /**
   * A resource that was not absorbed before its turn and finds no partner
   * (a lone seed) is in no group of the result.
   */
  lemma LoneSeedInNoGroup(rs: seq<Resource>, sim: (string, Resource) -> real, threshold: real, s: nat)
    requires s < |rs|
    requires s !in Greedy(rs, sim, threshold, s).taken
    requires forall j :: s < j < |rs| && j !in Greedy(rs, sim, threshold, s).taken ==> !Close(rs, sim, threshold, s, j)
    ensures forall k :: 0 <= k < |Greedy(rs, sim, threshold, |rs|).groups| ==>
      s !in Greedy(rs, sim, threshold, |rs|).groups[k]
  {
    var before := Greedy(rs, sim, threshold, s);
    NoPartners(rs, sim, threshold, s, before.taken, |rs|);
    assert Greedy(rs, sim, threshold, s + 1) == before;
    GreedyExtends(rs, sim, threshold, s + 1, |rs|);
    GreedyTakenIsUnion(rs, sim, threshold, s);
    GreedyGroupsWellFormed(rs, sim, threshold, |rs|);
    var fin := Greedy(rs, sim, threshold, |rs|);
    forall k | 0 <= k < |fin.groups|
      ensures s !in fin.groups[k]
    {
      if k < |before.groups| {
        assert fin.groups[k] == before.groups[k];
        UnionContains(before.groups, k);
        assert s !in SetOf(before.groups[k]);
      } else {
        assert IsGroup(rs, sim, threshold, fin.groups[k]);
        assert fin.groups[k][0] >= s + 1;
      }
    }
  }

  /** The resources of the indices of one group. */
  function Pick(rs: seq<Resource>, g: seq<int>): seq<Resource>
    decreases |g|
  {
    if |g| == 0 then []
    else Pick(rs, g[..|g| - 1]) + (if 0 <= g[|g| - 1] < |rs| then [rs[g[|g| - 1]]] else [])
  }

  lemma PickSnoc(rs: seq<Resource>, g: seq<int>, j: nat)
    requires j < |rs|
    ensures Pick(rs, g + [j]) == Pick(rs, g) + [rs[j]]
  {
    assert (g + [j])[..|g|] == g;
  }

  lemma {:induction false} PickCons(rs: seq<Resource>, i: nat, g: seq<int>)
    requires i < |rs|
    ensures Pick(rs, [i] + g) == [rs[i]] + Pick(rs, g)
    decreases |g|
  {
    if |g| > 0 {
      assert ([i] + g)[..|g|] == [i] + g[..|g| - 1];
      PickCons(rs, i, g[..|g| - 1]);
    }
  }

  /** With every index in range, picking keeps length and order. */
  lemma {:induction false} PickInRange(rs: seq<Resource>, g: seq<int>)
    requires forall m :: 0 <= m < |g| ==> 0 <= g[m] < |rs|
    ensures |Pick(rs, g)| == |g|
    ensures forall m :: 0 <= m < |g| ==> Pick(rs, g)[m] == rs[g[m]]
    decreases |g|
  {
    if |g| > 0 {
      PickInRange(rs, g[..|g| - 1]);
    }
  }

  /** The groups as lists of resources. */
  function Resolve(rs: seq<Resource>, groups: seq<seq<int>>): (r: seq<seq<Resource>>)
    ensures |r| == |groups|
    ensures forall k :: 0 <= k < |groups| ==> r[k] == Pick(rs, groups[k])
  {
    seq(|groups|, k requires 0 <= k < |groups| => Pick(rs, groups[k]))
  }

  lemma ResolveSnoc(rs: seq<Resource>, groups: seq<seq<int>>, g: seq<int>)
    ensures Resolve(rs, groups + [g]) == Resolve(rs, groups) + [Pick(rs, g)]
  {
  }

  function Active(catalog: seq<Resource>): seq<Resource>
  {
    Seqs.Filter(catalog, (r: Resource) => r.isActive)
  }

  /** The groups `find_duplicates` returns on a given list of active resources. */
  function DuplicateGroups(rs: seq<Resource>, sim: (string, Resource) -> real, threshold: real): seq<seq<Resource>>
  {
    Resolve(rs, Greedy(rs, sim, threshold, |rs|).groups)
  }

  /** What `find_duplicates` returns for a catalog: nothing without active resources or without a model. */
  function DuplicatesFound(catalog: seq<Resource>, hasModel: bool, threshold: real, sim: (string, Resource) -> real): seq<seq<Resource>>
  {
    if |Active(catalog)| == 0 || !hasModel then [] else DuplicateGroups(Active(catalog), sim, threshold)
  }

  /**
   * Every returned group has at least two resources, and each resource after
   * the first reaches the threshold in similarity to the first.
   */
  lemma DuplicateGroupsShape(rs: seq<Resource>, sim: (string, Resource) -> real, threshold: real)
    ensures forall k :: 0 <= k < |DuplicateGroups(rs, sim, threshold)| ==>
      var group := DuplicateGroups(rs, sim, threshold)[k];
      |group| >= 2 && forall m :: 1 <= m < |group| ==> sim(ResourceText(group[0]), group[m]) >= threshold
  {
    var groups := Greedy(rs, sim, threshold, |rs|).groups;
    var dups := DuplicateGroups(rs, sim, threshold);
    GreedyGroupsWellFormed(rs, sim, threshold, |rs|);
    forall k | 0 <= k < |dups|
      ensures |dups[k]| >= 2
      ensures forall m :: 1 <= m < |dups[k]| ==> sim(ResourceText(dups[k][0]), dups[k][m]) >= threshold
    {
      var g := groups[k];
      assert IsGroup(rs, sim, threshold, g);
      PickInRange(rs, g);
      assert dups[k] == Pick(rs, g);
      forall m | 1 <= m < |dups[k]|
        ensures sim(ResourceText(dups[k][0]), dups[k][m]) >= threshold
      {
        assert Close(rs, sim, threshold, g[0], g[m]);
      }
    }
  }

  /**
   * One turn of the inner loop, in the terms the loop uses: index `j` joins
   * the partners exactly when it is untaken and close to the seed.
   */
  lemma InnerStep(rs: seq<Resource>, sim: (string, Resource) -> real, threshold: real, i: nat, taken: set<int>, j: nat,
                  ps: seq<int>, grown: set<int>, group: seq<Resource>)
    requires i < j < |rs|
    requires ps == Partners(rs, sim, threshold, i, taken, j)
    requires grown == taken + SetOf(ps)
    requires group == [rs[i]] + Pick(rs, ps)
    ensures j in grown <==> j in taken
    ensures j !in grown && sim(ResourceText(rs[i]), rs[j]) >= threshold ==>
      && Partners(rs, sim, threshold, i, taken, j + 1) == ps + [j]
      && grown + {j} == taken + SetOf(ps + [j])
      && group + [rs[j]] == [rs[i]] + Pick(rs, ps + [j])
    ensures !(j !in grown && sim(ResourceText(rs[i]), rs[j]) >= threshold) ==>
      Partners(rs, sim, threshold, i, taken, j + 1) == ps
  {
    PartnersSound(rs, sim, threshold, i, taken, j);
    assert j !in SetOf(ps);
    assert SetOf(ps + [j]) == SetOf(ps) + {j};
    PickSnoc(rs, ps, j);
    assert group + [rs[j]] == [rs[i]] + (Pick(rs, ps) + [rs[j]]);
  }

  /** A seed already absorbed by an earlier group leaves the state as it is. */
  lemma SkipStep(rs: seq<Resource>, sim: (string, Resource) -> real, threshold: real, i: nat, st: GreedyState)
    requires Greedy(rs, sim, threshold, i) == st
    requires i in st.taken
    ensures Greedy(rs, sim, threshold, i + 1) == st
  {
  }

  /** A turn for an unabsorbed seed appends the seed with its partners, when it has any. */
  lemma StepUnabsorbed(rs: seq<Resource>, sim: (string, Resource) -> real, threshold: real, st: GreedyState, i: nat)
    requires i !in st.taken
    ensures var ps := Partners(rs, sim, threshold, i, st.taken, |rs|);
      Step(rs, sim, threshold, st, i)
        == if |ps| == 0 then st
           else GreedyState(st.groups + [[i] + ps], (st.taken + SetOf(ps)) + {i})
  {
    var ps := Partners(rs, sim, threshold, i, st.taken, |rs|);
    assert SetOf([i] + ps) == SetOf(ps) + {i};
    assert st.taken + SetOf([i] + ps) == (st.taken + SetOf(ps)) + {i};
  }

  /**
   * One turn of the outer loop for an unabsorbed seed, in the terms the loop
   * uses: a group of more than one resource is appended and its seed marked
   * processed; otherwise only the inner loop's additions remain (there are none).
   */
  lemma OuterStep(rs: seq<Resource>, sim: (string, Resource) -> real, threshold: real, i: nat,
                  groups: seq<seq<int>>, processed: set<int>, duplicates: seq<seq<Resource>>,
                  group: seq<Resource>, grown: set<int>)
    requires i < |rs|
    requires Greedy(rs, sim, threshold, i) == GreedyState(groups, processed)
    requires duplicates == Resolve(rs, groups)
    requires i !in processed
    requires group == [rs[i]] + Pick(rs, Partners(rs, sim, threshold, i, processed, |rs|))
    requires grown == processed + SetOf(Partners(rs, sim, threshold, i, processed, |rs|))
    ensures |group| > 1 ==>
      var g := [i] + Partners(rs, sim, threshold, i, processed, |rs|);
      && Greedy(rs, sim, threshold, i + 1) == GreedyState(groups + [g], grown + {i})
      && duplicates + [group] == Resolve(rs, groups + [g])
    ensures |group| <= 1 ==> Greedy(rs, sim, threshold, i + 1) == GreedyState(groups, grown)
  {
    var ps := Partners(rs, sim, threshold, i, processed, |rs|);
    PartnersSound(rs, sim, threshold, i, processed, |rs|);
    PickInRange(rs, ps);
    assert |group| == 1 + |ps|;
    var st := GreedyState(groups, processed);
    assert Greedy(rs, sim, threshold, i + 1) == Step(rs, sim, threshold, st, i);
    StepUnabsorbed(rs, sim, threshold, st, i);
    if |ps| > 0 {
      ResolveSnoc(rs, groups, [i] + ps);
      PickCons(rs, i, ps);
    } else {
      assert SetOf(ps) == {};
    }
  }

  /**
   * The inner loop of `find_duplicates` for seed `i`: walks the later
   * resources, skipping processed ones, and adds each one similar enough to
   * the seed to the group and to `processed`.
   */
  method GrowGroup(resources: seq<Resource>, sim: (string, Resource) -> real, threshold: real, i: nat, processed: set<int>)
    returns (group: seq<Resource>, grown: set<int>)
    requires i < |resources|
    ensures group == [resources[i]] + Pick(resources, Partners(resources, sim, threshold, i, processed, |resources|))
    ensures grown == processed + SetOf(Partners(resources, sim, threshold, i, processed, |resources|))
  {
    group := [resources[i]];
    grown := processed;
    ghost var ps: seq<int> := [];
    for j := i + 1 to |resources|
      invariant ps == Partners(resources, sim, threshold, i, processed, j)
      invariant grown == processed + SetOf(ps)
      invariant group == [resources[i]] + Pick(resources, ps)
    {
      InnerStep(resources, sim, threshold, i, processed, j, ps, grown, group);
      if j in grown {
        continue;
      }
      if sim(ResourceText(resources[i]), resources[j]) >= threshold {
        group := group + [resources[j]];
        grown := grown + {j};
        ps := ps + [j];
      }
    }
  }

  /**
   * `find_duplicates`: [] without active resources or without an embedding
   * model; otherwise the greedy grouping, where each not-yet-absorbed
   * resource in turn seeds a group of the later, not-yet-absorbed resources
   * similar to it, and groups of one are dropped.
   */
  method FindDuplicates(catalog: seq<Resource>, hasModel: bool, threshold: real, sim: (string, Resource) -> real)
    returns (duplicates: seq<seq<Resource>>)
    ensures |Active(catalog)| == 0 || !hasModel ==> duplicates == []
    ensures |Active(catalog)| > 0 && hasModel ==> duplicates == DuplicateGroups(Active(catalog), sim, threshold)
  {
    var resources := Active(catalog);
    if |resources| == 0 || !hasModel {
      return [];
    }
    duplicates := [];
    var processed: set<int> := {};
    ghost var groups: seq<seq<int>> := [];
    for i := 0 to |resources|
      invariant Greedy(resources, sim, threshold, i) == GreedyState(groups, processed)
      invariant duplicates == Resolve(resources, groups)
    {
      if i in processed {
        SkipStep(resources, sim, threshold, i, GreedyState(groups, processed));
        continue;
      }
      var group, grown := GrowGroup(resources, sim, threshold, i, processed);
      OuterStep(resources, sim, threshold, i, groups, processed, duplicates, group, grown);
      if |group| > 1 {
        groups := groups + [[i] + Partners(resources, sim, threshold, i, processed, |resources|)];
        duplicates := duplicates + [group];
        processed := grown + {i};
      } else {
        processed := grown;
      }
    }
  }

  /**
   * Seeding is not transitive: with similarities 0.95 and 0.92 from the
   * first resource to the other two and 0.80 between those two, threshold
   * 0.9 puts all three into one group.
   */
  lemma NonTransitiveGrouping(a: Resource, b: Resource, c: Resource, sim: (string, Resource) -> real)
    requires sim(ResourceText(a), b) == 0.95 && sim(ResourceText(a), c) == 0.92
    requires sim(ResourceText(b), c) == 0.80
    ensures Greedy([a, b, c], sim, 0.9, 3).groups == [[0, 1, 2]]
  {
    var rs := [a, b, c];
    var s0 := GreedyState([], {});
    assert Greedy(rs, sim, 0.9, 0) == s0;
    assert Close(rs, sim, 0.9, 0, 1) && Close(rs, sim, 0.9, 0, 2);
    assert Partners(rs, sim, 0.9, 0, {}, 1) == [];
    assert Partners(rs, sim, 0.9, 0, {}, 2) == [1];
    assert Partners(rs, sim, 0.9, 0, {}, 3) == [1, 2];
    var s1 := GreedyState([[0, 1, 2]], SetOf([0, 1, 2]));
    assert [0] + [1, 2] == [0, 1, 2];
    assert Step(rs, sim, 0.9, s0, 0) == s1;
    assert Greedy(rs, sim, 0.9, 1) == s1;
    assert 1 in s1.taken && 2 in s1.taken;
    assert Step(rs, sim, 0.9, s1, 1) == s1;
    assert Greedy(rs, sim, 0.9, 2) == s1;
    assert Step(rs, sim, 0.9, s1, 2) == s1;
  }
}
