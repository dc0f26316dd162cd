/**
 * Coordination (longevity_map/agents/coordination_agent.py): the duplicate
 * groups the resource mapper finds at the fixed threshold 0.85 become
 * clusters once they hold enough groups, and every cluster becomes a
 * coordination opportunity graded by how many groups build the same thing.
 * The database session becomes the catalog, the embedding model's presence
 * and its similarity, exactly as `ResourceMapper.FindDuplicates` takes them.
 */
module CoordinationAgent {
  import opened Wrappers
  import opened ResourceModel
  import Text
  import ResourceMapper
  import Seqs

  /** The `threshold` `detect_duplication_clusters` passes to `find_duplicates`. */
  const ClusterThreshold: real := 0.85

  /** The default `min_groups` of `detect_duplication_clusters`. */
  const DefaultMinGroups: int := 3

  /** The `min_groups` `find_coordination_opportunities` asks for. */
  const OpportunityMinGroups: int := 2

  /** One entry of a cluster's `"resources"` list. */
  datatype ResourceSummary = ResourceSummary(id: int, name: string, organization: Option<string>, rtype: string)

  /** The cluster dictionary. */
  datatype Cluster = Cluster(resources: seq<ResourceSummary>, numGroups: nat, description: string)

  /** The opportunity dictionary; `kind` is its `"type"` entry. */
  datatype Opportunity = Opportunity(
    kind: string,
    severity: string,
    description: string,
    resources: seq<ResourceSummary>,
    recommendation: string)

  function Summary(r: Resource): ResourceSummary
  {
    ResourceSummary(r.id, r.name, r.organization, r.rtype.Value())
  }

  /** The cluster dictionary built from one duplicate group. */
  function ClusterOf(group: seq<Resource>): Cluster
  {
    Cluster(seq(|group|, k requires 0 <= k < |group| => Summary(group[k])), |group|,
            if |group| > 0 then group[0].description else "")
  }

  /** The clusters of the groups that have at least `minGroups` members, in the groups' order. */
  function Clusters(dups: seq<seq<Resource>>, minGroups: int): seq<Cluster>
    decreases |dups|
  {
    if |dups| == 0 then []
    else
      var last := dups[|dups| - 1];
      Clusters(dups[..|dups| - 1], minGroups) + (if |last| >= minGroups then [ClusterOf(last)] else [])
  }

  lemma ClustersSnoc(dups: seq<seq<Resource>>, i: int, minGroups: int)
    requires 0 <= i < |dups|
    ensures Clusters(dups[..i + 1], minGroups)
         == Clusters(dups[..i], minGroups) + (if |dups[i]| >= minGroups then [ClusterOf(dups[i])] else [])
  {
    assert dups[..i + 1][..i] == dups[..i];
  }

  /** Clustering works group by group: the clusters of two runs of groups are concatenated. */
  lemma {:induction false} ClustersAppend(a: seq<seq<Resource>>, b: seq<seq<Resource>>, minGroups: int)
    ensures Clusters(a + b, minGroups) == Clusters(a, minGroups) + Clusters(b, minGroups)
    decreases |b|
  {
    if |b| == 0 {
      assert a + b == a;
    } else {
      var b' := b[..|b| - 1];
      assert (a + b)[..|a + b| - 1] == a + b';
      assert (a + b)[|a + b| - 1] == b[|b| - 1];
      ClustersAppend(a, b', minGroups);
    }
  }

  /** Every cluster is the cluster of a group of the input with at least `minGroups` members. */
  lemma {:induction false} ClustersSound(dups: seq<seq<Resource>>, minGroups: int)
    ensures forall k :: 0 <= k < |Clusters(dups, minGroups)| ==>
      Clusters(dups, minGroups)[k].numGroups >= minGroups
      && exists j :: 0 <= j < |dups| && Clusters(dups, minGroups)[k] == ClusterOf(dups[j])
    decreases |dups|
  {
    if |dups| > 0 {
      var init := dups[..|dups| - 1];
      ClustersSound(init, minGroups);
      forall k | 0 <= k < |Clusters(init, minGroups)|
        ensures exists j :: 0 <= j < |dups| && Clusters(init, minGroups)[k] == ClusterOf(dups[j])
      {
        var j :| 0 <= j < |init| && Clusters(init, minGroups)[k] == ClusterOf(init[j]);
        assert init[j] == dups[j];
      }
    }
  }

  /** Every group of the input with at least `minGroups` members has its cluster. */
  lemma {:induction false} ClustersComplete(dups: seq<seq<Resource>>, minGroups: int)
    ensures forall j :: 0 <= j < |dups| && |dups[j]| >= minGroups ==> ClusterOf(dups[j]) in Clusters(dups, minGroups)
    decreases |dups|
  {
    if |dups| > 0 {
      var init := dups[..|dups| - 1];
      ClustersComplete(init, minGroups);
      forall j | 0 <= j < |dups| - 1 && |dups[j]| >= minGroups
        ensures ClusterOf(dups[j]) in Clusters(dups, minGroups)
      {
        assert init[j] == dups[j];
      }
    }
  }

  /** When every group is large enough, there is one cluster per group, in order. */
  lemma {:induction false} ClustersOfLargeGroups(dups: seq<seq<Resource>>, minGroups: int)
    requires forall j :: 0 <= j < |dups| ==> |dups[j]| >= minGroups
    ensures |Clusters(dups, minGroups)| == |dups|
    ensures forall j :: 0 <= j < |dups| ==> Clusters(dups, minGroups)[j] == ClusterOf(dups[j])
    decreases |dups|
  {
    if |dups| > 0 {
      var init := dups[..|dups| - 1];
      ClustersOfLargeGroups(init, minGroups);
    }
  }

  /** A cluster lists its group's resources in order, counts them, and describes them by the first one. */
  lemma ClusterContents(group: seq<Resource>)
    ensures |ClusterOf(group).resources| == ClusterOf(group).numGroups == |group|
    ensures forall k :: 0 <= k < |group| ==>
      ClusterOf(group).resources[k] ==
        ResourceSummary(group[k].id, group[k].name, group[k].organization, group[k].rtype.Value())
    ensures |group| > 0 ==> ClusterOf(group).description == group[0].description
  {
  }

  /** `detect_duplication_clusters`: keeps, in order, the duplicate groups with at least `min_groups` members. */
  method DetectDuplicationClusters(catalog: seq<Resource>, hasModel: bool, sim: (string, Resource) -> real, minGroups: int)
    returns (clusters: seq<Cluster>)
    ensures clusters == Clusters(ResourceMapper.DuplicatesFound(catalog, hasModel, ClusterThreshold, sim), minGroups)
  {
    var duplicates := ResourceMapper.FindDuplicates(catalog, hasModel, ClusterThreshold, sim);
    clusters := [];
    for i := 0 to |duplicates|
      invariant clusters == Clusters(duplicates[..i], minGroups)
    {
      ClustersSnoc(duplicates, i, minGroups);
      if |duplicates[i]| >= minGroups {
        clusters := clusters + [ClusterOf(duplicates[i])];
      }
    }
    assert duplicates[..|duplicates|] == duplicates;
  }

  /** The opportunity dictionary made from one cluster. */
  function OpportunityOf(c: Cluster): Opportunity
  {
    Opportunity("duplication", if c.numGroups >= 3 then "high" else "medium",
                Text.NatToString(c.numGroups) + " groups building similar resources",
                c.resources, "Consider coordination or resource sharing")
  }

  /** The filter `find_coordination_opportunities` applies to the clusters. */
  predicate ManyGroups(c: Cluster)
  {
    c.numGroups >= 2
  }

  /** The opportunities of the clusters with at least two groups, in order. */
  function Opportunities(clusters: seq<Cluster>): seq<Opportunity>
  {
    Seqs.FilterMap(clusters, ManyGroups, OpportunityOf)
  }

  lemma OpportunitiesSnoc(clusters: seq<Cluster>, i: int)
    requires 0 <= i < |clusters|
    ensures Opportunities(clusters[..i + 1])
         == Opportunities(clusters[..i]) + (if clusters[i].numGroups >= 2 then [OpportunityOf(clusters[i])] else [])
  {
    Seqs.FilterMapSnoc(clusters, ManyGroups, OpportunityOf, i);
  }

  /** When every cluster has at least two groups, each one yields its opportunity, in order. */
  lemma OpportunitiesOfLargeClusters(clusters: seq<Cluster>)
    requires forall j :: 0 <= j < |clusters| ==> clusters[j].numGroups >= 2
    ensures |Opportunities(clusters)| == |clusters|
    ensures forall j :: 0 <= j < |clusters| ==> Opportunities(clusters)[j] == OpportunityOf(clusters[j])
  {
    Seqs.FilterMapAllKept(clusters, ManyGroups, OpportunityOf);
  }

  /** The spelled-out count in an opportunity's description is the number of groups. */
  lemma OpportunityDescription(c: Cluster)
    ensures OpportunityOf(c).description[..|Text.NatToString(c.numGroups)|] == Text.NatToString(c.numGroups)
    ensures Text.DigitsValue(Text.NatToString(c.numGroups)) == c.numGroups
  {
    Text.NatToStringValue(c.numGroups);
  }

  /** `find_coordination_opportunities`: one opportunity per cluster of at least two groups. */
  method FindCoordinationOpportunities(catalog: seq<Resource>, hasModel: bool, sim: (string, Resource) -> real)
    returns (opportunities: seq<Opportunity>)
    ensures opportunities
         == Opportunities(Clusters(ResourceMapper.DuplicatesFound(catalog, hasModel, ClusterThreshold, sim), OpportunityMinGroups))
  {
    var clusters := DetectDuplicationClusters(catalog, hasModel, sim, OpportunityMinGroups);
    opportunities := [];
    for i := 0 to |clusters|
      invariant opportunities == Opportunities(clusters[..i])
    {
      OpportunitiesSnoc(clusters, i);
      if clusters[i].numGroups >= 2 {
        opportunities := opportunities + [OpportunityOf(clusters[i])];
      }
    }
    assert clusters[..|clusters|] == clusters;
  }

  /**
   * Every duplicate group the mapper returns has at least two members, so
   * both filters pass every group: there is exactly one opportunity per
   * duplicate group, in order.
   */
  lemma OpportunityPerDuplicateGroup(catalog: seq<Resource>, hasModel: bool, sim: (string, Resource) -> real)
    ensures |Opportunities(Clusters(ResourceMapper.DuplicatesFound(catalog, hasModel, ClusterThreshold, sim), OpportunityMinGroups))|
         == |ResourceMapper.DuplicatesFound(catalog, hasModel, ClusterThreshold, sim)|
    ensures forall j :: 0 <= j < |ResourceMapper.DuplicatesFound(catalog, hasModel, ClusterThreshold, sim)| ==>
      |ResourceMapper.DuplicatesFound(catalog, hasModel, ClusterThreshold, sim)[j]| >= 2
      && Opportunities(Clusters(ResourceMapper.DuplicatesFound(catalog, hasModel, ClusterThreshold, sim), OpportunityMinGroups))[j]
         == OpportunityOf(ClusterOf(ResourceMapper.DuplicatesFound(catalog, hasModel, ClusterThreshold, sim)[j]))
  {
    var dups := ResourceMapper.DuplicatesFound(catalog, hasModel, ClusterThreshold, sim);
    if |ResourceMapper.Active(catalog)| > 0 && hasModel {
      ResourceMapper.DuplicateGroupsShape(ResourceMapper.Active(catalog), sim, ClusterThreshold);
    }
    assert forall j :: 0 <= j < |dups| ==> |dups[j]| >= OpportunityMinGroups;
    ClustersOfLargeGroups(dups, OpportunityMinGroups);
    OpportunitiesOfLargeClusters(Clusters(dups, OpportunityMinGroups));
  }

  /** A group of three or more is a high-severity opportunity, a pair a medium one. */
  lemma GroupSeverity(group: seq<Resource>)
    requires |group| >= 2
    ensures OpportunityOf(ClusterOf(group)).severity == "high" <==> |group| >= 3
    ensures OpportunityOf(ClusterOf(group)).severity == "medium" <==> |group| == 2
  {
  }
}
