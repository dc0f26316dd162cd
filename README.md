# Longevity R&D map: the rule-based pipeline in Dafny

This project models the deterministic core of a system that maps open
problems in aging research to the capabilities they need, the resources
that could provide those capabilities, and the gaps left over. It covers
the five stages that need no language model and no embedding model:

- **Problem parsing.** A keyword classifier assigns each problem text to a
  hallmark of aging, and a heuristic splits the text into a title and a
  description.
- **Capability extraction.** Regex matches found in a problem text become
  named, deduplicated capabilities with estimated cost, time and
  complexity.
- **Resource matching.** Capabilities are matched against a catalog of
  resources by type compatibility and token-set (Jaccard) similarity.
  Duplicate resources are grouped greedily around seeds.
- **Gap and funding analysis.** Each capability without a well-matched
  resource becomes a gap with a priority tier and a clamped impact score.
  Gaps are ranked by a funding-attractiveness score made of four bounded
  factors.
- **Coordination and search.** Duplicate groups become clusters and
  coordination opportunities. A keyword search over problems,
  capabilities and gaps is shaped into a response.

The enums of the data model are datatypes, each with its string value (`models.dfy`).

**How the model follows the source (value-based modules):**

- One module per source file.
- Database tables are sequences in the database's order, and the two
  mapping queries of the gap analyzer are the sequences of mappings they
  read.
- Every reply of the language model is an input.
  - `None` means the model is disabled, or a failed call that the source
    turns into no reply: an empty dictionary or list, or a search helper's
    own fallback.
  - `classify_category` is different. It turns a failure into the string
    "other", so a failed classification is the reply `Some("other")`. That
    reply gives `OTHER` without any keyword scoring
    (`ProblemParser.ClassifiedOutage`).
  - For the category, `None` means only a disabled model.
- The regular-expression engine is not modelled. Its matches are inputs,
  as spans into the text.
- The embedding model's similarity is a function parameter.

**How the model follows the source (loops and steps):**

- The source's loops (accumulating the funding score, the match filter,
  the greedy duplicate grouping, the cluster and opportunity loops, the
  extraction, deduplication and estimation loops, the keyword-score loop,
  the keyword searches) are Dafny methods with loop invariants. Each is
  proved equal to a specification function, and the properties are
  proved about those functions as lemmas.
- Python's stable `list.sort(key, reverse=True)` and SQL
  `ORDER BY ... DESC` are a stable descending insertion sort
  (`Seqs.SortDesc`). It is proved to be a sorted permutation that keeps
  equal keys in input order.

**Helper modules:**

- `Text` models the Python string operations used:
  - `lower`, `in`, `find`, `split()`, `split(c)`, `join`, `strip`,
    `re.sub(r'\s+', ' ', ...)`, and `str(n)`;
  - the sentence split `re.split(r'[.!?]\s+', ...)`, which is written out
    by hand.

## Model

| member | source | states |
|---|---|---|
| ProblemModel.CategoryFromValue | longevity_map/models/problem.py:11-22 | `ProblemCategory(s)`: a category is found only for a string that is its value |
| ProblemModel.CategoryValueRoundTrip | longevity_map/models/problem.py:11-22 | every category is recovered from its value, including `TELOMERE_ATTENTION` from "telomere_attrition" |
| CapabilityModel.TypeFromLlmRoundTrip | longevity_map/agents/capability_extractor.py:84-96 | every type's own value maps back to that type (and "other" to `OTHER`) |
| CapabilityModel.TypeFromLlmCharacterized | longevity_map/agents/capability_extractor.py:84-96 | `TypeFromLlm` is the coercion of the LLM's `type` string; an LLM type string maps to `OTHER` exactly when its lower-cased form is none of the eight named values; otherwise it maps to the type with that value |
| GapAnalyzer.CountRequired | longevity_map/agents/gap_analyzer.py:47-50 | the blocked count is at most the number of mappings; it is 0 exactly when no mapping is a required one for this capability, and equals the number of mappings exactly when all are |
| GapAnalyzer.CountRequiredAppend | longevity_map/agents/gap_analyzer.py:47-50 | the count of a concatenation is the sum of the counts |
| GapAnalyzer.CountRequiredIgnoresOptional | longevity_map/agents/gap_analyzer.py:47-50 | adding a mapping whose `is_required` is not 1 leaves the count unchanged |
| GapAnalyzer.PriorityThresholds | longevity_map/agents/gap_analyzer.py:78-89 | `DeterminePriority` is `_determine_priority`; the tier is at least critical, at least high, or at least medium exactly when each tier's value threshold or count threshold is met |
| GapAnalyzer.PriorityMonotone | longevity_map/agents/gap_analyzer.py:80-89 | raising the blocked value or the blocked count never lowers the tier |
| GapAnalyzer.PriorityOfBlockedCount | longevity_map/agents/gap_analyzer.py:53-89 | with the value set to count × 2,000,000, the tier is low iff the count is 0, medium iff 1-4, high iff 5-9, and critical iff ≥ 10 |
| GapAnalyzer.CalculateImpactScore | longevity_map/agents/gap_analyzer.py:91-107 | the impact score is in [0, 1]; it is the raw weighted sum when that sum lies in [0, 1], and 0 or 1 when the sum falls below or above |
| GapAnalyzer.ComponentScoresMayBeNegative | longevity_map/agents/gap_analyzer.py:95-96 | the cost score is negative above a cost of 10M and the time score is negative above 60 months; for non-negative inputs both are at most 1 |
| GapAnalyzer.ComponentScoresMonotone | longevity_map/agents/gap_analyzer.py:95-98 | lower cost and time raise their scores; higher blocked value and count raise the impact part |
| GapAnalyzer.RawImpactMonotone | longevity_map/agents/gap_analyzer.py:95-105 | with non-negative weights, the unclamped sum never decreases when cost and time fall and value and count rise |
| GapAnalyzer.ImpactMonotone | longevity_map/agents/gap_analyzer.py:91-107 | the clamped impact score has the same monotonicity |
| GapAnalyzer.WorkedExample | longevity_map/agents/gap_analyzer.py:18-20 | with the default weights 0.3/0.3/0.4, cost 100,000, 12 months and 12 blocked problems, the impact score is 0.705 |
| GapAnalyzer.Process | longevity_map/agents/gap_analyzer.py:36-76 | no gap iff some mapping of this capability has score ≥ 0.7; otherwise the gap copies the capability's possibly missing estimates, has the description "Missing capability: " + name, count = required mappings, value = count × 2M, and priority and impact computed from them, with a missing cost or time scored as 0 |
| GapAnalyzer.ProcessedGapProperties | longevity_map/agents/gap_analyzer.py:47-76 | every gap has: priority low iff no problem requires the capability, critical iff ≥ 10 do, an impact score in [0, 1], and a non-negative blocked value; an unsaved capability (no id) blocks nothing |
| GapAnalyzer.GoodMappingClosesGap | longevity_map/agents/gap_analyzer.py:36-42 | adding one mapping of the capability with score ≥ 0.7 means no gap is produced |
| FundingAgent.ImpactFactor | longevity_map/agents/funding_agent.py:48-51 | the impact factor fires iff the gap blocks some problem, and then lies in (0, 0.3] |
| FundingAgent.CostFactor | longevity_map/agents/funding_agent.py:54-63 | the cost factor fires iff the cost is present and nonzero and some problem is blocked |
| FundingAgent.CostFactorMonotone | longevity_map/agents/funding_agent.py:54-61 | a lower cost per blocked problem never gives a lower cost factor |
| FundingAgent.MarketFactor | longevity_map/agents/funding_agent.py:66-74 | the market factor fires iff the blocked value is nonzero |
| FundingAgent.MarketFactorTiers | longevity_map/agents/funding_agent.py:66-72 | the market factor takes exactly one of 0.1, 0.2 or 0.3, and a larger blocked value never gives a lower one |
| FundingAgent.FeasibilityFactor | longevity_map/agents/funding_agent.py:77-85 | the feasibility factor fires iff the time is present and nonzero |
| FundingAgent.FeasibilityMonotone | longevity_map/agents/funding_agent.py:77-83 | a shorter time never gives a lower feasibility factor |
| FundingAgent.RawScoreBounds | longevity_map/agents/funding_agent.py:44-89 | the accumulated score lies in [0, 1], so the final `min(1.0, ...)` never changes it |
| FundingAgent.FactorsAreTheSummands | longevity_map/agents/funding_agent.py:44-85 | the factors dictionary holds exactly the factors that fired, under their four names, and their values add up to the score |
| FundingAgent.PredictionProperties | longevity_map/agents/funding_agent.py:44-93 | `Prediction` is the value `predict_funding_attractiveness` returns; the prediction carries the gap id and a score in [0, 1] equal to the sum of the recorded factors, each recorded iff its data is there; the likelihood is "high" iff score ≥ 0.7, "medium" iff 0.4 ≤ score < 0.7, and "low" otherwise |
| FundingAgent.AddImpact | longevity_map/agents/funding_agent.py:47-51 | the impact step adds the impact factor to the score and records it iff it fired |
| FundingAgent.AddCostEfficiency | longevity_map/agents/funding_agent.py:53-63 | the cost step adds the cost factor and records it iff it fired |
| FundingAgent.AddMarketSize | longevity_map/agents/funding_agent.py:65-74 | the market step adds the market factor and records it iff it fired |
| FundingAgent.AddFeasibility | longevity_map/agents/funding_agent.py:76-85 | the feasibility step adds the feasibility factor and records it iff it fired |
| FundingAgent.PredictFundingAttractiveness | longevity_map/agents/funding_agent.py:44-93 | the step-by-step accumulation equals the prediction function: score in [0, 1], only known factor names, and score = sum of the recorded factors |
| FundingAgent.RankGapsByFundingPotential | longevity_map/agents/funding_agent.py:106-125 | `Entries` is the ranking entries of the candidates, one per gap in order, each the prediction merged with the gap summary; the candidates are the first min(2·top_n, #gaps) gaps by impact; the output is their entries sorted non-increasing by attractiveness and cut to min(top_n, #candidates), every output entry being an entry of a candidate |
| FundingAgent.KeptAreEntries | longevity_map/agents/funding_agent.py:123-125 | every entry kept after sort and slice is one of the entries built from the candidates |
| FundingAgent.CandidatesHaveTopImpact | longevity_map/agents/funding_agent.py:106 | `Candidates` is the impact query `ORDER BY impact_score DESC LIMIT 2 * top_n`; every candidate's impact score is at least that of every gap left out by the limit |
| FundingAgent.RankingTiesKeepImpactOrder | longevity_map/agents/funding_agent.py:123 | among entries with equal attractiveness the stable sort keeps the impact order |
| ResourceMapper.CompatibleResourceTypes | longevity_map/agents/resource_mapper.py:77-90 | each type's list is non-empty and without repeats; every named capability type gets at most three types, none of them `OTHER`; `other` gets every resource type |
| ResourceMapper.UnmappedTypeAcceptsEverything | longevity_map/agents/resource_mapper.py:90 | a capability of type `other` is compatible with every resource type |
| ResourceMapper.Jaccard | longevity_map/agents/resource_mapper.py:122-128 | the similarity lies in [0, 1]; it is 1 iff the token sets are equal and non-empty, and positive iff they share a token |
| ResourceMapper.JaccardSymmetric | longevity_map/agents/resource_mapper.py:125-128 | the similarity does not depend on the order of its two token sets |
| ResourceMapper.SimpleSimilarity | longevity_map/agents/resource_mapper.py:117-128 | `TokenSet` is `set(s.lower().split())`; the keyword similarity of a capability text and a resource lies in [0, 1], and is 1 iff their lower-cased word sets are equal and non-empty |
| ResourceMapper.SimpleSimilarityOfSameWords | longevity_map/agents/resource_mapper.py:119-128 | texts with the same word set score 1, or 0 when that set is empty |
| ResourceMapper.ScoredAbove | longevity_map/agents/resource_mapper.py:64-70 | the threshold filter keeps exactly the resources whose score reaches the threshold, each with its score |
| ResourceMapper.MatchesExactlyTheCandidatesAbove | longevity_map/agents/resource_mapper.py:54-73 | every returned match is an active catalog resource of a compatible type whose score reaches the threshold; every such resource is returned |
| ResourceMapper.NoCandidatesNoMatches | longevity_map/agents/resource_mapper.py:54-61 | with no active resource of a compatible type the result is empty |
| ResourceMapper.MatchResources | longevity_map/agents/resource_mapper.py:54-75 | the loop and sort of `process` give the match list, sorted non-increasing by score, every score ≥ threshold and every resource a candidate |
| ResourceMapper.MatchTiesKeepCatalogOrder | longevity_map/agents/resource_mapper.py:73 | matches with equal score keep their catalog order |
| ResourceMapper.PartnersOrdered | longevity_map/agents/resource_mapper.py:155-166 | the members the inner loop adds to a group come in increasing catalog position |
| ResourceMapper.PartnersSound | longevity_map/agents/resource_mapper.py:155-166 | every member added comes after the seed, was not yet processed, and is similar enough to the seed |
| ResourceMapper.PartnersComplete | longevity_map/agents/resource_mapper.py:155-166 | every later, unprocessed resource similar enough to the seed is added |
| ResourceMapper.NoPartners | longevity_map/agents/resource_mapper.py:155-166 | if no later unprocessed resource is similar to the seed, nothing is added |
| ResourceMapper.NewGroup | longevity_map/agents/resource_mapper.py:153-170 | a seed with at least one partner forms a group of ≥ 2 whose first member is the seed, whose members are in catalog order and each similar to the seed, and which shares nothing with the processed set |
| ResourceMapper.GreedyTakenIsUnion | longevity_map/agents/resource_mapper.py:147-170 | `Greedy` is the grouping loop of `find_duplicates` run for the first seeds; the `processed` set is always exactly the set of members of the groups found so far |
| ResourceMapper.GreedyGroupsWellFormed | longevity_map/agents/resource_mapper.py:149-170 | every group found is well formed (≥ 2 members, seed first, catalog order, each member similar to the seed) |
| ResourceMapper.GreedyGroupsDisjoint | longevity_map/agents/resource_mapper.py:150-170 | no group shares a resource with any earlier group |
| ResourceMapper.GroupsDisjoint | longevity_map/agents/resource_mapper.py:150-170 | any two groups are disjoint |
| ResourceMapper.GreedyExtends | longevity_map/agents/resource_mapper.py:149-170 | later seeds only append groups, and every appended group's seed is a later resource |
| ResourceMapper.GreedyMaximal | longevity_map/agents/resource_mapper.py:155-166 | a later resource similar to a group's seed and absorbed by no earlier group is in that group |
| ResourceMapper.LoneSeedInNoGroup | longevity_map/agents/resource_mapper.py:149-170 | a resource that is unprocessed at its turn and finds no partner ends up in no group |
| ResourceMapper.DuplicateGroupsShape | longevity_map/agents/resource_mapper.py:153-170 | every returned group has ≥ 2 resources, each after the first similar enough to the first |
| ResourceMapper.GrowGroup | longevity_map/agents/resource_mapper.py:153-166 | the inner loop gives the seed followed by its partners, and the processed set grows by exactly those partners |
| ResourceMapper.FindDuplicates | longevity_map/agents/resource_mapper.py:141-172 | `DuplicatesFound` is what `find_duplicates` returns; `Resolve` turns the groups of positions into groups of resources; [] without active resources or without a model; otherwise the greedy grouping of the active resources |
| ResourceMapper.NonTransitiveGrouping | longevity_map/agents/resource_mapper.py:155-166 | members are compared only with the seed: with sim(a,b)=0.95, sim(a,c)=0.92 and sim(b,c)=0.80 at threshold 0.9, all three form one group |
| CoordinationAgent.ClustersAppend | longevity_map/agents/coordination_agent.py:42-58 | clustering runs of groups separately and concatenating gives the same result |
| CoordinationAgent.ClustersSound | longevity_map/agents/coordination_agent.py:43-58 | `Clusters` is the cluster list of `detect_duplication_clusters`; every cluster has at least `min_groups` groups and is the cluster of an input group |
| CoordinationAgent.ClustersComplete | longevity_map/agents/coordination_agent.py:43-58 | every input group of at least `min_groups` members has its cluster |
| CoordinationAgent.ClustersOfLargeGroups | longevity_map/agents/coordination_agent.py:43-58 | when every group is large enough there is one cluster per group, in order |
| CoordinationAgent.ClusterContents | longevity_map/agents/coordination_agent.py:45-56 | a cluster lists its group's resources in group order, each with its id, name, organization and type value, `num_groups` is the group size, and the description is the first member's |
| CoordinationAgent.DetectDuplicationClusters | longevity_map/agents/coordination_agent.py:40-60 | the loop keeps, in order, the clusters of the groups the mapper finds at threshold 0.85 that have at least `min_groups` members |
| CoordinationAgent.OpportunitiesOfLargeClusters | longevity_map/agents/coordination_agent.py:72-80 | `Opportunities` is the opportunity list of `find_coordination_opportunities`; when every cluster has at least two groups, each cluster yields its opportunity, in order |
| CoordinationAgent.OpportunityDescription | longevity_map/agents/coordination_agent.py:77 | the description starts with the decimal spelling of the number of groups, which reads back as that number |
| CoordinationAgent.FindCoordinationOpportunities | longevity_map/agents/coordination_agent.py:69-82 | the loop gives the opportunities of the clusters found with `min_groups = 2` |
| CoordinationAgent.OpportunityPerDuplicateGroup | longevity_map/agents/coordination_agent.py:69-80 | every duplicate group has ≥ 2 members, so there is exactly one opportunity per duplicate group, in order |
| CoordinationAgent.GroupSeverity | longevity_map/agents/coordination_agent.py:76 | severity is "high" iff the group has ≥ 3 members and "medium" iff it has 2 |
| CapabilityExtractor.RequirementsTable | longevity_map/agents/capability_extractor.py:250-272 | `EstimateRequirements` is `_estimate_requirements`; requirements are the type's base pair, with cost × 1.5 and time × 1.3 exactly when the description mentions a complexity word; cost lies in [10,000, 750,000] and time in [2, 31.2] |
| CapabilityExtractor.ComplexityWordAnywhere | longevity_map/agents/capability_extractor.py:267-268 | a complexity word anywhere in the description triggers the adjustment |
| CapabilityExtractor.EstimateComplexity | longevity_map/agents/capability_extractor.py:274-294 | complexity lies in [0.3, 1.0]; it is min(1, base + 0.1) iff the description is longer than 500 characters, and the base otherwise |
| CapabilityExtractor.ComplexityFromDataBounds | longevity_map/agents/capability_extractor.py:134-144 | the LLM complexity is at most 1, and non-negative for non-negative cost and time |
| CapabilityExtractor.ComplexityFromDataDefaults | longevity_map/agents/capability_extractor.py:137-144 | with both values missing (defaults 50,000 and 6) the complexity is 0.075 |
| CapabilityExtractor.EstimatedFillsIn | longevity_map/agents/capability_extractor.py:126-130 | estimation keeps name, description and type, leaves a truthy cost and a present complexity, and touches cost and time only when the cost was not truthy |
| CapabilityExtractor.EstimatedIdempotent | longevity_map/agents/capability_extractor.py:126-130 | estimating an estimated capability changes nothing |
| CapabilityExtractor.FromLlmFields | longevity_map/agents/capability_extractor.py:98-105 | `Or` is Python's `a or b` on a nullable number; `FromLlm` is the conversion of one LLM record; a truthy USD cost wins over the plain cost and a truthy months figure over the plain time; a missing type is `OTHER` and a missing name "Unknown"; the complexity is always set and at most 1 |
| CapabilityExtractor.WordIndexIsFirst | longevity_map/agents/capability_extractor.py:210-216 | the word walk stops at the first word whose running start position reaches the match position, and yields 0 when no word does |
| CapabilityExtractor.CuratedNameShape | longevity_map/agents/capability_extractor.py:196-201 | `CuratedName` is the curated-phrase branch of `_extract_capability_name`; the curated name has at most 100 characters, does not start with whitespace, and every whitespace in it is a single space |
| CapabilityExtractor.FallbackNotFound | longevity_map/agents/capability_extractor.py:205-207 | when the matched text does not occur in the context, the name is the matched text |
| CapabilityExtractor.FallbackWordWindow | longevity_map/agents/capability_extractor.py:204-223 | `FallbackName` is its word-window fallback; otherwise the name is the words from two before to three after the word the walk stops at, joined by spaces |
| CapabilityExtractor.ExtractCapabilityName | longevity_map/agents/capability_extractor.py:172-223 | the method, with its word-walk loop, gives the curated name when a curated phrase was found, and otherwise the fallback name |
| CapabilityExtractor.ContextWindowBounds | longevity_map/agents/capability_extractor.py:154-156 | the context is `text[max(0, s−50) : min(len, e+50)]` |
| CapabilityExtractor.BuildCandidate | longevity_map/agents/capability_extractor.py:153-167 | one match becomes the candidate named from its context, described by the stripped context, with the pattern's type |
| CapabilityExtractor.FindCapabilities | longevity_map/agents/capability_extractor.py:146-170 | the loop gives exactly the candidates whose name is longer than 3 characters, in match order |
| CapabilityExtractor.FoundSound | longevity_map/agents/capability_extractor.py:162-168 | every capability found has a name longer than 3, the pattern's type and no estimates, and is one of the matches' candidates |
| CapabilityExtractor.FoundComplete | longevity_map/agents/capability_extractor.py:162-168 | every match whose candidate name is longer than 3 is found |
| CapabilityExtractor.ClashesWithSeen | longevity_map/agents/capability_extractor.py:235-242 | a candidate is a duplicate iff its lower-cased name contains, or is contained in, a seen name |
| CapabilityExtractor.IsDuplicate | longevity_map/agents/capability_extractor.py:236-242 | the inner loop reports a duplicate iff some seen name overlaps the candidate's name |
| CapabilityExtractor.DeduplicateCapabilities | longevity_map/agents/capability_extractor.py:225-248 | `Dedup` is what `_deduplicate_capabilities` returns; the loop keeps each capability whose name overlaps no earlier kept name, and nothing else |
| CapabilityExtractor.DedupIsSubsequence | longevity_map/agents/capability_extractor.py:233-246 | the output is a subsequence of the input |
| CapabilityExtractor.DedupKeepsFirst | longevity_map/agents/capability_extractor.py:233-246 | the first capability is always kept |
| CapabilityExtractor.DedupNoOverlap | longevity_map/agents/capability_extractor.py:233-246 | no two kept names contain one another |
| CapabilityExtractor.DedupCovers | longevity_map/agents/capability_extractor.py:233-246 | every input capability overlaps some kept name |
| CapabilityExtractor.DedupOfDistinct | longevity_map/agents/capability_extractor.py:233-246 | input with no overlapping names is returned unchanged |
| CapabilityExtractor.DedupIdempotent | longevity_map/agents/capability_extractor.py:225-248 | deduplicating twice is the same as once |
| CapabilityExtractor.DedupFromInput | longevity_map/agents/capability_extractor.py:233-246 | every kept capability is an input capability |
| CapabilityExtractor.FromLlmAllAt | longevity_map/agents/capability_extractor.py:81-106 | one capability per LLM record, in order: the k-th capability is the conversion of the k-th record |
| CapabilityExtractor.PatternPathFilledIn | longevity_map/agents/capability_extractor.py:116-130 | `PatternPath` is the pattern branch of `process`; every capability of the pattern path has a name longer than 3, one of the seven pattern types, a truthy cost, a time, and a complexity in [0.3, 1.0] |
| CapabilityExtractor.PatternPathNoOverlap | longevity_map/agents/capability_extractor.py:116-130 | no two capabilities of the pattern path have overlapping lower-cased names |
| CapabilityExtractor.ExtractedPrefersLlm | longevity_map/agents/capability_extractor.py:77-132 | `Extracted` is what `process` returns; a non-empty LLM reply gives one capability per record, in order; otherwise the result is the pattern path |
| CapabilityExtractor.ConvertLlmCapabilities | longevity_map/agents/capability_extractor.py:81-106 | the conversion loop gives the converted records in order |
| CapabilityExtractor.GatherPatternCandidates | longevity_map/agents/capability_extractor.py:117-120 | the loop over the pattern table concatenates each type's findings, in table order |
| CapabilityExtractor.EstimateMissing | longevity_map/agents/capability_extractor.py:127-130 | the two in-place updates give the estimated capability |
| CapabilityExtractor.EstimateAll | longevity_map/agents/capability_extractor.py:126-130 | `EstimatedAll` is the capabilities estimated one by one, in order; the estimation loop estimates every capability, in order |
| CapabilityExtractor.Process | longevity_map/agents/capability_extractor.py:63-132 | `process` returns what the extracted-capabilities function defines: LLM conversion, or else the deduplicated, estimated pattern path |
| ProblemParser.KeywordTableCategories | longevity_map/agents/problem_parser.py:18-52 | the keyword table has nine rows for nine distinct categories, none of them `OTHER` |
| ProblemParser.KeywordScoreCounts | longevity_map/agents/problem_parser.py:132 | a category's score is the number of its keyword entries that occur in the lower-cased text, so at most the number of its keywords |
| ProblemParser.KeywordScoreDependsOnlyOnOccurrence | longevity_map/agents/problem_parser.py:132 | texts with the same keyword occurrences get the same score, however often each keyword appears |
| ProblemParser.KeywordScorePositive | longevity_map/agents/problem_parser.py:132-134 | a score is positive iff some keyword of the category occurs |
| ProblemParser.LeaderNone | longevity_map/agents/problem_parser.py:133-140 | no category is picked iff every score is 0 |
| ProblemParser.LeaderIsFirstMaximum | longevity_map/agents/problem_parser.py:136-138 | the picked category has the maximal score, and no earlier category has that score |
| ProblemParser.KeywordCategoryOther | longevity_map/agents/problem_parser.py:128-140 | keyword classification gives `OTHER` iff no category's score is positive |
| ProblemParser.KeywordCategoryWinner | longevity_map/agents/problem_parser.py:128-140 | `KeywordCategory` is the keyword branch of `_classify_category`; otherwise it gives the first category in table order with the maximal score |
| ProblemParser.ClassifiedFallsThrough | longevity_map/agents/problem_parser.py:120-125 | a valid LLM category string is taken as is; an unknown one falls through to keyword classification |
| ProblemParser.ClassifiedOutage | longevity_map/agents/problem_parser.py:117-123 | when the enabled LLM's classification fails, it returns "other" (longevity_map/utils/llm.py:217-219); that reply gives `OTHER` at once, whatever keywords the text contains, and does not fall back to keyword scoring |
| ProblemParser.ClassifyCategory | longevity_map/agents/problem_parser.py:117-140 | `Scored` is the keyword table's rows with their scores, in declaration order; the scoring loop and the max give the classifier's category |
| ProblemParser.SentenceSplitFirst | longevity_map/agents/problem_parser.py:107 | `SentenceSplit` is `re.split(r'[.!?]\s+', text)`; the first piece is a prefix of the text with no break inside it; there is more than one piece iff the text has a break (a `.`, `!` or `?` followed by whitespace), and then the first piece ends at the first break |
| ProblemParser.SentenceSplitRest | longevity_map/agents/problem_parser.py:107 | with more than one piece, the first piece is followed by a terminator and the whole run of whitespace after it, and the remaining pieces are exactly the pieces of the text after that run |
| ProblemParser.SentenceSplitJoin | longevity_map/agents/problem_parser.py:107 | with more than one piece, the text is the first piece, then the break (terminator and whitespace run), then the rest, joined |
| ProblemParser.SentenceSplitNoBreak | longevity_map/agents/problem_parser.py:107 | no piece contains a terminator followed by whitespace |
| ProblemParser.TruncatedTitleShape | longevity_map/agents/problem_parser.py:112 | a text of at most 200 characters is its own title; a longer one is cut to 200 characters and "..." is appended |
| ProblemParser.TitleOfMultiLine | longevity_map/agents/problem_parser.py:101-104 | `TitleDescription` is `_extract_title_description`; for stripped text with a newline, the title is the first line stripped and the description is the remaining lines joined by newlines and stripped |
| ProblemParser.TitleOfSentences | longevity_map/agents/problem_parser.py:107-110 | for single-line text with a sentence break, the title is the text up to the first break and the description is the remaining pieces joined by ". " |
| ProblemParser.TitleOfOneSentence | longevity_map/agents/problem_parser.py:111-113 | for single-line text without a break, the title is the truncated text and the description is the whole text |
| ProblemParser.CoercedCategoryCases | longevity_map/agents/problem_parser.py:70-73 | the LLM's category string becomes its category when valid, `OTHER` when unknown, and `OTHER` when missing |
| ProblemParser.ParsedBranches | longevity_map/agents/problem_parser.py:66-96 | `Parsed` is the problem `process` builds; source fields are passed through; a reply with a title gives that title and an unknown category becomes `OTHER`; without one and without the LLM, the heuristic title and the keyword category are used |
| ProblemParser.Process | longevity_map/agents/problem_parser.py:54-96 | `process` builds the problem the parsing function defines |
| ProblemParser.BatchProcessedZips | longevity_map/agents/problem_parser.py:150-151 | `zip` stops at the shortest list, and the k-th problem is parsed from the k-th text, source and source id |
| ProblemParser.BatchProcessedDefaults | longevity_map/agents/problem_parser.py:145-151 | with both lists omitted, there is one problem per text, in order, with no source |
| LlmSearch.FallbackTermsShape | longevity_map/utils/llm_search.py:127-134 | `FallbackTerms` is `query.lower().split()`; without a usable LLM reply, the terms are the lower-cased query split on whitespace: non-empty, whitespace-free and lower-case |
| LlmSearch.HitsCount | longevity_map/utils/llm_search.py:204 | the hit count is at most the number of terms, positive iff some term occurs, and equal to it iff all occur |
| LlmSearch.RelevanceBounds | longevity_map/utils/llm_search.py:204 | `Relevance` is the keyword relevance `sum(...) / len(terms)`; keyword relevance lies in [0, 1], is positive iff some term occurs in the text, and for non-empty terms is 1 iff all terms occur |
| LlmSearch.KeywordHitsExact | longevity_map/utils/llm_search.py:202-214 | the hits are exactly the items with positive relevance, each with its relevance and the search's reason |
| LlmSearch.KeywordRankedSpec | longevity_map/utils/llm_search.py:201-216 | `KeywordRanked` is the keyword search of the three helpers; the ranked hits are sorted non-increasing, are exactly the items with positive relevance, have relevance in (0, 1], and equal relevances keep item order |
| LlmSearch.KeywordSearch | longevity_map/utils/llm_search.py:200-216 | the append loop and the sort give the ranked keyword hits |
| LlmSearch.RankedRelevanceMissing | longevity_map/utils/llm_search.py:179-187 | a problem with no ranking entry gets relevance 0.0 |
| LlmSearch.RankedRelevanceLast | longevity_map/utils/llm_search.py:179-187 | with several entries for a problem, the last one's relevance wins |
| LlmSearch.RankedReasonMissing | longevity_map/utils/llm_search.py:188 | a problem with no ranking entry gets the empty reason |
| LlmSearch.RankedReasonFirst | longevity_map/utils/llm_search.py:188 | with several entries for a problem, the first one's reason is used |
| LlmSearch.ProblemResultsRanked | longevity_map/utils/llm_search.py:139-195 | `LlmScored` is the problems with their ranked relevance and reason, in problem order; `ProblemResults` is what `_search_problems` returns; with the LLM's ranking, each of the first min(50, #problems) problems appears once with its ranked relevance, sorted non-increasing |
| LlmSearch.SearchProblems | longevity_map/utils/llm_search.py:136-216 | the problem search gives the LLM ranking when there is one, the keyword fallback otherwise, and [] without problems |
| LlmSearch.SearchCapabilities | longevity_map/utils/llm_search.py:218-240 | the capability search is the keyword search over the first 100 capabilities |
| LlmSearch.SearchGaps | longevity_map/utils/llm_search.py:242-264 | the gap search is the keyword search over the first 50 gaps, using the capability name or '' |
| LlmSearch.SearchDisabled | longevity_map/utils/llm_search.py:34-40 | with the LLM disabled, the response is the query, no results, the fixed notice and no suggestions |
| LlmSearch.SearchShowsTopTen | longevity_map/utils/llm_search.py:61-73 | `SearchResponse` is what `search` returns; each kind shows the first ten of its full list, and the totals are the full lengths, which are at most 100, 100 and 50 |
| LlmSearch.SearchShowsBest | longevity_map/utils/llm_search.py:64-66 | every shown result ranks at least as high as every result cut off |
| LlmSearch.Search | longevity_map/utils/llm_search.py:23-73 | `search` builds the response the search function defines |

## Left out

- **Language-model calls.** The calls to the language model, the prompt
  texts and the client are not modelled. Each reply is an input. `None`
  stands for a disabled model or for a failure the source turns into no
  reply. A failed `classify_category` is the reply "other".
- **Batch replies.** In `batch_process` the replies are functions of the
  text, so a text that appears twice gets the same reply both times.
- **Malformed LLM records.** Records are typed, so a record that makes
  the conversion in `capability_extractor.py:84-106` raise is not
  modelled. Such a record has a non-string `type`, `name` or
  `description`, or a null or non-numeric `estimated_cost_usd` or
  `estimated_time_months` that reaches the division in
  `_estimate_complexity_from_data` (`capability_extractor.py:134-144`).
  The source logs and skips such a record (`capability_extractor.py:107-111`).
  A reply whose records are all malformed leaves the list empty, so the
  pattern path runs (`capability_extractor.py:116`). The model cannot reach
  that case. A missing `name` is not malformed: it becomes "Unknown".
- **Malformed rankings.** A ranking entry without `index`, `relevance` or
  `reason` makes the LLM ranking raise and fall back to keyword search.
  The model covers that fallback only as a `None` ranking reply.
- **Malformed search intents.** An intent whose `search_terms` holds a
  non-string, such as `[null]` or `[1]`, makes `term in text` raise in a
  keyword search. `search` then returns its error response. The typed
  `SearchIntent` holds only strings, so it cannot represent such a reply.
- **Result dictionaries.** A search hit carries the row it describes,
  its relevance and its reason. The display fields the source copies from
  the row are not modelled separately. That includes a gap's
  `capability_name`, which is "Unknown" for a gap without a capability.
- **JSON nulls.** A JSON `null` in a field the source reads with
  `.get(key, default)` is not distinguished from a missing key.
- **Embedding similarity.** The sentence-transformer similarity
  (`resource_mapper.py:92-115`) is not modelled. The matcher and
  `find_duplicates` take the similarity as a function parameter, and
  `find_duplicates` takes the model's presence as a flag.
- **Regex engine.** The matches of the capability patterns and of the
  curated-phrase patterns are inputs, as spans. The regular expressions
  themselves are not part of the model.
- **Error path of `search`.** The exception path of `search`
  (`llm_search.py:75-82`) is not modelled. The term extraction, the LLM
  ranking, the summary and the suggestions catch their own exceptions.
  The capability and gap searches (`llm_search.py:218-264`) and the
  keyword fallback of the problem search (`llm_search.py:197-216`) have no
  handler of their own. With typed inputs nothing in them raises, so the
  error path is reachable only through a malformed LLM reply.
- **Database access.** The database and its queries are replaced by
  sequences in table order, including the tie order of `ORDER BY ...
  DESC` and the rows `LIMIT` keeps. `find_keystone_capabilities`, an SQL
  group-by, is not modelled.
- **Character handling.** Case mapping and whitespace cover ASCII only.
  Python's Unicode `lower()` and `isspace()` are not modelled.
- **Numbers.** Amounts and times are exact reals. Floating-point rounding
  is not modelled, nor is the float stored in the Integer column
  `estimated_time` after `time *= 1.3`.
- **Unused arguments.** `problem_id` of the capability extractor and the
  `query` argument of the search helpers are unused by the logic and not
  modelled.
- ResourceMapper.FindDuplicates: `processed` holds positions in the
  active list rather than resource ids. The two coincide because ids are
  primary keys.
- **Rest of the repository.** These are not part of this model:
  - the data sources (PubMed, clinical trials, preprints, grants);
  - the API and UI layers;
  - the updater and the scripts;
  - configuration loading and logging;
  - `base_agent.py`.
