/**
 * The conversational search (longevity_map/utils/llm_search.py), apart
 * from its calls to the LLM: the fallback search terms, the keyword
 * relevance used when the LLM ranking fails (and always for capabilities
 * and gaps), the use of the LLM's problem ranking, and the shaping of the
 * response. The database tables are sequences in the database's order;
 * each LLM reply is an input, `None` standing for a call that raised.
 */
module LlmSearch {
  import opened Wrappers
  import opened ProblemModel
  import opened CapabilityModel
  import opened GapModel
  import Text
  import Seqs

  /** `limit(100)` on problems and capabilities, `limit(50)` on gaps. */
  const ProblemLimit: nat := 100
  const CapabilityLimit: nat := 100
  const GapLimit: nat := 50

  /** Only the first 50 problems are given to the LLM to rank. */
  const LlmRankLimit: nat := 50

  /** The response shows at most ten results of each kind. */
  const TopN: nat := 10

  const DisabledSummary: string := "LLM search is disabled. Please enable OpenAI API key."

  // ---------------------------------------------------------------------------
  // Search terms

  /** The LLM's search intent; `searchTerms` is `None` when the reply has no `"search_terms"` key. */
  datatype SearchIntent = SearchIntent(searchTerms: Option<seq<string>>)

  /** `query.lower().split()`. */
  function FallbackTerms(query: string): seq<string>
  {
    Text.Words(Text.Lower(query))
  }

  /** `_extract_search_terms`: the LLM's intent, or the fallback intent when the call raised. */
  function ExtractedIntent(query: string, reply: Option<SearchIntent>): SearchIntent
  {
    if reply.Some? then reply.value else SearchIntent(Some(FallbackTerms(query)))
  }

  /** `search_terms.get("search_terms", query.lower().split())`. */
  function Terms(query: string, intent: SearchIntent): seq<string>
  {
    intent.searchTerms.GetOr(FallbackTerms(query))
  }

  /**
   * Without a usable LLM intent the terms are the words of the lower-cased
   * query: non-empty, free of whitespace and already lower-case.
   */
  lemma FallbackTermsShape(query: string, reply: Option<SearchIntent>)
    requires reply.None? || reply.value.searchTerms.None?
    ensures Terms(query, ExtractedIntent(query, reply)) == FallbackTerms(query)
    ensures forall k :: 0 <= k < |FallbackTerms(query)| ==>
      |FallbackTerms(query)[k]| > 0 && Text.NoSpace(FallbackTerms(query)[k])
      && Text.Lower(FallbackTerms(query)[k]) == FallbackTerms(query)[k]
  {
    WordsOfLower(Text.Lower(query));
    Text.LowerIdempotent(query);
  }

  /** The words of a lower-case string are lower-case. */
  lemma {:induction false} WordsOfLower(s: string)
    requires Text.Lower(s) == s
    ensures forall k :: 0 <= k < |Text.Words(s)| ==> Text.Lower(Text.Words(s)[k]) == Text.Words(s)[k]
    decreases |s|
  {
    if |s| > 0 {
      assert Text.Lower(s[1..]) == s[1..] by {
        forall i | 0 <= i < |s| - 1
          ensures Text.LowerChar(s[1..][i]) == s[1..][i]
        {
          assert s[1..][i] == s[i + 1];
          assert Text.Lower(s)[i + 1] == Text.LowerChar(s[i + 1]);
        }
      }
      if Text.IsSpace(s[0]) {
        WordsOfLower(s[1..]);
      } else {
        var w := Text.TakeWord(s);
        assert Text.Lower(s[|w|..]) == s[|w|..] by {
          forall i | 0 <= i < |s| - |w|
            ensures Text.LowerChar(s[|w|..][i]) == s[|w|..][i]
          {
            assert s[|w|..][i] == s[|w| + i];
            assert Text.Lower(s)[|w| + i] == Text.LowerChar(s[|w| + i]);
          }
        }
        WordsOfLower(s[|w|..]);
        assert Text.Lower(w) == w by {
          forall i | 0 <= i < |w|
            ensures Text.LowerChar(w[i]) == w[i]
          {
            assert w[i] == s[i];
            assert Text.Lower(s)[i] == Text.LowerChar(s[i]);
          }
        }
      }
    }
  }

  // ---------------------------------------------------------------------------
  // Keyword relevance

  /** `sum(1 for term in terms if term in text)`: every entry counts, repeated terms included. */
  function Hits(terms: seq<string>, text: string): nat
    decreases |terms|
  {
    if |terms| == 0 then 0
    else Hits(terms[..|terms| - 1], text) + (if Text.Contains(text, terms[|terms| - 1]) then 1 else 0)
  }

  /** At most every term hits; some term hits iff the count is positive; all hit iff it is the number of terms. */
  lemma {:induction false} HitsCount(terms: seq<string>, text: string)
    ensures Hits(terms, text) <= |terms|
    ensures Hits(terms, text) > 0 <==> exists k :: 0 <= k < |terms| && Text.Contains(text, terms[k])
    ensures Hits(terms, text) == |terms| <==> forall k :: 0 <= k < |terms| ==> Text.Contains(text, terms[k])
    decreases |terms|
  {
    if |terms| > 0 {
      var n := |terms| - 1;
      var init := terms[..n];
      HitsCount(init, text);
      assert forall k :: 0 <= k < n ==> init[k] == terms[k];
      if Hits(init, text) > 0 {
        var k :| 0 <= k < n && Text.Contains(text, init[k]);
        assert Text.Contains(text, terms[k]);
      }
    }
  }

  /** `sum(...) / len(terms) if terms else 0`. */
  function Relevance(terms: seq<string>, text: string): real
  {
    if |terms| == 0 then 0.0 else Hits(terms, text) as real / |terms| as real
  }

  /** A count out of `n` as a fraction. */
  lemma FractionBounds(h: nat, n: nat)
    requires 0 < n && h <= n
    ensures 0.0 <= h as real / n as real <= 1.0
    ensures h as real / n as real > 0.0 <==> h > 0
    ensures h as real / n as real == 1.0 <==> h == n
  {
    var q := h as real / n as real;
    assert q * n as real == h as real;
  }

  /**
   * Relevance is the fraction of terms found in the text: it lies in
   * [0, 1], is positive iff some term occurs, and is 1 iff every term
   * occurs (for a non-empty list of terms).
   */
  lemma RelevanceBounds(terms: seq<string>, text: string)
    ensures 0.0 <= Relevance(terms, text) <= 1.0
    ensures Relevance(terms, text) > 0.0 <==> exists k :: 0 <= k < |terms| && Text.Contains(text, terms[k])
    ensures |terms| > 0 ==>
      (Relevance(terms, text) == 1.0 <==> forall k :: 0 <= k < |terms| ==> Text.Contains(text, terms[k]))
  {
    HitsCount(terms, text);
    if |terms| > 0 {
      FractionBounds(Hits(terms, text), |terms|);
    }
  }

  // ---------------------------------------------------------------------------
  // Keyword search

  /** A result dictionary: the row it describes, its relevance and, for problems, its reason. */
  datatype Hit<T> = Hit(item: T, relevance: real, reason: Option<string>)

  function RelevanceOf<T>(h: Hit<T>): real
  {
    h.relevance
  }

  /** The items with a positive relevance, in table order, before sorting. */
  function KeywordHits<T>(items: seq<T>, textOf: T -> string, terms: seq<string>, reason: Option<string>): seq<Hit<T>>
    decreases |items|
  {
    if |items| == 0 then []
    else
      var last := items[|items| - 1];
      var score := Relevance(terms, textOf(last));
      KeywordHits(items[..|items| - 1], textOf, terms, reason) + (if score > 0.0 then [Hit(last, score, reason)] else [])
  }

  /** What a keyword search returns: its hits sorted by relevance, highest first, ties in table order. */
  function KeywordRanked<T>(items: seq<T>, textOf: T -> string, terms: seq<string>, reason: Option<string>): seq<Hit<T>>
  {
    Seqs.SortDesc(KeywordHits(items, textOf, terms, reason), RelevanceOf)
  }

  lemma KeywordHitsSnoc<T>(items: seq<T>, textOf: T -> string, terms: seq<string>, reason: Option<string>, i: int)
    requires 0 <= i < |items|
    ensures KeywordHits(items[..i + 1], textOf, terms, reason)
         == KeywordHits(items[..i], textOf, terms, reason)
            + (if Relevance(terms, textOf(items[i])) > 0.0 then [Hit(items[i], Relevance(terms, textOf(items[i])), reason)] else [])
  {
    assert items[..i + 1][..i] == items[..i];
  }

  /** Every hit is an item with its own positive relevance; every item of positive relevance is a hit. */
  lemma {:induction false} KeywordHitsExact<T>(items: seq<T>, textOf: T -> string, terms: seq<string>, reason: Option<string>)
    ensures forall k :: 0 <= k < |KeywordHits(items, textOf, terms, reason)| ==>
      var h := KeywordHits(items, textOf, terms, reason)[k];
      h.item in items && h.relevance == Relevance(terms, textOf(h.item)) && h.relevance > 0.0 && h.reason == reason
    ensures forall k :: 0 <= k < |items| && Relevance(terms, textOf(items[k])) > 0.0 ==>
      Hit(items[k], Relevance(terms, textOf(items[k])), reason) in KeywordHits(items, textOf, terms, reason)
    decreases |items|
  {
    if |items| > 0 {
      var init := items[..|items| - 1];
      KeywordHitsExact(init, textOf, terms, reason);
      assert forall k :: 0 <= k < |init| ==> init[k] == items[k];
    }
  }

  /**
   * `results.sort(key=lambda x: x["relevance"], reverse=True)` over the
   * hits: sorted non-increasing, exactly the items of positive relevance
   * (each with its relevance, in (0, 1]), and hits of equal relevance in
   * table order.
   */
  lemma KeywordRankedSpec<T>(items: seq<T>, textOf: T -> string, terms: seq<string>, reason: Option<string>)
    ensures Seqs.SortedDesc(KeywordRanked(items, textOf, terms, reason), RelevanceOf)
    ensures forall k :: 0 <= k < |KeywordRanked(items, textOf, terms, reason)| ==>
      var h := KeywordRanked(items, textOf, terms, reason)[k];
      h.item in items && h.relevance == Relevance(terms, textOf(h.item)) && 0.0 < h.relevance <= 1.0
    ensures forall k :: 0 <= k < |items| && Relevance(terms, textOf(items[k])) > 0.0 ==>
      Hit(items[k], Relevance(terms, textOf(items[k])), reason) in KeywordRanked(items, textOf, terms, reason)
    ensures forall v :: Seqs.WithKey(KeywordRanked(items, textOf, terms, reason), RelevanceOf, v)
                     == Seqs.WithKey(KeywordHits(items, textOf, terms, reason), RelevanceOf, v)
  {
    var hits := KeywordHits(items, textOf, terms, reason);
    KeywordHitsExact(items, textOf, terms, reason);
    Seqs.SortDescSameElements(hits, RelevanceOf);
    forall k | 0 <= k < |KeywordRanked(items, textOf, terms, reason)|
      ensures KeywordRanked(items, textOf, terms, reason)[k].relevance <= 1.0
    {
      RelevanceBounds(terms, textOf(KeywordRanked(items, textOf, terms, reason)[k].item));
    }
    forall v
      ensures Seqs.WithKey(KeywordRanked(items, textOf, terms, reason), RelevanceOf, v) == Seqs.WithKey(hits, RelevanceOf, v)
    {
      Seqs.SortDescStable(hits, RelevanceOf, v);
    }
  }

  /** The keyword loop shared by `_search_problems`, `_search_capabilities` and `_search_gaps`. */
  method KeywordSearch<T>(items: seq<T>, textOf: T -> string, terms: seq<string>, reason: Option<string>)
    returns (results: seq<Hit<T>>)
    ensures results == KeywordRanked(items, textOf, terms, reason)
  {
    results := [];
    for i := 0 to |items|
      invariant results == KeywordHits(items[..i], textOf, terms, reason)
    {
      KeywordHitsSnoc(items, textOf, terms, reason, i);
      var score := Relevance(terms, textOf(items[i]));
      if score > 0.0 {
        results := results + [Hit(items[i], score, reason)];
      }
    }
    assert items[..|items|] == items;
    results := Seqs.SortDesc(results, RelevanceOf);
  }

  // ---------------------------------------------------------------------------
  // The three searches

  /** `f"{p.title} {p.description}".lower()`. */
  function ProblemText(p: Problem): string
  {
    Text.Lower(p.title + " " + p.description)
  }

  /** `f"{cap.name} {cap.description}".lower()`. */
  function CapabilityText(c: Capability): string
  {
    Text.Lower(c.name + " " + c.description)
  }

  /** A gap with the name of its capability, `None` when the gap has no capability. */
  datatype GapRow = GapRow(gap: Gap, capabilityName: Option<string>)

  /** `f"{gap.description} {gap.capability.name if gap.capability else ''}".lower()`. */
  function GapText(g: GapRow): string
  {
    Text.Lower(g.gap.description + " " + g.capabilityName.GetOr(""))
  }

  /** One entry of the LLM's problem ranking; `index` counts from 1. */
  datatype Ranking = Ranking(index: int, relevance: real, reason: string)

  /** `problem_scores.get(i, 0.0)`: the dictionary keeps the last entry for an index. */
  function RankedRelevance(rankings: seq<Ranking>, i: int): real
    decreases |rankings|
  {
    if |rankings| == 0 then 0.0
    else if rankings[|rankings| - 1].index - 1 == i then rankings[|rankings| - 1].relevance
    else RankedRelevance(rankings[..|rankings| - 1], i)
  }

  /** `next((r["reason"] for r in rankings if r["index"] - 1 == i), "")`: the first entry for an index. */
  function RankedReason(rankings: seq<Ranking>, i: int): string
    decreases |rankings|
  {
    if |rankings| == 0 then ""
    else if rankings[0].index - 1 == i then rankings[0].reason
    else RankedReason(rankings[1..], i)
  }

  /** Problem `i` gets the relevance 0.0 when no ranking entry has index `i + 1`. */
  lemma {:induction false} RankedRelevanceMissing(rankings: seq<Ranking>, i: int)
    requires forall k :: 0 <= k < |rankings| ==> rankings[k].index != i + 1
    ensures RankedRelevance(rankings, i) == 0.0
    decreases |rankings|
  {
    if |rankings| > 0 {
      var init := rankings[..|rankings| - 1];
      assert forall k :: 0 <= k < |init| ==> init[k] == rankings[k];
      RankedRelevanceMissing(init, i);
    }
  }

  /** Otherwise it gets the relevance of the last entry with index `i + 1`. */
  lemma {:induction false} RankedRelevanceLast(rankings: seq<Ranking>, i: int, k: int)
    requires 0 <= k < |rankings| && rankings[k].index == i + 1
    requires forall k2 :: k < k2 < |rankings| ==> rankings[k2].index != i + 1
    ensures RankedRelevance(rankings, i) == rankings[k].relevance
    decreases |rankings|
  {
    if k < |rankings| - 1 {
      var init := rankings[..|rankings| - 1];
      assert forall k2 :: 0 <= k2 < |init| ==> init[k2] == rankings[k2];
      RankedRelevanceLast(init, i, k);
    }
  }

  /** Problem `i`'s reason is "" when no ranking entry has index `i + 1`. */
  lemma {:induction false} RankedReasonMissing(rankings: seq<Ranking>, i: int)
    requires forall k :: 0 <= k < |rankings| ==> rankings[k].index != i + 1
    ensures RankedReason(rankings, i) == ""
    decreases |rankings|
  {
    if |rankings| > 0 {
      RankedReasonMissing(rankings[1..], i);
    }
  }

  /** Otherwise it is the reason of the first entry with index `i + 1`. */
  lemma {:induction false} RankedReasonFirst(rankings: seq<Ranking>, i: int, k: int)
    requires 0 <= k < |rankings| && rankings[k].index == i + 1
    requires forall k2 :: 0 <= k2 < k ==> rankings[k2].index != i + 1
    ensures RankedReason(rankings, i) == rankings[k].reason
    decreases |rankings|
  {
    if k > 0 {
      var tail := rankings[1..];
      assert forall k2 :: 0 <= k2 < k - 1 ==> tail[k2] == rankings[k2 + 1];
      RankedReasonFirst(tail, i, k - 1);
    }
  }

  /** `problems_with_scores` before sorting: each problem with its ranked relevance and reason. */
  function LlmScored(problems: seq<Problem>, rankings: seq<Ranking>): (r: seq<Hit<Problem>>)
    ensures |r| == |problems|
    ensures forall i :: 0 <= i < |problems| ==>
      r[i] == Hit(problems[i], RankedRelevance(rankings, i), Some(RankedReason(rankings, i)))
  {
    seq(|problems|, i requires 0 <= i < |problems| =>
      Hit(problems[i], RankedRelevance(rankings, i), Some(RankedReason(rankings, i))))
  }

  /**
   * `_search_problems`: the LLM's ranking of the first 50 problems when
   * the call succeeds (`rankings` is `Some`), else the keyword search with
   * reason "Keyword match".
   */
  function ProblemResults(table: seq<Problem>, terms: seq<string>, rankings: Option<seq<Ranking>>): seq<Hit<Problem>>
  {
    var problems := Seqs.Take(table, ProblemLimit);
    if |problems| == 0 then []
    else if rankings.Some? then Seqs.SortDesc(LlmScored(Seqs.Take(problems, LlmRankLimit), rankings.value), RelevanceOf)
    else KeywordRanked(problems, ProblemText, terms, Some("Keyword match"))
  }

  /**
   * With the LLM's ranking, the result holds each of the first
   * min(50, |table|) problems once with its ranked relevance, sorted
   * non-increasing.
   */
  lemma ProblemResultsRanked(table: seq<Problem>, terms: seq<string>, rankings: seq<Ranking>)
    ensures |ProblemResults(table, terms, Some(rankings))| == Seqs.Min(|table|, LlmRankLimit)
    ensures Seqs.SortedDesc(ProblemResults(table, terms, Some(rankings)), RelevanceOf)
    ensures forall k :: 0 <= k < |ProblemResults(table, terms, Some(rankings))| ==>
      exists i :: 0 <= i < Seqs.Min(|table|, LlmRankLimit)
        && ProblemResults(table, terms, Some(rankings))[k]
           == Hit(table[i], RankedRelevance(rankings, i), Some(RankedReason(rankings, i)))
    ensures forall i :: 0 <= i < Seqs.Min(|table|, LlmRankLimit) ==>
      Hit(table[i], RankedRelevance(rankings, i), Some(RankedReason(rankings, i))) in ProblemResults(table, terms, Some(rankings))
  {
    var first := Seqs.Take(Seqs.Take(table, ProblemLimit), LlmRankLimit);
    assert forall i :: 0 <= i < |first| ==> first[i] == table[i];
    var scored := LlmScored(first, rankings);
    Seqs.SortDescSameElements(scored, RelevanceOf);
    if |table| == 0 {
      assert ProblemResults(table, terms, Some(rankings)) == [];
    } else {
      forall k | 0 <= k < |ProblemResults(table, terms, Some(rankings))|
        ensures exists i :: (0 <= i < Seqs.Min(|table|, LlmRankLimit)
          && ProblemResults(table, terms, Some(rankings))[k]
             == Hit(table[i], RankedRelevance(rankings, i), Some(RankedReason(rankings, i))))
      {
        var i :| 0 <= i < |scored| && scored[i] == ProblemResults(table, terms, Some(rankings))[k];
      }
      forall i | 0 <= i < Seqs.Min(|table|, LlmRankLimit)
        ensures Hit(table[i], RankedRelevance(rankings, i), Some(RankedReason(rankings, i))) in ProblemResults(table, terms, Some(rankings))
      {
        assert scored[i] in ProblemResults(table, terms, Some(rankings));
      }
    }
  }

  /** `_search_capabilities`. */
  function CapabilityResults(table: seq<Capability>, terms: seq<string>): seq<Hit<Capability>>
  {
    KeywordRanked(Seqs.Take(table, CapabilityLimit), CapabilityText, terms, None)
  }

  /** `_search_gaps`. */
  function GapResults(table: seq<GapRow>, terms: seq<string>): seq<Hit<GapRow>>
  {
    KeywordRanked(Seqs.Take(table, GapLimit), GapText, terms, None)
  }

  method SearchProblems(table: seq<Problem>, terms: seq<string>, rankings: Option<seq<Ranking>>)
    returns (results: seq<Hit<Problem>>)
    ensures results == ProblemResults(table, terms, rankings)
  {
    var problems := Seqs.Take(table, ProblemLimit);
    if |problems| == 0 {
      return [];
    }
    if rankings.Some? {
      var problemsWithScores := LlmScored(Seqs.Take(problems, LlmRankLimit), rankings.value);
      results := Seqs.SortDesc(problemsWithScores, RelevanceOf);
    } else {
      results := KeywordSearch(problems, ProblemText, terms, Some("Keyword match"));
    }
  }

  method SearchCapabilities(table: seq<Capability>, terms: seq<string>) returns (results: seq<Hit<Capability>>)
    ensures results == CapabilityResults(table, terms)
  {
    var capabilities := Seqs.Take(table, CapabilityLimit);
    if |capabilities| == 0 {
      return [];
    }
    results := KeywordSearch(capabilities, CapabilityText, terms, None);
  }

  method SearchGaps(table: seq<GapRow>, terms: seq<string>) returns (results: seq<Hit<GapRow>>)
    ensures results == GapResults(table, terms)
  {
    var gaps := Seqs.Take(table, GapLimit);
    if |gaps| == 0 {
      return [];
    }
    results := KeywordSearch(gaps, GapText, terms, None);
  }

  // ---------------------------------------------------------------------------
  // `search`

  /** `_generate_summary`: the LLM's text stripped, or the counting sentence when the call raised. */
  function Summary(llmSummary: Option<string>, problems: nat, capabilities: nat, gaps: nat): string
  {
    if llmSummary.Some? then Text.Strip(llmSummary.value)
    else "Found " + Text.NatToString(problems) + " problems, " + Text.NatToString(capabilities)
         + " capabilities, and " + Text.NatToString(gaps) + " gaps related to your query."
  }

  datatype Results = Results(problems: seq<Hit<Problem>>, capabilities: seq<Hit<Capability>>, gaps: seq<Hit<GapRow>>)

  datatype Totals = Totals(problems: nat, capabilities: nat, gaps: nat)

  /** The response dictionary; `results` is `None` for the empty list of a disabled search. */
  datatype Response = Response(query: string, results: Option<Results>, summary: string, suggestions: seq<string>,
                               totals: Option<Totals>)

  /** The LLM's replies `search` depends on; each `None` stands for a call that raised. */
  datatype LlmReplies = LlmReplies(
    intent: Option<SearchIntent>,
    rankings: Option<seq<Ranking>>,
    summary: Option<string>,
    suggestions: Option<seq<string>>)

  /** `search`. */
  function SearchResponse(query: string, enabled: bool, llm: LlmReplies,
                          problems: seq<Problem>, capabilities: seq<Capability>, gaps: seq<GapRow>): Response
  {
    if !enabled then Response(query, None, DisabledSummary, [], None)
    else
      var terms := Terms(query, ExtractedIntent(query, llm.intent));
      var ps := ProblemResults(problems, terms, llm.rankings);
      var cs := CapabilityResults(capabilities, terms);
      var gs := GapResults(gaps, terms);
      Response(query, Some(Results(Seqs.Take(ps, TopN), Seqs.Take(cs, TopN), Seqs.Take(gs, TopN))),
               Summary(llm.summary, |ps|, |cs|, |gs|), llm.suggestions.GetOr([]),
               Some(Totals(|ps|, |cs|, |gs|)))
  }

  /** With the LLM disabled, the response is the query, no results, the fixed notice and no suggestions. */
  lemma SearchDisabled(query: string, llm: LlmReplies, problems: seq<Problem>, capabilities: seq<Capability>, gaps: seq<GapRow>)
    ensures var r := SearchResponse(query, false, llm, problems, capabilities, gaps);
      r.query == query && r.results.None? && r.summary == DisabledSummary && r.suggestions == [] && r.totals.None?
  {
  }

  /**
   * With the LLM enabled, each kind shows at most ten results, the first
   * ten of its full list, none ranked below one that is cut off; the
   * totals count the full lists, which hold at most 100 problems, 100
   * capabilities and 50 gaps.
   */
  lemma SearchShowsTopTen(query: string, llm: LlmReplies, problems: seq<Problem>, capabilities: seq<Capability>, gaps: seq<GapRow>)
    ensures var r := SearchResponse(query, true, llm, problems, capabilities, gaps);
      var terms := Terms(query, ExtractedIntent(query, llm.intent));
      && r.results.Some? && r.totals.Some?
      && r.results.value.problems == Seqs.Take(ProblemResults(problems, terms, llm.rankings), TopN)
      && r.results.value.capabilities == Seqs.Take(CapabilityResults(capabilities, terms), TopN)
      && r.results.value.gaps == Seqs.Take(GapResults(gaps, terms), TopN)
      && |r.results.value.problems| <= TopN && |r.results.value.capabilities| <= TopN && |r.results.value.gaps| <= TopN
      && r.totals.value == Totals(|ProblemResults(problems, terms, llm.rankings)|, |CapabilityResults(capabilities, terms)|,
                                  |GapResults(gaps, terms)|)
      && r.totals.value.problems <= ProblemLimit && r.totals.value.capabilities <= CapabilityLimit
      && r.totals.value.gaps <= GapLimit
  {
    var terms := Terms(query, ExtractedIntent(query, llm.intent));
    KeywordHitsLength(Seqs.Take(problems, ProblemLimit), ProblemText, terms, Some("Keyword match"));
    KeywordHitsLength(Seqs.Take(capabilities, CapabilityLimit), CapabilityText, terms, None);
    KeywordHitsLength(Seqs.Take(gaps, GapLimit), GapText, terms, None);
  }

  lemma {:induction false} KeywordHitsLength<T>(items: seq<T>, textOf: T -> string, terms: seq<string>, reason: Option<string>)
    ensures |KeywordHits(items, textOf, terms, reason)| <= |items|
    decreases |items|
  {
    if |items| > 0 {
      KeywordHitsLength(items[..|items| - 1], textOf, terms, reason);
    }
  }

  /** The shown results of every kind rank at least as high as every result cut off. */
  lemma SearchShowsBest(query: string, llm: LlmReplies, problems: seq<Problem>, capabilities: seq<Capability>, gaps: seq<GapRow>)
    ensures var terms := Terms(query, ExtractedIntent(query, llm.intent));
      var ps := ProblemResults(problems, terms, llm.rankings);
      forall i, j :: 0 <= i < |Seqs.Take(ps, TopN)| <= j < |ps| ==> Seqs.Take(ps, TopN)[i].relevance >= ps[j].relevance
    ensures var terms := Terms(query, ExtractedIntent(query, llm.intent));
      var cs := CapabilityResults(capabilities, terms);
      forall i, j :: 0 <= i < |Seqs.Take(cs, TopN)| <= j < |cs| ==> Seqs.Take(cs, TopN)[i].relevance >= cs[j].relevance
    ensures var terms := Terms(query, ExtractedIntent(query, llm.intent));
      var gs := GapResults(gaps, terms);
      forall i, j :: 0 <= i < |Seqs.Take(gs, TopN)| <= j < |gs| ==> Seqs.Take(gs, TopN)[i].relevance >= gs[j].relevance
  {
    var terms := Terms(query, ExtractedIntent(query, llm.intent));
    var ps := ProblemResults(problems, terms, llm.rankings);
    assert Seqs.SortedDesc(ps, RelevanceOf);
    Seqs.SortedPrefixDominates(ps, RelevanceOf, TopN);
    Seqs.SortedPrefixDominates(CapabilityResults(capabilities, terms), RelevanceOf, TopN);
    Seqs.SortedPrefixDominates(GapResults(gaps, terms), RelevanceOf, TopN);
  }

  /** `search`, calling the three searches in turn. */
  method Search(query: string, enabled: bool, llm: LlmReplies,
                problems: seq<Problem>, capabilities: seq<Capability>, gaps: seq<GapRow>) returns (response: Response)
    ensures response == SearchResponse(query, enabled, llm, problems, capabilities, gaps)
  {
    if !enabled {
      return Response(query, None, DisabledSummary, [], None);
    }
    var searchTerms := ExtractedIntent(query, llm.intent);
    var terms := Terms(query, searchTerms);
    var ps := SearchProblems(problems, terms, llm.rankings);
    var cs := SearchCapabilities(capabilities, terms);
    var gs := SearchGaps(gaps, terms);
    var summary := Summary(llm.summary, |ps|, |cs|, |gs|);
    var suggestions := llm.suggestions.GetOr([]);
    response := Response(query, Some(Results(Seqs.Take(ps, TopN), Seqs.Take(cs, TopN), Seqs.Take(gs, TopN))),
                         summary, suggestions, Some(Totals(|ps|, |cs|, |gs|)));
  }
}
