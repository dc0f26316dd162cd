/**
 * Capability extraction (longevity_map/agents/capability_extractor.py).
 * When the LLM yields nothing, the pattern path turns every regex match in
 * the lower-cased text into a candidate named from the text around it,
 * drops short names, removes candidates whose names overlap an earlier one,
 * and fills in heuristic cost, time and complexity.
 *
 * The regular-expression engine is not part of this model. For each
 * capability type, `matchesOf` gives what `re.finditer` yields for that
 * type's patterns, in pattern order; each match carries its span in the
 * text and the span of the first curated phrase `re.search` finds in the
 * match's context window, if any. The LLM's reply is an input as well.
 */
module CapabilityExtractor {
  import opened Wrappers
  import opened CapabilityModel
  import Text
  import Seqs

  /** Python truthiness of a nullable number: `None` and `0` are false. */
  predicate Truthy(x: Option<real>)
  {
    x.Some? && x.value != 0.0
  }

  /** Python's `a or b` on nullable numbers. */
  function Or(a: Option<real>, b: Option<real>): (r: Option<real>)
    ensures Truthy(a) ==> r == a
    ensures !Truthy(a) ==> r == b
  {
    if Truthy(a) then a else b
  }

  // ---------------------------------------------------------------------------
  // Estimation

  /** `base_costs` of `_estimate_requirements`: (USD, months) per type, (50000, 6) for `other`. */
  function BaseRequirements(t: CapabilityType): (real, real)
  {
    match t
    case MeasurementTool => (50000.0, 6.0)
    case ModelSystem => (100000.0, 12.0)
    case Dataset => (20000.0, 3.0)
    case ComputationalMethod => (50000.0, 6.0)
    case Software => (100000.0, 12.0)
    case Hardware => (200000.0, 18.0)
    case Protocol => (10000.0, 2.0)
    case Infrastructure => (500000.0, 24.0)
    case Other => (50000.0, 6.0)
  }

  const ComplexityWords: seq<string> := ["complex", "advanced", "novel", "cutting-edge"]

  /** Whether the lower-cased description mentions one of the complexity words. */
  predicate MentionsComplexity(description: string)
  {
    exists k :: 0 <= k < |ComplexityWords| && Text.Contains(Text.Lower(description), ComplexityWords[k])
  }

  /** `_estimate_requirements`: the type's base cost and time, scaled by 1.5 and 1.3 for complex work. */
  function EstimateRequirements(c: Capability): (r: (real, real))
  {
    var (cost, time) := BaseRequirements(c.ctype);
    if MentionsComplexity(c.description) then (cost * 1.5, time * 1.3) else (cost, time)
  }

  /**
   * The estimate is the type's table entry, multiplied by 1.5 (cost) and 1.3
   * (time) exactly when the description mentions complex work; it lies between
   * 10000 USD and 2 months and 750000 USD and 31.2 months.
   */
  lemma RequirementsTable(c: Capability)
    ensures MentionsComplexity(c.description) ==>
      EstimateRequirements(c) == (BaseRequirements(c.ctype).0 * 1.5, BaseRequirements(c.ctype).1 * 1.3)
    ensures !MentionsComplexity(c.description) ==> EstimateRequirements(c) == BaseRequirements(c.ctype)
    ensures 10000.0 <= EstimateRequirements(c).0 <= 750000.0
    ensures 2.0 <= EstimateRequirements(c).1 <= 31.2
  {
  }

  /** A description containing a complexity word mentions complex work, whatever surrounds it. */
  lemma ComplexityWordAnywhere(pre: string, word: string, post: string)
    requires word in ComplexityWords
    ensures MentionsComplexity(pre + word + post)
  {
    var k :| 0 <= k < |ComplexityWords| && ComplexityWords[k] == word;
    Text.LowerConcat(pre + word, post);
    Text.LowerConcat(pre, word);
    assert Text.Lower(word) == word;
    Text.ContainsSelf(word);
    Text.ContainsWithin(word, Text.Lower(pre), Text.Lower(post), word);
  }

  /** `base_complexity` of `_estimate_complexity`, 0.5 for `other`. */
  function BaseComplexity(t: CapabilityType): real
  {
    match t
    case MeasurementTool => 0.5
    case ModelSystem => 0.7
    case Dataset => 0.3
    case ComputationalMethod => 0.6
    case Software => 0.6
    case Hardware => 0.8
    case Protocol => 0.4
    case Infrastructure => 0.9
    case Other => 0.5
  }

  /** `_estimate_complexity`: the type's base, plus 0.1 up to 1.0 for a description over 500 characters. */
  function EstimateComplexity(c: Capability): (r: real)
    ensures 0.3 <= r <= 1.0
    ensures |c.description| > 500 <==> r == Seqs.MinReal(1.0, BaseComplexity(c.ctype) + 0.1)
    ensures |c.description| <= 500 <==> r == BaseComplexity(c.ctype)
  {
    var base := BaseComplexity(c.ctype);
    if |c.description| > 500 then Seqs.MinReal(1.0, base + 0.1) else base
  }

  /** `_estimate_complexity_from_data`: the mean of the cost and time scores, with defaults 50000 and 6. */
  function ComplexityFromData(costUsd: Option<real>, timeMonths: Option<real>): (r: real)
  {
    var cost := costUsd.GetOr(50000.0);
    var time := timeMonths.GetOr(6.0);
    (Seqs.MinReal(1.0, cost / 1000000.0) + Seqs.MinReal(1.0, time / 60.0)) / 2.0
  }

  /**
   * The complexity from LLM data never exceeds 1, is at least 0 for
   * non-negative figures, reaches 1 exactly when both scores are saturated.
   */
  lemma ComplexityFromDataBounds(costUsd: Option<real>, timeMonths: Option<real>)
    ensures ComplexityFromData(costUsd, timeMonths) <= 1.0
    ensures costUsd.GetOr(50000.0) >= 0.0 && timeMonths.GetOr(6.0) >= 0.0 ==> ComplexityFromData(costUsd, timeMonths) >= 0.0
    ensures ComplexityFromData(costUsd, timeMonths) == 1.0
        <==> costUsd.GetOr(50000.0) >= 1000000.0 && timeMonths.GetOr(6.0) >= 60.0
  {
  }

  /** Both figures missing: (0.05 + 0.1) / 2. */
  lemma ComplexityFromDataDefaults()
    ensures ComplexityFromData(None, None) == 0.075
  {
  }

  /**
   * The estimation loop of `process`: a capability without a truthy cost gets
   * the cost and time estimate, and one without a truthy complexity the
   * complexity estimate.
   */
  function Estimated(c: Capability): (r: Capability)
  {
    var c' := if !Truthy(c.estimatedCost) then
        c.(estimatedCost := Some(EstimateRequirements(c).0), estimatedTime := Some(EstimateRequirements(c).1))
      else c;
    if !Truthy(c'.complexity) then c'.(complexity := Some(EstimateComplexity(c'))) else c'
  }

  /**
   * Estimation fills what is missing and keeps everything else: afterwards
   * cost and complexity are truthy, time is set, and name, description and
   * type are unchanged.
   */
  lemma EstimatedFillsIn(c: Capability)
    ensures Estimated(c).name == c.name && Estimated(c).description == c.description && Estimated(c).ctype == c.ctype
    ensures Truthy(Estimated(c).estimatedCost) && Estimated(c).complexity.Some?
    ensures Truthy(c.estimatedCost) ==> Estimated(c).estimatedCost == c.estimatedCost && Estimated(c).estimatedTime == c.estimatedTime
    ensures !Truthy(c.estimatedCost) ==>
      Estimated(c).estimatedCost == Some(EstimateRequirements(c).0) && Estimated(c).estimatedTime == Some(EstimateRequirements(c).1)
    ensures Truthy(c.complexity) ==> Estimated(c).complexity == c.complexity
    ensures !Truthy(c.complexity) ==> Estimated(c).complexity == Some(EstimateComplexity(c))
  {
    RequirementsTable(c);
  }

  /** Estimating twice is estimating once. */
  lemma EstimatedIdempotent(c: Capability)
    ensures Estimated(Estimated(c)) == Estimated(c)
  {
    EstimatedFillsIn(c);
  }

  // ---------------------------------------------------------------------------
  // The LLM path's conversion of one reply entry

  /** One entry of the LLM's reply; `None` is a key the reply does not have. */
  datatype LlmCapability = LlmCapability(
    name: Option<string>,
    description: Option<string>,
    ctype: Option<string>,
    estimatedCostUsd: Option<real>,
    estimatedCost: Option<real>,
    estimatedTimeMonths: Option<real>,
    estimatedTime: Option<real>)

  /**
   * The `Capability(...)` built from one reply entry: stripped name (default
   * "Unknown") and description, the coerced type (default "other"), the
   * `_usd`/`_months` figures or else the plain ones, and the complexity
   * from the data.
   */
  function FromLlm(d: LlmCapability): (c: Capability)
  {
    Capability(None, Text.Strip(d.name.GetOr("Unknown")), Text.Strip(d.description.GetOr("")),
               TypeFromLlm(d.ctype.GetOr("other")),
               Or(d.estimatedCostUsd, d.estimatedCost), Or(d.estimatedTimeMonths, d.estimatedTime),
               Some(ComplexityFromData(d.estimatedCostUsd, d.estimatedTimeMonths)))
  }

  /**
   * A reply entry's figures are taken as given: a truthy `_usd` cost wins
   * over the plain cost, a missing type is `other`, a missing name "Unknown",
   * and the complexity is always set.
   */
  lemma FromLlmFields(d: LlmCapability)
    ensures Truthy(d.estimatedCostUsd) ==> FromLlm(d).estimatedCost == d.estimatedCostUsd
    ensures !Truthy(d.estimatedCostUsd) ==> FromLlm(d).estimatedCost == d.estimatedCost
    ensures Truthy(d.estimatedTimeMonths) ==> FromLlm(d).estimatedTime == d.estimatedTimeMonths
    ensures !Truthy(d.estimatedTimeMonths) ==> FromLlm(d).estimatedTime == d.estimatedTime
    ensures d.ctype.None? ==> FromLlm(d).ctype == Other
    ensures d.name.None? ==> FromLlm(d).name == "Unknown"
    ensures FromLlm(d).complexity.Some? && FromLlm(d).complexity.value <= 1.0
  {
    TypeFromLlmRoundTrip(Other);
    assert Text.Strip("Unknown") == "Unknown" by {
      Text.StripNoEdgeSpace("Unknown");
    }
    ComplexityFromDataBounds(d.estimatedCostUsd, d.estimatedTimeMonths);
  }

  // ---------------------------------------------------------------------------
  // Naming a match

  /** A half-open character range `[start, end)`, as `match.start()` and `match.end()` give it. */
  datatype Span = Span(start: nat, end: nat)

  /** One `re.finditer` match, with the curated phrase `re.search` finds in its context window. */
  datatype PatternMatch = PatternMatch(span: Span, curated: Option<Span>)

  /** `text[max(0, start - w) : min(len(text), end + w)]`. */
  function Window(text: string, sp: Span, w: nat): string
  {
    Seqs.Slice(text, if sp.start >= w then sp.start - w else 0, Seqs.Min(|text|, sp.end + w))
  }

  /** The curated-phrase name: 20 characters either side, stripped, blanks collapsed, at most 100 characters. */
  function CuratedName(context: string, sp: Span): string
  {
    Seqs.Take(Text.CollapseSpaces(Text.Strip(Window(context, sp, 20))), 100)
  }

  /** The position a word would start at if the words were separated by single blanks. */
  function WordStart(words: seq<string>, i: int): int
    requires 0 <= i <= |words|
    decreases i
  {
    if i == 0 then 0 else WordStart(words, i - 1) + |words[i - 1]| + 1
  }

  /** The index the word walk of `_extract_capability_name` stops at, resuming from word `i`. */
  function WordIndexFrom(words: seq<string>, matchIdx: int, i: int): (r: int)
    requires 0 <= i <= |words|
    ensures r == 0 || i <= r < |words|
    decreases |words| - i
  {
    if i == |words| then 0
    else if WordStart(words, i) >= matchIdx then i
    else WordIndexFrom(words, matchIdx, i + 1)
  }

  function WordIndex(words: seq<string>, matchIdx: int): (r: int)
    ensures r == 0 || 0 <= r < |words|
  {
    WordIndexFrom(words, matchIdx, 0)
  }

  lemma {:induction false} WordIndexFromFirst(words: seq<string>, matchIdx: int, i: int)
    requires 0 <= i <= |words|
    requires forall j :: 0 <= j < i ==> WordStart(words, j) < matchIdx
    ensures (exists j :: i <= j < |words| && WordStart(words, j) >= matchIdx) ==>
      && WordIndexFrom(words, matchIdx, i) < |words|
      && WordStart(words, WordIndexFrom(words, matchIdx, i)) >= matchIdx
      && forall j :: 0 <= j < WordIndexFrom(words, matchIdx, i) ==> WordStart(words, j) < matchIdx
    ensures (forall j :: i <= j < |words| ==> WordStart(words, j) < matchIdx) ==> WordIndexFrom(words, matchIdx, i) == 0
    decreases |words| - i
  {
    if i < |words| && WordStart(words, i) < matchIdx {
      WordIndexFromFirst(words, matchIdx, i + 1);
    }
  }

  /**
   * The walk stops at the first word whose (blank-separated) start is at or
   * after the match; when every word starts before the match it falls back
   * to the first word.
   */
  lemma WordIndexIsFirst(words: seq<string>, matchIdx: int)
    ensures (exists j :: 0 <= j < |words| && WordStart(words, j) >= matchIdx) ==>
      && WordIndex(words, matchIdx) < |words|
      && WordStart(words, WordIndex(words, matchIdx)) >= matchIdx
      && forall j :: 0 <= j < WordIndex(words, matchIdx) ==> WordStart(words, j) < matchIdx
    ensures (forall j :: 0 <= j < |words| ==> WordStart(words, j) < matchIdx) ==> WordIndex(words, matchIdx) == 0
  {
    WordIndexFromFirst(words, matchIdx, 0);
  }

  /** The words kept around word `w`: two before it, the word itself and three after. */
  function WordWindow(words: seq<string>, w: int): seq<string>
  {
    Seqs.Slice(words, Seqs.Max(0, w - 2), Seqs.Min(|words|, Seqs.Max(0, w + 4)))
  }

  /** The fallback name: the matched text when it is not in the context, else the word window around it. */
  function FallbackName(context: string, matched: string): string
  {
    var idx := Text.Find(Text.Lower(context), Text.Lower(matched));
    if idx == -1 then matched
    else Text.Strip(Text.Join(" ", WordWindow(Text.Words(context), WordIndex(Text.Words(context), idx))))
  }

  /** What `_extract_capability_name` returns. */
  function NameFor(context: string, matched: string, curated: Option<Span>): string
  {
    if curated.Some? then CuratedName(context, curated.value) else FallbackName(context, matched)
  }

  /**
   * A curated name has at most 100 characters, does not start with
   * whitespace, and its only whitespace is single blanks.
   */
  lemma CuratedNameShape(context: string, sp: Span)
    ensures |CuratedName(context, sp)| <= 100
    ensures |CuratedName(context, sp)| > 0 ==> !Text.IsSpace(CuratedName(context, sp)[0])
    ensures forall i :: 0 <= i < |CuratedName(context, sp)| && Text.IsSpace(CuratedName(context, sp)[i]) ==>
      CuratedName(context, sp)[i] == ' '
    ensures forall i :: 0 <= i < |CuratedName(context, sp)| - 1 ==>
      !(CuratedName(context, sp)[i] == ' ' && CuratedName(context, sp)[i + 1] == ' ')
  {
    var st := Text.Strip(Window(context, sp, 20));
    assert CuratedName(context, sp) == Seqs.Take(Text.CollapseSpaces(st), 100);
    Text.CollapsedPrefixShape(st, 100);
  }

  /** A matched text not found in the context is itself the name. */
  lemma FallbackNotFound(context: string, matched: string)
    requires !Text.Contains(Text.Lower(context), Text.Lower(matched))
    ensures FallbackName(context, matched) == matched
  {
  }

  /**
   * A matched text found in the context is named by at most six of the
   * context's words, joined by single blanks: from two before the word
   * the walk stops at to three after it.
   */
  lemma FallbackWordWindow(context: string, matched: string)
    requires Text.Contains(Text.Lower(context), Text.Lower(matched))
    ensures FallbackName(context, matched)
         == Text.Join(" ", WordWindow(Text.Words(context),
              WordIndex(Text.Words(context), Text.Find(Text.Lower(context), Text.Lower(matched)))))
    ensures |WordWindow(Text.Words(context),
              WordIndex(Text.Words(context), Text.Find(Text.Lower(context), Text.Lower(matched))))| <= 6
  {
    var words := Text.Words(context);
    var ws := WordWindow(words, WordIndex(words, Text.Find(Text.Lower(context), Text.Lower(matched))));
    assert forall k :: 0 <= k < |ws| ==> ws[k] in words;
    Text.JoinWordsStripped(ws);
  }

  /** `_extract_capability_name`, with the word walk as a loop. */
  method ExtractCapabilityName(context: string, matched: string, curated: Option<Span>) returns (name: string)
    ensures name == NameFor(context, matched, curated)
  {
    if curated.Some? {
      var phrase := Text.Strip(Window(context, curated.value, 20));
      phrase := Text.CollapseSpaces(phrase);
      return Seqs.Take(phrase, 100);
    }
    var words := Text.Words(context);
    var matchIdx := Text.Find(Text.Lower(context), Text.Lower(matched));
    if matchIdx == -1 {
      return matched;
    }
    var charPos := 0;
    var wordIdx := 0;
    for i := 0 to |words|
      invariant charPos == WordStart(words, i)
      invariant WordIndexFrom(words, matchIdx, i) == WordIndex(words, matchIdx)
    {
      if charPos >= matchIdx {
        wordIdx := i;
        break;
      }
      charPos := charPos + |words[i]| + 1;
    }
    name := Text.Strip(Text.Join(" ", WordWindow(words, wordIdx)));
  }

  // ---------------------------------------------------------------------------
  // Candidates of one capability type

  /** The candidate one match yields: its context window, stripped, is the description. */
  function CandidateOf(text: string, m: PatternMatch, t: CapabilityType): Capability
  {
    var context := Window(text, m.span, 50);
    Capability(None, NameFor(context, Seqs.Slice(text, m.span.start, m.span.end), m.curated),
               Text.Strip(context), t, None, None, None)
  }

  /** The candidates of the matches, in match order. */
  function Candidates(text: string, ms: seq<PatternMatch>, t: CapabilityType): (r: seq<Capability>)
    ensures |r| == |ms|
    decreases |ms|
  {
    if |ms| == 0 then [] else Candidates(text, ms[..|ms| - 1], t) + [CandidateOf(text, ms[|ms| - 1], t)]
  }

  lemma {:induction false} CandidatesAt(text: string, ms: seq<PatternMatch>, t: CapabilityType, k: int)
    requires 0 <= k < |ms|
    ensures Candidates(text, ms, t)[k] == CandidateOf(text, ms[k], t)
    decreases |ms|
  {
    if k < |ms| - 1 {
      CandidatesAt(text, ms[..|ms| - 1], t, k);
    }
  }

  /** `if name and len(name) > 3`. */
  predicate LongName(c: Capability)
  {
    |c.name| > 3
  }

  /** What `_find_capabilities` returns: the candidates with names longer than three characters, in match order. */
  function Found(text: string, ms: seq<PatternMatch>, t: CapabilityType): seq<Capability>
  {
    Seqs.Filter(Candidates(text, ms, t), LongName)
  }

  lemma CandidatesSnoc(text: string, ms: seq<PatternMatch>, t: CapabilityType, i: int)
    requires 0 <= i < |ms|
    ensures Candidates(text, ms[..i + 1], t) == Candidates(text, ms[..i], t) + [CandidateOf(text, ms[i], t)]
  {
    assert ms[..i + 1][..i] == ms[..i];
  }

  lemma FoundSnoc(text: string, ms: seq<PatternMatch>, t: CapabilityType, i: int)
    requires 0 <= i < |ms|
    ensures Found(text, ms[..i + 1], t)
         == Found(text, ms[..i], t) + (if |CandidateOf(text, ms[i], t).name| > 3 then [CandidateOf(text, ms[i], t)] else [])
  {
    CandidatesSnoc(text, ms, t, i);
    Seqs.FilterSnoc(Candidates(text, ms[..i], t), CandidateOf(text, ms[i], t), LongName);
  }

  /** The body of `_find_capabilities`' inner loop: the capability one match would give. */
  method BuildCandidate(text: string, m: PatternMatch, t: CapabilityType) returns (c: Capability)
    ensures c == CandidateOf(text, m, t)
  {
    var start := if m.span.start >= 50 then m.span.start - 50 else 0;
    var end := Seqs.Min(|text|, m.span.end + 50);
    var context := Seqs.Slice(text, start, end);
    assert context == Window(text, m.span, 50);
    var name := ExtractCapabilityName(context, Seqs.Slice(text, m.span.start, m.span.end), m.curated);
    var description := Text.Strip(context);
    c := Capability(None, name, description, t, None, None, None);
  }

  /** `_find_capabilities` over the matches of one type's patterns. */
  method FindCapabilities(text: string, ms: seq<PatternMatch>, t: CapabilityType) returns (caps: seq<Capability>)
    ensures caps == Found(text, ms, t)
  {
    caps := [];
    for i := 0 to |ms|
      invariant caps == Found(text, ms[..i], t)
    {
      var c := BuildCandidate(text, ms[i], t);
      FoundSnoc(text, ms, t, i);
      if |c.name| > 0 && |c.name| > 3 {
        caps := caps + [c];
      }
    }
    assert ms[..|ms|] == ms;
  }

  /** Every match yields a candidate of the searched type with no estimates. */
  lemma CandidateOfFields(text: string, m: PatternMatch, t: CapabilityType)
    ensures CandidateOf(text, m, t).ctype == t
    ensures CandidateOf(text, m, t).estimatedCost.None? && CandidateOf(text, m, t).complexity.None?
  {
  }

  /**
   * Every candidate found has a name longer than three characters, the
   * searched type and no estimates, and comes from one of the matches.
   */
  lemma FoundSound(text: string, ms: seq<PatternMatch>, t: CapabilityType)
    ensures forall k :: 0 <= k < |Found(text, ms, t)| ==>
      && |Found(text, ms, t)[k].name| > 3
      && Found(text, ms, t)[k].ctype == t
      && Found(text, ms, t)[k].estimatedCost.None?
      && Found(text, ms, t)[k].complexity.None?
      && Found(text, ms, t)[k] in Candidates(text, ms, t)
  {
    var cs := Candidates(text, ms, t);
    var found := Found(text, ms, t);
    forall k | 0 <= k < |found|
      ensures found[k].ctype == t && found[k].estimatedCost.None? && found[k].complexity.None?
    {
      var j :| 0 <= j < |cs| && cs[j] == found[k];
      CandidatesAt(text, ms, t, j);
      CandidateOfFields(text, ms[j], t);
    }
  }

  /** Every match whose candidate has a name longer than three characters is found. */
  lemma FoundComplete(text: string, ms: seq<PatternMatch>, t: CapabilityType)
    ensures forall k :: 0 <= k < |ms| && |CandidateOf(text, ms[k], t).name| > 3 ==>
      CandidateOf(text, ms[k], t) in Found(text, ms, t)
  {
    var cs := Candidates(text, ms, t);
    forall k | 0 <= k < |ms| && |CandidateOf(text, ms[k], t).name| > 3
      ensures CandidateOf(text, ms[k], t) in Found(text, ms, t)
    {
      CandidatesAt(text, ms, t, k);
      assert LongName(cs[k]);
    }
  }

  /** The context window of a match reaches 50 characters either side of it, within the text. */
  lemma ContextWindowBounds(text: string, sp: Span)
    requires sp.start <= sp.end <= |text|
    ensures |Window(text, sp, 50)| == Seqs.Min(|text|, sp.end + 50) - Seqs.Max(0, sp.start - 50)
    ensures Window(text, sp, 50) == text[Seqs.Max(0, sp.start - 50)..Seqs.Min(|text|, sp.end + 50)]
  {
  }

  // ---------------------------------------------------------------------------
  // Deduplication

  /** `a in b or b in a`. */
  predicate Overlap(a: string, b: string)
  {
    Text.Contains(b, a) || Text.Contains(a, b)
  }

  function LowerName(c: Capability): string
  {
    Text.Lower(c.name)
  }

  /** Whether `c`'s lower-cased name overlaps that of some capability in `kept`. */
  predicate Clashes(c: Capability, kept: seq<Capability>)
  {
    exists k :: 0 <= k < |kept| && Overlap(LowerName(c), LowerName(kept[k]))
  }

  /**
   * What `_deduplicate_capabilities` returns: in input order, each capability
   * whose lower-cased name does not overlap that of one kept before it.
   */
  function Dedup(caps: seq<Capability>): seq<Capability>
    decreases |caps|
  {
    if |caps| == 0 then []
    else
      var kept := Dedup(caps[..|caps| - 1]);
      var c := caps[|caps| - 1];
      if Clashes(c, kept) then kept else kept + [c]
  }

  lemma DedupSnoc(caps: seq<Capability>, i: int)
    requires 0 <= i < |caps|
    ensures Dedup(caps[..i + 1])
         == if Clashes(caps[i], Dedup(caps[..i])) then Dedup(caps[..i]) else Dedup(caps[..i]) + [caps[i]]
  {
    assert caps[..i + 1][..i] == caps[..i];
  }

  /** The lower-cased names of `kept`: `seen_names`. */
  function SeenNames(kept: seq<Capability>): set<string>
  {
    set k | 0 <= k < |kept| :: LowerName(kept[k])
  }

  lemma SeenNamesSnoc(kept: seq<Capability>, c: Capability)
    ensures SeenNames(kept + [c]) == SeenNames(kept) + {LowerName(c)}
  {
    var s := kept + [c];
    forall x | x in SeenNames(s) ensures x in SeenNames(kept) + {LowerName(c)}
    {
      var k :| 0 <= k < |s| && LowerName(s[k]) == x;
      if k < |kept| {
        assert s[k] == kept[k];
      }
    }
    forall x | x in SeenNames(kept) ensures x in SeenNames(s)
    {
      var k :| 0 <= k < |kept| && LowerName(kept[k]) == x;
      assert s[k] == kept[k];
    }
    assert s[|kept|] == c;
  }

  /** Testing against the set of seen names is testing against every kept capability. */
  lemma ClashesWithSeen(c: Capability, kept: seq<Capability>)
    ensures Clashes(c, kept) <==> exists s :: s in SeenNames(kept) && Overlap(LowerName(c), s)
  {
    if exists s :: s in SeenNames(kept) && Overlap(LowerName(c), s) {
      var s :| s in SeenNames(kept) && Overlap(LowerName(c), s);
      var k :| 0 <= k < |kept| && LowerName(kept[k]) == s;
    }
  }

  /** The inner loop over `seen_names`. */
  method IsDuplicate(nameLower: string, seenNames: set<string>) returns (dup: bool)
    ensures dup <==> exists s :: s in seenNames && Overlap(nameLower, s)
  {
    dup := false;
    var rest := seenNames;
    while rest != {}
      invariant rest <= seenNames
      invariant forall s :: s in seenNames - rest ==> !Overlap(nameLower, s)
      decreases |rest|
    {
      var seen :| seen in rest;
      if Text.Contains(seen, nameLower) || Text.Contains(nameLower, seen) {
        dup := true;
        break;
      }
      rest := rest - {seen};
    }
  }

  /** `_deduplicate_capabilities`. */
  method DeduplicateCapabilities(caps: seq<Capability>) returns (unique: seq<Capability>)
    ensures unique == Dedup(caps)
  {
    if |caps| == 0 {
      return [];
    }
    unique := [];
    var seenNames: set<string> := {};
    for i := 0 to |caps|
      invariant unique == Dedup(caps[..i])
      invariant seenNames == SeenNames(unique)
    {
      var nameLower := Text.Lower(caps[i].name);
      var dup := IsDuplicate(nameLower, seenNames);
      ClashesWithSeen(caps[i], unique);
      DedupSnoc(caps, i);
      if !dup {
        SeenNamesSnoc(unique, caps[i]);
        unique := unique + [caps[i]];
        seenNames := seenNames + {nameLower};
      }
    }
    assert caps[..|caps|] == caps;
  }

  /** `a` is `b` with some elements left out. */
  predicate IsSubsequence<T(==)>(a: seq<T>, b: seq<T>)
    decreases |b|
  {
    if |a| == 0 then true
    else if |b| == 0 then false
    else (a[|a| - 1] == b[|b| - 1] && IsSubsequence(a[..|a| - 1], b[..|b| - 1])) || IsSubsequence(a, b[..|b| - 1])
  }

  /** Deduplication only leaves capabilities out; it never reorders or invents any. */
  lemma {:induction false} DedupIsSubsequence(caps: seq<Capability>)
    ensures IsSubsequence(Dedup(caps), caps)
    decreases |caps|
  {
    if |caps| > 0 {
      var init := caps[..|caps| - 1];
      DedupIsSubsequence(init);
      var kept := Dedup(init);
      if !Clashes(caps[|caps| - 1], kept) {
        assert (kept + [caps[|caps| - 1]])[..|kept|] == kept;
      } else {
        SubsequenceExtend(kept, init, caps[|caps| - 1]);
        assert init + [caps[|caps| - 1]] == caps;
      }
    }
  }

  lemma SubsequenceExtend<T>(a: seq<T>, b: seq<T>, x: T)
    requires IsSubsequence(a, b)
    ensures IsSubsequence(a, b + [x])
  {
    assert (b + [x])[..|b|] == b;
  }

  /** The first capability is always kept. */
  lemma {:induction false} DedupKeepsFirst(caps: seq<Capability>)
    requires |caps| > 0
    ensures |Dedup(caps)| > 0 && Dedup(caps)[0] == caps[0]
    decreases |caps|
  {
    if |caps| == 1 {
      assert Dedup(caps[..0]) == [];
    } else {
      var init := caps[..|caps| - 1];
      DedupKeepsFirst(init);
      assert init[0] == caps[0];
    }
  }

  /** No two kept capabilities have overlapping lower-cased names. */
  lemma {:induction false} DedupNoOverlap(caps: seq<Capability>)
    ensures forall i, j :: 0 <= i < j < |Dedup(caps)| ==> !Overlap(LowerName(Dedup(caps)[i]), LowerName(Dedup(caps)[j]))
    decreases |caps|
  {
    if |caps| > 0 {
      var init := caps[..|caps| - 1];
      DedupNoOverlap(init);
      var kept := Dedup(init);
      var c := caps[|caps| - 1];
      if !Clashes(c, kept) {
        var r := kept + [c];
        forall i, j | 0 <= i < j < |r|
          ensures !Overlap(LowerName(r[i]), LowerName(r[j]))
        {
          if j == |kept| {
            assert !Overlap(LowerName(c), LowerName(kept[i]));
          } else {
            assert r[i] == kept[i] && r[j] == kept[j];
          }
        }
      }
    }
  }

  /** Every capability, kept or not, overlaps one that was kept. */
  lemma {:induction false} DedupCovers(caps: seq<Capability>)
    ensures forall k :: 0 <= k < |caps| ==> Clashes(caps[k], Dedup(caps))
    decreases |caps|
  {
    if |caps| > 0 {
      var init := caps[..|caps| - 1];
      DedupCovers(init);
      var kept := Dedup(init);
      var r := Dedup(caps);
      var c := caps[|caps| - 1];
      forall k | 0 <= k < |caps|
        ensures Clashes(caps[k], r)
      {
        if k < |caps| - 1 {
          assert caps[k] == init[k];
          var j :| 0 <= j < |kept| && Overlap(LowerName(caps[k]), LowerName(kept[j]));
          assert r[j] == kept[j];
        } else if !Clashes(c, kept) {
          Text.ContainsSelf(LowerName(c));
          assert r[|kept|] == c;
        }
      }
    }
  }

  /** A list with no two overlapping names is left as it is. */
  lemma {:induction false} DedupOfDistinct(caps: seq<Capability>)
    requires forall i, j :: 0 <= i < j < |caps| ==> !Overlap(LowerName(caps[i]), LowerName(caps[j]))
    ensures Dedup(caps) == caps
    decreases |caps|
  {
    if |caps| > 0 {
      var init := caps[..|caps| - 1];
      forall i, j | 0 <= i < j < |init|
        ensures !Overlap(LowerName(init[i]), LowerName(init[j]))
      {
        assert init[i] == caps[i] && init[j] == caps[j];
      }
      DedupOfDistinct(init);
      var c := caps[|caps| - 1];
      forall k | 0 <= k < |init|
        ensures !Overlap(LowerName(c), LowerName(init[k]))
      {
        assert init[k] == caps[k];
        assert !Overlap(LowerName(caps[k]), LowerName(caps[|caps| - 1]));
      }
      assert init + [c] == caps;
    }
  }

  /** Deduplicating twice is deduplicating once. */
  lemma DedupIdempotent(caps: seq<Capability>)
    ensures Dedup(Dedup(caps)) == Dedup(caps)
  {
    DedupNoOverlap(caps);
    DedupOfDistinct(Dedup(caps));
  }

  /** Deduplication keeps only capabilities of its input. */
  lemma {:induction false} DedupFromInput(caps: seq<Capability>)
    ensures forall k :: 0 <= k < |Dedup(caps)| ==> Dedup(caps)[k] in caps
    decreases |caps|
  {
    if |caps| > 0 {
      var init := caps[..|caps| - 1];
      DedupFromInput(init);
      forall k | 0 <= k < |Dedup(init)|
        ensures Dedup(init)[k] in caps
      {
        var j :| 0 <= j < |init| && init[j] == Dedup(init)[k];
        assert caps[j] == init[j];
      }
    }
  }

  // ---------------------------------------------------------------------------
  // `process`

  /** The capability types with patterns, in the order of `capability_patterns`. */
  const PatternTypes: seq<CapabilityType> :=
    [MeasurementTool, ModelSystem, Dataset, ComputationalMethod, Software, Hardware, Protocol]

  /** The candidates of the first `n` pattern types, each type's after the previous one's. */
  function PatternCandidates(textLower: string, matchesOf: CapabilityType -> seq<PatternMatch>, n: int): seq<Capability>
    requires 0 <= n <= |PatternTypes|
    decreases n
  {
    if n == 0 then []
    else PatternCandidates(textLower, matchesOf, n - 1)
         + Found(textLower, matchesOf(PatternTypes[n - 1]), PatternTypes[n - 1])
  }

  function EstimatedAll(caps: seq<Capability>): (r: seq<Capability>)
    ensures |r| == |caps|
    ensures forall k :: 0 <= k < |caps| ==> r[k] == Estimated(caps[k])
  {
    seq(|caps|, k requires 0 <= k < |caps| => Estimated(caps[k]))
  }

  /** The fallback branch of `process`. */
  function PatternPath(text: string, matchesOf: CapabilityType -> seq<PatternMatch>): seq<Capability>
  {
    EstimatedAll(Dedup(PatternCandidates(Text.Lower(text), matchesOf, |PatternTypes|)))
  }

  /** One capability per LLM reply entry, in order. */
  function FromLlmAll(reply: seq<LlmCapability>): (r: seq<Capability>)
    ensures |r| == |reply|
    decreases |reply|
  {
    if |reply| == 0 then [] else FromLlmAll(reply[..|reply| - 1]) + [FromLlm(reply[|reply| - 1])]
  }

  /** The capability at position `k` is converted from the reply entry at position `k`. */
  lemma {:induction false} FromLlmAllAt(reply: seq<LlmCapability>, k: nat)
    requires k < |reply|
    ensures FromLlmAll(reply)[k] == FromLlm(reply[k])
    decreases |reply|
  {
    if k < |reply| - 1 {
      var init := reply[..|reply| - 1];
      FromLlmAllAt(init, k);
      assert init[k] == reply[k];
    }
  }

  /** The LLM branch: `None` when the LLM is disabled or its call fails. */
  function LlmPath(reply: Option<seq<LlmCapability>>): seq<Capability>
  {
    if reply.Some? then FromLlmAll(reply.value) else []
  }

  /** What `process` returns. */
  function Extracted(text: string, reply: Option<seq<LlmCapability>>, matchesOf: CapabilityType -> seq<PatternMatch>): seq<Capability>
  {
    if |LlmPath(reply)| > 0 then LlmPath(reply) else PatternPath(text, matchesOf)
  }

  /** The facts every pattern candidate carries before deduplication. */
  predicate FreshCandidate(c: Capability)
  {
    |c.name| > 3 && c.ctype in PatternTypes && c.estimatedCost.None? && c.complexity.None?
  }

  /** The candidates `_find_capabilities` returns for a pattern type are fresh. */
  lemma FoundFresh(text: string, ms: seq<PatternMatch>, t: CapabilityType)
    requires t in PatternTypes
    ensures forall k :: 0 <= k < |Found(text, ms, t)| ==> FreshCandidate(Found(text, ms, t)[k])
  {
    FoundSound(text, ms, t);
  }

  lemma FreshAppend(a: seq<Capability>, b: seq<Capability>)
    requires forall k :: 0 <= k < |a| ==> FreshCandidate(a[k])
    requires forall k :: 0 <= k < |b| ==> FreshCandidate(b[k])
    ensures forall k :: 0 <= k < |a + b| ==> FreshCandidate((a + b)[k])
  {
    forall k | 0 <= k < |a + b|
      ensures FreshCandidate((a + b)[k])
    {
      if k >= |a| {
        assert (a + b)[k] == b[k - |a|];
      }
    }
  }

  lemma {:induction false} PatternCandidatesFresh(textLower: string, matchesOf: CapabilityType -> seq<PatternMatch>, n: int)
    requires 0 <= n <= |PatternTypes|
    ensures forall k :: 0 <= k < |PatternCandidates(textLower, matchesOf, n)| ==>
      FreshCandidate(PatternCandidates(textLower, matchesOf, n)[k])
    decreases n
  {
    if n > 0 {
      PatternCandidatesFresh(textLower, matchesOf, n - 1);
      var t := PatternTypes[n - 1];
      FoundFresh(textLower, matchesOf(t), t);
      FreshAppend(PatternCandidates(textLower, matchesOf, n - 1), Found(textLower, matchesOf(t), t));
    }
  }

  /**
   * Every capability the pattern path returns has a name longer than three
   * characters, one of the seven pattern types (never `infrastructure` or
   * `other`), a truthy cost estimate, a time estimate and a complexity in
   * [0.3, 1.0].
   */
  lemma PatternPathFilledIn(text: string, matchesOf: CapabilityType -> seq<PatternMatch>)
    ensures forall k :: 0 <= k < |PatternPath(text, matchesOf)| ==>
      var c := PatternPath(text, matchesOf)[k];
      && |c.name| > 3
      && c.ctype in PatternTypes
      && Truthy(c.estimatedCost) && c.estimatedTime.Some?
      && c.complexity.Some? && 0.3 <= c.complexity.value <= 1.0
  {
    var cands := PatternCandidates(Text.Lower(text), matchesOf, |PatternTypes|);
    PatternCandidatesFresh(Text.Lower(text), matchesOf, |PatternTypes|);
    DedupFromInput(cands);
    var d := Dedup(cands);
    forall k | 0 <= k < |d|
      ensures FreshCandidate(d[k])
    {
      var j :| 0 <= j < |cands| && cands[j] == d[k];
    }
    forall k | 0 <= k < |d|
      ensures Estimated(d[k]).complexity == Some(EstimateComplexity(d[k]))
      ensures Truthy(Estimated(d[k]).estimatedCost) && Estimated(d[k]).estimatedTime.Some?
      ensures |Estimated(d[k]).name| > 3 && Estimated(d[k]).ctype in PatternTypes
    {
      EstimatedFillsIn(d[k]);
    }
  }

  /** No two capabilities of the pattern path have overlapping lower-cased names. */
  lemma PatternPathNoOverlap(text: string, matchesOf: CapabilityType -> seq<PatternMatch>)
    ensures forall i, j :: 0 <= i < j < |PatternPath(text, matchesOf)| ==>
      !Overlap(LowerName(PatternPath(text, matchesOf)[i]), LowerName(PatternPath(text, matchesOf)[j]))
  {
    var d := Dedup(PatternCandidates(Text.Lower(text), matchesOf, |PatternTypes|));
    DedupNoOverlap(PatternCandidates(Text.Lower(text), matchesOf, |PatternTypes|));
    forall k | 0 <= k < |d|
      ensures Estimated(d[k]).name == d[k].name
    {
      EstimatedFillsIn(d[k]);
    }
  }

  /**
   * The pattern path runs only when the LLM path produced nothing; an LLM
   * reply with entries gives one capability per entry, in order.
   */
  lemma ExtractedPrefersLlm(text: string, reply: Option<seq<LlmCapability>>, matchesOf: CapabilityType -> seq<PatternMatch>)
    ensures reply.Some? && |reply.value| > 0 ==>
      |Extracted(text, reply, matchesOf)| == |reply.value|
      && forall k :: 0 <= k < |reply.value| ==> Extracted(text, reply, matchesOf)[k] == FromLlm(reply.value[k])
    ensures reply.None? || |reply.value| == 0 ==> Extracted(text, reply, matchesOf) == PatternPath(text, matchesOf)
  {
    if reply.Some? && |reply.value| > 0 {
      var caps := FromLlmAll(reply.value);
      assert Extracted(text, reply, matchesOf) == caps;
      forall k | 0 <= k < |reply.value|
        ensures caps[k] == FromLlm(reply.value[k])
      {
        FromLlmAllAt(reply.value, k);
      }
    }
  }

  /** The conversion loop of `process`'s LLM branch. */
  method ConvertLlmCapabilities(llmCaps: seq<LlmCapability>) returns (capabilities: seq<Capability>)
    ensures capabilities == FromLlmAll(llmCaps)
  {
    capabilities := [];
    for i := 0 to |llmCaps|
      invariant capabilities == FromLlmAll(llmCaps[..i])
    {
      assert llmCaps[..i + 1][..i] == llmCaps[..i];
      capabilities := capabilities + [FromLlm(llmCaps[i])];
    }
    assert llmCaps[..|llmCaps|] == llmCaps;
  }

  /** The loop of `process` that gathers every pattern type's candidates. */
  method GatherPatternCandidates(textLower: string, matchesOf: CapabilityType -> seq<PatternMatch>)
    returns (capabilities: seq<Capability>)
    ensures capabilities == PatternCandidates(textLower, matchesOf, |PatternTypes|)
  {
    capabilities := [];
    for k := 0 to |PatternTypes|
      invariant capabilities == PatternCandidates(textLower, matchesOf, k)
    {
      var matches := FindCapabilities(textLower, matchesOf(PatternTypes[k]), PatternTypes[k]);
      capabilities := capabilities + matches;
    }
  }

  /** The body of `process`'s estimation loop for one capability. */
  method EstimateMissing(cap: Capability) returns (r: Capability)
    ensures r == Estimated(cap)
  {
    r := cap;
    if !Truthy(r.estimatedCost) {
      var (cost, time) := EstimateRequirements(r);
      r := r.(estimatedCost := Some(cost), estimatedTime := Some(time));
    }
    if !Truthy(r.complexity) {
      r := r.(complexity := Some(EstimateComplexity(r)));
    }
  }

  /** `process`'s estimation loop, which updates the capabilities one by one. */
  method EstimateAll(unique: seq<Capability>) returns (capabilities: seq<Capability>)
    ensures capabilities == EstimatedAll(unique)
  {
    capabilities := unique;
    for i := 0 to |capabilities|
      invariant |capabilities| == |unique|
      invariant forall j :: 0 <= j < i ==> capabilities[j] == Estimated(unique[j])
      invariant forall j :: i <= j < |unique| ==> capabilities[j] == unique[j]
    {
      var cap := EstimateMissing(capabilities[i]);
      capabilities := capabilities[i := cap];
    }
  }

  /** `process`: the LLM's capabilities when there are any, else the pattern path. */
  method Process(text: string, reply: Option<seq<LlmCapability>>, matchesOf: CapabilityType -> seq<PatternMatch>)
    returns (capabilities: seq<Capability>)
    ensures capabilities == Extracted(text, reply, matchesOf)
  {
    capabilities := [];
    if reply.Some? && |reply.value| > 0 {
      capabilities := ConvertLlmCapabilities(reply.value);
    }
    if |capabilities| == 0 {
      var textLower := Text.Lower(text);
      capabilities := GatherPatternCandidates(textLower, matchesOf);
      capabilities := DeduplicateCapabilities(capabilities);
      capabilities := EstimateAll(capabilities);
    }
  }
}
