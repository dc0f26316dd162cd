/**
 * The problem parser (longevity_map/agents/problem_parser.py): the
 * keyword classifier that puts a problem into one of the hallmarks of
 * aging, the title/description heuristic, the coercion of the LLM's
 * category string and batch processing. The LLM's replies are inputs:
 * `None` stands for a disabled LLM or a reply without a title.
 */
module ProblemParser {
  import opened Wrappers
  import opened ProblemModel
  import Text
  import Seqs

  // ---------------------------------------------------------------------------
  // Keyword classification

  /** `category_keywords`, in declaration order. */
  const CategoryKeywords: seq<(ProblemCategory, seq<string>)> := [
    (GenomicInstability, ["genomic instability", "DNA damage", "mutations", "chromosomal aberrations",
                          "double-strand breaks", "nucleotide excision repair"]),
    (TelomereAttention, ["telomere", "telomerase", "telomere shortening", "telomere attrition"]),
    (EpigeneticAlterations, ["epigenetic", "DNA methylation", "histone modification", "chromatin",
                             "epigenome", "epigenetic clock"]),
    (LossOfProteostasis, ["proteostasis", "protein folding", "protein aggregation", "autophagy",
                          "ubiquitin-proteasome", "chaperone"]),
    (DeregulatedNutrientSensing, ["nutrient sensing", "mTOR", "insulin", "IGF-1", "AMPK", "sirtuin",
                                  "caloric restriction"]),
    (MitochondrialDysfunction, ["mitochondria", "mitochondrial", "oxidative stress", "ROS", "ATP",
                                "mitochondrial DNA", "mitophagy"]),
    (CellularSenescence, ["senescence", "senescent cells", "SASP", "p16", "p21", "senolytics"]),
    (StemCellExhaustion, ["stem cell", "hematopoietic", "regenerative capacity", "tissue repair"]),
    (AlteredIntercellularCommunication, ["inflammation", "inflammaging", "cytokine", "immune system",
                                         "cell-cell communication", "signaling"])
  ]

  /** The table lists nine distinct hallmarks and never `Other`. */
  lemma KeywordTableCategories()
    ensures |CategoryKeywords| == 9
    ensures forall i :: 0 <= i < |CategoryKeywords| ==> CategoryKeywords[i].0 != Other
    ensures forall i, j :: 0 <= i < j < |CategoryKeywords| ==> CategoryKeywords[i].0 != CategoryKeywords[j].0
  {
  }

  /** `sum(1 for keyword in keywords if keyword.lower() in text_lower)`. */
  function KeywordScore(textLower: string, keywords: seq<string>): nat
    decreases |keywords|
  {
    if |keywords| == 0 then 0
    else
      KeywordScore(textLower, keywords[..|keywords| - 1])
      + (if Text.Contains(textLower, Text.Lower(keywords[|keywords| - 1])) then 1 else 0)
  }

  /** The keywords of `keywords` that occur in the text, each entry once however often it occurs. */
  function Occurring(textLower: string, keywords: seq<string>): set<int>
  {
    set k | 0 <= k < |keywords| && Text.Contains(textLower, Text.Lower(keywords[k]))
  }

  /** A score counts the keyword entries that occur; how often each occurs does not matter. */
  lemma {:induction false} KeywordScoreCounts(textLower: string, keywords: seq<string>)
    ensures KeywordScore(textLower, keywords) == |Occurring(textLower, keywords)|
    ensures KeywordScore(textLower, keywords) <= |keywords|
    decreases |keywords|
  {
    if |keywords| == 0 {
      assert Occurring(textLower, keywords) == {};
    } else {
      var n := |keywords| - 1;
      var init := keywords[..n];
      KeywordScoreCounts(textLower, init);
      var last := if Text.Contains(textLower, Text.Lower(keywords[n])) then {n} else {};
      assert Occurring(textLower, keywords) == Occurring(textLower, init) + last;
      assert n !in Occurring(textLower, init);
    }
  }

  /** Two texts in which the same keywords occur get the same score. */
  lemma {:induction false} KeywordScoreDependsOnlyOnOccurrence(t1: string, t2: string, keywords: seq<string>)
    requires forall k :: 0 <= k < |keywords| ==>
      (Text.Contains(t1, Text.Lower(keywords[k])) <==> Text.Contains(t2, Text.Lower(keywords[k])))
    ensures KeywordScore(t1, keywords) == KeywordScore(t2, keywords)
    decreases |keywords|
  {
    if |keywords| > 0 {
      var init := keywords[..|keywords| - 1];
      assert forall k :: 0 <= k < |init| ==> init[k] == keywords[k];
      KeywordScoreDependsOnlyOnOccurrence(t1, t2, init);
    }
  }

  /** A score is positive iff some keyword occurs. */
  lemma {:induction false} KeywordScorePositive(textLower: string, keywords: seq<string>)
    ensures KeywordScore(textLower, keywords) > 0
        <==> exists k :: 0 <= k < |keywords| && Text.Contains(textLower, Text.Lower(keywords[k]))
    decreases |keywords|
  {
    if |keywords| > 0 {
      var n := |keywords| - 1;
      var init := keywords[..n];
      KeywordScorePositive(textLower, init);
      if KeywordScore(textLower, init) > 0 {
        var k :| 0 <= k < |init| && Text.Contains(textLower, Text.Lower(init[k]));
        assert keywords[k] == init[k];
      }
      if exists k :: 0 <= k < |keywords| && Text.Contains(textLower, Text.Lower(keywords[k])) {
        var k :| 0 <= k < |keywords| && Text.Contains(textLower, Text.Lower(keywords[k]));
        if k < n {
          assert init[k] == keywords[k];
        }
      }
    }
  }

  /** The score of row `i` of a keyword table. */
  function RowScore(textLower: string, table: seq<(ProblemCategory, seq<string>)>, i: int): nat
    requires 0 <= i < |table|
  {
    KeywordScore(textLower, table[i].1)
  }

  /** Every row of the table with its score, in declaration order. */
  function Scored(textLower: string, table: seq<(ProblemCategory, seq<string>)>): (rows: seq<(ProblemCategory, nat)>)
    ensures |rows| == |table|
    ensures forall i :: 0 <= i < |table| ==> rows[i] == (table[i].0, RowScore(textLower, table, i))
  {
    seq(|table|, i requires 0 <= i < |table| => (table[i].0, RowScore(textLower, table, i)))
  }

  /** The rows with a positive score, in order: `category_scores` in insertion order. */
  function Positive(rows: seq<(ProblemCategory, nat)>): seq<(ProblemCategory, nat)>
    decreases |rows|
  {
    if |rows| == 0 then []
    else
      var last := rows[|rows| - 1];
      Positive(rows[..|rows| - 1]) + (if last.1 > 0 then [last] else [])
  }

  /**
   * `max(category_scores, key=category_scores.get)`: the first entry with
   * the largest score (a later entry replaces the leader only when it
   * scores strictly more); `None` for an empty dictionary.
   */
  function Leader(entries: seq<(ProblemCategory, nat)>): Option<(ProblemCategory, nat)>
    decreases |entries|
  {
    if |entries| == 0 then None
    else
      var prev := Leader(entries[..|entries| - 1]);
      var last := entries[|entries| - 1];
      if prev.None? || last.1 > prev.value.1 then Some(last) else prev
  }

  /** The keyword branch of `_classify_category`. */
  function KeywordCategory(text: string): ProblemCategory
  {
    match Leader(Positive(Scored(Text.Lower(text), CategoryKeywords)))
    case None => Other
    case Some(e) => e.0
  }

  lemma PositiveSnoc(rows: seq<(ProblemCategory, nat)>, i: int)
    requires 0 <= i < |rows|
    ensures Positive(rows[..i + 1]) == Positive(rows[..i]) + (if rows[i].1 > 0 then [rows[i]] else [])
  {
    assert rows[..i + 1][..i] == rows[..i];
  }

  /** The leader of the first `i + 1` rows, from the leader of the first `i`. */
  lemma LeaderStep(rows: seq<(ProblemCategory, nat)>, i: int)
    requires 0 <= i < |rows|
    ensures Leader(Positive(rows[..i + 1]))
         == if rows[i].1 > 0 && (Leader(Positive(rows[..i])).None? || rows[i].1 > Leader(Positive(rows[..i])).value.1)
            then Some(rows[i]) else Leader(Positive(rows[..i]))
  {
    PositiveSnoc(rows, i);
    var e := Positive(rows[..i]);
    if rows[i].1 > 0 {
      assert (e + [rows[i]])[..|e|] == e;
    } else {
      assert e + [] == e;
    }
  }

  /** No leader iff none of the first `n` rows scores anything. */
  lemma {:induction false} LeaderNone(rows: seq<(ProblemCategory, nat)>, n: int)
    requires 0 <= n <= |rows|
    ensures Leader(Positive(rows[..n])).None? <==> forall j :: 0 <= j < n ==> rows[j].1 == 0
    decreases n
  {
    if n > 0 {
      LeaderNone(rows, n - 1);
      LeaderStep(rows, n - 1);
    }
  }

  /**
   * Row `i` has a positive score that no row among the first `n` exceeds,
   * and every row before it scores strictly less.
   */
  predicate FirstMaximum(rows: seq<(ProblemCategory, nat)>, n: int, i: int)
    requires 0 <= i < n <= |rows|
  {
    && rows[i].1 > 0
    && (forall j :: 0 <= j < n ==> rows[j].1 <= rows[i].1)
    && (forall j :: 0 <= j < i ==> rows[j].1 < rows[i].1)
  }

  /** A first maximum stays one when the next row scores no more. */
  lemma FirstMaximumKept(rows: seq<(ProblemCategory, nat)>, m: int, i: int)
    requires 0 <= i < m < |rows| && FirstMaximum(rows, m, i)
    requires rows[m].1 <= rows[i].1
    ensures FirstMaximum(rows, m + 1, i)
  {
  }

  /** A row scoring more than the first maximum so far is the new first maximum. */
  lemma FirstMaximumReplaced(rows: seq<(ProblemCategory, nat)>, m: int, i: int)
    requires 0 <= i < m < |rows| && FirstMaximum(rows, m, i)
    requires rows[m].1 > rows[i].1
    ensures FirstMaximum(rows, m + 1, m)
  {
  }

  /** The first row with a positive score is the first maximum of the rows up to it. */
  lemma FirstMaximumFirst(rows: seq<(ProblemCategory, nat)>, m: int)
    requires 0 <= m < |rows| && rows[m].1 > 0
    requires forall j :: 0 <= j < m ==> rows[j].1 == 0
    ensures FirstMaximum(rows, m + 1, m)
  {
  }

  /** The leader of the first `n` rows is their first maximum. */
  lemma {:induction false} LeaderIsFirstMaximum(rows: seq<(ProblemCategory, nat)>, n: int)
    requires 0 <= n <= |rows|
    requires Leader(Positive(rows[..n])).Some?
    ensures exists i :: 0 <= i < n && FirstMaximum(rows, n, i) && Leader(Positive(rows[..n])) == Some(rows[i])
    decreases n
  {
    var m := n - 1;
    LeaderStep(rows, m);
    var prev := Leader(Positive(rows[..m]));
    var cur := Leader(Positive(rows[..n]));
    if prev.None? {
      LeaderNone(rows, m);
      assert cur == Some(rows[m]);
      FirstMaximumFirst(rows, m);
    } else {
      LeaderIsFirstMaximum(rows, m);
      var i :| 0 <= i < m && FirstMaximum(rows, m, i) && prev == Some(rows[i]);
      if rows[m].1 > rows[i].1 {
        assert cur == Some(rows[m]);
        FirstMaximumReplaced(rows, m, i);
      } else {
        assert cur == prev;
        FirstMaximumKept(rows, m, i);
      }
    }
  }

  /** The keyword classifier answers `Other` iff no hallmark has a positive score. */
  lemma KeywordCategoryOther(text: string)
    ensures KeywordCategory(text) == Other
        <==> forall j :: 0 <= j < |CategoryKeywords| ==> RowScore(Text.Lower(text), CategoryKeywords, j) == 0
  {
    var rows := Scored(Text.Lower(text), CategoryKeywords);
    assert rows[..|rows|] == rows;
    LeaderNone(rows, |rows|);
    if Leader(Positive(rows)).Some? {
      LeaderIsFirstMaximum(rows, |rows|);
      KeywordTableCategories();
    }
  }

  /**
   * Otherwise the answer is the hallmark of a row with the highest score,
   * and every row declared before it scores strictly less: ties go to the
   * hallmark declared first.
   */
  lemma KeywordCategoryWinner(text: string)
    requires KeywordCategory(text) != Other
    ensures exists i :: 0 <= i < |CategoryKeywords| && KeywordCategory(text) == CategoryKeywords[i].0
                        && FirstMaximum(Scored(Text.Lower(text), CategoryKeywords), |CategoryKeywords|, i)
  {
    var rows := Scored(Text.Lower(text), CategoryKeywords);
    assert rows[..|rows|] == rows;
    LeaderIsFirstMaximum(rows, |rows|);
  }

  /** `_classify_category`: a valid LLM category wins; otherwise the keywords decide. */
  function Classified(text: string, llmCategory: Option<string>): ProblemCategory
  {
    if llmCategory.Some? && CategoryFromValue(llmCategory.value).Some? then CategoryFromValue(llmCategory.value).value
    else KeywordCategory(text)
  }

  /**
   * An LLM category string that names no category falls through to the
   * keyword classifier; one that names a category is that category.
   */
  lemma ClassifiedFallsThrough(text: string, s: string)
    ensures CategoryFromValue(s).None? ==> Classified(text, Some(s)) == KeywordCategory(text)
    ensures forall c: ProblemCategory :: s == c.Value() ==> Classified(text, Some(s)) == c
  {
    forall c: ProblemCategory | s == c.Value()
      ensures Classified(text, Some(s)) == c
    {
      CategoryValueRoundTrip(c);
    }
  }

  /**
   * A failed classification call returns "other", which is a category's
   * value: the problem is `OTHER` whatever keywords the text contains.
   */
  lemma ClassifiedOutage(text: string)
    ensures Classified(text, Some("other")) == Other
  {
    CategoryValueRoundTrip(Other);
  }

  /** `_classify_category`, with the scoring loop that fills `category_scores`. */
  method ClassifyCategory(text: string, llmCategory: Option<string>) returns (category: ProblemCategory)
    ensures category == Classified(text, llmCategory)
  {
    if llmCategory.Some? {
      var c := CategoryFromValue(llmCategory.value);
      if c.Some? {
        return c.value;
      }
    }
    var textLower := Text.Lower(text);
    var categoryScores: seq<(ProblemCategory, nat)> := [];
    ghost var rows := Scored(textLower, CategoryKeywords);
    for i := 0 to |CategoryKeywords|
      invariant categoryScores == Positive(rows[..i])
    {
      PositiveSnoc(rows, i);
      var score := KeywordScore(textLower, CategoryKeywords[i].1);
      if score > 0 {
        categoryScores := categoryScores + [(CategoryKeywords[i].0, score)];
      }
    }
    assert rows[..|rows|] == rows;
    if |categoryScores| > 0 {
      category := Leader(categoryScores).value.0;
    } else {
      category := Other;
    }
  }

  // ---------------------------------------------------------------------------
  // Title and description

  /** The characters of `[.!?]`. */
  predicate IsTerminator(c: char)
  {
    c == '.' || c == '!' || c == '?'
  }

  /** `[.!?]\s+` matches starting at index `i`. */
  predicate SentenceBreakAt(s: string, i: int)
  {
    0 <= i && i + 1 < |s| && IsTerminator(s[i]) && Text.IsSpace(s[i + 1])
  }

  /** `re.split(r'[.!?]\s+', s)`: each match removes the terminator and the whole run of whitespace after it. */
  function SentenceSplit(s: string): (r: seq<string>)
    ensures |r| >= 1
    decreases |s|
  {
    if |s| < 2 then [s]
    else if SentenceBreakAt(s, 0) then [""] + SentenceSplit(Text.StripLeft(s[1..]))
    else
      var t := SentenceSplit(s[1..]);
      [[s[0]] + t[0]] + t[1..]
  }

  /**
   * The first piece is the text up to the leftmost break; there is more
   * than one piece iff the text has a break, and then the leftmost one
   * starts right after the first piece.
   */
  lemma {:induction false} SentenceSplitFirst(s: string)
    ensures SentenceSplit(s)[0] <= s
    ensures forall i :: 0 <= i < |SentenceSplit(s)[0]| ==> !SentenceBreakAt(s, i)
    ensures |SentenceSplit(s)| > 1 <==> exists i :: 0 <= i < |s| && SentenceBreakAt(s, i)
    ensures |SentenceSplit(s)| > 1 ==> SentenceBreakAt(s, |SentenceSplit(s)[0]|)
  {
    SentenceSplitHead(s);
    SentenceSplitMore(s);
  }

  /** Dropping the first character shifts every break one place left. */
  lemma BreakShift(s: string)
    requires |s| > 0
    ensures forall i :: 1 <= i < |s| ==> (SentenceBreakAt(s, i) <==> SentenceBreakAt(s[1..], i - 1))
  {
  }

  /** Where no break starts the text, splitting keeps its first character on the first piece. */
  lemma SentenceSplitCons(s: string)
    requires |s| >= 2 && !SentenceBreakAt(s, 0)
    ensures SentenceSplit(s)[0] == [s[0]] + SentenceSplit(s[1..])[0]
    ensures |SentenceSplit(s)| == |SentenceSplit(s[1..])|
  {
  }

  lemma {:induction false} SentenceSplitHead(s: string)
    ensures SentenceSplit(s)[0] <= s
    ensures forall i :: 0 <= i < |SentenceSplit(s)[0]| ==> !SentenceBreakAt(s, i)
    decreases |s|
  {
    if |s| >= 2 && !SentenceBreakAt(s, 0) {
      var t := s[1..];
      SentenceSplitHead(t);
      SentenceSplitCons(s);
      BreakShift(s);
      var h := SentenceSplit(s)[0];
      forall i | 0 <= i < |h|
        ensures !SentenceBreakAt(s, i)
      {
        if i > 0 {
          assert !SentenceBreakAt(t, i - 1);
        }
      }
    }
  }

  lemma {:induction false} SentenceSplitMore(s: string)
    ensures |SentenceSplit(s)| > 1 <==> exists i :: 0 <= i < |s| && SentenceBreakAt(s, i)
    ensures |SentenceSplit(s)| > 1 ==> SentenceBreakAt(s, |SentenceSplit(s)[0]|)
    decreases |s|
  {
    if |s| >= 2 && !SentenceBreakAt(s, 0) {
      var t := s[1..];
      SentenceSplitMore(t);
      SentenceSplitCons(s);
      BreakShift(s);
      if exists i :: 0 <= i < |s| && SentenceBreakAt(s, i) {
        var i :| 0 <= i < |s| && SentenceBreakAt(s, i);
        assert SentenceBreakAt(t, i - 1);
      }
      if exists i :: 0 <= i < |t| && SentenceBreakAt(t, i) {
        var i :| 0 <= i < |t| && SentenceBreakAt(t, i);
        assert SentenceBreakAt(s, i + 1);
      }
    }
  }

  /**
   * Past the first piece the text is one break, a terminator and the whole
   * run of whitespace after it, ending at `e`; the remaining pieces are
   * exactly the pieces of the rest `s[e..]`.
   */
  lemma SentenceSplitRest(s: string)
    requires |SentenceSplit(s)| > 1
    ensures |SentenceSplit(s)[0]| + 2 <= |s|
    ensures var h := SentenceSplit(s)[0];
            var e := Text.SpaceRunEnd(s, |h| + 1);
            |h| + 2 <= e
            && IsTerminator(s[|h|])
            && (forall k :: |h| < k < e ==> Text.IsSpace(s[k]))
            && (e < |s| ==> !Text.IsSpace(s[e]))
            && SentenceSplit(s[e..]) == SentenceSplit(s)[1..]
  {
    var h := SentenceSplit(s)[0];
    assert h <= s && SentenceBreakAt(s, |h|) by {
      SentenceSplitHead(s);
      SentenceSplitMore(s);
    }
    SentenceSplitTail(s);
    Text.StripLeftDrop(s, |h| + 1);
  }

  /** The text is its first piece, the break after it and the rest, joined. */
  lemma SentenceSplitJoin(s: string)
    requires |SentenceSplit(s)| > 1
    ensures |SentenceSplit(s)[0]| + 2 <= |s|
    ensures var h := SentenceSplit(s)[0];
            var e := Text.SpaceRunEnd(s, |h| + 1);
            s == h + s[|h|..e] + s[e..]
  {
    var h := SentenceSplit(s)[0];
    assert h <= s && SentenceBreakAt(s, |h|) by {
      SentenceSplitHead(s);
      SentenceSplitMore(s);
    }
    Seqs.PrefixSplit(s, h, Text.SpaceRunEnd(s, |h| + 1));
  }

  /** The pieces after the first are the pieces of the text after the leftmost break. */
  lemma {:induction false} SentenceSplitTail(s: string)
    requires |SentenceSplit(s)| > 1
    ensures |SentenceSplit(s)[0]| + 1 <= |s|
    ensures SentenceSplit(Text.StripLeft(s[|SentenceSplit(s)[0]| + 1..])) == SentenceSplit(s)[1..]
    decreases |s|
  {
    SentenceSplitFirst(s);
    if !SentenceBreakAt(s, 0) {
      var u := s[1..];
      SentenceSplitCons(s);
      SentenceSplitTail(u);
      assert u[|SentenceSplit(u)[0]| + 1..] == s[|SentenceSplit(s)[0]| + 1..];
    }
  }

  /** No piece of the split holds a break. */
  lemma {:induction false} SentenceSplitNoBreak(s: string)
    ensures forall p, i :: 0 <= p < |SentenceSplit(s)| ==> !SentenceBreakAt(SentenceSplit(s)[p], i)
    decreases |s|
  {
    var r := SentenceSplit(s);
    var h := r[0];
    SentenceSplitHead(s);
    assert forall i :: SentenceBreakAt(h, i) ==> SentenceBreakAt(s, i);
    if |r| > 1 {
      SentenceSplitRest(s);
      var t := s[Text.SpaceRunEnd(s, |h| + 1)..];
      SentenceSplitNoBreak(t);
      forall p, i | 1 <= p < |r|
        ensures !SentenceBreakAt(r[p], i)
      {
        assert r[p] == SentenceSplit(t)[p - 1];
      }
    }
  }

  /** Where `title` is cut: the first 200 characters and "..." for a longer text. */
  function TruncatedTitle(text: string): string
  {
    if |text| > 200 then text[..200] + "..." else text
  }

  /** A cut title keeps the text's first 200 characters and never exceeds 203 characters. */
  lemma TruncatedTitleShape(text: string)
    ensures |TruncatedTitle(text)| == Seqs.Min(|text|, 200) + (if |text| > 200 then 3 else 0)
    ensures |text| <= 200 ==> TruncatedTitle(text) == text
    ensures |text| > 200 ==> TruncatedTitle(text)[..200] == text[..200] && TruncatedTitle(text)[200..] == "..."
  {
  }

  /** `_extract_title_description`. */
  function TitleDescription(text: string): (string, string)
  {
    var lines := Text.SplitOn(Text.Strip(text), '\n');
    if |lines| > 1 then (Text.Strip(lines[0]), Text.Strip(Text.Join("\n", lines[1..])))
    else
      var sentences := SentenceSplit(text);
      if |sentences| > 1 then (sentences[0], Text.Join(". ", sentences[1..]))
      else (TruncatedTitle(text), text)
  }

  /**
   * Multi-line text: the stripped text is its first line, a newline and
   * the rest; the title is the first line stripped and the description is
   * the rest stripped.
   */
  lemma TitleOfMultiLine(text: string)
    requires '\n' in Text.Strip(text)
    ensures var lines := Text.SplitOn(Text.Strip(text), '\n');
      && Text.Strip(text) == lines[0] + "\n" + Text.Join("\n", lines[1..])
      && '\n' !in lines[0]
      && TitleDescription(text).0 == Text.Strip(lines[0])
      && TitleDescription(text).1 == Text.Strip(Text.Join("\n", lines[1..]))
  {
    Text.SplitOnJoin(Text.Strip(text), '\n');
  }

  /**
   * Single-line text with a sentence break: the title is the text before
   * the leftmost break and the description joins the remaining sentences
   * with ". ".
   */
  lemma TitleOfSentences(text: string)
    requires '\n' !in Text.Strip(text)
    requires exists i :: 0 <= i < |text| && SentenceBreakAt(text, i)
    ensures TitleDescription(text).0 == SentenceSplit(text)[0]
    ensures TitleDescription(text).0 <= text && SentenceBreakAt(text, |TitleDescription(text).0|)
    ensures forall i :: 0 <= i < |TitleDescription(text).0| ==> !SentenceBreakAt(text, i)
    ensures TitleDescription(text).1 == Text.Join(". ", SentenceSplit(text)[1..])
  {
    SentenceSplitFirst(text);
  }

  /** Single-line text without a sentence break: the cut text is the title and the whole text the description. */
  lemma TitleOfOneSentence(text: string)
    requires '\n' !in Text.Strip(text)
    requires forall i :: 0 <= i < |text| ==> !SentenceBreakAt(text, i)
    ensures TitleDescription(text) == (TruncatedTitle(text), text)
  {
    SentenceSplitFirst(text);
  }

  // ---------------------------------------------------------------------------
  // `process` and `batch_process`

  /** The LLM's problem reply; `None` is a key the reply does not have. */
  datatype LlmProblem = LlmProblem(title: Option<string>, description: Option<string>, category: Option<string>)

  /** The LLM category coercion of `process`: an unknown string becomes `Other`. */
  function CoercedCategory(category: Option<string>): ProblemCategory
  {
    CategoryFromValue(category.GetOr("other")).GetOr(Other)
  }

  /**
   * A category string names its category; a string that names none, or a
   * missing one, becomes `Other`.
   */
  lemma CoercedCategoryCases(category: Option<string>)
    ensures forall c: ProblemCategory :: category == Some(c.Value()) ==> CoercedCategory(category) == c
    ensures category.Some? && CategoryFromValue(category.value).None? ==> CoercedCategory(category) == Other
    ensures category.None? ==> CoercedCategory(category) == Other
  {
    forall c: ProblemCategory | category == Some(c.Value())
      ensures CoercedCategory(category) == c
    {
      CategoryValueRoundTrip(c);
    }
  }

  /** The LLM reply is used only when it carries a non-empty title. */
  predicate UsableReply(reply: Option<LlmProblem>)
  {
    reply.Some? && reply.value.title.Some? && |reply.value.title.value| > 0
  }

  /** `process`; `llmCategory` is what `classify_category` returns, `None` when the LLM is disabled. */
  function Parsed(text: string, source: Option<string>, sourceId: Option<string>,
                  reply: Option<LlmProblem>, llmCategory: Option<string>): (p: Problem)
  {
    if UsableReply(reply) then
      Problem(None, reply.value.title.value, reply.value.description.GetOr(text),
              CoercedCategory(reply.value.category), source, sourceId, None)
    else
      var td := TitleDescription(text);
      Problem(None, td.0, td.1, Classified(text, llmCategory), source, sourceId, None)
  }

  /**
   * A usable LLM reply gives the problem its title and its category, an
   * unknown category string becoming `Other`; otherwise the heuristic
   * title and the classifier decide. The source fields are passed through.
   */
  lemma ParsedBranches(text: string, source: Option<string>, sourceId: Option<string>,
                       reply: Option<LlmProblem>, llmCategory: Option<string>)
    ensures Parsed(text, source, sourceId, reply, llmCategory).source == source
    ensures Parsed(text, source, sourceId, reply, llmCategory).sourceId == sourceId
    ensures UsableReply(reply) ==>
      && Parsed(text, source, sourceId, reply, llmCategory).title == reply.value.title.value
      && (reply.value.category.Some? && CategoryFromValue(reply.value.category.value).None? ==>
            Parsed(text, source, sourceId, reply, llmCategory).category == Other)
    ensures !UsableReply(reply) && llmCategory.None? ==>
      && Parsed(text, source, sourceId, reply, llmCategory).category == KeywordCategory(text)
      && Parsed(text, source, sourceId, reply, llmCategory).title == TitleDescription(text).0
  {
  }

  /** `process`. */
  method Process(text: string, source: Option<string>, sourceId: Option<string>,
                 reply: Option<LlmProblem>, llmCategory: Option<string>) returns (problem: Problem)
    ensures problem == Parsed(text, source, sourceId, reply, llmCategory)
  {
    if UsableReply(reply) {
      var category := CoercedCategory(reply.value.category);
      return Problem(None, reply.value.title.value, reply.value.description.GetOr(text), category, source, sourceId, None);
    }
    var td := TitleDescription(text);
    var category := ClassifyCategory(text, llmCategory);
    problem := Problem(None, td.0, td.1, category, source, sourceId, None);
  }

  /** A list `batch_process` was given, or `[None] * n` in place of an omitted one. */
  function OrNones(xs: Option<seq<Option<string>>>, n: nat): seq<Option<string>>
  {
    if xs.Some? then xs.value else seq(n, _ => None)
  }

  /**
   * `batch_process`. The LLM's replies are functions of the text, so a
   * text that appears twice gets the same reply both times.
   */
  function BatchProcessed(texts: seq<string>, sources: Option<seq<Option<string>>>, sourceIds: Option<seq<Option<string>>>,
                          replies: string -> Option<LlmProblem>, llmCategories: string -> Option<string>): seq<Problem>
  {
    var srcs := OrNones(sources, |texts|);
    var ids := OrNones(sourceIds, |texts|);
    var n := Seqs.Min(|texts|, Seqs.Min(|srcs|, |ids|));
    seq(n, k requires 0 <= k < n => Parsed(texts[k], srcs[k], ids[k], replies(texts[k]), llmCategories(texts[k])))
  }

  /** `zip` stops at the shortest list; the k-th problem comes from the k-th text, source and source id. */
  lemma BatchProcessedZips(texts: seq<string>, sources: seq<Option<string>>, sourceIds: seq<Option<string>>,
                           replies: string -> Option<LlmProblem>, llmCategories: string -> Option<string>)
    ensures |BatchProcessed(texts, Some(sources), Some(sourceIds), replies, llmCategories)|
         == Seqs.Min(|texts|, Seqs.Min(|sources|, |sourceIds|))
    ensures forall k :: 0 <= k < |BatchProcessed(texts, Some(sources), Some(sourceIds), replies, llmCategories)| ==>
      BatchProcessed(texts, Some(sources), Some(sourceIds), replies, llmCategories)[k]
      == Parsed(texts[k], sources[k], sourceIds[k], replies(texts[k]), llmCategories(texts[k]))
  {
  }

  /** With both lists omitted there is one problem per text, in order, with no source. */
  lemma BatchProcessedDefaults(texts: seq<string>, replies: string -> Option<LlmProblem>, llmCategories: string -> Option<string>)
    ensures |BatchProcessed(texts, None, None, replies, llmCategories)| == |texts|
    ensures forall k :: 0 <= k < |texts| ==>
      && BatchProcessed(texts, None, None, replies, llmCategories)[k]
         == Parsed(texts[k], None, None, replies(texts[k]), llmCategories(texts[k]))
      && BatchProcessed(texts, None, None, replies, llmCategories)[k].source.None?
  {
  }
}
