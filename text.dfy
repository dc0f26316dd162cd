/**
 * The Python string operations the pipeline relies on, over `seq<char>`:
 * `str.lower()`, `needle in hay`, `str.find`, `str.split()`, `str.split(c)`,
 * `sep.join(...)`, `str.strip()` and `re.sub(r'\s+', ' ', s)`.
 * Case mapping and whitespace are the ASCII part of Python's definitions.
 */
module Text {
  import Seqs

  /** The ASCII characters for which Python's `str.isspace()` holds. */
  predicate IsSpace(c: char)
  {
    var n := c as int;
    n == 32 || 9 <= n <= 13 || 28 <= n <= 31
  }

  predicate NoSpace(w: string)
  {
    forall i :: 0 <= i < |w| ==> !IsSpace(w[i])
  }

  function LowerChar(c: char): char
  {
    if 'A' <= c <= 'Z' then (c as int + 32) as char else c
  }

  /** `s.lower()`. */
  function Lower(s: string): (r: string)
    ensures |r| == |s|
    ensures forall i :: 0 <= i < |s| ==> r[i] == LowerChar(s[i])
  {
    seq(|s|, i requires 0 <= i < |s| => LowerChar(s[i]))
  }

  lemma LowerIdempotent(s: string)
    ensures Lower(Lower(s)) == Lower(s)
  {
  }

  /** Lower-casing leaves a string without ASCII capitals unchanged. */
  lemma LowerNoCapitals(s: string)
    requires forall i :: 0 <= i < |s| ==> !('A' <= s[i] <= 'Z')
    ensures Lower(s) == s
  {
  }

  lemma LowerConcat(a: string, b: string)
    ensures Lower(a + b) == Lower(a) + Lower(b)
  {
  }

  /** `needle` occurs in `hay` starting at index `i`. */
  predicate OccursAt(hay: string, needle: string, i: int)
  {
    0 <= i && i + |needle| <= |hay| && hay[i..i + |needle|] == needle
  }

  /** Python's `needle in hay` (the empty string occurs in every string). */
  predicate Contains(hay: string, needle: string)
    decreases |hay|
  {
    needle <= hay || (|hay| > 0 && Contains(hay[1..], needle))
  }

  lemma {:induction false} OccursContains(hay: string, needle: string, i: int)
    requires OccursAt(hay, needle, i)
    ensures Contains(hay, needle)
    decreases i
  {
    if i > 0 {
      assert hay[1..][i - 1..i - 1 + |needle|] == hay[i..i + |needle|];
      OccursContains(hay[1..], needle, i - 1);
    }
  }

  lemma {:induction false} ContainsOccurs(hay: string, needle: string)
    requires Contains(hay, needle)
    ensures exists i :: OccursAt(hay, needle, i)
    decreases |hay|
  {
    if needle <= hay {
      assert OccursAt(hay, needle, 0);
    } else {
      ContainsOccurs(hay[1..], needle);
      var i :| OccursAt(hay[1..], needle, i);
      assert hay[1..][i..i + |needle|] == hay[i + 1..i + 1 + |needle|];
      assert OccursAt(hay, needle, i + 1);
    }
  }

  /** `needle in hay` holds exactly when `needle` occurs at some index of `hay`. */
  lemma ContainsIff(hay: string, needle: string)
    ensures Contains(hay, needle) <==> exists i :: OccursAt(hay, needle, i)
  {
    if Contains(hay, needle) {
      ContainsOccurs(hay, needle);
    }
    forall i | OccursAt(hay, needle, i)
      ensures Contains(hay, needle)
    {
      OccursContains(hay, needle, i);
    }
  }

  /** A string found inside `hay` is also found inside anything that contains `hay`. */
  lemma ContainsWithin(hay: string, pre: string, post: string, needle: string)
    requires Contains(hay, needle)
    ensures Contains(pre + hay + post, needle)
  {
    ContainsIff(hay, needle);
    var i :| OccursAt(hay, needle, i);
    var big := pre + hay + post;
    assert big[|pre| + i..|pre| + i + |needle|] == hay[i..i + |needle|];
    assert OccursAt(big, needle, |pre| + i);
    ContainsIff(big, needle);
  }

  lemma ContainsSelf(s: string)
    ensures Contains(s, s)
  {
  }

  /** An occurrence after the first character is an occurrence in the rest of the string. */
  lemma OccursShift(hay: string, needle: string, j: int)
    requires 1 <= j <= |hay|
    ensures OccursAt(hay, needle, j) <==> OccursAt(hay[1..], needle, j - 1)
  {
    if j + |needle| <= |hay| {
      assert hay[1..][j - 1..j - 1 + |needle|] == hay[j..j + |needle|];
    }
  }

  /** `hay.find(needle)`: the first index at which `needle` occurs, or -1. */
  function Find(hay: string, needle: string): (r: int)
    ensures -1 <= r <= |hay|
    ensures r == -1 <==> !Contains(hay, needle)
    ensures r >= 0 ==> OccursAt(hay, needle, r)
    ensures r >= 0 ==> forall j :: 0 <= j < r ==> !OccursAt(hay, needle, j)
    decreases |hay|
  {
    if needle <= hay then 0
    else if |hay| == 0 then -1
    else
      var k := Find(hay[1..], needle);
      assert forall j :: 1 <= j <= |hay| ==> (OccursAt(hay, needle, j) <==> OccursAt(hay[1..], needle, j - 1)) by {
        forall j | 1 <= j <= |hay|
          ensures OccursAt(hay, needle, j) <==> OccursAt(hay[1..], needle, j - 1)
        {
          OccursShift(hay, needle, j);
        }
      }
      if k == -1 then -1
      else
        k + 1
  }

  /** The longest prefix of `s` without whitespace. */
  function TakeWord(s: string): (w: string)
    ensures w <= s && NoSpace(w)
    ensures |w| == |s| || IsSpace(s[|w|])
    decreases |s|
  {
    if |s| == 0 || IsSpace(s[0]) then []
    else [s[0]] + TakeWord(s[1..])
  }

  /** `s.split()`: the maximal runs of non-whitespace characters, in order. */
  function Words(s: string): (ws: seq<string>)
    ensures forall k :: 0 <= k < |ws| ==> |ws[k]| > 0 && NoSpace(ws[k])
    decreases |s|
  {
    if |s| == 0 then []
    else if IsSpace(s[0]) then Words(s[1..])
    else
      var w := TakeWord(s);
      [w] + Words(s[|w|..])
  }

  /** `sep.join(ws)`. */
  function Join(sep: string, ws: seq<string>): string
    decreases |ws|
  {
    if |ws| == 0 then ""
    else if |ws| == 1 then ws[0]
    else ws[0] + sep + Join(sep, ws[1..])
  }

  /** `s.split(c)`: the pieces between occurrences of `c`, including empty ones. */
  function SplitOn(s: string, c: char): (r: seq<string>)
    ensures |r| >= 1
    ensures forall k :: 0 <= k < |r| ==> c !in r[k]
    ensures |r| > 1 <==> c in s
    decreases |s|
  {
    if |s| == 0 then [""]
    else if s[0] == c then [""] + SplitOn(s[1..], c)
    else
      var t := SplitOn(s[1..], c);
      [[s[0]] + t[0]] + t[1..]
  }

  /** Splitting on `c` and joining with `c` gives back the string. */
  lemma {:induction false} SplitOnJoin(s: string, c: char)
    ensures Join([c], SplitOn(s, c)) == s
    decreases |s|
  {
    if |s| > 0 {
      SplitOnJoin(s[1..], c);
      var t := SplitOn(s[1..], c);
      if s[0] == c {
        assert [""] + t == [""] + t;
      } else {
        var r := [[s[0]] + t[0]] + t[1..];
        if |t| == 1 {
          assert Join([c], t) == t[0];
        } else {
          assert r[1..] == t[1..];
          assert Join([c], t) == t[0] + [c] + Join([c], t[1..]);
        }
      }
    }
  }

  /** `s.lstrip()`. */
  function StripLeft(s: string): (r: string)
    ensures |r| <= |s| && r == s[|s| - |r|..]
    ensures forall i :: 0 <= i < |s| - |r| ==> IsSpace(s[i])
    ensures |r| > 0 ==> !IsSpace(r[0])
    ensures |s| > 0 && IsSpace(s[0]) ==> |r| < |s|
    decreases |s|
  {
    if |s| > 0 && IsSpace(s[0]) then
      var t := StripLeft(s[1..]);
      assert s[1..][|s| - 1 - |t|..] == s[|s| - |t|..];
      assert forall i :: 1 <= i < |s| - |t| ==> s[i] == s[1..][i - 1];
      t
    else s
  }

  /** Where the run of whitespace starting at index `i` ends. */
  function SpaceRunEnd(s: string, i: nat): (e: nat)
    requires i <= |s|
    ensures i <= e <= |s|
    ensures forall k :: i <= k < e ==> IsSpace(s[k])
    ensures e < |s| ==> !IsSpace(s[e])
    decreases |s| - i
  {
    if i < |s| && IsSpace(s[i]) then SpaceRunEnd(s, i + 1) else i
  }

  /** Stripping the left of a suffix drops exactly its leading run of whitespace. */
  lemma {:induction false} StripLeftDrop(s: string, i: nat)
    requires i <= |s|
    ensures StripLeft(s[i..]) == s[SpaceRunEnd(s, i)..]
    decreases |s| - i
  {
    if i < |s| && IsSpace(s[i]) {
      assert s[i..][1..] == s[i + 1..];
      StripLeftDrop(s, i + 1);
    }
  }

  /** `s.rstrip()`. */
  function StripRight(s: string): (r: string)
    ensures |r| <= |s| && r == s[..|r|]
    ensures forall i :: |r| <= i < |s| ==> IsSpace(s[i])
    ensures |r| > 0 ==> !IsSpace(r[|r| - 1])
    decreases |s|
  {
    if |s| > 0 && IsSpace(s[|s| - 1]) then StripRight(s[..|s| - 1]) else s
  }

  /** `s.strip()`. */
  function Strip(s: string): (r: string)
    ensures |r| <= |s|
    ensures |r| > 0 ==> !IsSpace(r[0]) && !IsSpace(r[|r| - 1])
    ensures NoSpace(s) ==> r == s
  {
    StripRight(StripLeft(s))
  }

  /** Stripping changes nothing when neither end is whitespace. */
  lemma StripNoEdgeSpace(s: string)
    requires |s| > 0 ==> !IsSpace(s[0]) && !IsSpace(s[|s| - 1])
    ensures Strip(s) == s
  {
    assert StripLeft(s) == s;
  }

  /** Words joined by single blanks neither start nor end with whitespace. */
  lemma {:induction false} JoinWordsEdges(ws: seq<string>)
    requires forall k :: 0 <= k < |ws| ==> |ws[k]| > 0 && NoSpace(ws[k])
    ensures |ws| > 0 ==> |Join(" ", ws)| > 0
    ensures |ws| > 0 ==> Join(" ", ws)[0] == ws[0][0]
    ensures |ws| > 0 ==> Join(" ", ws)[|Join(" ", ws)| - 1] == ws[|ws| - 1][|ws[|ws| - 1]| - 1]
    decreases |ws|
  {
    if |ws| > 1 {
      JoinWordsEdges(ws[1..]);
      assert ws[1..][|ws[1..]| - 1] == ws[|ws| - 1];
    }
  }

  /** `' '.join(words).strip()` is the join itself. */
  lemma JoinWordsStripped(ws: seq<string>)
    requires forall k :: 0 <= k < |ws| ==> |ws[k]| > 0 && NoSpace(ws[k])
    ensures Strip(Join(" ", ws)) == Join(" ", ws)
  {
    JoinWordsEdges(ws);
    if |ws| > 0 {
      assert !IsSpace(ws[0][0]);
      assert !IsSpace(ws[|ws| - 1][|ws[|ws| - 1]| - 1]);
    }
    StripNoEdgeSpace(Join(" ", ws));
  }

  /** `re.sub(r'\s+', ' ', s)`: every run of whitespace becomes one blank. */
  function CollapseSpaces(s: string): (r: string)
    ensures |r| <= |s|
    ensures forall i :: 0 <= i < |r| && IsSpace(r[i]) ==> r[i] == ' '
    ensures forall i :: 0 <= i < |r| - 1 ==> !(r[i] == ' ' && r[i + 1] == ' ')
    ensures |s| > 0 ==> |r| > 0 && (IsSpace(s[0]) <==> r[0] == ' ')
    decreases |s|
  {
    if |s| == 0 then []
    else if IsSpace(s[0]) then
      var t := StripLeft(s);
      var rest := CollapseSpaces(t);
      PrependCollapsed(' ', rest);
      [' '] + rest
    else
      var rest := CollapseSpaces(s[1..]);
      PrependCollapsed(s[0], rest);
      [s[0]] + rest
  }

  /**
   * Putting a blank or a non-whitespace character in front of a string whose
   * whitespace is single blanks keeps it so, unless that makes two blanks meet.
   */
  lemma PrependCollapsed(c: char, r: string)
    requires forall i :: 0 <= i < |r| && IsSpace(r[i]) ==> r[i] == ' '
    requires forall i :: 0 <= i < |r| - 1 ==> !(r[i] == ' ' && r[i + 1] == ' ')
    requires IsSpace(c) ==> c == ' '
    requires c == ' ' && |r| > 0 ==> r[0] != ' '
    ensures forall i :: 0 <= i < |[c] + r| && IsSpace(([c] + r)[i]) ==> ([c] + r)[i] == ' '
    ensures forall i :: 0 <= i < |[c] + r| - 1 ==> !(([c] + r)[i] == ' ' && ([c] + r)[i + 1] == ' ')
  {
    var p := [c] + r;
    forall i | 0 < i < |p|
      ensures p[i] == r[i - 1]
    {
    }
  }

  /**
   * A prefix of a collapsed string that did not start with whitespace has
   * at most `n` characters, does not start with whitespace, and its only
   * whitespace is single blanks.
   */
  lemma CollapsedPrefixShape(s: string, n: nat)
    requires |s| > 0 ==> !IsSpace(s[0])
    ensures |Seqs.Take(CollapseSpaces(s), n)| <= n
    ensures |Seqs.Take(CollapseSpaces(s), n)| > 0 ==> !IsSpace(Seqs.Take(CollapseSpaces(s), n)[0])
    ensures forall i :: 0 <= i < |Seqs.Take(CollapseSpaces(s), n)| && IsSpace(Seqs.Take(CollapseSpaces(s), n)[i]) ==>
      Seqs.Take(CollapseSpaces(s), n)[i] == ' '
    ensures forall i :: 0 <= i < |Seqs.Take(CollapseSpaces(s), n)| - 1 ==>
      !(Seqs.Take(CollapseSpaces(s), n)[i] == ' ' && Seqs.Take(CollapseSpaces(s), n)[i + 1] == ' ')
  {
    var c := CollapseSpaces(s);
    var p := Seqs.Take(c, n);
    assert p == c[..|p|];
    if |p| > 0 {
      assert p[0] == c[0];
    }
  }

  function DigitChar(d: nat): (c: char)
    requires d < 10
    ensures '0' <= c <= '9'
  {
    ('0' as int + d) as char
  }

  /** `str(n)` for a natural number. */
  function NatToString(n: nat): (r: string)
    ensures |r| > 0
    ensures forall i :: 0 <= i < |r| ==> '0' <= r[i] <= '9'
    decreases n
  {
    if n < 10 then [DigitChar(n)] else NatToString(n / 10) + [DigitChar(n % 10)]
  }

  /** The number a string of decimal digits denotes (`int(s)` on digit strings). */
  function DigitsValue(s: string): int
    decreases |s|
  {
    if |s| == 0 then 0 else DigitsValue(s[..|s| - 1]) * 10 + (s[|s| - 1] as int - '0' as int)
  }

  /** `str(n)` is read back as `n`, and it has no leading zero. */
  lemma {:induction false} NatToStringValue(n: nat)
    ensures DigitsValue(NatToString(n)) == n
    ensures |NatToString(n)| > 1 ==> NatToString(n)[0] != '0'
    decreases n
  {
    if n >= 10 {
      NatToStringValue(n / 10);
      var r := NatToString(n);
      assert r[..|r| - 1] == NatToString(n / 10);
      if |NatToString(n / 10)| == 1 {
        assert NatToString(n / 10) == [DigitChar(n / 10)];
      }
    }
  }
}
