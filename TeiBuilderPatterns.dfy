/** The line-level regular expressions of the TEI text builder, the
  * verse-label parser and the @xml:id maker, each written as a scanner
  * over the line. Python's `$` (no MULTILINE) matches at the end of the
  * string or just before a final newline; `.` never matches a newline. */
module TeiBuilderPatterns {
  import opened Wrappers
  import opened Strings

  /** Python's `$`: the end of the string, or just before a final newline. */
  predicate AtEnd(s: string, i: int)
  {
    i == |s| || (0 <= i == |s| - 1 && s[i] == '\n')
  }

  /** The part of `s` that a pattern ending in `X$` must end with `X` in. */
  function DropFinalNewline(s: string): (r: string)
    ensures r == s || (s == r + "\n")
  {
    if |s| > 0 && s[|s| - 1] == '\n' then s[..|s| - 1] else s
  }

  predicate AllDigits(s: string)
  {
    forall i :: 0 <= i < |s| ==> IsDigit(s[i])
  }

  // -------------------------------------------------------------------
  // Whole-line patterns
  // -------------------------------------------------------------------

  /** SECTION_RE `^{([^}]+)}\s*$`: the label between the braces. */
  function MatchSection(line: string): (r: Option<string>)
    ensures r.Some? ==> |r.value| >= 1 && '}' !in r.value
    ensures r.Some? ==> |line| >= |r.value| + 2 && line == "{" + r.value + "}" + line[|r.value| + 2..]
    ensures r.Some? ==> IsBlank(line[|r.value| + 2..])
  {
    if |line| >= 1 && line[0] == '{' && '}' in line[1..] then
      var j := Find(line[1..], '}').value;
      if j >= 1 && IsBlank(line[j + 2..]) then
        assert line == "{" + line[1..j + 1] + "}" + line[j + 2..];
        Some(line[1..j + 1])
      else None
    else None
  }

  /** Every line made of a brace-enclosed label and trailing whitespace is a section line. */
  lemma SectionComplete(name: string, rest: string)
    requires |name| >= 1 && '}' !in name && IsBlank(rest)
    ensures MatchSection("{" + name + "}" + rest) == Some(name)
  {
    var line := "{" + name + "}" + rest;
    assert line[1..] == name + "}" + rest;
    assert '}' in line[1..] by {
      assert line[1..][|name|] == '}';
    }
    var j := Find(line[1..], '}').value;
    assert forall k :: 0 <= k < |name| ==> line[1..][k] == name[k];
    assert j == |name|;
    assert line[j + 2..] == rest;
    assert line[1..j + 1] == name;
  }

  /** PAGE_RE `^<(\d+)>$`: the page number. */
  function MatchPage(line: string): (r: Option<string>)
    ensures r.Some? <==> (var t := DropFinalNewline(line);
                          |t| >= 3 && t[0] == '<' && t[|t| - 1] == '>' && AllDigits(t[1..|t| - 1]))
    ensures r.Some? ==> DropFinalNewline(line) == "<" + r.value + ">" && |r.value| >= 1 && AllDigits(r.value)
  {
    var t := DropFinalNewline(line);
    if |t| >= 3 && t[0] == '<' && t[|t| - 1] == '>' && AllDigits(t[1..|t| - 1]) then
      assert t == "<" + t[1..|t| - 1] + ">";
      Some(t[1..|t| - 1])
    else None
  }

  /** PAGE_LINE_RE `^<(\d+),(\d+)>$`: the page and line numbers. */
  function MatchPageLine(line: string): (r: Option<(string, string)>)
    ensures r.Some? ==> DropFinalNewline(line) == "<" + r.value.0 + "," + r.value.1 + ">"
    ensures r.Some? ==> |r.value.0| >= 1 && |r.value.1| >= 1 && AllDigits(r.value.0) && AllDigits(r.value.1)
  {
    var t := DropFinalNewline(line);
    if |t| >= 2 && t[0] == '<' && t[|t| - 1] == '>' && ',' in t[1..|t| - 1] then
      var inner := t[1..|t| - 1];
      var (a, b) := SplitFirst(inner, ',');
      if |a| >= 1 && |b| >= 1 && AllDigits(a) && AllDigits(b) then
        assert t == "<" + inner + ">";
        Some((a, b))
      else None
    else None
  }

  /** The page-number patterns never accept the same line. */
  lemma PageFormsExclusive(line: string)
    ensures MatchPageLine(line).Some? ==> MatchPage(line).None?
  {
    if MatchPageLine(line).Some? {
      var t := DropFinalNewline(line);
      var (a, b) := MatchPageLine(line).value;
      assert t[1..|t| - 1] == a + "," + b;
      assert t[1..|t| - 1][|a|] == ',';
    }
  }

  /** ADDITIONAL_STRUCTURE_NOTE_RE `^<[^\n>]+>$`: the whole note, brackets included. */
  function MatchNote(line: string): (r: Option<string>)
    ensures r.Some? ==> r.value == DropFinalNewline(line) && |r.value| >= 3
    ensures r.Some? ==> r.value[0] == '<' && r.value[|r.value| - 1] == '>'
    ensures r.Some? ==> '>' !in r.value[1..|r.value| - 1] && '\n' !in r.value[1..|r.value| - 1]
  {
    var t := DropFinalNewline(line);
    if |t| >= 3 && t[0] == '<' && t[|t| - 1] == '>' && '>' !in t[1..|t| - 1] && '\n' !in t[1..|t| - 1] then
      Some(t)
    else None
  }

  /** A page line is also a note line; the builder tries the page patterns first. */
  lemma PageIsNote(line: string)
    requires MatchPage(line).Some? || MatchPageLine(line).Some?
    ensures MatchNote(line).Some?
  {
    var t := DropFinalNewline(line);
    forall i | 1 <= i < |t| - 1
      ensures t[i] != '>' && t[i] != '\n'
    {
      if MatchPage(line).Some? {
        assert t[i] == t[1..|t| - 1][i - 1];
      } else {
        var (a, b) := MatchPageLine(line).value;
        assert t[1..|t| - 1] == a + "," + b;
        assert t[i] == (a + "," + b)[i - 1];
      }
    }
  }

  predicate IsTab(c: char) { c == '\t' }

  /** The text after a bracketed label of length `n`: its tabs skipped and a
    * final newline dropped. */
  function AfterLabel(line: string, n: nat): string
    requires n + 2 <= |line|
  {
    DropFinalNewline(TrimLeft(line[n + 2..], IsTab))
  }

  /** The first `]` after the opening bracket closes a label without `]`. */
  lemma BracketedLabel(line: string, j: nat)
    requires |line| >= 1 && line[0] == '[' && j + 1 < |line|
    requires line[1..][j] == ']' && ']' !in line[1..][..j]
    ensures var lab := line[1..j + 1];
            |lab| == j && ']' !in lab && StartsWith(line, "[" + lab + "]")
  {
    assert line[1..j + 1] == line[1..][..j];
    assert line[..j + 2] == "[" + line[1..j + 1] + "]";
  }

  /** LOCATION_VERSE_RE `^\[([^\]]+?)\]\t*(.*)$`: the raw label and the
    * text after the label's tabs. */
  function MatchLocation(line: string): (r: Option<(string, string)>)
    ensures r.Some? ==> |r.value.0| >= 1 && ']' !in r.value.0 && '\n' !in r.value.1
    ensures r.Some? ==> StartsWith(line, "[" + r.value.0 + "]")
    ensures r.Some? ==> |r.value.0| + 2 <= |line| && r.value.1 == AfterLabel(line, |r.value.0|)
  {
    if |line| >= 1 && line[0] == '[' && ']' in line[1..] then
      var j := Find(line[1..], ']').value;
      var lab := line[1..j + 1];
      var u := AfterLabel(line, j);
      if j >= 1 && '\n' !in u then
        BracketedLabel(line, j);
        Some((lab, u))
      else None
    else None
  }

  /** PENDING_HEAD_RE `^(.*\|)\s*_$`: the head text up to its last bar, for a
    * line that ends in a bar, optional whitespace and `_`. */
  function MatchPendingHead(line: string): (r: Option<string>)
    ensures r.Some? ==> |r.value| >= 1 && r.value[|r.value| - 1] == '|' && '\n' !in r.value
    ensures r.Some? ==> StartsWith(line, r.value)
  {
    var t := DropFinalNewline(line);
    if |t| >= 1 && t[|t| - 1] == '_' then
      var u := RStrip(t[..|t| - 1]);
      if |u| >= 1 && u[|u| - 1] == '|' && '\n' !in u then
        assert t[..|u|] == u;
        Some(u)
      else None
    else None
  }

  // -------------------------------------------------------------------
  // Verse labels
  // -------------------------------------------------------------------

  /** The end of the run of ASCII digits starting at `i`. */
  function DigitRunEnd(s: string, i: nat): (e: nat)
    requires i <= |s|
    ensures i <= e <= |s| && AllDigits(s[i..e]) && (e == |s| || !IsDigit(s[e]))
    decreases |s| - i
  {
    if i < |s| && IsDigit(s[i]) then
      var e := DigitRunEnd(s, i + 1);
      assert s[i..e] == [s[i]] + s[i + 1..e];
      e
    else i
  }

  /** The end of the greedy match of `[0-9]+(?:[.,][0-9]+)*` starting with
    * the digit run that ends at `e`. */
  function VerseNumberEnd(s: string, e: nat): (r: nat)
    requires e <= |s|
    ensures e <= r <= |s|
    decreases |s| - e
  {
    if e + 1 < |s| && (s[e] == '.' || s[e] == ',') && IsDigit(s[e + 1]) then
      VerseNumberEnd(s, DigitRunEnd(s, e + 1))
    else e
  }

  function LetterRunEnd(s: string, i: nat): (e: nat)
    requires i <= |s|
    ensures i <= e <= |s| && (e == |s| || !IsAsciiLetter(s[e]))
    ensures forall k :: i <= k < e ==> IsAsciiLetter(s[k])
    decreases |s| - i
  {
    if i < |s| && IsAsciiLetter(s[i]) then LetterRunEnd(s, i + 1) else i
  }

  /** The first index at or after `i` that is not whitespace, or `|s|`. */
  function SkipSpace(s: string, i: nat): (e: nat)
    requires i <= |s|
    ensures i <= e <= |s| && (e < |s| ==> !IsSpace(s[e]))
    ensures forall k :: i <= k < e ==> IsSpace(s[k])
    decreases |s| - i
  {
    if i < |s| && IsSpace(s[i]) then SkipSpace(s, i + 1) else i
  }

  /** VERSE_NUM_RE `^\s*([0-9]+(?:[.,][0-9]+)*)\s*([a-z]{1,4})?\s*$` with
    * IGNORECASE: the verse number and the optional segment letters. */
  function MatchVerseNumber(s: string): (r: Option<(string, Option<string>)>)
    ensures r.Some? ==> |r.value.0| >= 1 && IsDigit(r.value.0[0])
    ensures r.Some? && r.value.1.Some? ==> 1 <= |r.value.1.value| <= 4
    ensures r.Some? && r.value.1.Some? ==> forall k :: 0 <= k < |r.value.1.value| ==> IsAsciiLetter(r.value.1.value[k])
  {
    var i := SkipSpace(s, 0);
    if i < |s| && IsDigit(s[i]) then
      var e := VerseNumberEnd(s, DigitRunEnd(s, i));
      var j := SkipSpace(s, e);
      var k := LetterRunEnd(s, j);
      if k - j <= 4 && SkipSpace(s, k) == |s| then
        Some((s[i..e], if k > j then Some(s[j..k]) else None))
      else None
    else None
  }

  /** `_parse_verse_label`: (base, segment), with the segment lower-cased;
    * a label the pattern rejects is all base. */
  function ParseVerseLabel(raw: string): (r: (string, Option<string>))
    ensures MatchVerseNumber(raw).None? ==> r == (Strip(raw), None)
    ensures r.1.Some? ==> 1 <= |r.1.value| <= 4
    ensures r.1.Some? ==> forall k :: 0 <= k < |r.1.value| ==> 'a' <= r.1.value[k] <= 'z'
  {
    match MatchVerseNumber(raw)
    case None => (Strip(raw), None)
    case Some((base, seg)) =>
      (Strip(base), if seg.Some? then Some(Lower(seg.value)) else None)
  }

  /** A verse number: digit runs joined by single `.` or `,`. */
  predicate IsVerseNumber(t: string)
  {
    |t| >= 1 && IsDigit(t[0]) && IsDigit(t[|t| - 1])
    && (forall k :: 0 <= k < |t| ==> IsDigit(t[k]) || t[k] == '.' || t[k] == ',')
    && (forall k :: 0 <= k < |t| - 1 && !IsDigit(t[k]) ==> IsDigit(t[k + 1]))
  }

  /** Extending a verse number that ends at `e` by separator-and-digits
    * steps keeps it a verse number. */
  lemma {:induction false} NumberEndShape(s: string, i: nat, e: nat)
    requires i < e <= |s| && IsVerseNumber(s[i..e])
    ensures var r := VerseNumberEnd(s, e); e <= r && IsVerseNumber(s[i..r])
    decreases |s| - e
  {
    if e + 1 < |s| && (s[e] == '.' || s[e] == ',') && IsDigit(s[e + 1]) {
      var e2 := DigitRunEnd(s, e + 1);
      assert e2 > e + 1;
      assert IsVerseNumber(s[i..e2]) by {
        var n := s[i..e2];
        forall k | 0 <= k < |n|
          ensures IsDigit(n[k]) || n[k] == '.' || n[k] == ','
        {
          if i + k < e {
            assert n[k] == s[i..e][k];
          } else if i + k > e {
            assert n[k] == s[e + 1..e2][i + k - e - 1];
          }
        }
        forall k | 0 <= k < |n| - 1
          ensures IsDigit(n[k]) || IsDigit(n[k + 1])
        {
          if i + k + 1 < e {
            assert n[k] == s[i..e][k] && n[k + 1] == s[i..e][k + 1];
          } else if i + k + 1 == e {
            assert n[k] == s[i..e][|s[i..e]| - 1];
          } else if i + k == e {
            assert n[k + 1] == s[e + 1];
          } else {
            assert n[k] == s[e + 1..e2][i + k - e - 1];
          }
        }
        assert n[|n| - 1] == s[e + 1..e2][|s[e + 1..e2]| - 1];
      }
      NumberEndShape(s, i, e2);
    }
  }

  /** When the pattern matches, the base is a verse number: digit runs
    * joined by single dots or commas, with nothing around it. */
  lemma ParseVerseLabelBase(raw: string)
    requires MatchVerseNumber(raw).Some?
    ensures IsVerseNumber(ParseVerseLabel(raw).0)
  {
    var i := SkipSpace(raw, 0);
    var e0 := DigitRunEnd(raw, i);
    assert IsVerseNumber(raw[i..e0]) by {
      assert forall k :: 0 <= k < e0 - i ==> raw[i..e0][k] == raw[i + k];
    }
    NumberEndShape(raw, i, e0);
    var base := raw[i..VerseNumberEnd(raw, e0)];
    StripUnpadded(base);
  }

  /** The three labels `_parse_verse_label` documents: "1.1ab" gives
    * ("1.1", "ab"), "1.1 cd" gives ("1.1", "cd") and "2.3" gives ("2.3",
    * no segment). */
  lemma ParseVerseLabelJoined(a: string)
    requires a == "1.1ab"
    ensures ParseVerseLabel(a) == ("1.1", Some("ab"))
  {
    JoinedMatch(a);
    MatchedParse(a, "1.1", Some("ab"));
  }

  lemma JoinedMatch(a: string)
    requires a == "1.1ab"
    ensures MatchVerseNumber(a) == Some(("1.1", Some("ab")))
  {
    assert SkipSpace(a, 0) == 0;
    assert VerseNumberEnd(a, DigitRunEnd(a, 0)) == 3 by {
      OneDotOne(a);
    }
    assert SkipSpace(a, 3) == 3;
    assert LetterRunEnd(a, 3) == 5 by {
      assert LetterRunEnd(a, 5) == 5;
      assert LetterRunEnd(a, 4) == 5;
    }
    assert SkipSpace(a, 5) == 5;
    assert a[0..3] == "1.1" && a[3..5] == "ab";
  }

  /** A match whose base has no blank at either end and whose segment is
    * already lower case is parsed to exactly those parts. */
  lemma MatchedParse(raw: string, base: string, seg: Option<string>)
    requires MatchVerseNumber(raw) == Some((base, seg))
    requires base != [] && !IsSpace(base[0]) && !IsSpace(base[|base| - 1])
    requires seg.Some? ==> forall k :: 0 <= k < |seg.value| ==> 'a' <= seg.value[k] <= 'z'
    ensures ParseVerseLabel(raw) == (base, seg)
  {
    StripUnpadded(base);
    if seg.Some? {
      LowerKeeps(seg.value);
    }
  }

  lemma ParseVerseLabelSpaced(b: string)
    requires b == "1.1 cd"
    ensures ParseVerseLabel(b) == ("1.1", Some("cd"))
  {
    SpacedMatch(b);
    MatchedParse(b, "1.1", Some("cd"));
  }

  /** The scan positions of "1.1 cd": the number ends at 3, one space is
    * skipped, and the letters run to the end. */
  lemma SpacedScan(b: string)
    requires b == "1.1 cd"
    ensures SkipSpace(b, 0) == 0 && VerseNumberEnd(b, DigitRunEnd(b, 0)) == 3
    ensures SkipSpace(b, 3) == 4 && LetterRunEnd(b, 4) == 6 && SkipSpace(b, 6) == 6
  {
    OneDotOne(b);
    assert SkipSpace(b, 4) == 4;
    assert LetterRunEnd(b, 6) == 6;
    assert LetterRunEnd(b, 5) == 6;
  }

  lemma SpacedMatch(b: string)
    requires b == "1.1 cd"
    ensures MatchVerseNumber(b) == Some(("1.1", Some("cd")))
  {
    SpacedScan(b);
    assert b[0..3] == "1.1" && b[4..6] == "cd";
  }

  lemma ParseVerseLabelBare(c: string)
    requires c == "2.3"
    ensures ParseVerseLabel(c) == ("2.3", None)
  {
    BareMatch(c);
    MatchedParse(c, "2.3", None);
  }

  lemma BareMatch(c: string)
    requires c == "2.3"
    ensures MatchVerseNumber(c) == Some(("2.3", None))
  {
    assert SkipSpace(c, 0) == 0;
    assert VerseNumberEnd(c, DigitRunEnd(c, 0)) == 3 by {
      assert DigitRunEnd(c, 0) == 1 by {
        assert DigitRunEnd(c, 1) == 1;
      }
      assert DigitRunEnd(c, 2) == 3 by {
        assert DigitRunEnd(c, 3) == 3;
      }
      assert VerseNumberEnd(c, 3) == 3;
    }
    assert SkipSpace(c, 3) == 3 && LetterRunEnd(c, 3) == 3;
    assert c[0..3] == "2.3";
  }

  /** A string starting "1.1" and going on with no digit: the number is its
    * first three characters. */
  lemma OneDotOne(s: string)
    requires |s| >= 4 && s[..3] == "1.1" && !IsDigit(s[3]) && s[3] != '.' && s[3] != ','
    ensures VerseNumberEnd(s, DigitRunEnd(s, 0)) == 3
  {
    assert s[0] == '1' && s[1] == '.' && s[2] == '1';
    assert DigitRunEnd(s, 0) == 1 by {
      assert DigitRunEnd(s, 1) == 1;
    }
    assert DigitRunEnd(s, 2) == 3 by {
      assert DigitRunEnd(s, 3) == 3;
    }
    assert VerseNumberEnd(s, 3) == 3;
  }

  /** Lower case letters are left alone. */
  lemma LowerKeeps(s: string)
    requires forall k :: 0 <= k < |s| ==> 'a' <= s[k] <= 'z'
    ensures Lower(s) == s
  {
  }

  // -------------------------------------------------------------------
  // Verse ends and line ends
  // -------------------------------------------------------------------

  /** The first index at or after `k` holding `|`, or `|s|`. */
  function NextBar(s: string, k: nat): (f: nat)
    requires k <= |s|
    ensures k <= f <= |s| && (f < |s| ==> s[f] == '|')
    ensures forall t :: k <= t < f ==> s[t] != '|'
  {
    NextChar(s, k, '|')
  }

  /** `[^|]{1,20} \|\|` matches at `k`. */
  predicate MarkerTextAt(s: string, k: nat)
    requires k <= |s|
  {
    var f := NextBar(s, k);
    f + 1 < |s| && 2 <= f - k <= 21 && s[f - 1] == ' ' && s[f + 1] == '|'
  }

  /** VERSE_MARKER_RE `\|\| ([^|]{1,20}) \|\|(?: |$)` at `i`: the match end. */
  function VerseMarkerAt(s: string, i: nat): (r: Option<nat>)
    requires i <= |s|
    ensures r.Some? ==> i + 6 <= r.value <= |s|
  {
    if i + 3 <= |s| && s[i..i + 3] == "|| " && MarkerTextAt(s, i + 3) then
      var f := NextBar(s, i + 3);
      if f + 2 < |s| && s[f + 2] == ' ' then Some(f + 3)
      else if AtEnd(s, f + 2) then Some(f + 2)
      else None
    else None
  }

  /** VERSE_BACK_BOUNDARY_RE `\|\|(?![^|]{1,20} \|\|)` at `i`: the match end. */
  function BackBoundaryAt(s: string, i: nat): (r: Option<nat>)
    requires i <= |s|
    ensures r.Some? ==> r.value == i + 2 <= |s|
  {
    if i + 2 <= |s| && s[i] == '|' && s[i + 1] == '|' && !MarkerTextAt(s, i + 2) then Some(i + 2) else None
  }

  /** COMBINED_VERSE_END_RE (the two alternatives, marker first) at `i`. */
  function VerseEndAt(s: string, i: nat): (r: Option<nat>)
    requires i <= |s|
    ensures r.Some? ==> i + 2 <= r.value <= |s|
    ensures r.Some? ==> s[i] == '|' && s[i + 1] == '|'
  {
    var m := VerseMarkerAt(s, i);
    if m.Some? then
      assert s[i..i + 3][0] == '|' && s[i..i + 3][1] == '|';
      m
    else BackBoundaryAt(s, i)
  }

  /** `finditer` of COMBINED_VERSE_END_RE from `from`: (start, end) pairs. */
  function VerseEnds(s: string, from: nat): (r: seq<(nat, nat)>)
    requires from <= |s|
    ensures forall k :: 0 <= k < |r| ==> from <= r[k].0 && r[k].0 + 2 <= r[k].1 <= |s|
    ensures forall k :: 0 <= k < |r| ==> VerseEndAt(s, r[k].0) == Some(r[k].1)
    ensures forall k :: 0 <= k < |r| - 1 ==> r[k].1 <= r[k + 1].0
    decreases |s| - from
  {
    if from == |s| then []
    else
      match VerseEndAt(s, from)
      case Some(e) => [(from, e)] + VerseEnds(s, e)
      case None => VerseEnds(s, from + 1)
  }

  /** `COMBINED_VERSE_END_RE.search(s)` succeeds. */
  predicate HasVerseEnd(s: string)
  {
    VerseEnds(s, 0) != []
  }

  /** A verse end found by the scan is the leftmost one at or after `from`. */
  lemma {:induction false} VerseEndsLeftmost(s: string, from: nat, i: nat)
    requires from <= i <= |s| && VerseEndAt(s, i).Some?
    ensures VerseEnds(s, from) != [] && VerseEnds(s, from)[0].0 <= i
    decreases |s| - from
  {
    if VerseEndAt(s, from).None? {
      assert from < i;
      VerseEndsLeftmost(s, from + 1, i);
    }
  }

  /** CLOSE_L_RE `\|\|?(?:[ \n]|$)`, searched anywhere: some bar is followed by
    * a space, a newline or the end. (The optional second bar adds nothing:
    * where it matches, the first-bar alternative matches one place later.) */
  predicate ClosesLine(s: string)
  {
    exists i :: 0 <= i < |s| && s[i] == '|' && (i + 1 == |s| || s[i + 1] == ' ' || s[i + 1] == '\n')
  }

  /** A text that ends in a bar closes its line. */
  lemma EndingBarClosesLine(s: string)
    requires |s| >= 1 && s[|s| - 1] == '|'
    ensures ClosesLine(s)
  {
  }

  /** HYPHEN_EOL_RE `-\s*$` searched: the text ends in a hyphen, ignoring trailing whitespace. */
  predicate EndsWithHyphen(s: string)
  {
    var t := RStrip(s);
    |t| >= 1 && t[|t| - 1] == '-'
  }

  /** `HYPHEN_EOL_RE.sub("", s)`: the final hyphen and the whitespace after it are removed. */
  function RemoveEolHyphen(s: string): (r: string)
    ensures !EndsWithHyphen(s) ==> r == s
    ensures EndsWithHyphen(s) ==> |r| < |s| && r == s[..|r|] && r + "-" == RStrip(s)
  {
    if EndsWithHyphen(s) then
      var t := RStrip(s);
      t[..|t| - 1]
    else s
  }

  // -------------------------------------------------------------------
  // Identifiers
  // -------------------------------------------------------------------

  /** The builder's `make_xml_id`: `p{page}_l{line}` for a "page,line" label
    * (dots become underscores), otherwise `v` followed by the label with each
    * run of non-word characters collapsed to `_`. */
  function MakeXmlId(name: string): (r: string)
    ensures |r| >= 1 && '.' !in r
    ensures r[0] == 'p' <==> IsPageLineLabel(name)
    ensures r[0] == 'v' <==> !IsPageLineLabel(name)
    ensures r[0] == 'v' ==> forall i :: 1 <= i < |r| ==> IsWordChar(r[i])
  {
    var s := Strip(name);
    if IsPageLineLabel(name) then
      var (page, lineNo) := SplitFirst(s, ',');
      PageLineId(Strip(page), Strip(lineNo))
    else
      VerseId(s)
  }

  /** `p{page}_l{line}` with the dots of both parts made underscores. */
  function PageLineId(page: string, lineNo: string): (r: string)
    ensures |r| >= 1 && r[0] == 'p' && '.' !in r
  {
    ReplaceCharRemoves(page, '.', "_");
    ReplaceCharRemoves(lineNo, '.', "_");
    "p" + Replace(page, ".", "_") + "_l" + Replace(lineNo, ".", "_")
  }

  /** `v` followed by `re.sub(r"\W+", "_", s)`. */
  function VerseId(s: string): (r: string)
    ensures |r| >= 1 && r[0] == 'v' && '.' !in r
    ensures forall i :: 1 <= i < |r| ==> IsWordChar(r[i])
  {
    var cleaned := ReplaceNonWordRuns(s);
    assert !IsWordChar('.');
    "v" + cleaned
  }

  /** A label of the form "page,line": it has a comma, and the stripped
    * parts before and after the first comma are both non-empty. */
  predicate IsPageLineLabel(name: string)
  {
    var s := Strip(name);
    ',' in s && Strip(SplitFirst(s, ',').0) != [] && Strip(SplitFirst(s, ',').1) != []
  }
  /** Each `.` of `s` made `_`, position by position. */
  function DotsToUnderscores(s: string): (r: string)
    ensures |r| == |s|
  {
    seq(|s|, i requires 0 <= i < |s| => if s[i] == '.' then '_' else s[i])
  }

  /** A "page,line" label gives `p`, the stripped page, `_l` and the
    * stripped line number, with every dot of either made an underscore. */
  lemma PageLineValue(name: string)
    requires IsPageLineLabel(name)
    ensures var parts := SplitFirst(Strip(name), ',');
            MakeXmlId(name) == "p" + DotsToUnderscores(Strip(parts.0)) + "_l" + DotsToUnderscores(Strip(parts.1))
  {
    var parts := SplitFirst(Strip(name), ',');
    var page, lineNo := Strip(parts.0), Strip(parts.1);
    assert MakeXmlId(name) == PageLineId(page, lineNo);
    PageLineIdValue(page, lineNo);
  }

  lemma PageLineIdValue(page: string, lineNo: string)
    ensures PageLineId(page, lineNo) == "p" + DotsToUnderscores(page) + "_l" + DotsToUnderscores(lineNo)
  {
    assert Replace(page, ".", "_") == DotsToUnderscores(page) by {
      ReplaceCharPointwise(page, '.', '_');
    }
    assert Replace(lineNo, ".", "_") == DotsToUnderscores(lineNo) by {
      ReplaceCharPointwise(lineNo, '.', '_');
    }
  }

  /** Any other label gives `v` and the stripped label with each run of
    * non-word characters made one `_`: a label made of a word part, one
    * such run and a rest gives `v`, the word part, `_`, and the rest so
    * rewritten. */
  lemma VerseIdRun(name: string, w: string, g: string, rest: string)
    requires !IsPageLineLabel(name) && Strip(name) == w + g + rest
    requires AllWord(w) && g != [] && AllNonWord(g) && (rest == [] || IsWordChar(rest[0]))
    ensures MakeXmlId(name) == "v" + (w + "_" + ReplaceNonWordRuns(rest))
  {
    assert MakeXmlId(name) == VerseId(w + g + rest);
    assert ReplaceNonWordRuns(w + g + rest) == w + "_" + ReplaceNonWordRuns(rest) by {
      RunCollapse(w, g, rest);
    }
  }

  /** "12,3.4" is a page-line label and gives "p12_l3_4". */
  lemma PageLineExample(s: string)
    requires s == "12,3.4"
    ensures MakeXmlId(s) == "p12_l3_4"
  {
    PageLineParts(s);
    PageLineValue(s);
    DotsExample();
  }

  lemma PageLineParts(s: string)
    requires s == "12,3.4"
    ensures IsPageLineLabel(s) && SplitFirst(Strip(s), ',') == ("12", "3.4")
    ensures Strip("12") == "12" && Strip("3.4") == "3.4"
  {
    StripPlain(s);
    assert SplitFirst(s, ',') == ("12", "3.4") by {
      SplitFirstUnique(s, ',', "12", "3.4");
    }
    StripPlain("12");
    StripPlain("3.4");
  }

  /** A label that starts and ends with a digit is left alone by stripping. */
  lemma StripPlain(s: string)
    requires s != [] && IsDigit(s[0]) && IsDigit(s[|s| - 1])
    ensures Strip(s) == s
  {
    assert !IsSpace(s[0]) && !IsSpace(s[|s| - 1]);
    StripUnpadded(s);
  }

  lemma DotsExample()
    ensures "p" + DotsToUnderscores("12") + "_l" + DotsToUnderscores("3.4") == "p12_l3_4"
  {
    var a, b := DotsToUnderscores("12"), DotsToUnderscores("3.4");
    assert a == "12" && b == "3_4";
  }

  /** "1.2" has no comma and gives "v1_2". */
  lemma VerseExample(s: string)
    requires s == "1.2"
    ensures MakeXmlId(s) == "v1_2"
  {
    VerseParts(s);
    VerseIdRun(s, "1", ".", "2");
    assert "v" + ("1" + "_" + "2") == "v1_2";
  }

  lemma VerseParts(s: string)
    requires s == "1.2"
    ensures !IsPageLineLabel(s) && Strip(s) == "1" + "." + "2"
    ensures AllWord("1") && AllNonWord(".") && IsWordChar('2') && ReplaceNonWordRuns("2") == "2"
  {
    StripPlain(s);
    assert s == "1" + "." + "2";
    assert AllWord("2");
  }

  /** The empty label gives "v". */
  lemma EmptyExample()
    ensures MakeXmlId("") == "v"
  {
    assert Strip("") == [];
  }
}
