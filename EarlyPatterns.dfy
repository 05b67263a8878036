/** The line patterns, the @xml:id maker and the verse-segment labels
  * shared by the earlier plaintext-to-TEI builders. Each regular
  * expression is a scanner over the line; Python's `$` (no MULTILINE)
  * matches at the end or just before a final newline. */
module EarlyPatterns {
  import opened Wrappers
  import opened Strings
  import opened TeiBuilderPatterns

  // -------------------------------------------------------------------
  // make_xml_id of the early builders
  // -------------------------------------------------------------------

  /** The stripped parts of a label around its first comma, when it has one. */
  function CommaParts(lab: string): (r: Option<(string, string)>)
    ensures r.Some? <==> ',' in Strip(lab)
    ensures r.Some? ==> (var (a, b) := SplitFirst(Strip(lab), ',');
                         r.value == (Strip(a), Strip(b)))
  {
    var t := Strip(lab);
    if ',' in t then
      var (a, b) := SplitFirst(t, ',');
      Some((Strip(a), Strip(b)))
    else None
  }

  /** A "page,line" label: both stripped parts around the first comma are non-empty. */
  predicate IsPageLine(lab: string)
  {
    CommaParts(lab).Some? && CommaParts(lab).value.0 != [] && CommaParts(lab).value.1 != []
  }

  /** `make_xml_id` of utils/transforms/tei_builder.py (and its identical
    * copy in utils/transforms/xml/tei_builder_bk.py): `p{page}_{line}`
    * with dots made underscores, and no `l` before the line number;
    * otherwise `v` and the stripped label with each run of non-word
    * characters made one `_`. */
  function MakeXmlId(lab: string): (r: string)
    ensures |r| >= 1 && '.' !in r
    ensures r[0] == 'p' <==> IsPageLine(lab)
    ensures !IsPageLine(lab) ==> r == "v" + ReplaceNonWordRuns(Strip(lab))
    ensures !IsPageLine(lab) ==> forall i :: 1 <= i < |r| ==> IsWordChar(r[i])
  {
    if IsPageLine(lab) then
      var (page, lineNo) := CommaParts(lab).value;
      PageLineEarlyId(page, lineNo)
    else
      VerseId(Strip(lab))
  }

  /** `p{page}_{line}` with the dots of both parts made underscores. */
  function PageLineEarlyId(page: string, lineNo: string): (r: string)
    ensures |r| >= 1 && r[0] == 'p' && '.' !in r
  {
    ReplaceCharRemoves(page, '.', "_");
    ReplaceCharRemoves(lineNo, '.', "_");
    "p" + Replace(page, ".", "_") + "_" + Replace(lineNo, ".", "_")
  }

  /** A page-and-line label without dots gives exactly `p{page}_{line}`. */
  lemma PageLineXmlId(page: string, lineNo: string)
    requires page != [] && lineNo != [] && '.' !in page && '.' !in lineNo && ',' !in page
    requires !IsSpace(page[0]) && !IsSpace(page[|page| - 1])
    requires !IsSpace(lineNo[0]) && !IsSpace(lineNo[|lineNo| - 1])
    ensures MakeXmlId(page + "," + lineNo) == "p" + page + "_" + lineNo
  {
    var lab := page + "," + lineNo;
    StripIdentity(lab);
    assert lab[..|page|] == page && lab[|page| + 1..] == lineNo;
    FindAt(lab, ',', |page|);
    StripIdentity(page);
    StripIdentity(lineNo);
    ReplaceAbsent(page);
    ReplaceAbsent(lineNo);
  }

  /** `Find` stops at the first occurrence. */
  lemma {:induction false} FindAt(s: string, c: char, k: nat)
    requires k < |s| && s[k] == c && c !in s[..k]
    ensures Find(s, c) == Some(k)
    ensures SplitFirst(s, c) == (s[..k], s[k + 1..])
  {
    if k > 0 {
      assert s[0] == s[..k][0];
      assert s[1..][..k - 1] == s[1..k];
      FindAt(s[1..], c, k - 1);
    }
  }

  /** A label of word characters that is not a page-and-line label gets
    * the id `v` followed by the label itself. */
  lemma PlainXmlId(s: string)
    requires s != [] && !IsSpace(s[0]) && !IsSpace(s[|s| - 1])
    requires !IsPageLine(s) && forall i :: 0 <= i < |s| ==> IsWordChar(s[i])
    ensures MakeXmlId(s) == "v" + s
  {
    StripIdentity(s);
  }

  /** `make_xml_id("implicit")` is `vimplicit`, the id every implicit
    * paragraph gets. */
  lemma ImplicitId(s: string)
    requires s == "implicit"
    ensures MakeXmlId(s) == "v" + s
  {
    ImplicitNotPageLine();
    ImplicitWordChars();
    PlainXmlId(s);
  }

  lemma ImplicitNotPageLine()
    ensures !IsPageLine("implicit")
  {
    StripIdentity("implicit");
    assert ',' !in "implicit";
  }

  lemma ImplicitWordChars()
    ensures forall i :: 0 <= i < |"implicit"| ==> IsWordChar("implicit"[i])
  {
  }

  /** Stripping a string with no whitespace at either end keeps it. */
  lemma StripIdentity(s: string)
    requires s != [] && !IsSpace(s[0]) && !IsSpace(s[|s| - 1])
    ensures Strip(s) == s
  {
  }

  /** Replacing `.` in a string without one changes nothing. */
  lemma {:induction false} ReplaceAbsent(s: string)
    requires '.' !in s
    ensures Replace(s, ".", "_") == s
    decreases |s|
  {
    if |s| >= 1 {
      assert s[..1] == [s[0]] && s[0] in s;
      ReplaceAbsent(s[1..]);
    }
  }

  // -------------------------------------------------------------------
  // Verse-segment labels
  // -------------------------------------------------------------------

  /** `chr(n)`, for the code points a Dafny `char` can hold: Unicode scalar
    * values, which leave out the surrogate range. */
  function Chr(n: nat): (r: Option<char>)
    ensures r.Some? ==> r.value as int == n
    ensures r.None? <==> (0xD800 <= n < 0xE000 || n >= 0x11_0000)
  {
    if n < 0xD800 || 0xE000 <= n < 0x11_0000 then Some(n as char) else None
  }

  /** `chr(ord('a') + 2k) + chr(ord('a') + 2k + 1)`: the `k`-th label
    * "ab", "cd", … with no wrap-around after "yz". */
  function LetterPair(k: nat): (r: Option<string>)
    ensures r.Some? ==> |r.value| == 2 && r.value[0] as int == 97 + 2 * k && r.value[1] as int == 98 + 2 * k
    ensures k < 27_599 ==> r.Some?
  {
    match (Chr(97 + 2 * k), Chr(98 + 2 * k))
    case (Some(a), Some(b)) => Some([a, b])
    case _ => None
  }

  /** Distinct indices give distinct labels, so the count never wraps. */
  lemma LetterPairInjective(i: nat, j: nat)
    requires LetterPair(i).Some? && LetterPair(j).Some? && LetterPair(i) == LetterPair(j)
    ensures i == j
  {
    assert LetterPair(i).value[0] == LetterPair(j).value[0];
  }

  /** After "yz" the count goes on to "{|", not back to "ab". */
  lemma LetterPairPastZ()
    ensures LetterPair(0) == Some("ab") && LetterPair(12) == Some("yz") && LetterPair(13) == Some("{|")
  {
  }

  // -------------------------------------------------------------------
  // Line patterns
  // -------------------------------------------------------------------

  /** `^<open>([^<close>]+)<close>` at the start of the line: the text
    * between the brackets and the index just after the closing one. */
  function Bracketed(line: string, open: char, close: char): (r: Option<(string, nat)>)
    ensures r.Some? <==> |line| >= 1 && line[0] == open && close in line[1..] && line[1] != close
    ensures r.Some? ==> (var (inner, e) := r.value;
                         |inner| >= 1 && close !in inner && e == |inner| + 2 <= |line|
                         && line[..e] == [open] + inner + [close])
  {
    if |line| >= 1 && line[0] == open && close in line[1..] then
      var j := Find(line[1..], close).value;
      if j >= 1 then
        assert line[1..j + 1] == line[1..][..j];
        assert line[..j + 2] == [open] + line[1..j + 1] + [close];
        Some((line[1..j + 1], j + 2))
      else None
    else None
  }

  /** The bracketed text and what follows it round-trip through `Bracketed`. */
  lemma BracketedComplete(open: char, close: char, inner: string, rest: string)
    requires |inner| >= 1 && close !in inner && open != close
    ensures Bracketed([open] + inner + [close] + rest, open, close) == Some((inner, |inner| + 2))
  {
    var line := [open] + inner + [close] + rest;
    assert line[1..][|inner|] == close;
    assert line[1..][..|inner|] == inner;
    FindAt(line[1..], close, |inner|);
    assert line[1..|inner| + 1] == line[1..][..|inner|];
  }

  /** `^\{(\d+)\}$`: the digits of a line that is a braced number. */
  function MatchBracedNumber(line: string): (r: Option<string>)
    ensures r.Some? <==> (var t := DropFinalNewline(line);
                          |t| >= 3 && t[0] == '{' && t[|t| - 1] == '}' && AllDigits(t[1..|t| - 1]))
    ensures r.Some? ==> DropFinalNewline(line) == "{" + r.value + "}" && |r.value| >= 1 && AllDigits(r.value)
  {
    var t := DropFinalNewline(line);
    if |t| >= 3 && t[0] == '{' && t[|t| - 1] == '}' && AllDigits(t[1..|t| - 1]) then
      assert t == "{" + t[1..|t| - 1] + "}";
      Some(t[1..|t| - 1])
    else None
  }

  /** `^\{([^}]+)\}$`: the braced label of a line that is nothing else. */
  function MatchBracedLine(line: string): (r: Option<string>)
    ensures r.Some? <==> (var t := DropFinalNewline(line);
                          |t| >= 3 && t[0] == '{' && t[|t| - 1] == '}' && '}' !in t[1..|t| - 1])
    ensures r.Some? ==> DropFinalNewline(line) == "{" + r.value + "}" && |r.value| >= 1 && '}' !in r.value
  {
    var t := DropFinalNewline(line);
    if |t| >= 3 && t[0] == '{' && t[|t| - 1] == '}' && '}' !in t[1..|t| - 1] then
      assert t == "{" + t[1..|t| - 1] + "}";
      Some(t[1..|t| - 1])
    else None
  }

  /** What `\s*(.*)$` leaves as the group after the label: the text after
    * the longest run of whitespace, when that has no newline but a final one. */
  function RestAfterSpace(rest: string): (r: Option<string>)
    ensures r.Some? ==> '\n' !in r.value && (r.value == [] || !IsSpace(r.value[0]))
    ensures r.Some? <==> '\n' !in DropFinalNewline(LStrip(rest))
    ensures r.Some? ==> r.value == DropFinalNewline(LStrip(rest))
    ensures r.Some? ==> !StartsWith(r.value, "\t")
  {
    var b := LStrip(rest);
    var c := DropFinalNewline(b);
    if '\n' !in c then
      assert c != [] ==> c[0] == b[0];
      NoTabStart(c);
      Some(c)
    else None
  }

  lemma NoTabStart(c: string)
    requires c == [] || !IsSpace(c[0])
    ensures !StartsWith(c, "\t")
  {
    assert IsSpace('\t');
    if c != [] {
      assert c[..1] == [c[0]];
    }
  }

  /** `^\[([^\]]+?)\]\s*(.*)$`: the raw label up to the first `]` and the
    * text after the whitespace that follows it. */
  function MatchParaLine(line: string): (r: Option<(string, string)>)
    ensures r.Some? ==> (var (lab, content) := r.value;
                         |lab| >= 1 && ']' !in lab && StartsWith(line, "[" + lab + "]")
                         && '\n' !in content && (content == [] || !IsSpace(content[0])))
    ensures r.Some? ==> RestAfterSpace(line[|r.value.0| + 2..]) == Some(r.value.1)
    ensures r.Some? ==> !StartsWith(r.value.1, "\t")
  {
    match Bracketed(line, '[', ']')
    case None => None
    case Some((lab, e)) =>
      match RestAfterSpace(line[e..])
      case None => None
      case Some(content) =>
        assert line[..e] == "[" + lab + "]";
        Some((lab, content))
  }

  /** `re.search(r"(\|+)$", s)`: the text ends in a bar, before any final newline. */
  predicate EndsInBars(s: string)
  {
    var t := DropFinalNewline(s);
    t != [] && t[|t| - 1] == '|'
  }

  /** `re.search(r"\|\s*$", s)`: the last non-whitespace character is a bar. */
  predicate EndsInBar(s: string)
  {
    var t := RStrip(s);
    t != [] && t[|t| - 1] == '|'
  }

  /** A bar directly at the end satisfies both bar tests. */
  lemma BarAtEnd(s: string)
    ensures EndsInBars(s + "|") && EndsInBar(s + "|")
  {
    assert !IsSpace('|');
  }

  /** A line that ends in a bar and then only whitespace after a final
    * newline still ends in a bar for `\|\s*$`, but not for `(\|+)$`. */
  lemma BarTestsDiffer()
    ensures EndsInBar("x| ") && !EndsInBars("x| ")
  {
    assert RStrip("x| ") == "x|" by {
      assert RStrip("x|") == "x|" by { assert !IsSpace('|'); }
    }
  }

  // -------------------------------------------------------------------
  // html.escape(s, quote=False)
  // -------------------------------------------------------------------

  function EscapeChar(c: char): string
  {
    if c == '&' then "&amp;" else if c == '<' then "&lt;" else if c == '>' then "&gt;" else [c]
  }

  /** `html.escape(s, quote=False)`: `&`, `<` and `>` become entities. */
  function Escape(s: string): (r: string)
    ensures '<' !in r && '>' !in r
    ensures |r| >= |s|
  {
    if s == [] then [] else EscapeChar(s[0]) + Escape(s[1..])
  }

  /** The decoder that undoes `Escape`: the three entities back to their characters. */
  function Unescape(s: string): (r: string)
    decreases |s|
  {
    if s == [] then []
    else if |s| >= 5 && s[..5] == "&amp;" then "&" + Unescape(s[5..])
    else if |s| >= 4 && s[..4] == "&lt;" then "<" + Unescape(s[4..])
    else if |s| >= 4 && s[..4] == "&gt;" then ">" + Unescape(s[4..])
    else [s[0]] + Unescape(s[1..])
  }

  /** One escaped character decodes back to itself. */
  lemma UnescapeStep(c: char, t: string)
    ensures Unescape(EscapeChar(c) + t) == [c] + Unescape(t)
  {
    if c == '&' {
      UnescapeAmp(t);
    } else if c == '<' {
      UnescapeLt(t);
    } else if c == '>' {
      UnescapeGt(t);
    } else {
      var u := [c] + t;
      assert u[0] == c && u[1..] == t;
      assert |u| >= 4 ==> u[..4][0] == c;
      assert |u| >= 5 ==> u[..5][0] == c;
    }
  }

  lemma UnescapeAmp(t: string)
    ensures Unescape("&amp;" + t) == "&" + Unescape(t)
  {
    var u := "&amp;" + t;
    assert u[..5] == "&amp;" && u[5..] == t;
  }

  lemma UnescapeLt(t: string)
    ensures Unescape("&lt;" + t) == "<" + Unescape(t)
  {
    var u := "&lt;" + t;
    assert u[..4] == "&lt;" && u[4..] == t;
    assert |u| >= 5 ==> u[..5][1] == 'l';
  }

  lemma UnescapeGt(t: string)
    ensures Unescape("&gt;" + t) == ">" + Unescape(t)
  {
    var u := "&gt;" + t;
    assert u[..4] == "&gt;" && u[4..] == t;
    assert |u| >= 5 ==> u[..5][1] == 'g';
    assert u[..4][1] == 'g';
  }

  /** Escaping loses nothing: the entities decode back to the text. */
  lemma {:induction false} EscapeRoundTrip(s: string)
    ensures Unescape(Escape(s)) == s
    decreases |s|
  {
    if s != [] {
      EscapeRoundTrip(s[1..]);
      UnescapeStep(s[0], Escape(s[1..]));
      assert s == [s[0]] + s[1..];
    }
  }
}
