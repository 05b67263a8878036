/** Comparing two CSV reports of validation failures: each row is reduced
  * to a normalised (file, status, message) triple, the triples are counted,
  * and the two counters are partitioned into the keys only one side has and
  * the keys both have. */
module CompareFails {
  import opened Wrappers
  import opened Strings

  /** `x or ""` for an optional string. */
  function OrEmpty(x: Option<string>): string
  {
    if x.Some? then x.value else []
  }

  // ---------------------------------------------------------------------
  // Single-character replacement

  /** `s` with every `k` turned into `v`. */
  function MapChar(s: string, k: char, v: char): (r: string)
    ensures |r| == |s|
    ensures forall i :: 0 <= i < |s| ==> r[i] == if s[i] == k then v else s[i]
  {
    if s == [] then [] else [if s[0] == k then v else s[0]] + MapChar(s[1..], k, v)
  }

  /** Replacing one character by another maps it character by character. */
  lemma {:induction false} ReplaceOneChar(s: string, k: char, v: char)
    ensures Replace(s, [k], [v]) == MapChar(s, k, v)
    decreases |s|
  {
    if |s| >= 1 {
      ReplaceOneChar(s[1..], k, v);
      assert s[..1] == [s[0]];
    }
  }

  /** A character that is in neither the text nor the replacement is not in
    * the result. */
  lemma {:induction false} ReplaceKeepsOut(s: string, pat: string, repl: string, c: char)
    requires pat != [] && c !in s && c !in repl
    ensures c !in Replace(s, pat, repl)
    decreases |s|
  {
    if |s| >= |pat| {
      if s[..|pat|] == pat {
        ReplaceKeepsOut(s[|pat|..], pat, repl, c);
      } else {
        ReplaceKeepsOut(s[1..], pat, repl, c);
      }
    }
  }

  /** A pattern that does not occur leaves the text alone. */
  lemma {:induction false} ReplaceAbsent(s: string, pat: string, repl: string)
    requires pat != [] && !Contains(s, pat)
    ensures Replace(s, pat, repl) == s
    decreases |s|
  {
    if |s| >= |pat| {
      assert s[..|pat|] != pat by {
        assert !OccursAt(s, pat, 0);
      }
      assert !Contains(s[1..], pat) by {
        forall i | 0 <= i <= |s[1..]| - |pat|
          ensures !OccursAt(s[1..], pat, i)
        {
          assert s[1..][i..i + |pat|] == s[i + 1..i + 1 + |pat|];
          assert !OccursAt(s, pat, i + 1);
        }
      }
      ReplaceAbsent(s[1..], pat, repl);
      assert s == [s[0]] + s[1..];
    }
  }

  /** A replacement no longer than the pattern never lengthens the text. */
  lemma {:induction false} ReplaceShorter(s: string, pat: string, repl: string)
    requires pat != [] && |repl| <= |pat|
    ensures |Replace(s, pat, repl)| <= |s|
    decreases |s|
  {
    if |s| >= |pat| {
      if s[..|pat|] == pat {
        ReplaceShorter(s[|pat|..], pat, repl);
      } else {
        ReplaceShorter(s[1..], pat, repl);
      }
    }
  }

  /** A non-empty text keeps a first character, and it is either the
    * replacement's or the text's own. */
  lemma ReplaceFront(s: string, pat: string, repl: string)
    requires pat != [] && repl != [] && s != []
    ensures var r := Replace(s, pat, repl); r != [] && (r[0] == repl[0] || r[0] == s[0])
  {
  }

  /** A non-empty text keeps a last character, and it is either the
    * replacement's or the text's own. */
  lemma {:induction false} ReplaceBack(s: string, pat: string, repl: string)
    requires pat != [] && repl != [] && s != []
    ensures var r := Replace(s, pat, repl);
      r != [] && (r[|r| - 1] == repl[|repl| - 1] || r[|r| - 1] == s[|s| - 1])
    decreases |s|
  {
    if |s| < |pat| {
    } else if s[..|pat|] == pat {
      var rest := s[|pat|..];
      if rest != [] {
        ReplaceBack(rest, pat, repl);
        assert rest[|rest| - 1] == s[|s| - 1];
      }
    } else {
      var rest := s[1..];
      if rest != [] {
        ReplaceBack(rest, pat, repl);
        assert rest[|rest| - 1] == s[|s| - 1];
      }
    }
  }

  /** Replacing with a text that neither starts nor ends with a blank keeps
    * a text that neither starts nor ends with a blank that way. */
  lemma ReplaceEnds(s: string, pat: string, repl: string)
    requires pat != [] && repl != [] && !IsSpace(repl[0]) && !IsSpace(repl[|repl| - 1])
    requires s == [] || (!IsSpace(s[0]) && !IsSpace(s[|s| - 1]))
    ensures var r := Replace(s, pat, repl);
      r == [] || (!IsSpace(r[0]) && !IsSpace(r[|r| - 1]))
  {
    if s != [] {
      ReplaceFront(s, pat, repl);
      ReplaceBack(s, pat, repl);
    }
  }

  // ---------------------------------------------------------------------
  // norm_file

  /** The text after the last `/`: the last part of `s.split("/")`. */
  function LastPart(s: string): (r: string)
    ensures '/' !in r
  {
    var parts := Split(s, '/');
    parts[|parts| - 1]
  }

  /** `norm_file(name)`. */
  function NormFile(name: Option<string>): (r: string)
    ensures '/' !in r && '\\' !in r
    ensures name.None? ==> r == []
  {
    var n := Replace(Strip(OrEmpty(name)), ['\\'], ['/']);
    NormFileClean(Strip(OrEmpty(name)), ".xml.svrl.xml", ".svrl.xml");
    Replace(LastPart(n), ".xml.svrl.xml", ".svrl.xml")
  }

  /** The three steps of `norm_file` leave neither kind of slash, and
    * nothing comes of an empty name. */
  lemma NormFileClean(s: string, pat: string, repl: string)
    requires pat == ".xml.svrl.xml" && repl == ".svrl.xml"
    ensures var r := Replace(LastPart(Replace(s, ['\\'], ['/'])), pat, repl);
            '/' !in r && '\\' !in r && (s == [] ==> r == [])
  {
    var n := Replace(s, ['\\'], ['/']);
    ReplaceOneChar(s, '\\', '/');
    var last := LastPart(n);
    assert '\\' !in last by {
      LastPartSuffix(n);
    }
    assert '/' !in repl && '\\' !in repl;
    ReplaceKeepsOut(last, pat, repl, '/');
    ReplaceKeepsOut(last, pat, repl, '\\');
    if s == [] {
      assert n == [];
      assert last == [] by {
        LastPartSuffix(n);
      }
    }
  }

  lemma {:induction false} JoinLast(parts: seq<string>, sep: string)
    requires |parts| >= 2
    ensures Join(parts, sep) == Join(parts[..|parts| - 1], sep) + sep + parts[|parts| - 1]
    decreases |parts|
  {
    if |parts| > 2 {
      JoinLast(parts[1..], sep);
      assert parts[1..][..|parts| - 2] == parts[..|parts| - 1][1..];
    } else {
      assert parts[..1] == [parts[0]];
    }
  }

  /** The last part is a suffix of the text, and either is all of it or
    * follows a `/`. */
  lemma LastPartSuffix(s: string)
    ensures var r := LastPart(s);
      |r| <= |s| && r == s[|s| - |r|..] && (|r| == |s| || s[|s| - |r| - 1] == '/')
  {
    var parts := Split(s, '/');
    if |parts| >= 2 {
      JoinLast(parts, ['/']);
    }
  }

  /** A suffix of `MapChar(t, '\\', '/')` without `/` is the same suffix
    * of `t`, and it holds no `\\` either. */
  lemma MappedSuffix(t: string, last: string)
    requires |last| <= |t| && last == MapChar(t, '\\', '/')[|t| - |last|..] && '/' !in last
    ensures last == t[|t| - |last|..] && '\\' !in last
  {
    var n := MapChar(t, '\\', '/');
    forall i | 0 <= i < |last|
      ensures last[i] == t[|t| - |last| + i] && last[i] != '\\'
    {
      assert last[i] == n[|t| - |last| + i];
    }
  }

  /** `norm_file` keeps the last path component of the stripped name, where
    * both `/` and `\\` separate components, and then shortens
    * ".xml.svrl.xml" to ".svrl.xml". */
  lemma NormFileComponent(name: Option<string>)
    ensures var t := Strip(OrEmpty(name));
      var last := LastPart(Replace(t, ['\\'], ['/']));
      && |last| <= |t| && last == t[|t| - |last|..]
      && (|last| == |t| || t[|t| - |last| - 1] in {'/', '\\'})
      && '/' !in last && '\\' !in last
      && NormFile(name) == Replace(last, ".xml.svrl.xml", ".svrl.xml")
  {
    var t := Strip(OrEmpty(name));
    var n := Replace(t, ['\\'], ['/']);
    ReplaceOneChar(t, '\\', '/');
    var last := LastPart(n);
    LastPartSuffix(n);
    MappedSuffix(t, last);
    if |last| < |t| {
      assert n[|t| - |last| - 1] == '/';
    }
  }

  // ---------------------------------------------------------------------
  // norm_status

  /** `str.upper()` on the ASCII lower-case letters. */
  function Upper(s: string): (r: string)
    ensures |r| == |s|
    ensures forall i :: 0 <= i < |s| ==> !('a' <= r[i] <= 'z')
  {
    if s == [] then []
    else [if 'a' <= s[0] <= 'z' then (s[0] as int - 32) as char else s[0]] + Upper(s[1..])
  }

  const RngTokens: set<string> := {"JING", "ERROR", "ERR", "RNG", "RNG ERROR", "VALIDATION ERROR"}
  const SchTokens: set<string> := {"SCHEMATRON", "SCHEMATRON ERROR", "SAXON", "SAXON-HE", "SAXON-PE", "SAXON-EE", "SCH"}
  const RngFail := "RNG FAIL"
  const SchFail := "SCH FAIL"

  /** The message looks like a Schematron report. */
  predicate SchMessage(m: string)
  {
    Contains(m, "schematron") || Contains(m, "assert") || Contains(m, "svrl")
  }

  /** `norm_status(s, msg)`. */
  function NormStatus(status: Option<string>, msg: Option<string>): (r: string)
    ensures r != []
  {
    var s := Upper(Strip(OrEmpty(status)));
    var m := Lower(OrEmpty(msg));
    if s in RngTokens then RngFail
    else if s in SchTokens then SchFail
    else if SchMessage(m) then SchFail
    else if s == [] then RngFail
    else s
  }

  /** The first rule that applies decides: an RNG engine token, then a
    * Schematron engine token, then a Schematron-looking message, and
    * otherwise the upper-cased status itself, or "RNG FAIL" when there is
    * none. A status is reported as is only when it is not an engine token
    * and the message does not look like a Schematron report. */
  lemma NormStatusOrder(status: Option<string>, msg: Option<string>)
    ensures var s := Upper(Strip(OrEmpty(status)));
      var m := Lower(OrEmpty(msg));
      var r := NormStatus(status, msg);
      && (s in RngTokens ==> r == RngFail)
      && (s !in RngTokens && s in SchTokens ==> r == SchFail)
      && (s !in RngTokens && s !in SchTokens && SchMessage(m) ==> r == SchFail)
      && (r != RngFail && r != SchFail ==> r == s && s !in RngTokens && s !in SchTokens && !SchMessage(m))
      && (status.None? ==> r in {RngFail, SchFail})
  {
    var s := Upper(Strip(OrEmpty(status)));
    if status.None? {
      assert Strip([]) == [];
      assert s == [];
    }
  }

  // ---------------------------------------------------------------------
  // norm_quotes

  /** The table `_qmap`, in its iteration order. */
  const QuoteMap: seq<(char, char)> := [('“', '"'), ('”', '"'), ('„', '"'), ('’', '\''), ('‘', '\'')]

  /** A typographic quote mark as its ASCII counterpart. */
  function Quote(c: char): (d: char)
    ensures d !in {'“', '”', '„', '’', '‘'}
    ensures IsSpace(d) <==> IsSpace(c)
  {
    if c in {'“', '”', '„'} then '"'
    else if c in {'’', '‘'} then '\''
    else c
  }

  /** Applying the first `j` entries of the table, one after another, to a
    * single character. */
  function ApplyMaps(ms: seq<(char, char)>, c: char): char
  {
    if ms == [] then c
    else
      var d := ApplyMaps(ms[..|ms| - 1], c);
      if d == ms[|ms| - 1].0 then ms[|ms| - 1].1 else d
  }

  /** Running the whole table amounts to one mapping per character, because
    * no replacement is itself a key. */
  lemma QuoteMapAll(c: char)
    ensures ApplyMaps(QuoteMap, c) == Quote(c)
  {
    var m1 := [('“', '"')];
    var m2 := m1 + [('”', '"')];
    var m3 := m2 + [('„', '"')];
    var m4 := m3 + [('’', '\'')];
    assert QuoteMap == m4 + [('‘', '\'')];
    assert ApplyMaps(m1, c) == if c == '“' then '"' else c by {
      assert m1[..0] == [];
    }
    assert ApplyMaps(m2, c) == if c in {'“', '”'} then '"' else c by {
      assert m2[..1] == m1;
    }
    assert ApplyMaps(m3, c) == if c in {'“', '”', '„'} then '"' else c by {
      assert m3[..2] == m2;
    }
    assert ApplyMaps(m4, c) == if c in {'“', '”', '„'} then '"' else if c == '’' then '\'' else c by {
      assert m4[..3] == m3;
    }
    assert QuoteMap[..4] == m4;
  }

  /** `norm_quotes(s)`: every typographic quote mark becomes its ASCII
    * counterpart and nothing else changes. */
  method NormQuotes(s: string) returns (r: string)
    ensures |r| == |s|
    ensures forall i :: 0 <= i < |s| ==> r[i] == Quote(s[i])
  {
    r := s;
    for j := 0 to |QuoteMap|
      invariant |r| == |s|
      invariant forall i :: 0 <= i < |s| ==> r[i] == ApplyMaps(QuoteMap[..j], s[i])
    {
      var (k, v) := QuoteMap[j];
      ReplaceOneChar(r, k, v);
      r := Replace(r, [k], [v]);
      assert QuoteMap[..j + 1][..j] == QuoteMap[..j];
    }
    assert QuoteMap[..|QuoteMap|] == QuoteMap;
    forall i | 0 <= i < |s|
      ensures r[i] == Quote(s[i])
    {
      QuoteMapAll(s[i]);
    }
  }

  /** The text `norm_quotes` returns, character by character. */
  function Quoted(s: string): (r: string)
    ensures |r| == |s| && forall i :: 0 <= i < |s| ==> r[i] == Quote(s[i])
  {
    if s == [] then [] else [Quote(s[0])] + Quoted(s[1..])
  }

  // ---------------------------------------------------------------------
  // norm_regex_tokens and norm_msg

  const DoubleBackslash := "\\\\"

  /** `norm_regex_tokens(s)`: doubled backslashes before `S+`, `s+` and
    * `d+` become single ones. */
  function NormRegexTokens(s: string): string
  {
    var a := Replace(s, "\\\\S+", "\\S+");
    var b := Replace(a, "\\\\s+", "\\s+");
    Replace(b, "\\\\d+", "\\d+")
  }

  lemma ContainsPrefix(s: string, p: string, q: string)
    requires Contains(s, p + q)
    ensures Contains(s, p)
  {
    var i :| 0 <= i <= |s| - |p + q| && OccursAt(s, p + q, i);
    assert s[i..i + |p|] == (p + q)[..|p|];
    assert OccursAt(s, p, i);
  }

  /** The rewrite never lengthens the text and leaves a text without a
    * doubled backslash alone. */
  lemma NormRegexTokensMeaning(s: string)
    ensures |NormRegexTokens(s)| <= |s|
    ensures !Contains(s, DoubleBackslash) ==> NormRegexTokens(s) == s
  {
    var a := Replace(s, "\\\\S+", "\\S+");
    var b := Replace(a, "\\\\s+", "\\s+");
    ReplaceShorter(s, "\\\\S+", "\\S+");
    ReplaceShorter(a, "\\\\s+", "\\s+");
    ReplaceShorter(b, "\\\\d+", "\\d+");
    if !Contains(s, DoubleBackslash) {
      Absent3(s, "S+");
      assert DoubleBackslash + "S+" == "\\\\S+";
      ReplaceAbsent(s, "\\\\S+", "\\S+");
      Absent3(s, "s+");
      assert DoubleBackslash + "s+" == "\\\\s+";
      ReplaceAbsent(s, "\\\\s+", "\\s+");
      Absent3(s, "d+");
      assert DoubleBackslash + "d+" == "\\\\d+";
      ReplaceAbsent(s, "\\\\d+", "\\d+");
    }
  }

  lemma Absent3(s: string, tail: string)
    requires !Contains(s, DoubleBackslash)
    ensures !Contains(s, DoubleBackslash + tail)
  {
    if Contains(s, DoubleBackslash + tail) {
      ContainsPrefix(s, DoubleBackslash, tail);
    }
  }

  lemma NormRegexTokensEnds(s: string)
    requires s == [] || (!IsSpace(s[0]) && !IsSpace(s[|s| - 1]))
    ensures var r := NormRegexTokens(s);
      r == [] || (!IsSpace(r[0]) && !IsSpace(r[|r| - 1]))
  {
    var a := Replace(s, "\\\\S+", "\\S+");
    var b := Replace(a, "\\\\s+", "\\s+");
    ReplaceEnds(s, "\\\\S+", "\\S+");
    ReplaceEnds(a, "\\\\s+", "\\s+");
    ReplaceEnds(b, "\\\\d+", "\\d+");
  }

  /** No two blanks in a row. */
  predicate SingleSpaced(s: string)
  {
    forall i :: 0 <= i < |s| - 1 ==> !(IsSpace(s[i]) && IsSpace(s[i + 1]))
  }

  /** `re.sub(r"\s+", " ", s)`: every run of blanks becomes one space. */
  function CollapseBlanks(s: string): (r: string)
    ensures SingleSpaced(r)
    ensures |r| <= |s|
    ensures r == [] <==> s == []
    ensures s != [] ==> (IsSpace(r[0]) <==> IsSpace(s[0]))
    ensures s != [] ==> (IsSpace(r[|r| - 1]) <==> IsSpace(s[|s| - 1]))
    decreases |s|
  {
    if s == [] then []
    else if IsSpace(s[0]) then
      var rest := TrimLeft(s, IsSpace);
      var tail := CollapseBlanks(rest);
      assert rest != [] ==> rest[|rest| - 1] == s[|s| - 1];
      [' '] + tail
    else
      var tail := CollapseBlanks(s[1..]);
      assert s[1..] != [] ==> s[1..][|s[1..]| - 1] == s[|s| - 1];
      [s[0]] + tail
  }

  /** The engine words `norm_msg` drops from the front of a message. */
  const NoiseWords: seq<string> := ["error", "fatal", "warning"]

  /** `g` is blanks, one colon, blanks: what `\s*:\s*` matches whole. */
  ghost predicate ColonGap(g: string)
  {
    exists i :: ColonAt(g, i)
  }

  /** The colon of the gap `g` is at `i`, with only blanks around it. */
  predicate ColonAt(g: string, i: int)
  {
    0 <= i < |g| && g[i] == ':' && IsBlank(g[..i]) && IsBlank(g[i + 1..])
  }

  /** `m` starts with `w`, ignoring the case of ASCII letters. */
  predicate StartsLike(m: string, w: string)
  {
    |w| <= |m| && forall i :: 0 <= i < |w| ==> LowerChar(m[i]) == w[i]
  }

  /** The first position at or after `k` that does not hold a blank. */
  function SkipBlanks(m: string, k: nat): (e: nat)
    requires k <= |m|
    ensures k <= e <= |m|
    ensures forall j :: k <= j < e ==> IsSpace(m[j])
    ensures e == |m| || !IsSpace(m[e])
    decreases |m| - k
  {
    if k < |m| && IsSpace(m[k]) then SkipBlanks(m, k + 1) else k
  }

  /** Blanks up to a non-blank `p` are skipped to exactly `p`. */
  lemma {:induction false} SkipBlanksTo(m: string, k: nat, p: nat)
    requires k <= p < |m| && !IsSpace(m[p])
    requires forall j :: k <= j < p ==> IsSpace(m[j])
    ensures SkipBlanks(m, k) == p
    decreases p - k
  {
    if k < p {
      SkipBlanksTo(m, k + 1, p);
    }
  }

  /** Where the rest of `m` starts when `\s*:\s*` matches right after its
    * first `k` characters, or `None` when it does not match there. */
  function AfterGap(m: string, k: nat): (r: Option<nat>)
    requires k <= |m|
    ensures r.Some? ==> k < r.value <= |m|
  {
    var c := SkipBlanks(m, k);
    if c < |m| && m[c] == ':' then Some(SkipBlanks(m, c + 1)) else None
  }

  /** When the gap matches, it is a colon between blanks, and no blank
    * follows it. */
  lemma AfterGapMeaning(m: string, k: nat)
    requires k <= |m| && AfterGap(m, k).Some?
    ensures var e := AfterGap(m, k).value;
      ColonGap(m[k..e]) && (e == |m| || !IsSpace(m[e]))
  {
    var c := SkipBlanks(m, k);
    var e := AfterGap(m, k).value;
    var g := m[k..e];
    var i := c - k;
    assert g[i] == ':';
    forall j | 0 <= j < i
      ensures IsSpace(g[..i][j])
    {
      assert g[..i][j] == m[k + j];
    }
    var t := g[i + 1..];
    forall j | 0 <= j < |t|
      ensures IsSpace(t[j])
    {
      assert t[j] == m[c + 1 + j];
    }
    assert ColonAt(g, i);
  }

  /** The gap matches wherever blanks, a colon and blanks follow. */
  lemma GapMatches(m: string, k: nat, e: nat)
    requires k <= e <= |m| && ColonGap(m[k..e])
    ensures AfterGap(m, k).Some?
  {
    var g := m[k..e];
    var i :| ColonAt(g, i);
    forall j | k <= j < k + i
      ensures IsSpace(m[j])
    {
      assert m[j] == g[..i][j - k];
    }
    assert m[k + i] == ':';
    SkipBlanksTo(m, k, k + i);
  }

  /** `re.sub(r"^(error|fatal|warning)\s*:\s*", "", m, flags=re.I)`: the
    * alternatives are tried in order, and only at the start of the text. */
  function DropNoise(m: string): string
  {
    DropWords(m, NoiseWords)
  }

  /** The alternation `^(w0|w1|...)\s*:\s*` over the words `ws`: the first
    * word, in order, that starts `m` and is followed by a colon gap is
    * dropped with its gap. */
  function DropWords(m: string, ws: seq<string>): (r: string)
    ensures |r| <= |m| && r == m[|m| - |r|..]
    decreases |ws|
  {
    if ws == [] then m
    else if Hits(m, ws[0]) then m[AfterGap(m, |ws[0]|).value..]
    else DropWords(m, ws[1..])
  }

  /** `w` starts `m` and a colon gap follows it. */
  predicate Hits(m: string, w: string)
  {
    StartsLike(m, w) && AfterGap(m, |w|).Some?
  }

  /** `p` is one engine word, then blanks, a colon and blanks. */
  ghost predicate NoisePrefix(p: string)
  {
    WordPrefix(p, NoiseWords)
  }

  /** `p` is one of the words `ws`, then blanks, a colon and blanks. */
  ghost predicate WordPrefix(p: string, ws: seq<string>)
    decreases |ws|
  {
    ws != [] && ((StartsLike(p, ws[0]) && ColonGap(p[|ws[0]|..])) || WordPrefix(p, ws[1..]))
  }

  /** What `norm_msg` drops from the front is an engine word with its colon
    * gap, and what stays starts with no blank. */
  lemma {:induction false} DropNoiseDrops(m: string)
    ensures var r := DropNoise(m);
      r != m ==> NoisePrefix(m[..|m| - |r|]) && (r == [] || !IsSpace(r[0]))
  {
    DropWordsDrops(m, NoiseWords);
  }

  /** What `DropWords(m, ws)` kept, `r`, follows a front that is one of `ws`
    * with its colon gap, and starts with no blank. */
  ghost predicate Dropped(m: string, r: string, ws: seq<string>)
    requires |r| <= |m|
  {
    r != m ==> WordPrefix(m[..|m| - |r|], ws) && (r == [] || !IsSpace(r[0]))
  }

  lemma {:induction false} DropWordsDrops(m: string, ws: seq<string>)
    ensures Dropped(m, DropWords(m, ws), ws)
    decreases |ws|
  {
    if ws != [] {
      var r := DropWords(m, ws);
      if Hits(m, ws[0]) {
        WordDropped(m, ws[0], r);
      } else {
        DropWordsDrops(m, ws[1..]);
        assert r == DropWords(m, ws[1..]);
        DroppedLater(m, r, ws);
      }
    }
  }

  lemma DroppedLater(m: string, r: string, ws: seq<string>)
    requires |r| <= |m| && ws != [] && Dropped(m, r, ws[1..])
    ensures Dropped(m, r, ws)
  {
  }

  /** A word with a colon gap after it: the front dropped starts like the
    * word followed by the gap, and the text after the gap starts with no
    * blank. */
  lemma WordDropped(m: string, w: string, r: string)
    requires StartsLike(m, w) && AfterGap(m, |w|).Some?
    requires r == m[AfterGap(m, |w|).value..]
    ensures |w| <= |m| - |r| && StartsLike(m[..|m| - |r|], w) && ColonGap(m[..|m| - |r|][|w|..])
    ensures r == [] || !IsSpace(r[0])
  {
    var e := AfterGap(m, |w|).value;
    assert ColonGap(m[|w|..e]) && (e == |m| || !IsSpace(m[e])) by {
      AfterGapMeaning(m, |w|);
    }
    assert |m| - |r| == e;
    StartsLikeFront(m, w, e);
    assert r != [] ==> r[0] == m[e];
  }

  /** A front of `m` that covers `w` still starts like `w`, and what
    * follows `w` in it is the same text. */
  lemma StartsLikeFront(m: string, w: string, e: nat)
    requires StartsLike(m, w) && |w| <= e <= |m|
    ensures StartsLike(m[..e], w) && m[..e][|w|..] == m[|w|..e]
  {
    forall i | 0 <= i < |w|
      ensures LowerChar(m[..e][i]) == w[i]
    {
      assert m[..e][i] == m[i];
    }
  }

  /** A message is left alone exactly when no front of it is an engine-word
    * prefix. */
  lemma DropNoiseKeeps(m: string)
    ensures DropNoise(m) == m <==> forall e :: 0 <= e <= |m| ==> !NoisePrefix(m[..e])
  {
    if DropNoise(m) != m {
      DropNoiseDrops(m);
    }
    forall e | 0 <= e <= |m| && NoisePrefix(m[..e])
      ensures DropNoise(m) != m
    {
      PrefixDropped(m, e);
    }
  }

  lemma PrefixDropped(m: string, e: nat)
    requires e <= |m| && NoisePrefix(m[..e])
    ensures DropNoise(m) != m
  {
    PrefixDroppedWords(m, NoiseWords, e);
  }

  /** A front of `m` that is a word of `ws` with its colon gap makes
    * something drop, whichever word hits first. */
  lemma {:induction false} PrefixDroppedWords(m: string, ws: seq<string>, e: nat)
    requires e <= |m| && WordPrefix(m[..e], ws)
    ensures DropWords(m, ws) != m
    decreases |ws|
  {
    if !Hits(m, ws[0]) {
      if StartsLike(m[..e], ws[0]) && ColonGap(m[..e][|ws[0]|..]) {
        FrontHits(m, ws[0], e);
      }
      PrefixDroppedWords(m, ws[1..], e);
    }
  }

  /** A word and colon gap at the front of a front of `m` also hit `m`. */
  lemma FrontHits(m: string, w: string, e: nat)
    requires e <= |m| && StartsLike(m[..e], w) && ColonGap(m[..e][|w|..])
    ensures Hits(m, w)
  {
    var p := m[..e];
    assert StartsLike(m, w) by {
      forall i | 0 <= i < |w|
        ensures LowerChar(m[i]) == w[i]
      {
        assert p[i] == m[i];
      }
    }
    assert m[|w|..e] == p[|w|..];
    GapMatches(m, |w|, e);
  }

  /** `norm_msg(m)`. */
  function NormMsg(m: Option<string>): string
  {
    DropNoise(CollapseBlanks(NormRegexTokens(Quoted(Strip(OrEmpty(m))))))
  }

  /** A suffix of a single-spaced text is single-spaced and ends where the
    * text ends. */
  lemma SuffixShape(c: string, r: string)
    requires |r| <= |c| && r == c[|c| - |r|..] && SingleSpaced(c)
    ensures SingleSpaced(r)
    ensures r != [] ==> r[|r| - 1] == c[|c| - 1]
  {
    forall i | 0 <= i < |r| - 1
      ensures !(IsSpace(r[i]) && IsSpace(r[i + 1]))
    {
      var j := |c| - |r| + i;
      assert r[i] == c[j] && r[i + 1] == c[j + 1];
    }
  }

  /** A normalised message neither starts nor ends with a blank and never
    * has two blanks in a row. */
  lemma NormMsgShape(m: Option<string>)
    ensures var r := NormMsg(m);
      (r == [] || (!IsSpace(r[0]) && !IsSpace(r[|r| - 1]))) && SingleSpaced(r)
  {
    var t := Strip(OrEmpty(m));
    var c := CollapseBlanks(NormRegexTokens(Quoted(t)));
    assert (c == [] || (!IsSpace(c[0]) && !IsSpace(c[|c| - 1]))) && SingleSpaced(c) by {
      CollapsedEnds(t);
    }
    DropNoiseEnds(c);
    assert NormMsg(m) == DropNoise(c);
  }

  lemma DropNoiseEnds(c: string)
    requires c == [] || (!IsSpace(c[0]) && !IsSpace(c[|c| - 1]))
    requires SingleSpaced(c)
    ensures var r := DropNoise(c);
      (r == [] || (!IsSpace(r[0]) && !IsSpace(r[|r| - 1]))) && SingleSpaced(r)
  {
    DroppedEnds(c, NoiseWords);
  }

  /** Before the noise word is dropped, the stripped and collapsed message
    * has no blank at either end. */
  lemma CollapsedEnds(t: string)
    requires t == [] || (!IsSpace(t[0]) && !IsSpace(t[|t| - 1]))
    ensures var c := CollapseBlanks(NormRegexTokens(Quoted(t)));
      c == [] || (!IsSpace(c[0]) && !IsSpace(c[|c| - 1]))
  {
    var q := Quoted(t);
    assert q == [] || (!IsSpace(q[0]) && !IsSpace(q[|q| - 1]));
    NormRegexTokensEnds(q);
  }

  /** Dropping a noise word from a single-spaced text with no blank at
    * either end leaves such a text. */
  lemma DroppedEnds(c: string, ws: seq<string>)
    requires c == [] || (!IsSpace(c[0]) && !IsSpace(c[|c| - 1]))
    requires SingleSpaced(c)
    ensures var r := DropWords(c, ws);
      (r == [] || (!IsSpace(r[0]) && !IsSpace(r[|r| - 1]))) && SingleSpaced(r)
  {
    var r := DropWords(c, ws);
    DropWordsDrops(c, ws);
    SuffixShape(c, r);
  }

  // ---------------------------------------------------------------------
  // load_counts

  /** A CSV row: the three columns that are read, each possibly absent. */
  datatype Row = Row(svrlFile: Option<string>, message: Option<string>, status: Option<string>)

  type Key = (string, string, string)

  /** The triple a row is counted under, or `None` when the row is skipped
    * for an empty file or message. */
  function RowKey(row: Row): (r: Option<Key>)
    ensures r.Some? ==> r.value.0 != [] && r.value.2 != [] && r.value.1 != []
  {
    var svrl := NormFile(row.svrlFile);
    var msgRaw := OrEmpty(row.message);
    var status := NormStatus(row.status, Some(msgRaw));
    var msg := NormMsg(Some(msgRaw));
    if svrl == [] || msg == [] then None else Some((svrl, status, msg))
  }

  /** The triples of the rows that are counted, in order, when `key`
    * normalises a row. */
  function Counted(rows: seq<Row>, key: Row -> Option<Key>): seq<Key>
  {
    if rows == [] then []
    else
      var front := Counted(rows[..|rows| - 1], key);
      match key(rows[|rows| - 1])
      case Some(k) => front + [k]
      case None => front
  }

  function Get(c: map<Key, nat>, k: Key): nat
  {
    if k in c then c[k] else 0
  }

  /** The counter after the rows, when `key` normalises a row. */
  function Counts(rows: seq<Row>, key: Row -> Option<Key>): map<Key, nat>
  {
    if rows == [] then map[]
    else
      var c := Counts(rows[..|rows| - 1], key);
      match key(rows[|rows| - 1])
      case Some(k) => c[k := Get(c, k) + 1]
      case None => c
  }

  /** `load_counts(path)`, over the rows of the file. */
  method LoadCounts(rows: seq<Row>) returns (c: map<Key, nat>)
    ensures c == Counts(rows, RowKey)
  {
    c := map[];
    for i := 0 to |rows|
      invariant c == Counts(rows[..i], RowKey)
    {
      var key := RowKey(rows[i]);
      CountsStep(rows, i, RowKey, c, key);
      if key.None? {
        continue;
      }
      c := c[key.value := Get(c, key.value) + 1];
    }
    assert rows[..|rows|] == rows;
  }

  lemma CountsStep(rows: seq<Row>, i: nat, key: Row -> Option<Key>, c: map<Key, nat>, k: Option<Key>)
    requires i < |rows| && c == Counts(rows[..i], key) && k == key(rows[i])
    ensures Counts(rows[..i + 1], key) == match k
      case Some(k) => c[k := Get(c, k) + 1]
      case None => c
  {
    assert rows[..i + 1][..i] == rows[..i];
  }

  /** Every triple is counted once per row that yields it, and only the
    * triples of counted rows are keys. */
  lemma {:induction false} CountsMeaning(rows: seq<Row>, key: Row -> Option<Key>, k: Key)
    ensures Get(Counts(rows, key), k) == multiset(Counted(rows, key))[k]
    ensures k in Counts(rows, key) <==> k in Counted(rows, key)
    decreases |rows|
  {
    if rows != [] {
      var front := rows[..|rows| - 1];
      CountsMeaning(front, key, k);
      match key(rows[|rows| - 1])
      case Some(k') =>
        assert Counted(rows, key) == Counted(front, key) + [k'];
      case None =>
    }
  }

  /** No triple with an empty file or message is ever counted. */
  lemma {:induction false} CountedKeys(rows: seq<Row>, k: Key)
    requires k in Counted(rows, RowKey)
    ensures k.0 != [] && k.2 != []
    decreases |rows|
  {
    var front := rows[..|rows| - 1];
    if k in Counted(front, RowKey) {
      CountedKeys(front, k);
    } else {
      assert RowKey(rows[|rows| - 1]) == Some(k);
    }
  }

  // ---------------------------------------------------------------------
  // The partition into onlyA, onlyB and both

  /** Python's `<` on strings: code point by code point, a proper prefix
    * first. */
  predicate StrLess(a: string, b: string)
    decreases |a|
  {
    if a == [] then b != []
    else if b == [] then false
    else if a[0] != b[0] then a[0] < b[0]
    else StrLess(a[1..], b[1..])
  }

  lemma {:induction false} StrLessIrreflexive(a: string)
    ensures !StrLess(a, a)
    decreases |a|
  {
    if a != [] {
      StrLessIrreflexive(a[1..]);
    }
  }

  lemma {:induction false} StrLessTransitive(a: string, b: string, c: string)
    requires StrLess(a, b) && StrLess(b, c)
    ensures StrLess(a, c)
    decreases |a|
  {
    if a != [] && b != [] && c != [] && a[0] == b[0] && b[0] == c[0] {
      StrLessTransitive(a[1..], b[1..], c[1..]);
    }
  }

  lemma {:induction false} StrLessTotal(a: string, b: string)
    ensures a == b || StrLess(a, b) || StrLess(b, a)
    decreases |a|
  {
    if a != [] && b != [] && a[0] == b[0] {
      StrLessTotal(a[1..], b[1..]);
      if a[1..] == b[1..] {
        assert a == [a[0]] + a[1..] && b == [b[0]] + b[1..];
      }
    }
  }

  lemma StrLessAsymmetric(a: string, b: string)
    requires StrLess(a, b)
    ensures !StrLess(b, a)
  {
    if StrLess(b, a) {
      StrLessTransitive(a, b, a);
      StrLessIrreflexive(a);
    }
  }

  /** Python's `<` on tuples: the first component that differs decides. */
  predicate KeyLess(x: Key, y: Key)
  {
    StrLess(x.0, y.0) || (x.0 == y.0 && (StrLess(x.1, y.1) || (x.1 == y.1 && StrLess(x.2, y.2))))
  }

  lemma KeyLessIrreflexive(x: Key)
    ensures !KeyLess(x, x)
  {
    StrLessIrreflexive(x.0);
    StrLessIrreflexive(x.1);
    StrLessIrreflexive(x.2);
  }

  lemma KeyLessTransitive(x: Key, y: Key, z: Key)
    requires KeyLess(x, y) && KeyLess(y, z)
    ensures KeyLess(x, z)
  {
    if StrLess(x.0, y.0) && StrLess(y.0, z.0) {
      StrLessTransitive(x.0, y.0, z.0);
    }
    if x.0 == y.0 && y.0 == z.0 {
      if StrLess(x.1, y.1) && StrLess(y.1, z.1) {
        StrLessTransitive(x.1, y.1, z.1);
      }
      if x.1 == y.1 && y.1 == z.1 && StrLess(x.2, y.2) && StrLess(y.2, z.2) {
        StrLessTransitive(x.2, y.2, z.2);
      }
    }
  }

  lemma KeyLessTotal(x: Key, y: Key)
    ensures x == y || KeyLess(x, y) || KeyLess(y, x)
  {
    StrLessTotal(x.0, y.0);
    StrLessTotal(x.1, y.1);
    StrLessTotal(x.2, y.2);
  }

  /** A non-empty finite set of triples has a least element. */
  lemma {:induction false} HasLeast(s: set<Key>)
    requires s != {}
    ensures exists m :: m in s && forall x :: x in s && x != m ==> KeyLess(m, x)
    decreases |s|
  {
    var y :| y in s;
    if s == {y} {
      assert forall x :: x in s ==> x == y;
    } else {
      HasLeast(s - {y});
      var m :| m in s - {y} && forall x :: x in s - {y} && x != m ==> KeyLess(m, x);
      KeyLessTotal(m, y);
      if KeyLess(m, y) {
        assert forall x :: x in s && x != m ==> KeyLess(m, x);
      } else {
        forall x | x in s && x != y
          ensures KeyLess(y, x)
        {
          if x != m {
            KeyLessTransitive(y, m, x);
          }
        }
      }
    }
  }

  /** Strictly increasing. */
  ghost predicate Ascending(r: seq<Key>)
  {
    forall i, j :: 0 <= i < j < |r| ==> KeyLess(r[i], r[j])
  }

  /** The least triple of a non-empty set. */
  ghost function Least(s: set<Key>): (m: Key)
    requires s != {}
    ensures m in s && forall x :: x in s && x != m ==> KeyLess(m, x)
  {
    HasLeast(s);
    var m :| m in s && forall x :: x in s && x != m ==> KeyLess(m, x);
    m
  }

  /** `sorted(s)` for a set of triples. */
  ghost function SortedOf(s: set<Key>): (r: seq<Key>)
    ensures |r| == |s|
    ensures forall x :: x in r <==> x in s
    decreases |s|
  {
    if s == {} then [] else [Least(s)] + SortedOf(s - {Least(s)})
  }

  /** `sorted` lists the set in strictly increasing order. */
  lemma {:induction false} SortedOfAscending(s: set<Key>)
    ensures Ascending(SortedOf(s))
    decreases |s|
  {
    if s != {} {
      var m := Least(s);
      var rest := SortedOf(s - {m});
      SortedOfAscending(s - {m});
      var r := SortedOf(s);
      assert r == [m] + rest;
      forall i, j | 0 <= i < j < |r|
        ensures KeyLess(r[i], r[j])
      {
        if i == 0 {
          assert r[j] == rest[j - 1] && r[j] in rest;
        } else {
          assert r[i] == rest[i - 1] && r[j] == rest[j - 1];
        }
      }
    }
  }

  /** `onlyA`, `onlyB` and `both`. */
  ghost function Partition(a: map<Key, nat>, b: map<Key, nat>): (seq<Key>, seq<Key>, seq<Key>)
  {
    (SortedOf(a.Keys - b.Keys), SortedOf(b.Keys - a.Keys), SortedOf(a.Keys * b.Keys))
  }

  /** The three lists are sorted, share no key, and together hold every key
    * of either counter: each key lands in exactly one of them, according to
    * which counters have it. */
  lemma PartitionMeaning(a: map<Key, nat>, b: map<Key, nat>, k: Key)
    ensures var (onlyA, onlyB, both) := Partition(a, b);
      && Ascending(onlyA) && Ascending(onlyB) && Ascending(both)
      && (k in onlyA <==> k in a && k !in b)
      && (k in onlyB <==> k in b && k !in a)
      && (k in both <==> k in a && k in b)
      && (k in onlyA || k in onlyB || k in both <==> k in a || k in b)
  {
    SortedOfAscending(a.Keys - b.Keys);
    SortedOfAscending(b.Keys - a.Keys);
    SortedOfAscending(a.Keys * b.Keys);
  }
}
