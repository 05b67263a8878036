/** `process_hyphens_and_newlines`: seven regular-expression rewrites that
  * join lines broken by a hyphen or a soft newline, each applied until its
  * pattern no longer occurs. */
module ProcessHyphens {
  import opened Wrappers
  import opened Strings
  import opened Rewrite

  /** The length of the run of digits that starts `s`. */
  function Digits(s: string): (k: nat)
    ensures k <= |s| && forall j :: 0 <= j < k ==> IsDigit(s[j])
    ensures k < |s| ==> !IsDigit(s[k])
  {
    if s != [] && IsDigit(s[0]) then 1 + Digits(s[1..]) else 0
  }

  /** The length of a `<\d+>` page marker at the start of `s`, or 0. */
  function Marker(s: string): (p: nat)
    ensures p <= |s|
    ensures p != 0 ==> p >= 3 && s[0] == '<' && s[p - 1] == '>'
    ensures forall j :: 1 <= j < p - 1 ==> IsDigit(s[j])
  {
    if s != [] && s[0] == '<' then
      var k := Digits(s[1..]);
      assert forall j :: 1 <= j < k + 1 ==> s[j] == s[1..][j - 1];
      if k >= 1 && k + 1 < |s| && s[k + 1] == '>' then k + 2 else 0
    else 0
  }

  lemma MarkerChars(s: string)
    ensures forall j :: 0 <= j < Marker(s) ==> s[j] != '\n' && s[j] != ' ' && s[j] != '-'
    ensures forall j :: 1 <= j < Marker(s) ==> s[j] != '<'
  {
  }

  /** `-\n(<\d+>)\n\t` → `\1`. */
  function HyphenMarkerTab(s: string): (r: Option<Hit>)
    ensures r.Some? ==> 1 <= r.value.len <= |s|
  {
    if |s| >= 2 && s[0] == '-' && s[1] == '\n' then
      var p := Marker(s[2..]);
      if p != 0 && p + 3 < |s| && s[p + 2] == '\n' && s[p + 3] == '\t' then Some(Hit(p + 4, s[2..p + 2]))
      else None
    else None
  }

  /** `([^\n/\|\]\)>}-])\n\t` → `\1`. */
  function TabContinuation(s: string): (r: Option<Hit>)
    ensures r.Some? ==> 1 <= r.value.len <= |s|
  {
    if |s| >= 3 && s[0] !in "\n/|])>}-" && s[1] == '\n' && s[2] == '\t' then Some(Hit(3, [s[0]]))
    else None
  }

  /** `-\n\t` → ``. */
  function HyphenTab(s: string): (r: Option<Hit>)
    ensures r.Some? ==> 1 <= r.value.len <= |s|
  {
    if |s| >= 3 && s[0] == '-' && s[1] == '\n' && s[2] == '\t' then Some(Hit(3, "")) else None
  }

  /** `-\n(<\d+>)\n([^\n])` → `\1\2`. */
  function HyphenMarkerLine(s: string): (r: Option<Hit>)
    ensures r.Some? ==> 1 <= r.value.len <= |s|
  {
    if |s| >= 2 && s[0] == '-' && s[1] == '\n' then
      var p := Marker(s[2..]);
      if p != 0 && p + 3 < |s| && s[p + 2] == '\n' && s[p + 3] != '\n' then
        Some(Hit(p + 4, s[2..p + 2] + [s[p + 3]]))
      else None
    else None
  }

  /** The length of the run of characters other than tab, newline and `-`
    * that starts `s`. */
  function LineRun(s: string): (k: nat)
    ensures k <= |s| && forall j :: 0 <= j < k ==> s[j] !in "\t\n-"
    ensures k < |s| ==> s[k] in "\t\n-"
  {
    if s != [] && s[0] !in "\t\n-" then 1 + LineRun(s[1..]) else 0
  }

  /** `(\n[^\t\n-]+)\n([^\n\t])` → `\1 \2`. */
  function SoftBreak(s: string): (r: Option<Hit>)
    ensures r.Some? ==> 1 <= r.value.len <= |s|
  {
    if s != [] && s[0] == '\n' then
      var k := LineRun(s[1..]);
      if k >= 1 && k + 2 < |s| && s[k + 1] == '\n' && s[k + 2] !in "\n\t" then
        Some(Hit(k + 3, s[..k + 1] + " " + [s[k + 2]]))
      else None
    else None
  }

  /** `-\n` → ``. */
  function HyphenBreak(s: string): (r: Option<Hit>)
    ensures r.Some? ==> 1 <= r.value.len <= |s|
  {
    if |s| >= 2 && s[0] == '-' && s[1] == '\n' then Some(Hit(2, "")) else None
  }

  /** `([^\n ])(<\d+> )` → `\1 \2`. */
  function MarkerSpace(s: string): (r: Option<Hit>)
    ensures r.Some? ==> 1 <= r.value.len <= |s|
  {
    if |s| >= 2 && s[0] != '\n' && s[0] != ' ' then
      var p := Marker(s[1..]);
      if p != 0 && p + 1 < |s| && s[p + 1] == ' ' then Some(Hit(p + 2, [s[0], ' '] + s[1..p + 2]))
      else None
    else None
  }

  function Newlines(s: string): nat
  {
    Count(s, '\n')
  }

  /** The number of places where a character other than a space or a
    * newline directly precedes a `<`. */
  function Gaps(s: string): nat
  {
    if |s| < 2 then 0 else (if Tight(s[0], s[1]) then 1 else 0) + Gaps(s[1..])
  }

  predicate Tight(x: char, y: char)
  {
    x != ' ' && x != '\n' && y == '<'
  }

  // -------------------------------------------------------------------
  // Why each loop ends
  // -------------------------------------------------------------------

  /** Each of the first six rewrites takes away at least one newline. */
  lemma NewlineRulesFewer()
    ensures Sane(HyphenMarkerTab) && Fewer(HyphenMarkerTab, '\n')
    ensures Sane(TabContinuation) && Fewer(TabContinuation, '\n')
    ensures Sane(HyphenTab) && Fewer(HyphenTab, '\n')
    ensures Sane(HyphenMarkerLine) && Fewer(HyphenMarkerLine, '\n')
    ensures Sane(SoftBreak) && Fewer(SoftBreak, '\n')
    ensures Sane(HyphenBreak) && Fewer(HyphenBreak, '\n')
  {
    FewerHyphenMarkerTab();
    FewerTabContinuation();
    FewerHyphenTab();
    FewerHyphenMarkerLine();
    FewerSoftBreak();
    FewerHyphenBreak();
  }

  /** A page marker holds no newline. */
  lemma MarkerNoNewline(s: string, i: nat)
    requires i <= |s| && i + Marker(s[i..]) <= |s|
    ensures Count(s[i..i + Marker(s[i..])], '\n') == 0
  {
    var p := Marker(s[i..]);
    MarkerChars(s[i..]);
    assert forall j :: 0 <= j < p ==> s[i..i + p][j] == s[i..][j];
    assert '\n' !in s[i..i + p];
  }

  lemma FewerHyphenMarkerTab()
    ensures Sane(HyphenMarkerTab) && Fewer(HyphenMarkerTab, '\n')
  {
    forall s | HyphenMarkerTab(s).Some?
      ensures Count(HyphenMarkerTab(s).value.repl, '\n') < Count(s[..HyphenMarkerTab(s).value.len], '\n')
    {
      var p := Marker(s[2..]);
      MarkerNoNewline(s, 2);
      assert s[..p + 4] == s[..2] + s[2..p + 2] + s[p + 2..p + 4];
      assert s[..2] == ['-', '\n'];
    }
  }

  lemma FewerTabContinuation()
    ensures Sane(TabContinuation) && Fewer(TabContinuation, '\n')
  {
    forall s | TabContinuation(s).Some?
      ensures Count(TabContinuation(s).value.repl, '\n') < Count(s[..3], '\n')
    {
      assert s[..3] == [s[0], s[1], s[2]];
    }
  }

  lemma FewerHyphenTab()
    ensures Sane(HyphenTab) && Fewer(HyphenTab, '\n')
  {
    forall s | HyphenTab(s).Some?
      ensures Count(HyphenTab(s).value.repl, '\n') < Count(s[..3], '\n')
    {
      assert s[..3] == [s[0], s[1], s[2]];
    }
  }

  lemma FewerHyphenMarkerLine()
    ensures Sane(HyphenMarkerLine) && Fewer(HyphenMarkerLine, '\n')
  {
    forall s | HyphenMarkerLine(s).Some?
      ensures Count(HyphenMarkerLine(s).value.repl, '\n') < Count(s[..HyphenMarkerLine(s).value.len], '\n')
    {
      var p := Marker(s[2..]);
      MarkerNoNewline(s, 2);
      assert s[..p + 4] == s[..2] + s[2..p + 2] + [s[p + 2]] + [s[p + 3]];
      assert s[..2] == ['-', '\n'];
    }
  }

  lemma FewerSoftBreak()
    ensures Sane(SoftBreak) && Fewer(SoftBreak, '\n')
  {
    forall s | SoftBreak(s).Some?
      ensures Count(SoftBreak(s).value.repl, '\n') < Count(s[..SoftBreak(s).value.len], '\n')
    {
      var k := LineRun(s[1..]);
      assert s[..k + 3] == s[..k + 1] + [s[k + 1]] + [s[k + 2]];
    }
  }

  lemma FewerHyphenBreak()
    ensures Sane(HyphenBreak) && Fewer(HyphenBreak, '\n')
  {
    forall s | HyphenBreak(s).Some?
      ensures Count(HyphenBreak(s).value.repl, '\n') < Count(s[..2], '\n')
    {
      assert s[..2] == [s[0], s[1]];
    }
  }

  /** The seventh rewrite adds a space and nothing else. */
  lemma MarkerSpaceNoNewline()
    ensures Sane(MarkerSpace) && NoMore(MarkerSpace, '\n')
  {
    forall s | MarkerSpace(s).Some?
      ensures Count(MarkerSpace(s).value.repl, '\n') <= Count(s[..MarkerSpace(s).value.len], '\n')
    {
      var p := Marker(s[1..]);
      assert s[..p + 2] == [s[0]] + s[1..p + 2];
    }
  }

  lemma {:induction false} GapsConcat(a: string, b: string)
    ensures Gaps(a + b) == Gaps(a) + Gaps(b) + if a != [] && b != [] && Tight(a[|a| - 1], b[0]) then 1 else 0
    decreases |a|
  {
    if |a| == 0 {
      assert a + b == b;
    } else if |a| == 1 {
      if b != [] {
        assert (a + b)[1..] == b;
      }
    } else {
      assert (a + b)[1..] == a[1..] + b;
      GapsConcat(a[1..], b);
    }
  }

  /** A string whose every `<` follows a space or a newline has no gap. */
  lemma {:induction false} NoGaps(s: string)
    requires forall j :: 1 <= j < |s| && s[j] == '<' ==> s[j - 1] == ' ' || s[j - 1] == '\n'
    ensures Gaps(s) == 0
    decreases |s|
  {
    if |s| >= 2 {
      NoGaps(s[1..]);
    }
  }

  /** The seventh rewrite copies the first character of what it scans. */
  lemma MarkerSpaceFirst(s: string)
    requires s != []
    ensures Sub(MarkerSpace, s) != [] && Sub(MarkerSpace, s)[0] == s[0]
  {
    MarkerSpaceNoNewline();
  }

  /** What the seventh rewrite puts in place of a match `x<digits> `:
    * `x <digits> `, where only the third character is a `<` and no
    * character after the first is a newline. */
  lemma MarkerSpaceRepl(s: string)
    requires MarkerSpace(s).Some?
    ensures var h := MarkerSpace(s).value;
            && |h.repl| == h.len + 1 && h.repl[0] == s[0] && h.repl[1] == ' ' && h.repl[2] == '<'
            && s[1] == '<' && h.repl[|h.repl| - 1] == ' ' && h.len >= 2 && s[0] != ' ' && s[0] != '\n'
            && (forall j :: 3 <= j < |h.repl| ==> h.repl[j] != '<')
            && (forall j :: 1 <= j < |h.repl| ==> h.repl[j] != '\n')
  {
    var h := MarkerSpace(s).value;
    var p := Marker(s[1..]);
    MarkerChars(s[1..]);
    forall j | 2 <= j < |h.repl|
      ensures h.repl[j] == s[j - 1]
    {
    }
    forall j | 3 <= j < |h.repl|
      ensures h.repl[j] != '<'
    {
      if j - 1 < p + 1 {
        assert s[j - 1] == s[1..][j - 2];
      }
    }
    forall j | 2 <= j < |h.repl|
      ensures h.repl[j] != '\n'
    {
      if j - 1 < p + 1 {
        assert s[j - 1] == s[1..][j - 2];
      }
    }
  }

  /** The seventh rewrite puts a space before each `<` it reaches, and every
    * other `<` keeps the character before it: so the gaps go down. */
  lemma {:induction false} MarkerSpaceGaps(s: string)
    requires Sane(MarkerSpace)
    ensures Gaps(Sub(MarkerSpace, s)) <= Gaps(s)
    ensures Found(MarkerSpace, s) ==> Gaps(Sub(MarkerSpace, s)) < Gaps(s)
    decreases |s|
  {
    if s != [] {
      match MarkerSpace(s)
      case Some(h) =>
        MarkerSpaceGaps(s[h.len..]);
        GapsAtMatch(s);
      case None =>
        MarkerSpaceGaps(s[1..]);
        if s[1..] != [] {
          MarkerSpaceFirst(s[1..]);
        }
        GapsPastChar(MarkerSpace, s);
    }
  }

  lemma {:induction false} GapsAtMatch(s: string)
    requires Sane(MarkerSpace) && MarkerSpace(s).Some?
    requires var rest := s[MarkerSpace(s).value.len..]; Gaps(Sub(MarkerSpace, rest)) <= Gaps(rest)
    ensures Gaps(Sub(MarkerSpace, s)) < Gaps(s)
  {
    var h := MarkerSpace(s).value;
    SubAtMatch(MarkerSpace, s);
    ReplJoinGaps(s, Sub(MarkerSpace, s[h.len..]));
    MatchGapsRest(s);
  }

  lemma {:induction false} ReplJoinGaps(s: string, out: string)
    requires MarkerSpace(s).Some?
    ensures Gaps(MarkerSpace(s).value.repl + out) == Gaps(out)
  {
    ReplGaps(s);
    GapsConcat(MarkerSpace(s).value.repl, out);
  }

  lemma {:induction false} MatchGapsRest(s: string)
    requires MarkerSpace(s).Some?
    ensures Gaps(s) >= 1 + Gaps(s[MarkerSpace(s).value.len..])
  {
    MatchGaps(s);
    GapsSplit(s, MarkerSpace(s).value.len);
  }

  lemma {:induction false} GapsSplit(s: string, k: nat)
    requires k <= |s|
    ensures Gaps(s) >= Gaps(s[..k]) + Gaps(s[k..])
  {
    assert s == s[..k] + s[k..];
    GapsConcat(s[..k], s[k..]);
  }

  lemma ReplGaps(s: string)
    requires MarkerSpace(s).Some?
    ensures Gaps(MarkerSpace(s).value.repl) == 0 && MarkerSpace(s).value.repl[|MarkerSpace(s).value.repl| - 1] == ' '
  {
    var h := MarkerSpace(s).value;
    MarkerSpaceRepl(s);
    forall j | 1 <= j < |h.repl| && h.repl[j] == '<'
      ensures h.repl[j - 1] == ' ' || h.repl[j - 1] == '\n'
    {
      assert j == 2;
    }
    NoGaps(h.repl);
  }

  lemma MatchGaps(s: string)
    requires MarkerSpace(s).Some?
    ensures Gaps(s[..MarkerSpace(s).value.len]) >= 1
  {
    var h := MarkerSpace(s).value;
    MarkerSpaceRepl(s);
    var x := s[..h.len];
    assert x[0] == s[0] && x[1] == s[1];
  }

  /** Past a character where no match starts, the gaps of the rest carry
    * over: the copied character meets the same first character as before. */
  lemma {:induction false} GapsPastChar(m: Matcher, s: string)
    requires Sane(m) && s != [] && m(s).None?
    requires s[1..] != [] ==> Sub(m, s[1..]) != [] && Sub(m, s[1..])[0] == s[1]
    requires Gaps(Sub(m, s[1..])) <= Gaps(s[1..])
    requires Found(m, s[1..]) ==> Gaps(Sub(m, s[1..])) < Gaps(s[1..])
    ensures Gaps(Sub(m, s)) <= Gaps(s)
    ensures Found(m, s) ==> Gaps(Sub(m, s)) < Gaps(s)
  {
    var t := Sub(m, s[1..]);
    assert Sub(m, s) == [s[0]] + t;
    assert s == [s[0]] + s[1..];
    GapsConcat([s[0]], s[1..]);
    GapsConcat([s[0]], t);
  }

  /** Each of the seven loops ends: the first six remove newlines, the
    * seventh removes gaps. */
  lemma RulesTerminate(k: nat)
    requires k < 7
    ensures Sane(Rules()[k]) && Shrinks(Rules()[k], Weight(k))
  {
    if k == 6 {
      MarkerSpaceShrinks();
      assert Rules()[k] == MarkerSpace && Weight(k) == Gaps;
    } else {
      NewlineRuleShrinks(k);
    }
  }

  /** Each of the first six rewrites drops a newline whenever it applies. */
  lemma NewlineRuleShrinks(k: nat)
    requires k < 6
    ensures Sane(Rules()[k]) && Shrinks(Rules()[k], Newlines) && Weight(k) == Newlines
  {
    NewlineRuleFewer(k);
    FewerShrinks(Rules()[k]);
  }

  lemma NewlineRuleFewer(k: nat)
    requires k < 6
    ensures Sane(Rules()[k]) && Fewer(Rules()[k], '\n')
  {
    if k == 0 {
      assert Rules()[k] == HyphenMarkerTab;
      FewerHyphenMarkerTab();
    } else if k == 1 {
      assert Rules()[k] == TabContinuation;
      FewerTabContinuation();
    } else if k == 2 {
      assert Rules()[k] == HyphenTab;
      FewerHyphenTab();
    } else if k == 3 {
      assert Rules()[k] == HyphenMarkerLine;
      FewerHyphenMarkerLine();
    } else if k == 4 {
      assert Rules()[k] == SoftBreak;
      FewerSoftBreak();
    } else {
      assert Rules()[k] == HyphenBreak;
      FewerHyphenBreak();
    }
  }

  /** A rewrite whose every replacement drops a newline makes the newline
    * count fall whenever it applies. */
  lemma FewerShrinks(m: Matcher)
    requires Sane(m) && Fewer(m, '\n')
    ensures Shrinks(m, Newlines)
  {
    assert NoMore(m, '\n');
    forall s | Found(m, s)
      ensures Newlines(Sub(m, s)) < Newlines(s)
    {
      SubCount(m, '\n', s);
    }
  }

  /** The seventh rewrite makes the number of tight markers fall whenever
    * it applies. */
  lemma MarkerSpaceShrinks()
    ensures Sane(MarkerSpace) && Shrinks(MarkerSpace, Gaps)
  {
    MarkerSpaceNoNewline();
    forall s | Found(MarkerSpace, s)
      ensures Gaps(Sub(MarkerSpace, s)) < Gaps(s)
    {
      MarkerSpaceGaps(s);
    }
  }

  // -------------------------------------------------------------------
  // The function and its properties
  // -------------------------------------------------------------------

  function Rules(): (r: seq<Matcher>)
    ensures |r| == 7
  {
    [HyphenMarkerTab, TabContinuation, HyphenTab, HyphenMarkerLine, SoftBreak, HyphenBreak, MarkerSpace]
  }

  function Weight(k: nat): string -> nat
  {
    if k < 6 then Newlines else Gaps
  }

  /** The text after the first `k` loops. */
  function Stage(s: string, k: nat): string
    requires k <= 7
  {
    if k == 0 then s
    else
      RulesTerminate(k - 1);
      Exhaust(Rules()[k - 1], Weight(k - 1), Stage(s, k - 1))
  }

  /** `process_hyphens_and_newlines(content, outpath)`. */
  method ProcessHyphensAndNewlines(content: string) returns (r: string)
    ensures r == Stage(content, 7)
  {
    r := content;
    var rules := Rules();
    for k := 0 to 7
      invariant r == Stage(content, k)
    {
      RulesTerminate(k);
      var m := rules[k];
      while Found(m, r)
        invariant Exhaust(m, Weight(k), r) == Stage(content, k + 1)
        decreases Weight(k)(r)
      {
        r := Sub(m, r);
      }
    }
  }

  /** No `-` directly precedes a newline. */
  predicate NoHyphenBreak(s: string)
  {
    forall i :: 0 <= i < |s| - 1 ==> s[i] != '-' || s[i + 1] != '\n'
  }

  lemma {:induction false} HyphenBreakFound(s: string)
    ensures Found(HyphenBreak, s) <==> !NoHyphenBreak(s)
    decreases |s|
  {
    if s != [] {
      HyphenBreakFound(s[1..]);
      assert forall i :: 1 <= i < |s| ==> s[i] == s[1..][i - 1];
    }
  }

  lemma NoBreakTail(s: string, k: nat)
    requires NoHyphenBreak(s) && k <= |s|
    ensures NoHyphenBreak(s[k..])
  {
    assert forall i :: 0 <= i < |s| - k ==> s[k..][i] == s[k + i];
  }

  /** The seventh rewrite cannot make a `-` precede a newline: what it adds
    * is a space and the `<` it follows. */
  lemma {:induction false} MarkerSpaceNoBreak(s: string)
    requires Sane(MarkerSpace) && NoHyphenBreak(s)
    ensures NoHyphenBreak(Sub(MarkerSpace, s))
    decreases |s|
  {
    if s != [] {
      match MarkerSpace(s)
      case Some(h) =>
        var p := Marker(s[1..]);
        var rest := s[p + 2..];
        NoBreakTail(s, p + 2);
        MarkerSpaceNoBreak(rest);
        MarkerSpaceRepl(s);
        NoBreakConcat(h.repl, Sub(MarkerSpace, rest));
      case None =>
        NoBreakTail(s, 1);
        MarkerSpaceNoBreak(s[1..]);
        if s[1..] != [] {
          MarkerSpaceFirst(s[1..]);
        }
        NoBreakConcat([s[0]], Sub(MarkerSpace, s[1..]));
    }
  }

  /** Joining two strings without a hyphen break makes one only where the
    * first ends in `-` and the second starts with a newline. */
  lemma NoBreakConcat(a: string, b: string)
    requires NoHyphenBreak(a) && NoHyphenBreak(b)
    requires a != [] && b != [] ==> a[|a| - 1] != '-' || b[0] != '\n'
    ensures NoHyphenBreak(a + b)
  {
    forall i | 0 <= i < |a + b| - 1
      ensures (a + b)[i] != '-' || (a + b)[i + 1] != '\n'
    {
      if i + 1 < |a| {
        assert (a + b)[i] == a[i] && (a + b)[i + 1] == a[i + 1];
      } else if i >= |a| {
        assert (a + b)[i] == b[i - |a|] && (a + b)[i + 1] == b[i - |a| + 1];
      }
    }
  }

  lemma {:induction false} ExhaustNoBreak(s: string)
    requires Sane(MarkerSpace) && Shrinks(MarkerSpace, Gaps) && NoHyphenBreak(s)
    ensures NoHyphenBreak(Exhaust(MarkerSpace, Gaps, s))
    decreases Gaps(s)
  {
    if Found(MarkerSpace, s) {
      MarkerSpaceNoBreak(s);
      ExhaustNoBreak(Sub(MarkerSpace, s));
    }
  }

  lemma {:induction false} ExhaustNewlines(m: Matcher, w: string -> nat, s: string)
    requires Sane(m) && Shrinks(m, w) && NoMore(m, '\n')
    ensures Newlines(Exhaust(m, w, s)) <= Newlines(s)
    decreases w(s)
  {
    if Found(m, s) {
      SubCount(m, '\n', s);
      ExhaustNewlines(m, w, Sub(m, s));
    }
  }

  /** No rewrite adds a newline. */
  lemma RuleNoMore(k: nat)
    requires k < 7
    ensures Sane(Rules()[k]) && NoMore(Rules()[k], '\n')
  {
    if k == 6 {
      MarkerSpaceNoNewline();
      assert Rules()[k] == MarkerSpace;
    } else {
      NewlineRuleFewer(k);
      assert NoMore(Rules()[k], '\n');
    }
  }

  lemma {:induction false} StageNewlines(s: string, k: nat)
    requires k <= 7
    ensures Newlines(Stage(s, k)) <= Newlines(s)
  {
    if k > 0 {
      RulesTerminate(k - 1);
      RuleNoMore(k - 1);
      StageNewlines(s, k - 1);
      ExhaustNewlines(Rules()[k - 1], Weight(k - 1), Stage(s, k - 1));
    }
  }

  /** The output never holds a `-` directly before a newline, never a
    * character other than a space or newline directly before a
    * `<digits> ` marker, and never more newlines than the input. */
  lemma ProcessedShape(s: string)
    ensures NoHyphenBreak(Stage(s, 7))
    ensures !Found(MarkerSpace, Stage(s, 7))
    ensures Newlines(Stage(s, 7)) <= Newlines(s)
  {
    RulesTerminate(5);
    RulesTerminate(6);
    HyphenBreakFound(Stage(s, 6));
    ExhaustNoBreak(Stage(s, 6));
    StageNewlines(s, 7);
  }

  /** `-\n\t` is dropped whole by the third rewrite: the second never takes
    * a `-` before a newline and a tab. */
  lemma HyphenTabJoins(s: string)
    requires |s| >= 3 && s[..3] == "-\n\t"
    ensures TabContinuation(s).None? && HyphenTab(s) == Some(Hit(3, ""))
  {
    assert s[0] == '-' && s[1] == '\n' && s[2] == '\t' by {
      assert s[..3][0] == s[0] && s[..3][1] == s[1] && s[..3][2] == s[2];
    }
  }
}
