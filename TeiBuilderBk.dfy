/** The token-scanning TEI builder kept as a backup
  * (utils/transforms/xml/tei_builder_bk.py). Whole-line `{n}` and
  * `[label] text` lines open divs and paragraphs; any other line is cut by
  * `re.split(r'(<\d+>|\t)', line)` into page breaks, verse segments and
  * prose, each applied to the tree in turn, and a line whose last token was
  * prose ends in a numbered `lb`. The builder's state is the value `St`;
  * the class `BkBuilder` keeps it in fields and each method is proved to
  * make the step the matching function describes. */
module TeiBuilderBk {
  import opened Wrappers
  import opened Strings
  import opened XmlTree
  import P = TeiBuilderPatterns
  import opened EarlyPatterns
  import E = TeiBuilderEarly

  // -------------------------------------------------------------------
  // `re.split(r'(<\d+>|\t)', line)`
  // -------------------------------------------------------------------

  /** The length of the run of digits starting at `i`. */
  function DigitRun(s: string, i: nat): (r: nat)
    requires i <= |s|
    ensures i + r <= |s|
    ensures forall j :: i <= j < i + r ==> IsDigit(s[j])
    ensures i + r == |s| || !IsDigit(s[i + r])
    decreases |s| - i
  {
    if i < |s| && IsDigit(s[i]) then 1 + DigitRun(s, i + 1) else 0
  }

  /** The length of the delimiter `<\d+>|\t` matched at `i`, 0 when there is
    * none: a tab, or `<`, one or more digits and `>`. */
  function DelimAt(s: string, i: nat): (r: nat)
    requires i <= |s|
    ensures i + r <= |s|
    ensures r == 1 ==> s[i] == '\t'
    ensures r > 1 ==> r >= 3 && s[i] == '<' && s[i + r - 1] == '>' && P.AllDigits(s[i + 1..i + r - 1])
  {
    if i < |s| && s[i] == '\t' then 1
    else if i < |s| && s[i] == '<' && DigitRun(s, i + 1) > 0 && i + 1 + DigitRun(s, i + 1) < |s|
            && s[i + 1 + DigitRun(s, i + 1)] == '>' then
      DigitRun(s, i + 1) + 2
    else 0
  }

  /** A delimiter part of the split: a tab or a page marker. */
  predicate IsDelim(p: string)
  {
    p == "\t" || (|p| >= 3 && p[0] == '<' && p[|p| - 1] == '>' && |p| == DelimAt(p, 0))
  }

  /** A text part of the split: no delimiter starts anywhere inside it. */
  ghost predicate NoDelim(t: string)
  {
    forall j :: 0 <= j < |t| ==> DelimAt(t, j) == 0
  }

  /** The output of the split: text parts at even positions, delimiters
    * at odd ones, and a text part at each end. */
  ghost predicate SplitShape(parts: seq<string>)
  {
    |parts| % 2 == 1
    && (forall k :: 0 <= k < |parts| && k % 2 == 0 ==> NoDelim(parts[k]))
    && (forall k :: 0 <= k < |parts| && k % 2 == 1 ==> IsDelim(parts[k]))
  }

  /** The parts from `start`, where the current text part began, with `i`
    * the next position to try for a delimiter. */
  function SplitFrom(s: string, start: nat, i: nat): (r: seq<string>)
    requires start <= i <= |s|
    decreases |s| - i
  {
    if i == |s| then [s[start..]]
    else if DelimAt(s, i) > 0 then
      [s[start..i], s[i..i + DelimAt(s, i)]] + SplitFrom(s, i + DelimAt(s, i), i + DelimAt(s, i))
    else SplitFrom(s, start, i + 1)
  }

  /** `re.split(r'(<\d+>|\t)', line)`: the text between delimiters and,
    * kept by the capturing group, the delimiters themselves. */
  function SplitLine(line: string): (r: seq<string>)
    ensures SplitShape(r)
    ensures Join(r, "") == line
  {
    SplitFromShape(line, 0, 0);
    SplitFrom(line, 0, 0)
  }

  lemma {:induction false} SplitFromShape(s: string, start: nat, i: nat)
    requires start <= i <= |s|
    requires forall j :: start <= j < i ==> DelimAt(s, j) == 0
    ensures SplitShape(SplitFrom(s, start, i))
    ensures Join(SplitFrom(s, start, i), "") == s[start..]
    decreases |s| - i
  {
    if i == |s| {
      SplitEnd(s, start);
    } else if DelimAt(s, i) > 0 {
      var e := i + DelimAt(s, i);
      SplitFromShape(s, e, e);
      TextPart(s, start, i);
      SplitAtDelim(s, start, i);
      JoinAtDelim(s, start, i);
    } else {
      SplitFromShape(s, start, i + 1);
    }
  }

  lemma {:induction false} SplitEnd(s: string, start: nat)
    requires start <= |s|
    requires forall j :: start <= j < |s| ==> DelimAt(s, j) == 0
    ensures SplitShape(SplitFrom(s, start, |s|))
    ensures Join(SplitFrom(s, start, |s|), "") == s[start..]
  {
    TextPart(s, start, |s|);
    assert s[start..|s|] == s[start..];
    assert SplitFrom(s, start, |s|) == [s[start..]];
  }

  lemma {:induction false} SplitAtDelim(s: string, start: nat, i: nat)
    requires start <= i < |s| && DelimAt(s, i) > 0
    requires NoDelim(s[start..i])
    requires SplitShape(SplitFrom(s, i + DelimAt(s, i), i + DelimAt(s, i)))
    ensures SplitShape(SplitFrom(s, start, i))
  {
    var e := i + DelimAt(s, i);
    var rest := SplitFrom(s, e, e);
    assert IsDelim(s[i..e]) by {
      DelimPart(s, i);
    }
    assert SplitFrom(s, start, i) == [s[start..i], s[i..e]] + rest;
    ShapeCons(s[start..i], s[i..e], rest);
  }

  lemma {:induction false} JoinAtDelim(s: string, start: nat, i: nat)
    requires start <= i < |s| && DelimAt(s, i) > 0
    requires var e := i + DelimAt(s, i); Join(SplitFrom(s, e, e), "") == s[e..]
    ensures Join(SplitFrom(s, start, i), "") == s[start..]
  {
    var e := i + DelimAt(s, i);
    var rest := SplitFrom(s, e, e);
    assert SplitFrom(s, start, i) == [s[start..i], s[i..e]] + rest;
    JoinPair(s[start..i], s[i..e], rest);
    assert s[start..] == s[start..i] + s[i..e] + s[e..];
  }

  /** A text part and a delimiter in front of a split keep its shape, and
    * the join gains the two in front. */
  lemma {:induction false} ShapeCons(t: string, d: string, rest: seq<string>)
    requires NoDelim(t) && IsDelim(d) && SplitShape(rest)
    ensures SplitShape([t, d] + rest)
  {
    var r := [t, d] + rest;
    forall k | 2 <= k < |r|
      ensures r[k] == rest[k - 2]
    {
    }
  }

  lemma {:induction false} JoinPair(t: string, d: string, rest: seq<string>)
    requires |rest| >= 1
    ensures Join([t, d] + rest, "") == t + d + Join(rest, "")
  {
    var r := [t, d] + rest;
    assert r[1..][1..] == rest;
    JoinCons(r);
    JoinCons(r[1..]);
  }

  /** The joined parts are the first part followed by the rest joined. */
  lemma JoinCons(parts: seq<string>)
    requires |parts| >= 1
    ensures Join(parts, "") == parts[0] + Join(parts[1..], "")
  {
  }

  /** A stretch of `s` holding no delimiter start holds none as a string of
    * its own either. */
  lemma {:induction false} TextPart(s: string, a: nat, b: nat)
    requires a <= b <= |s|
    requires forall j :: a <= j < b ==> DelimAt(s, j) == 0
    ensures NoDelim(s[a..b])
  {
    forall j | 0 <= j < b - a
      ensures DelimAt(s[a..b], j) == 0
    {
      DelimInSlice(s, a, b, j);
    }
  }

  /** A delimiter found in a slice is one in the whole string. */
  lemma {:induction false} DelimInSlice(s: string, a: nat, b: nat, j: nat)
    requires a <= b <= |s| && j < b - a
    ensures DelimAt(s[a..b], j) > 0 ==> DelimAt(s, a + j) > 0
  {
    var t := s[a..b];
    if j + 1 <= |t| {
      DigitRunSlice(s, a, b, j + 1);
    }
  }

  /** A run of digits in a slice that stops before the slice's end is the
    * same run in the whole string. */
  lemma {:induction false} DigitRunSlice(s: string, a: nat, b: nat, m: nat)
    requires a <= b <= |s| && m <= b - a
    ensures m + DigitRun(s[a..b], m) < b - a ==> DigitRun(s[a..b], m) == DigitRun(s, a + m)
    decreases b - a - m
  {
    var t := s[a..b];
    if m < |t| && IsDigit(t[m]) {
      DigitRunSlice(s, a, b, m + 1);
    }
  }

  /** The delimiter matched at `i`, taken as a part of its own, is one. */
  lemma {:induction false} DelimPart(s: string, i: nat)
    requires i < |s| && DelimAt(s, i) > 0
    ensures IsDelim(s[i..i + DelimAt(s, i)])
  {
    var n := DelimAt(s, i);
    var p := s[i..i + n];
    if n > 1 {
      DigitRunSlice(s, i, i + n, 1);
      assert DigitRun(p, 1) == n - 2;
    }
  }

  // -------------------------------------------------------------------
  // `_scan_line`: the tokens of a line
  // -------------------------------------------------------------------

  datatype Token = PbTok(n: string) | VerseTok(text: string) | ProseTok(text: string)

  /** `re.match(r'<(\d+)>', part)`: the digits of a page marker at the start
    * of `part`. */
  function PbMatch(part: string): (r: Option<string>)
    ensures r.Some? ==> |r.value| >= 1 && P.AllDigits(r.value) && StartsWith(part, "<" + r.value + ">")
  {
    var n := DelimAt(part, 0);
    if n > 1 then
      assert part[..n] == "<" + part[1..n - 1] + ">";
      Some(part[1..n - 1])
    else None
  }

  /** Every string opening with a page marker matches, with its digits. */
  lemma PbMatchComplete(d: string, rest: string)
    requires |d| >= 1 && P.AllDigits(d)
    ensures PbMatch("<" + d + ">" + rest) == Some(d)
  {
    var s := "<" + d + ">" + rest;
    DigitRunExact(s, 1, |d|);
    assert s[1..|d| + 1] == d;
  }

  lemma {:induction false} DigitRunExact(s: string, i: nat, k: nat)
    requires i + k <= |s|
    requires forall j :: i <= j < i + k ==> IsDigit(s[j])
    requires i + k == |s| || !IsDigit(s[i + k])
    ensures DigitRun(s, i) == k
    decreases k
  {
    if k > 0 {
      DigitRunExact(s, i + 1, k - 1);
    }
  }

  /** The tokens the scan loop yields from `parts[i..]`: empty parts are
    * skipped, a page marker gives its number, a tab takes the part after
    * it as verse, and anything else is prose. */
  function TokensFrom(parts: seq<string>, i: nat): seq<Token>
    decreases |parts| - i
  {
    if i >= |parts| then []
    else if parts[i] == [] then TokensFrom(parts, i + 1)
    else if PbMatch(parts[i]).Some? then [PbTok(PbMatch(parts[i]).value)] + TokensFrom(parts, i + 1)
    else if parts[i] == "\t" then [VerseTok(if i + 1 < |parts| then parts[i + 1] else [])] + TokensFrom(parts, i + 2)
    else [ProseTok(parts[i])] + TokensFrom(parts, i + 1)
  }

  /** What a token stands for in the line it came from. */
  function RenderToken(t: Token): string
  {
    match t
    case PbTok(n) => "<" + n + ">"
    case VerseTok(text) => "\t" + text
    case ProseTok(text) => text
  }

  function Render(toks: seq<Token>): string
  {
    if toks == [] then [] else RenderToken(toks[0]) + Render(toks[1..])
  }

  /** Prose is never empty and holds no tab, verse holds no tab, and a
    * page number is a run of digits. */
  ghost predicate TokensOk(toks: seq<Token>)
  {
    forall k :: 0 <= k < |toks| ==>
      match toks[k]
      case PbTok(n) => |n| >= 1 && P.AllDigits(n)
      case VerseTok(text) => '\t' !in text
      case ProseTok(text) => text != [] && '\t' !in text
  }

  /** The tokens of a line. Rendering them gives the line back, so the scan
    * drops nothing but the split's empty parts. */
  function Tokens(line: string): (r: seq<Token>)
    ensures Render(r) == line
    ensures TokensOk(r)
  {
    var parts := SplitLine(line);
    RenderFrom(parts, 0);
    TokensFromOk(parts, 0);
    assert parts[0..] == parts;
    TokensFrom(parts, 0)
  }

  lemma NoDelimNoTab(t: string)
    requires NoDelim(t)
    ensures '\t' !in t
  {
    forall j | 0 <= j < |t|
      ensures t[j] != '\t'
    {
      assert DelimAt(t, j) == 0;
    }
  }

  /** A text part is never taken for a page marker or a tab. */
  lemma TextNotDelim(t: string)
    requires NoDelim(t) && t != []
    ensures PbMatch(t).None? && t != "\t"
  {
    assert DelimAt(t, 0) == 0;
  }

  /** A delimiter part is a tab or a page marker matched as a whole. */
  lemma DelimKinds(p: string)
    requires IsDelim(p)
    ensures p == "\t" ==> PbMatch(p).None?
    ensures p != "\t" ==> PbMatch(p).Some? && p == "<" + PbMatch(p).value + ">"
  {
    if p != "\t" {
      assert p == "<" + p[1..|p| - 1] + ">";
    }
  }

  lemma {:induction false} RenderFrom(parts: seq<string>, i: nat)
    requires SplitShape(parts) && i <= |parts|
    ensures Render(TokensFrom(parts, i)) == Join(parts[i..], "")
    decreases |parts| - i
  {
    if i < |parts| {
      var p := parts[i];
      assert parts[i..][1..] == parts[i + 1..];
      JoinCons(parts[i..]);
      if i % 2 == 0 && p != [] {
        TextNotDelim(p);
      } else if i % 2 == 1 {
        DelimKinds(p);
      }
      if p == [] {
        RenderFrom(parts, i + 1);
      } else if PbMatch(p).Some? {
        RenderFrom(parts, i + 1);
        RenderCons(PbTok(PbMatch(p).value), TokensFrom(parts, i + 1));
      } else if p == "\t" {
        assert i + 1 < |parts|;
        RenderFrom(parts, i + 2);
        assert parts[i + 1..][1..] == parts[i + 2..];
        JoinCons(parts[i + 1..]);
        RenderCons(VerseTok(parts[i + 1]), TokensFrom(parts, i + 2));
      } else {
        RenderFrom(parts, i + 1);
        RenderCons(ProseTok(p), TokensFrom(parts, i + 1));
      }
    }
  }

  lemma RenderCons(t: Token, rest: seq<Token>)
    ensures Render([t] + rest) == RenderToken(t) + Render(rest)
  {
    assert ([t] + rest)[1..] == rest;
  }

  lemma {:induction false} TokensFromOk(parts: seq<string>, i: nat)
    requires SplitShape(parts)
    ensures TokensOk(TokensFrom(parts, i))
    decreases |parts| - i
  {
    if i < |parts| {
      var p := parts[i];
      if p == [] {
        TokensFromOk(parts, i + 1);
      } else {
        var next := if PbMatch(p).None? && p == "\t" then i + 2 else i + 1;
        var head := TokensFrom(parts, i)[0];
        assert TokensFrom(parts, i) == [head] + TokensFrom(parts, next);
        assert TokensOk([head]) by {
          HeadOk(parts, i);
        }
        TokensFromOk(parts, next);
        OkCons(head, TokensFrom(parts, next));
      }
    }
  }

  /** The token a non-empty part starts is well formed. */
  lemma HeadOk(parts: seq<string>, i: nat)
    requires SplitShape(parts) && i < |parts| && parts[i] != []
    ensures TokensFrom(parts, i) != [] && TokensOk([TokensFrom(parts, i)[0]])
  {
    var p := parts[i];
    if i % 2 == 0 {
      NoDelimNoTab(p);
      TextNotDelim(p);
    } else {
      DelimKinds(p);
      if p == "\t" {
        assert i + 1 < |parts| && (i + 1) % 2 == 0;
        NoDelimNoTab(parts[i + 1]);
      }
    }
  }

  lemma OkCons(t: Token, rest: seq<Token>)
    requires TokensOk([t]) && TokensOk(rest)
    ensures TokensOk([t] + rest)
  {
    assert forall k :: 1 <= k < |rest| + 1 ==> ([t] + rest)[k] == rest[k - 1];
  }

  // -------------------------------------------------------------------
  // The builder's state and one step per token
  // -------------------------------------------------------------------

  /** The fields of `TEIBuilder`: the tree, the current div, paragraph and
    * line group, the verse index, the line-break counter and the prose
    * flag, which is unset until the first token is seen. `current_l` is
    * only ever `None` and has no field here. */
  datatype St = St(doc: Doc, div: nat, p: Option<nat>, lg: Option<nat>,
                   verseIndex: nat, lbCounter: nat, lastWasProse: Option<bool>)

  /** The body is the second element made, under the `TEI` root. */
  const Body: nat := 1

  predicate Inv(s: St)
  {
    Wf(s.doc) && Body < |s.doc.elems| && s.div < |s.doc.elems| && E.In(s.doc, s.p) && E.In(s.doc, s.lg)
    && (s.lg.Some? ==> s.p.Some?)
  }

  /** `__init__`: a `TEI` root holding a `body`, the body as current div,
    * no paragraph or group, verse index 0, counter 1, the flag unset. */
  function Start(): (r: St)
    ensures Inv(r) && r.doc.elems == [Elem("TEI", map[], None, None), Elem("body", map[], None, None)]
    ensures r.doc.up == [None, Some(0)] && r.div == Body
    ensures r.p.None? && r.lg.None? && r.verseIndex == 0 && r.lbCounter == 1 && r.lastWasProse.None?
  {
    var (d0, root) := NewElement(Empty(), "TEI", map[]);
    var (d1, body) := SubElement(d0, root, "body", map[]);
    St(d1, body, None, None, 0, 1, None)
  }

  /** An element is true for Python when it has children, so an empty
    * current paragraph counts as none where the code writes
    * `self.current_p or ...`. */
  predicate Truthy(d: Doc, n: Option<nat>)
  {
    n.Some? && n.value < |d.kids| && d.kids[n.value] != []
  }

  /** `_open_implicit_p`: a new `p` in the current div, both of whose
    * attributes are `vimplicit`, made the current paragraph. */
  function ImplicitStep(s: St): (r: St)
    requires Inv(s)
    ensures Inv(r) && Extends(s.doc, r.doc)
    ensures var n := |s.doc.elems|;
            |r.doc.elems| == n + 1 && r.doc.elems[n] == Elem("p", E.ImplicitAttrs("vimplicit"), None, None)
            && r.doc.up[n] == Some(s.div) && r.doc.kids[n] == [] && r.p == Some(n)
    ensures r == s.(doc := r.doc, p := r.p)
  {
    var (d, n) := SubElement(s.doc, s.div, "p", E.ImplicitAttrs("vimplicit"));
    s.(doc := d, p := Some(n))
  }

  /** `self.current_p or self._open_implicit_p()`: the paragraph that
    * receives a page break, prose or a line break. */
  function ParentStep(s: St): (r: (St, nat))
    requires Inv(s)
    ensures Inv(r.0) && Extends(s.doc, r.0.doc) && r.0.p == Some(r.1) && r.1 < |r.0.doc.elems|
    ensures Truthy(s.doc, s.p) ==> r.0 == s
    ensures !Truthy(s.doc, s.p) ==> r.0 == ImplicitStep(s) && r.1 == |s.doc.elems|
  {
    if Truthy(s.doc, s.p) then (s, s.p.value) else (ImplicitStep(s), |s.doc.elems|)
  }

  /** A `pb` token: a page break numbered `n` at the end of the paragraph;
    * the verse index restarts, the line group stays. */
  function PbStep(s: St, n: string): (r: St)
    requires Inv(s)
    ensures Inv(r) && Extends(s.doc, r.doc) && r.p.Some?
    ensures var last := |r.doc.elems| - 1;
            last >= |s.doc.elems| && r.doc.elems[last] == Elem("pb", map["n" := n], None, None)
            && r.doc.up[last] == r.p
    ensures r.div == s.div && r.lg == s.lg && r.verseIndex == 0 && r.lbCounter == s.lbCounter
    ensures r.lastWasProse == Some(false)
  {
    var (s1, c) := ParentStep(s);
    var (d, _) := SubElement(s1.doc, c, "pb", map["n" := n]);
    s1.(doc := d, verseIndex := 0, lastWasProse := Some(false))
  }

  /** A `prose` token: the text is added to the tail of the paragraph
    * element itself, after whatever tail it had. */
  function ProseStep(s: St, t: string): (r: St)
    requires Inv(s)
    ensures Inv(r) && Extends(s.doc, r.doc) && r.p.Some?
    ensures var (s1, c) := ParentStep(s);
            r.p == Some(c) && r.doc.elems[c].tail == Some(Appended(s1.doc.elems[c].tail, t))
            && |r.doc.elems| == |s1.doc.elems|
    ensures r.div == s.div && r.lg == s.lg && r.verseIndex == s.verseIndex && r.lbCounter == s.lbCounter
    ensures r.lastWasProse == Some(true)
  {
    var (s1, c) := ParentStep(s);
    var d := SetTail(s1.doc, c, Some(Appended(s1.doc.elems[c].tail, t)));
    s1.(doc := d, lastWasProse := Some(true))
  }

  /** `t` after an optional text: the text itself when there was none. */
  function Appended(prev: Option<string>, t: string): (r: string)
    ensures prev.None? ==> r == t
    ensures prev.Some? ==> r == prev.value + t
  {
    if prev.None? then t else prev.value + t
  }

  /** The start of `_emit_verse_segment`: a paragraph when there is none
    * (checked with `is None`, not truthiness) and a line group when there
    * is none, the verse index restarting with a new group. */
  function VerseOpenStep(s: St): (r: St)
    requires Inv(s)
    ensures Inv(r) && Extends(s.doc, r.doc) && r.p.Some? && r.lg.Some?
    ensures s.p.Some? ==> r.p == s.p
    ensures s.lg.Some? ==> r.doc == s.doc && r.lg == s.lg && r.verseIndex == s.verseIndex
    ensures s.lg.None? ==> r.verseIndex == 0 && r.lg == Some(|r.doc.elems| - 1)
                           && r.doc.elems[|r.doc.elems| - 1] == Elem("lg", map[], None, None)
                           && r.doc.up[|r.doc.elems| - 1] == r.p
    ensures r.div == s.div && r.lbCounter == s.lbCounter && r.lastWasProse == s.lastWasProse
  {
    var s1 := if s.p.None? then ImplicitStep(s) else s;
    if s1.lg.None? then
      var (d, g) := SubElement(s1.doc, s1.p.value, "lg", map[]);
      s1.(doc := d, lg := Some(g), verseIndex := 0)
    else s1
  }

  /** The rest of `_emit_verse_segment`, with the group open: the label
    * for the verse index, the `l` holding the text and, unless the text
    * ends in bars, a `caesura` inside it. A label past the code points a
    * character can hold raises `ValueError` before anything is added. */
  function VerseLineStep(s: St, t: string): (r: (St, Outcome))
    requires Inv(s) && s.lg.Some?
    ensures Inv(r.0) && Extends(s.doc, r.0.doc)
    ensures r.1.Raise? <==> LetterPair(s.verseIndex).None?
    ensures r.1.Raise? ==> r.0 == s && r.1.error == "ValueError"
    ensures r.1.Pass? ==> r.0.doc == VerseLine(s.doc, s.lg.value, LetterPair(s.verseIndex).value, t)
    ensures r.1.Pass? ==> r.0.verseIndex == s.verseIndex + 1 && r.0.lastWasProse == Some(false)
    ensures r.0.div == s.div && r.0.p == s.p && r.0.lg == s.lg && r.0.lbCounter == s.lbCounter
  {
    match LetterPair(s.verseIndex)
    case None => (s, Raise("ValueError"))
    case Some(seg) =>
      (s.(doc := VerseLine(s.doc, s.lg.value, seg, t), verseIndex := s.verseIndex + 1,
          lastWasProse := Some(false)), Pass)
  }

  /** A new `l` labelled `seg` in group `g`, holding `t` and, unless `t`
    * ends in bars, a `caesura`. */
  function VerseLine(d: Doc, g: nat, seg: string, t: string): (r: Doc)
    requires Wf(d) && g < |d.elems|
    ensures Wf(r) && Extends(d, r)
    ensures var l := |d.elems|;
            |r.elems| == l + (if EndsInBars(t) then 1 else 2)
            && r.elems[l] == Elem("l", map["n" := seg], Some(t), None) && r.up[l] == Some(g)
            && r.kids[l] == (if EndsInBars(t) then [] else [l + 1])
            && (!EndsInBars(t) ==> r.elems[l + 1] == Elem("caesura", map[], None, None))
  {
    var (d1, l) := SubElement(d, g, "l", map["n" := seg]);
    var d2 := SetText(d1, l, Some(t));
    if EndsInBars(t) then d2 else SubElement(d2, l, "caesura", map[]).0
  }

  /** A `verse` token: its label is the pair for the verse index, counted
    * from 0 in a new group, and the `l` ends the tree, before its
    * `caesura` when it has one. */
  function VerseStep(s: St, t: string): (r: (St, Outcome))
    requires Inv(s)
    ensures Inv(r.0) && Extends(s.doc, r.0.doc)
    ensures var k := if s.lg.None? then 0 else s.verseIndex;
            (r.1.Raise? <==> LetterPair(k).None?)
            && (r.1.Pass? ==> r.0.verseIndex == k + 1 && EndsWithL(s.doc, r.0.doc, r.0.lg, LetterPair(k), t))
    ensures r.0.lg.Some? && (s.lg.Some? ==> r.0.lg == s.lg)
    ensures r.1.Pass? ==> r.0.lastWasProse == Some(false)
    ensures r.1.Raise? ==> r.0.lastWasProse == s.lastWasProse && r.1.error == "ValueError"
    ensures r.0.div == s.div && r.0.lbCounter == s.lbCounter
  {
    var s1 := VerseOpenStep(s);
    var r := VerseLineStep(s1, t);
    assert r.1.Pass? ==> EndsWithL(s.doc, r.0.doc, r.0.lg, LetterPair(s1.verseIndex), t) by {
      if r.1.Pass? {
        var seg := LetterPair(s1.verseIndex).value;
        assert r.0.doc == VerseLine(s1.doc, s1.lg.value, seg, t);
        assert |r.0.doc.elems| - (if EndsInBars(t) then 1 else 2) == |s1.doc.elems|;
      }
    }
    r
  }

  /** `d` extends `d0` and its last `l`, before the `caesura` when `t`
    * does not end in bars, is labelled `seg`, holds `t` and hangs under
    * `g`. */
  predicate EndsWithL(d0: Doc, d: Doc, g: Option<nat>, seg: Option<string>, t: string)
  {
    var l := |d.elems| - (if EndsInBars(t) then 1 else 2);
    seg.Some? && |d0.elems| <= l < |d.elems| && l < |d.up|
    && d.elems[l] == Elem("l", map["n" := seg.value], Some(t), None) && d.up[l] == g
  }

  function TokenStep(s: St, tok: Token): (r: (St, Outcome))
    requires Inv(s)
    ensures Inv(r.0) && Extends(s.doc, r.0.doc)
    ensures r.1.Raise? ==> tok.VerseTok? && r.0.lastWasProse == s.lastWasProse
    ensures r.1.Pass? ==> r.0.lastWasProse == Some(tok.ProseTok?)
    ensures r.0.div == s.div && r.0.lbCounter == s.lbCounter
  {
    match tok
    case PbTok(n) => (PbStep(s, n), Pass)
    case VerseTok(t) => VerseStep(s, t)
    case ProseTok(t) => (ProseStep(s, t), Pass)
  }

  /** The tokens in turn, stopping at the first that raises. The prose
    * flag ends as the last token left it, and as it was before when the
    * line had no token at all. */
  function Run(s: St, toks: seq<Token>): (r: (St, Outcome))
    requires Inv(s)
    ensures Inv(r.0) && Extends(s.doc, r.0.doc)
    ensures r.0.div == s.div && r.0.lbCounter == s.lbCounter
    ensures r.1.Pass? ==> r.0.lastWasProse == (if toks == [] then s.lastWasProse else Some(toks[|toks| - 1].ProseTok?))
    ensures r.1.Raise? ==> r.1.error == "ValueError"
    decreases |toks|
  {
    if toks == [] then (s, Pass)
    else
      var (s1, o) := TokenStep(s, toks[0]);
      if o.Raise? then (s1, o) else Run(s1, toks[1..])
  }

  /** The end of a scanned line: `AttributeError` while the prose flag was
    * never set; after prose, a `lb` numbered by the counter at the end of
    * the paragraph, and the counter moves on. */
  function EndStep(s: St): (r: (St, Outcome))
    requires Inv(s)
    ensures Inv(r.0) && Extends(s.doc, r.0.doc)
    ensures r.1.Raise? <==> s.lastWasProse.None?
    ensures r.1.Raise? ==> r.0 == s && r.1.error == "AttributeError"
    ensures s.lastWasProse == Some(false) ==> r.0 == s
    ensures s.lastWasProse == Some(true) ==>
      var last := |r.0.doc.elems| - 1;
      r.0.lbCounter == s.lbCounter + 1 && last >= |s.doc.elems|
      && r.0.doc.elems[last] == Elem("lb", map["n" := NatToString(s.lbCounter)], None, None)
      && r.0.doc.up[last] == r.0.p
    ensures r.0.div == s.div && r.0.lg == s.lg && r.0.verseIndex == s.verseIndex
    ensures r.0.lastWasProse == s.lastWasProse
  {
    match s.lastWasProse
    case None => (s, Raise("AttributeError"))
    case Some(false) => (s, Pass)
    case Some(true) =>
      var (s1, c) := ParentStep(s);
      var (d, _) := SubElement(s1.doc, c, "lb", map["n" := NatToString(s.lbCounter)]);
      (s1.(doc := d, lbCounter := s.lbCounter + 1), Pass)
  }

  /** `_open_div`: a div in the body, made current, with no paragraph or
    * group open. */
  function DivStep(s: St, num: string): (r: St)
    requires Inv(s)
    ensures Inv(r) && Extends(s.doc, r.doc)
    ensures var n := |s.doc.elems|;
            |r.doc.elems| == n + 1 && r.doc.elems[n] == Elem("div", E.DivAttrs(num), None, None)
            && r.doc.up[n] == Some(Body) && r.div == n
    ensures r.p.None? && r.lg.None?
    ensures r.verseIndex == s.verseIndex && r.lbCounter == s.lbCounter && r.lastWasProse == s.lastWasProse
  {
    var (d, n) := SubElement(s.doc, Body, "div", E.DivAttrs(num));
    s.(doc := d, div := n, p := None, lg := None)
  }

  /** A paragraph line: a `p` with `attrs` in the current div, holding the
    * content when there is any, made current with no group and the verse
    * index 0. */
  function ParaStep(s: St, attrs: Attrs, content: string): (r: St)
    requires Inv(s)
    ensures Inv(r) && Extends(s.doc, r.doc)
    ensures var n := |s.doc.elems|;
            |r.doc.elems| == n + 1 && r.doc.up[n] == Some(s.div) && r.p == Some(n)
            && r.doc.elems[n] == Elem("p", attrs, if content == [] then None else Some(content), None)
    ensures r.div == s.div && r.lg.None? && r.verseIndex == 0
    ensures r.lbCounter == s.lbCounter && r.lastWasProse == s.lastWasProse
  {
    var (d, n) := SubElement(s.doc, s.div, "p", attrs);
    var d' := if content == [] then d else SetText(d, n, Some(content));
    s.(doc := d', p := Some(n), lg := None, verseIndex := 0)
  }

  /** `_handle_line`: a whole-line `{...}` opens a div, a `[label] text`
    * line a paragraph, and any other line is scanned token by token and
    * closed by `EndStep`. */
  function LineStep(s: St, line: string): (r: (St, Outcome))
    requires Inv(s)
    ensures Inv(r.0) && Extends(s.doc, r.0.doc)
  {
    match MatchBracedLine(line)
    case Some(num) => (DivStep(s, num), Pass)
    case None =>
      match MatchParaLine(line)
      case Some((raw, content)) => (ParaStep(s, E.ParaAttrs(Strip(raw)), content), Pass)
      case None =>
        var (s1, o) := Run(s, Tokens(line));
        if o.Raise? then (s1, o) else EndStep(s1)
  }

  /** `build`: the lines in turn; an exception ends the run. */
  function BuildRun(s: St, lines: seq<string>): (r: (St, Outcome))
    requires Inv(s)
    ensures Inv(r.0) && Extends(s.doc, r.0.doc)
    decreases |lines|
  {
    if lines == [] then (s, Pass)
    else
      var (s1, o) := LineStep(s, lines[0]);
      if o.Raise? then (s1, o) else BuildRun(s1, lines[1..])
  }

  // -------------------------------------------------------------------
  // `TEIBuilder`
  // -------------------------------------------------------------------

  /** The builder object: its fields are updated in place, and every
    * method is proved to leave them as the matching step function says. */
  class BkBuilder {
    const verseOnly: bool
    var doc: Doc
    var currentDiv: nat
    var currentP: Option<nat>
    var currentLg: Option<nat>
    var verseIndex: nat
    var lbCounter: nat
    var lastWasProse: Option<bool>

    function State(): St
      reads this
    {
      St(doc, currentDiv, currentP, currentLg, verseIndex, lbCounter, lastWasProse)
    }

    ghost predicate Valid()
      reads this
    {
      Inv(State())
    }

    /** `verse_only` is stored but never changes a result: the paragraph
      * branch that reads it needs content starting with a tab, which the
      * paragraph pattern cannot produce (`MatchParaLine`). */
    constructor(verseOnly: bool)
      ensures Valid() && State() == Start() && this.verseOnly == verseOnly
    {
      this.verseOnly := verseOnly;
      var (d0, root) := NewElement(Empty(), "TEI", map[]);
      var (d1, body) := SubElement(d0, root, "body", map[]);
      doc := d1;
      currentDiv := body;
      currentP := None;
      currentLg := None;
      verseIndex := 0;
      lbCounter := 1;
      lastWasProse := None;
    }

    method Build(lines: seq<string>) returns (out: Outcome)
      requires Valid()
      modifies this
      ensures Valid() && (State(), out) == BuildRun(old(State()), lines)
    {
      out := Pass;
      var i := 0;
      while i < |lines|
        invariant i <= |lines| && Valid() && out.Pass?
        invariant BuildRun(State(), lines[i..]) == BuildRun(old(State()), lines)
        decreases |lines| - i
      {
        BuildCons(State(), lines[i..]);
        assert lines[i..][1..] == lines[i + 1..];
        out := HandleLine(lines[i]);
        if out.Raise? {
          return;
        }
        i := i + 1;
      }
    }

    method HandleLine(line: string) returns (out: Outcome)
      requires Valid()
      modifies this
      ensures Valid() && (State(), out) == LineStep(old(State()), line)
    {
      match MatchBracedLine(line)
      case Some(num) =>
        OpenDiv(num);
        out := Pass;
      case None =>
        match MatchParaLine(line)
        case Some((raw, content)) =>
          OpenPara(E.ParaAttrs(Strip(raw)), content);
          out := Pass;
        case None =>
          var parts := SplitLine(line);
          out := ScanLine(parts);
          if out.Pass? {
            out := EndLine();
          }
    }

    /** `_scan_line` and the loop consuming it: each part in turn, a tab
      * taking the part after it as its verse. */
    method ScanLine(parts: seq<string>) returns (out: Outcome)
      requires Valid()
      modifies this
      ensures Valid() && (State(), out) == Run(old(State()), TokensFrom(parts, 0))
    {
      out := Pass;
      var i := 0;
      while i < |parts|
        invariant Valid() && out.Pass?
        invariant Run(State(), TokensFrom(parts, i)) == Run(old(State()), TokensFrom(parts, 0))
        decreases |parts| - i
      {
        var next;
        out, next := ScanPart(parts, i);
        if out.Raise? {
          return;
        }
        i := next;
      }
    }

    /** One part of the split line: a skipped empty part, a page break,
      * a tab with the verse after it, or prose. */
    method ScanPart(parts: seq<string>, i: nat) returns (out: Outcome, next: nat)
      requires Valid() && i < |parts|
      modifies this
      ensures Valid() && next > i
      ensures out.Pass? ==> Run(State(), TokensFrom(parts, next)) == Run(old(State()), TokensFrom(parts, i))
      ensures out.Raise? ==> (State(), out) == Run(old(State()), TokensFrom(parts, i))
    {
      out := Pass;
      var part := parts[i];
      if part == [] {
        TokensAt(parts, i);
        next := i + 1;
      } else if PbMatch(part).Some? {
        var n := PbMatch(part).value;
        ScanPbCase(State(), parts, i);
        EmitPb(n);
        next := i + 1;
      } else if part == "\t" {
        var text := if i + 1 < |parts| then parts[i + 1] else [];
        ScanVerseCase(State(), parts, i);
        out := EmitVerse(text);
        next := i + 2;
      } else {
        ScanProseCase(State(), parts, i);
        EmitProse(part);
        next := i + 1;
      }
    }

    method EmitPb(n: string)
      requires Valid()
      modifies this
      ensures Valid() && State() == PbStep(old(State()), n)
    {
      var c := CurrentPOrImplicit();
      var (d, _) := SubElement(doc, c, "pb", map["n" := n]);
      doc := d;
      verseIndex := 0;
      lastWasProse := Some(false);
    }

    method EmitProse(t: string)
      requires Valid()
      modifies this
      ensures Valid() && State() == ProseStep(old(State()), t)
    {
      var c := CurrentPOrImplicit();
      doc := SetTail(doc, c, Some(Appended(doc.elems[c].tail, t)));
      lastWasProse := Some(true);
    }

    /** `_emit_verse_segment`. */
    method EmitVerse(t: string) returns (out: Outcome)
      requires Valid()
      modifies this
      ensures Valid() && (State(), out) == VerseStep(old(State()), t)
    {
      OpenVerseGroup();
      out := AddVerseLine(t);
    }

    /** The label, the `l` and its `caesura`, once the group is open. */
    method AddVerseLine(t: string) returns (out: Outcome)
      requires Valid() && currentLg.Some?
      modifies this
      ensures Valid() && (State(), out) == VerseLineStep(old(State()), t)
    {
      ghost var s := State();
      match LetterPair(verseIndex)
      case None =>
        out := Raise("ValueError");
      case Some(seg) =>
        var d := VerseLine(doc, currentLg.value, seg, t);
        doc, verseIndex, lastWasProse := d, verseIndex + 1, Some(false);
        out := Pass;
        assert State() == s.(doc := d, verseIndex := s.verseIndex + 1, lastWasProse := Some(false));
    }

    /** The paragraph and line group `_emit_verse_segment` makes sure of. */
    method OpenVerseGroup()
      requires Valid()
      modifies this
      ensures Valid() && State() == VerseOpenStep(old(State()))
    {
      if currentP.None? {
        OpenImplicitP();
      }
      if currentLg.None? {
        var (d, g) := SubElement(doc, currentP.value, "lg", map[]);
        doc := d;
        currentLg := Some(g);
        verseIndex := 0;
      }
    }

    method OpenImplicitP()
      requires Valid()
      modifies this
      ensures Valid() && State() == ImplicitStep(old(State()))
    {
      var (d, n) := SubElement(doc, currentDiv, "p", E.ImplicitAttrs("vimplicit"));
      doc := d;
      currentP := Some(n);
    }

    /** `self.current_p or self._open_implicit_p()`. */
    method CurrentPOrImplicit() returns (c: nat)
      requires Valid()
      modifies this
      ensures Valid() && (State(), c) == ParentStep(old(State()))
    {
      if Truthy(doc, currentP) {
        c := currentP.value;
      } else {
        c := |doc.elems|;
        OpenImplicitP();
      }
    }

    /** The end of `_handle_line` for a scanned line. */
    method EndLine() returns (out: Outcome)
      requires Valid()
      modifies this
      ensures Valid() && (State(), out) == EndStep(old(State()))
    {
      match lastWasProse
      case None =>
        out := Raise("AttributeError");
      case Some(prose) =>
        out := Pass;
        if prose {
          AddLb();
        }
    }

    /** The numbered line break after a line that ended in prose. */
    method AddLb()
      requires Valid() && lastWasProse == Some(true)
      modifies this
      ensures Valid() && State() == EndStep(old(State())).0
    {
      var c := CurrentPOrImplicit();
      var (d, _) := SubElement(doc, c, "lb", map["n" := NatToString(lbCounter)]);
      doc := d;
      lbCounter := lbCounter + 1;
    }

    method OpenDiv(num: string)
      requires Valid()
      modifies this
      ensures Valid() && State() == DivStep(old(State()), num)
    {
      var (d, n) := SubElement(doc, Body, "div", E.DivAttrs(num));
      doc := d;
      currentDiv := n;
      currentP := None;
      currentLg := None;
    }

    /** The paragraph branch of `_handle_line`; `attrs` are the id made
      * from the label and the label. */
    method OpenPara(attrs: Attrs, content: string)
      requires Valid()
      modifies this
      ensures Valid() && State() == ParaStep(old(State()), attrs, content)
    {
      var (d, n) := SubElement(doc, currentDiv, "p", attrs);
      if content != [] {
        d := SetText(d, n, Some(content));
      }
      doc := d;
      currentP := Some(n);
      currentLg := None;
      verseIndex := 0;
    }
  }

  /** The token, if any, that the part at `i` gives, in front of the rest. */
  lemma TokensAt(parts: seq<string>, i: nat)
    requires i < |parts|
    ensures parts[i] == [] ==> TokensFrom(parts, i) == TokensFrom(parts, i + 1)
    ensures parts[i] != [] && PbMatch(parts[i]).Some? ==>
      TokensFrom(parts, i) == [PbTok(PbMatch(parts[i]).value)] + TokensFrom(parts, i + 1)
    ensures parts[i] != [] && PbMatch(parts[i]).None? && parts[i] == "\t" ==>
      TokensFrom(parts, i) == [VerseTok(if i + 1 < |parts| then parts[i + 1] else [])] + TokensFrom(parts, i + 2)
    ensures parts[i] != [] && PbMatch(parts[i]).None? && parts[i] != "\t" ==>
      TokensFrom(parts, i) == [ProseTok(parts[i])] + TokensFrom(parts, i + 1)
  {
  }

  lemma ScanPbCase(s: St, parts: seq<string>, i: nat)
    requires Inv(s) && i < |parts| && parts[i] != [] && PbMatch(parts[i]).Some?
    ensures Run(s, TokensFrom(parts, i)) == Run(PbStep(s, PbMatch(parts[i]).value), TokensFrom(parts, i + 1))
  {
    TokensAt(parts, i);
    RunCons(s, PbTok(PbMatch(parts[i]).value), TokensFrom(parts, i + 1));
  }

  lemma ScanVerseCase(s: St, parts: seq<string>, i: nat)
    requires Inv(s) && i < |parts| && parts[i] != [] && PbMatch(parts[i]).None? && parts[i] == "\t"
    ensures var text := if i + 1 < |parts| then parts[i + 1] else [];
            Run(s, TokensFrom(parts, i)) == (var (s1, o) := TokenStep(s, VerseTok(text));
                                             if o.Raise? then (s1, o) else Run(s1, TokensFrom(parts, i + 2)))
  {
    TokensAt(parts, i);
    var text := if i + 1 < |parts| then parts[i + 1] else [];
    RunCons(s, VerseTok(text), TokensFrom(parts, i + 2));
  }

  lemma ScanProseCase(s: St, parts: seq<string>, i: nat)
    requires Inv(s) && i < |parts| && parts[i] != [] && PbMatch(parts[i]).None? && parts[i] != "\t"
    ensures Run(s, TokensFrom(parts, i)) == Run(ProseStep(s, parts[i]), TokensFrom(parts, i + 1))
  {
    TokensAt(parts, i);
    RunCons(s, ProseTok(parts[i]), TokensFrom(parts, i + 1));
  }

  /** The first line, then the rest unless it raised. */
  lemma BuildCons(s: St, lines: seq<string>)
    requires Inv(s) && lines != []
    ensures BuildRun(s, lines) == (var (s1, o) := LineStep(s, lines[0]); if o.Raise? then (s1, o) else BuildRun(s1, lines[1..]))
  {
  }

  /** One token in front of the rest: its step, then the rest unless it
    * raised. */
  lemma RunCons(s: St, t: Token, rest: seq<Token>)
    requires Inv(s)
    ensures Run(s, [t] + rest) == (var (s1, o) := TokenStep(s, t); if o.Raise? then (s1, o) else Run(s1, rest))
  {
    assert ([t] + rest)[1..] == rest;
  }

  // -------------------------------------------------------------------
  // Properties
  // -------------------------------------------------------------------

  /** The line-break counter moves only when a scanned line ends in prose,
    * and then by one. */
  lemma {:induction false} LbCounterStep(s: St, line: string)
    requires Inv(s)
    ensures var (r, o) := LineStep(s, line);
            r.lbCounter == s.lbCounter
            || (r.lbCounter == s.lbCounter + 1 && o.Pass? && r.lastWasProse == Some(true))
  {
    if MatchBracedLine(line).None? && MatchParaLine(line).None? {
      var (s1, o) := Run(s, Tokens(line));
      if o.Pass? {
        var (r, o2) := EndStep(s1);
        assert r.lbCounter == s1.lbCounter || s1.lastWasProse == Some(true);
      }
    }
  }

  /** Distinct counter values give distinct `n` attributes on the `lb`s. */
  lemma LbNumbersDistinct(a: nat, b: nat)
    requires NatToString(a) == NatToString(b)
    ensures a == b
  {
    DecimalValueOfNatToString(a);
    DecimalValueOfNatToString(b);
  }

  /** Tokens render to something, so a line without characters has none. */
  lemma {:induction false} RenderNonEmpty(toks: seq<Token>)
    requires TokensOk(toks) && toks != []
    ensures Render(toks) != []
  {
    assert TokensOk([toks[0]]) by {
      assert toks[0] == [toks[0]][0];
    }
    match toks[0]
    case PbTok(n) =>
    case VerseTok(t) =>
    case ProseTok(t) =>
  }

  /** An empty line is neither a div nor a paragraph line and has no
    * token, so while the prose flag is unset it raises `AttributeError`. */
  lemma EmptyLineBeforeAnyToken(s: St)
    requires Inv(s) && s.lastWasProse.None?
    ensures LineStep(s, []) == (s, Raise("AttributeError"))
  {
    EmptyLineNoTokens();
  }

  /** After a line ending in prose, an empty line adds one more `lb`: the
    * flag is kept from line to line. */
  lemma EmptyLineAfterProse(s: St)
    requires Inv(s) && s.lastWasProse == Some(true)
    ensures var (r, o) := LineStep(s, []);
            var last := |r.doc.elems| - 1;
            o.Pass? && r.lbCounter == s.lbCounter + 1 && last >= |s.doc.elems|
            && r.doc.elems[last] == Elem("lb", map["n" := NatToString(s.lbCounter)], None, None)
  {
    EmptyLineNoTokens();
  }

  lemma EmptyLineNoTokens()
    ensures MatchBracedLine([]).None? && MatchParaLine([]).None? && Tokens([]) == []
  {
    var toks := Tokens([]);
    if toks != [] {
      RenderNonEmpty(toks);
    }
  }

  /** The current paragraph takes a page break only when it already has
    * a child: lxml elements without children are false, so an empty
    * current paragraph is replaced by a new implicit one. */
  lemma EmptyParagraphReplaced(s: St, n: string)
    requires Inv(s) && s.p.Some? && s.doc.kids[s.p.value] == []
    ensures PbStep(s, n).p == Some(|s.doc.elems|) && PbStep(s, n).p != s.p
    ensures PbStep(s, n).doc.elems[|s.doc.elems|] == Elem("p", E.ImplicitAttrs("vimplicit"), None, None)
  {
  }

  /** A page break restarts the labels but keeps the line group: the next
    * verse is labelled "ab" again, in the same group. */
  lemma PageBreakRestartsLabels(s: St, n: string, t: string)
    requires Inv(s) && s.lg.Some?
    ensures var s1 := PbStep(s, n);
            var (r, o) := VerseStep(s1, t);
            o.Pass? && r.lg == s.lg && EndsWithL(s1.doc, r.doc, s.lg, Some("ab"), t)
  {
    FirstPair();
  }

  /** Two verses in a new group are labelled "ab" and "cd", the second in
    * the group the first one opened. */
  lemma TwoVersesInNewGroup(s: St, a: string, b: string)
    requires Inv(s) && s.lg.None?
    ensures var (s1, o1) := VerseStep(s, a);
            o1.Pass? && s1.verseIndex == 1 && s1.lg.Some?
            && EndsWithL(s.doc, s1.doc, s1.lg, Some("ab"), a)
            && var (s2, o2) := VerseStep(s1, b);
               o2.Pass? && s2.lg == s1.lg && EndsWithL(s1.doc, s2.doc, s1.lg, Some("cd"), b)
  {
    FirstVerse(s, a);
    SecondVerse(VerseStep(s, a).0, b);
  }

  lemma FirstVerse(s: St, a: string)
    requires Inv(s) && s.lg.None?
    ensures var r := VerseStep(s, a);
            r.1.Pass? && r.0.verseIndex == 1 && r.0.lg.Some?
            && EndsWithL(s.doc, r.0.doc, r.0.lg, Some("ab"), a)
  {
    FirstPair();
  }

  lemma FirstPair()
    ensures LetterPair(0) == Some("ab")
  {
    var ab := LetterPair(0).value;
    assert ab[0] as int == 97 && ab[1] as int == 98;
  }

  lemma SecondVerse(s1: St, b: string)
    requires Inv(s1) && s1.lg.Some? && s1.verseIndex == 1
    ensures var r := VerseStep(s1, b);
            r.1.Pass? && r.0.lg == s1.lg && EndsWithL(s1.doc, r.0.doc, s1.lg, Some("cd"), b)
  {
    SecondPair();
  }

  lemma SecondPair()
    ensures LetterPair(1) == Some("cd")
  {
    var cd := LetterPair(1).value;
    assert cd[0] as int == 99 && cd[1] as int == 100;
  }
}
