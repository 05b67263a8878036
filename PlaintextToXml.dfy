/** The plaintext-to-TEI converter (utils/transforms/convert_plaintext_to_xml.py):
  * a leading `{label}` opens a div under the body, a leading `[label]` a
  * paragraph (in verse-only mode a verse number and its segment letters),
  * a leading `<n>` a page break, and each remaining non-blank line is
  * written, HTML-escaped, into the current text parent followed by a
  * numbered `lb`. A tab-initial line outside verse-only mode goes into a
  * line group; a trailing `|| n ||` or `|` closes the current `l`. The
  * converter's state lives in local variables updated line by line, so
  * it is a class whose fields are those variables, proved against pure
  * step functions. */
module PlaintextToXml {
  import opened Wrappers
  import opened Strings
  import opened XmlTree
  import P = TeiBuilderPatterns
  import EP = EarlyPatterns
  import U = TeiUtils

  // -------------------------------------------------------------------
  // String helpers
  // -------------------------------------------------------------------

  /** Stripping characters from the right stops at a kept last character. */
  lemma {:induction false} TrimRightAppend(x: string, y: string, drop: char -> bool)
    requires forall i :: 0 <= i < |y| ==> drop(y[i])
    requires x == [] || !drop(x[|x| - 1])
    ensures TrimRight(x + y, drop) == x
    decreases |y|
  {
    if y == [] {
      assert x + y == x;
    } else {
      var z := x + y;
      assert z[..|z| - 1] == x + y[..|y| - 1];
      TrimRightAppend(x, y[..|y| - 1], drop);
    }
  }

  /** Stripping characters from the left stops at a kept first character. */
  lemma {:induction false} TrimLeftPrepend(x: string, y: string, drop: char -> bool)
    requires forall i :: 0 <= i < |x| ==> drop(x[i])
    requires y == [] || !drop(y[0])
    ensures TrimLeft(x + y, drop) == y
    decreases |x|
  {
    if x == [] {
      assert x + y == y;
    } else {
      assert (x + y)[1..] == x[1..] + y;
      TrimLeftPrepend(x[1..], y, drop);
    }
  }

  lemma DigitNotSpace(c: char)
    requires IsDigit(c)
    ensures !IsSpace(c)
  {
  }

  // -------------------------------------------------------------------
  // `_RE_BAR_NUM` and `_RE_SINGLE_BAR`
  // -------------------------------------------------------------------

  /** How a line matched by `\|\|\s*(\d+)\s*\|\|\s*$` falls apart: the text
    * before the first pair of bars, the gaps around the number, the
    * number and the whitespace after the closing bars. */
  datatype BarPieces = BarPieces(head: string, gap1: string, digits: string, gap2: string, trail: string)

  predicate WellFormedBars(b: BarPieces)
  {
    IsBlank(b.gap1) && IsBlank(b.gap2) && IsBlank(b.trail) && b.digits != [] && P.AllDigits(b.digits)
  }

  function BarsLine(b: BarPieces): string
  {
    b.head + "||" + b.gap1 + b.digits + b.gap2 + "||" + b.trail
  }

  /** A pair of bars followed only by whitespace: the text before the
    * bars and the whitespace after them. Both `\|\|\s*$` at the end of
    * the line and the opening `\|\|\s*` before the number take this form. */
  function TrailingBars(line: string): (r: Option<(string, string)>)
    ensures r.Some? ==> r.value.0 + "||" + r.value.1 == line && IsBlank(r.value.1)
  {
    var t := RStrip(line);
    if |t| >= 2 && t[|t| - 2..] == "||" then
      assert IsBlank(line[|t|..]) by {
        assert forall i :: 0 <= i < |line| - |t| ==> line[|t|..][i] == line[|t| + i];
      }
      assert t == t[..|t| - 2] + "||";
      assert line == t + line[|t|..];
      Some((t[..|t| - 2], line[|t|..]))
    else None
  }

  lemma TrailingBarsComplete(x: string, w: string)
    requires IsBlank(w)
    ensures TrailingBars(x + "||" + w) == Some((x, w))
  {
    var y := x + "||";
    assert x + "||" + w == y + w;
    TrimRightAppend(y, w, IsSpace);
    assert y[|y| - 2..] == "||" && y[..|y| - 2] == x;
    assert (y + w)[|y|..] == w;
  }

  /** `\s*(\d+)\s*` ending the text before the closing bars: what comes
    * before the digits, the digits and the whitespace after them. */
  function Number(before: string): (r: Option<(string, string, string)>)
    ensures r.Some? ==> var (h, d, g) := r.value;
            h + d + g == before && d != [] && P.AllDigits(d) && IsBlank(g) && (h == [] || !IsDigit(h[|h| - 1]))
  {
    var v := RStrip(before);
    var h := TrimRight(v, IsDigit);
    if |h| < |v| then
      var d := v[|h|..];
      var g := before[|v|..];
      assert P.AllDigits(d) by {
        assert forall i :: 0 <= i < |d| ==> d[i] == v[|h| + i];
      }
      assert IsBlank(g) by {
        assert forall i :: 0 <= i < |g| ==> g[i] == before[|v| + i];
      }
      assert v == h + d;
      assert before == v + g;
      Some((h, d, g))
    else None
  }

  lemma NumberComplete(h: string, d: string, g: string)
    requires d != [] && P.AllDigits(d) && IsBlank(g) && (h == [] || !IsDigit(h[|h| - 1]))
    ensures Number(h + d + g) == Some((h, d, g))
  {
    var v := h + d;
    DigitNotSpace(d[|d| - 1]);
    assert v[|v| - 1] == d[|d| - 1];
    assert h + d + g == v + g;
    TrimRightAppend(v, g, IsSpace);
    TrimRightAppend(h, d, IsDigit);
    assert v[|h|..] == d;
    assert (v + g)[|v|..] == g;
  }

  /** `_RE_BAR_NUM.search(line)`: the closing bars, the number before them
    * and the opening bars before that. */
  function BarNum(line: string): (r: Option<BarPieces>)
    ensures r.Some? ==> WellFormedBars(r.value) && BarsLine(r.value) == line
  {
    match TrailingBars(line)
    case None => None
    case Some((before, trail)) =>
      match Number(before)
      case None => None
      case Some((h, d, gap2)) =>
        match TrailingBars(h)
        case None => None
        case Some((head, gap1)) =>
          var b := BarPieces(head, gap1, d, gap2, trail);
          assert BarsLine(b) == head + "||" + gap1 + d + gap2 + "||" + trail;
          Some(b)
  }

  /** Every line of the matched shape is matched, with exactly those
    * pieces: the number is the group `\d+` captures. */
  lemma BarNumComplete(b: BarPieces)
    requires WellFormedBars(b)
    ensures BarNum(BarsLine(b)) == Some(b)
  {
    var h := b.head + "||" + b.gap1;
    var before := h + b.digits + b.gap2;
    assert BarsLine(b) == before + "||" + b.trail;
    TrailingBarsComplete(before, b.trail);
    assert !IsDigit(h[|h| - 1]) by {
      if b.gap1 == [] {
        assert h[|h| - 1] == '|';
      } else {
        assert h[|h| - 1] == b.gap1[|b.gap1| - 1];
        assert IsSpace(h[|h| - 1]);
      }
    }
    NumberComplete(h, b.digits, b.gap2);
    TrailingBarsComplete(b.head, b.gap1);
  }

  /** `_RE_SINGLE_BAR.search(line)` is tried only when the number pattern
    * did not match. */
  function SingleBar(line: string): (r: bool)
    ensures r ==> BarNum(line).None? && EP.EndsInBar(line)
  {
    BarNum(line).None? && EP.EndsInBar(line)
  }

  /** A line whose number pattern matched also ends in a bar, so the single
    * bar test is skipped, not failed. */
  lemma NumberedLineEndsInBar(b: BarPieces)
    requires WellFormedBars(b)
    ensures EP.EndsInBar(BarsLine(b)) && !SingleBar(BarsLine(b))
  {
    var x := b.head + "||" + b.gap1 + b.digits + b.gap2 + "||";
    assert BarsLine(b) == x + b.trail;
    TrimRightAppend(x, b.trail, IsSpace);
    BarNumComplete(b);
  }

  // -------------------------------------------------------------------
  // The verse-only label `^([0-9.]+)([a-z]*)$`
  // -------------------------------------------------------------------

  predicate IsNumOrDot(c: char)
  {
    '0' <= c <= '9' || c == '.'
  }

  predicate AllNumOrDot(s: string)
  {
    forall i :: 0 <= i < |s| ==> IsNumOrDot(s[i])
  }

  predicate AllLower(s: string)
  {
    forall i :: 0 <= i < |s| ==> 'a' <= s[i] <= 'z'
  }

  /** The verse number and segment letters of a stripped label; a label of
    * another shape is all verse number, with no letters. */
  function SplitVerseLabel(lab: string): (r: (string, string))
    ensures r.0 + r.1 == lab
    ensures r.1 != [] ==> r.0 != [] && AllNumOrDot(r.0) && AllLower(r.1)
  {
    var rest := TrimLeft(lab, IsNumOrDot);
    var num := lab[..|lab| - |rest|];
    assert lab == num + rest;
    if num != [] && AllLower(rest) then (num, rest) else (lab, "")
  }

  /** Every verse number followed by lower-case letters splits there. */
  lemma SplitVerseLabelComplete(num: string, letters: string)
    requires num != [] && AllNumOrDot(num) && AllLower(letters)
    ensures SplitVerseLabel(num + letters) == (num, letters)
  {
    TrimLeftPrepend(num, letters, IsNumOrDot);
    var lab := num + letters;
    assert lab[..|lab| - |letters|] == num;
  }

  // -------------------------------------------------------------------
  // The leading markers of a line
  // -------------------------------------------------------------------

  /** `^\{([^}]+)\}`: the stripped label and the rest, left-stripped. */
  function DivPrefix(line: string): (r: (Option<string>, string))
    ensures r.0.None? ==> r.1 == line
  {
    match EP.Bracketed(line, '{', '}')
    case Some((inner, e)) => (Some(Strip(inner)), LStrip(line[e..]))
    case None => (None, line)
  }

  /** What is left after a label: one tab dropped when the rest starts with
    * one, and otherwise all leading whitespace. */
  function AfterLabel(after: string): (r: string)
  {
    if StartsWith(after, "\t") then after[1..] else LStrip(after)
  }

  /** `^\[([^]]+)\]`: the stripped label and the text after it. */
  function LabelPrefix(line: string): (r: (Option<string>, string))
    ensures r.0.None? ==> r.1 == line
  {
    match EP.Bracketed(line, '[', ']')
    case Some((inner, e)) => (Some(Strip(inner)), AfterLabel(line[e..]))
    case None => (None, line)
  }

  /** `^<([^>]+)>`: the stripped page number and the rest, left-stripped. */
  function PbPrefix(line: string): (r: (Option<string>, string))
    ensures r.0.None? ==> r.1 == line
  {
    match EP.Bracketed(line, '<', '>')
    case Some((inner, e)) => (Some(Strip(inner)), LStrip(line[e..]))
    case None => (None, line)
  }

  /** A line taken apart: the markers it starts with, in the order they
    * are tried, and the text left for the tree, none when that is blank. */
  datatype Parsed = Parsed(div: Option<string>, lab: Option<string>, pb: Option<string>, text: Option<string>)

  function ParseLine(line: string): (r: Parsed)
    ensures r.text.Some? ==> !IsBlank(r.text.value)
  {
    var (div, l1) := DivPrefix(line);
    var (lab, l2) := LabelPrefix(l1);
    var (pb, l3) := PbPrefix(l2);
    Parsed(div, lab, pb, if IsBlank(l3) then None else Some(l3))
  }

  /** A braced label followed by nothing but whitespace is a div line and
    * nothing else; its id is the label stripped. */
  lemma DivLineParse(inner: string, rest: string)
    requires inner != [] && '}' !in inner && IsBlank(rest)
    ensures ParseLine("{" + inner + "}" + rest) == Parsed(Some(Strip(inner)), None, None, None)
  {
    EP.BracketedComplete('{', '}', inner, rest);
    var line := "{" + inner + "}" + rest;
    assert line == ['{'] + inner + ['}'] + rest;
    assert line[|inner| + 2..] == rest;
    assert LStrip(rest) == [];
  }

  /** The parts that nothing matched pass through unchanged, and an empty
    * rest has no more markers and no text: every early `continue` of the
    * loop is the same as going on with nothing left. */
  lemma EmptyRest()
    ensures LabelPrefix([]) == (None, []) && PbPrefix([]) == (None, [])
    ensures ParseLine([]) == Parsed(None, None, None, None)
  {
  }

  // -------------------------------------------------------------------
  // Converter state
  // -------------------------------------------------------------------

  /** The local variables of `build_tei`: the tree, the current div (the
    * `container`), paragraph, line group and line, the verse number and
    * segment letters of the last verse label, where text goes, and the
    * line-break counter. `verse_only` is a separate parameter. */
  datatype St = St(doc: Doc, container: nat, p: Option<nat>, lg: Option<nat>, l: Option<nat>,
                   verseNum: Option<string>, letters: string, textParent: nat, lbCounter: nat)

  /** The body: element 1, under the `TEI` root 0. */
  const Body: nat := 1

  predicate In(d: Doc, n: Option<nat>)
  {
    n.Some? ==> n.value < |d.elems|
  }

  /** Every cursor points into the tree; an open `l` has an open group and
    * an open group an open paragraph; the counter never goes below 2. */
  predicate Inv(s: St)
  {
    Wf(s.doc) && Body < |s.doc.elems| && s.container < |s.doc.elems| && s.textParent < |s.doc.elems|
    && In(s.doc, s.p) && In(s.doc, s.lg) && In(s.doc, s.l)
    && (s.l.Some? ==> s.lg.Some?) && (s.lg.Some? ==> s.p.Some?)
    && s.lbCounter >= 2
  }

  /** The state before the first line: a `TEI` root with its `body`, which
    * is both the container and the text parent, and the counter at 2. */
  function Start(): (r: St)
    ensures Inv(r) && r.lbCounter == 2 && r.container == Body && r.textParent == Body
    ensures r.p.None? && r.lg.None? && r.l.None?
    ensures r.doc.elems == [Elem("TEI", map[], None, None), Elem("body", map[], None, None)]
  {
    var (d0, root) := NewElement(Empty(), "TEI", map[]);
    var (d1, body) := SubElement(d0, root, "body", map[]);
    St(d1, body, None, None, None, None, "", body, 2)
  }

  /** The tags the three openers create. */
  predicate Opened(tag: string)
  {
    tag == "p" || tag == "lg" || tag == "l"
  }

  /** `d2` is `d1` with elements added: every existing element keeps its
    * contents and its parent. */
  predicate Grows(d1: Doc, d2: Doc)
  {
    d1.elems <= d2.elems && d1.up <= d2.up
  }

  /** Every element added between `d1` and `d2` is a `p`, `lg` or `l`. */
  ghost predicate OnlyOpened(d1: Doc, d2: Doc)
  {
    forall i :: |d1.elems| <= i < |d2.elems| ==> Opened(d2.elems[i].tag)
  }

  // -------------------------------------------------------------------
  // `_open_paragraph`, `_open_lg`, `_open_new_l`
  // -------------------------------------------------------------------

  /** The attributes `_open_paragraph(meta)` gives its `p`: `xml:id` is
    * `make_xml_id(meta)` of the shared helpers, which callers compute and
    * pass as `id` (see `ImplicitXmlId` for the implicit paragraph). */
  function ParaAttrs(meta: string, id: string): (r: Attrs)
    ensures r.Keys == {"xml:id", "n"} && r["n"] == meta && r["xml:id"] == id
  {
    map["xml:id" := id, "n" := meta]
  }

  /** The implicit paragraph's id: `make_xml_id("implicit")` is `vimplicit`. */
  lemma ImplicitXmlId(s: string)
    requires s == "implicit"
    ensures U.MakeXmlId(s) == "vimplicit"
  {
    ImplicitUnderscored(s);
    ImplicitNotPageLine(s);
    ImplicitWordRun(s);
  }

  lemma ImplicitNotPageLine(s: string)
    requires s == "implicit"
    ensures !U.IsPageLine(s)
  {
    assert ',' !in s;
  }

  lemma ImplicitWordRun(s: string)
    requires s == "implicit"
    ensures ReplaceNonWordRuns(s) == s
  {
    EP.ImplicitWordChars();
  }

  lemma ImplicitUnderscored(s: string)
    requires s == "implicit"
    ensures U.Underscored(s) == s
  {
    EP.StripIdentity(s);
    U.ReplaceNoOccurrence(s);
  }

  /** The group carries the verse number only in verse-only mode and only
    * when the number is a non-empty string. */
  function LgAttrs(verseOnly: bool, verseNum: Option<string>): (r: Attrs)
    ensures "n" in r <==> verseOnly && verseNum.Some? && verseNum.value != []
    ensures "n" in r ==> r == map["n" := verseNum.value]
    ensures "n" !in r ==> r == map[]
  {
    if verseOnly && verseNum.Some? && verseNum.value != [] then map["n" := verseNum.value] else map[]
  }

  /** A line carries the segment letters only in verse-only mode and only
    * when there are some. */
  function LAttrs(verseOnly: bool, letters: string): (r: Attrs)
    ensures "n" in r <==> verseOnly && letters != []
    ensures "n" in r ==> r == map["n" := letters]
    ensures "n" !in r ==> r == map[]
  {
    if verseOnly && letters != [] then map["n" := letters] else map[]
  }

  /** The first half of `_open_paragraph`: a `p` in the container, with
    * `xml:id` and `n` from `meta`, as the new text parent, the group and
    * line closed and the verse number remembered in verse-only mode. */
  function NewParagraph(verseOnly: bool, s: St, meta: string, id: string): (r: St)
    requires Inv(s)
    ensures Inv(r) && Grows(s.doc, r.doc)
    ensures r.doc.elems == s.doc.elems + [Elem("p", ParaAttrs(meta, id), None, None)]
    ensures r.doc.up == s.doc.up + [Some(s.container)]
    ensures r.p == Some(|s.doc.elems|) && r.textParent == |s.doc.elems|
    ensures r.lg.None? && r.l.None? && r.verseNum == (if verseOnly then Some(meta) else None)
    ensures r.container == s.container && r.letters == s.letters && r.lbCounter == s.lbCounter
  {
    var (d, n) := SubElement(s.doc, s.container, "p", ParaAttrs(meta, id));
    s.(doc := d, p := Some(n), lg := None, l := None,
       verseNum := if verseOnly then Some(meta) else None, textParent := n)
  }

  /** `_open_paragraph(meta)`: a new paragraph, and in verse-only mode a
    * group and a line in it, the line becoming the text parent. */
  function OpenParagraphStep(verseOnly: bool, s: St, meta: string, id: string): (r: St)
    requires Inv(s)
    ensures Inv(r) && Grows(NewParagraph(verseOnly, s, meta, id).doc, r.doc) && OnlyOpened(s.doc, r.doc)
    ensures r.p == Some(|s.doc.elems|)
    ensures !verseOnly ==> r == NewParagraph(verseOnly, s, meta, id)
    ensures verseOnly ==> r.lg.Some? && r.l.Some? && r.textParent == r.l.value
    ensures r.container == s.container && r.letters == s.letters && r.lbCounter == s.lbCounter
    decreases 2
  {
    var s1 := NewParagraph(verseOnly, s, meta, id);
    if verseOnly then OpenLgStep(verseOnly, s1) else s1
  }

  /** A group with `n` set as `_open_lg` sets it, in the open paragraph. */
  function AddLg(verseOnly: bool, s: St): (r: St)
    requires Inv(s) && s.p.Some?
    ensures Inv(r) && Grows(s.doc, r.doc)
    ensures OnlyOpened(s.doc, r.doc)
    ensures r.doc.elems == s.doc.elems + [Elem("lg", LgAttrs(verseOnly, s.verseNum), None, None)]
    ensures r.doc.up == s.doc.up + [s.p]
    ensures r == s.(doc := r.doc, lg := Some(|s.doc.elems|))
  {
    var (d, g) := SubElement(s.doc, s.p.value, "lg", LgAttrs(verseOnly, s.verseNum));
    s.(doc := d, lg := Some(g))
  }

  /** A line with `n` set as `_open_new_l` sets it, in the open group, as
    * the text parent. */
  function AddL(verseOnly: bool, s: St): (r: St)
    requires Inv(s) && s.lg.Some?
    ensures Inv(r) && Grows(s.doc, r.doc)
    ensures OnlyOpened(s.doc, r.doc)
    ensures r.doc.elems == s.doc.elems + [Elem("l", LAttrs(verseOnly, s.letters), None, None)]
    ensures r.doc.up == s.doc.up + [s.lg]
    ensures r == s.(doc := r.doc, l := Some(|s.doc.elems|), textParent := |s.doc.elems|)
  {
    var (d, l) := SubElement(s.doc, s.lg.value, "l", LAttrs(verseOnly, s.letters));
    s.(doc := d, l := Some(l), textParent := l)
  }

  /** `_open_lg()`: a paragraph first if none is open (the implicit one), a
    * group in it and, always, a first line in the group. */
  function OpenLgStep(verseOnly: bool, s: St): (r: St)
    requires Inv(s)
    ensures Inv(r) && Grows(s.doc, r.doc) && OnlyOpened(s.doc, r.doc)
    ensures r.p.Some? && r.lg.Some? && r.l.Some? && r.textParent == r.l.value
    ensures s.p.Some? ==> r == AddL(verseOnly, AddLg(verseOnly, s))
    ensures r.container == s.container && r.letters == s.letters && r.lbCounter == s.lbCounter
    decreases if s.p.None? then 3 else 1
  {
    var s1 := if s.p.None? then OpenParagraphStep(verseOnly, s, "implicit", "vimplicit") else s;
    var s2 := AddLg(verseOnly, s1);
    var r := OpenNewLStep(verseOnly, s2);
    OpenedChain(s.doc, s1.doc, s2.doc);
    OpenedChain(s.doc, s2.doc, r.doc);
    r
  }

  /** `_open_new_l()`: a group first if none is open, then a new line in
    * the current group as the text parent. */
  function OpenNewLStep(verseOnly: bool, s: St): (r: St)
    requires Inv(s)
    ensures Inv(r) && Grows(s.doc, r.doc) && OnlyOpened(s.doc, r.doc)
    ensures r.p.Some? && r.lg.Some? && r.l.Some? && r.textParent == r.l.value
    ensures s.lg.Some? ==> r == AddL(verseOnly, s)
    ensures r.container == s.container && r.letters == s.letters && r.lbCounter == s.lbCounter
    decreases if s.lg.Some? then 0 else if s.p.None? then 4 else 2
  {
    if s.lg.Some? then AddL(verseOnly, s)
    else
      var s1 := OpenLgStep(verseOnly, s);
      var r := AddL(verseOnly, s1);
      OpenedChain(s.doc, s1.doc, r.doc);
      r
  }

  /** Opening in two steps is opening. */
  lemma OpenedChain(d1: Doc, d2: Doc, d3: Doc)
    requires Grows(d1, d2) && OnlyOpened(d1, d2) && Grows(d2, d3) && OnlyOpened(d2, d3)
    ensures Grows(d1, d3) && OnlyOpened(d1, d3)
  {
    forall i | |d1.elems| <= i < |d3.elems|
      ensures Opened(d3.elems[i].tag)
    {
      if i < |d2.elems| {
        assert d3.elems[i] == d2.elems[i];
      }
    }
  }

  // -------------------------------------------------------------------
  // Writing text
  // -------------------------------------------------------------------

  predicate KidsIn(d: Doc, ks: seq<nat>)
  {
    forall j :: 0 <= j < |ks| ==> ks[j] < |d.elems|
  }

  /** The tails of the elements `ks`, in order. */
  function Tails(d: Doc, ks: seq<nat>): (r: string)
    requires KidsIn(d, ks)
    decreases |ks|
  {
    if ks == [] then [] else Tails(d, ks[..|ks| - 1]) + d.elems[ks[|ks| - 1]].tail.GetOr([])
  }

  /** The character data directly inside element `n`, in document order:
    * its `.text`, then the tail of each child. */
  function OwnText(d: Doc, n: nat): (r: string)
    requires Wf(d) && n < |d.elems|
  {
    assert KidsIn(d, d.kids[n]);
    d.elems[n].text.GetOr([]) + Tails(d, d.kids[n])
  }

  /** Tails are read only from the listed elements. */
  lemma {:induction false} TailsSame(d1: Doc, d2: Doc, ks: seq<nat>)
    requires KidsIn(d1, ks) && KidsIn(d2, ks)
    requires forall j :: 0 <= j < |ks| ==> d2.elems[ks[j]].tail == d1.elems[ks[j]].tail
    ensures Tails(d2, ks) == Tails(d1, ks)
    decreases |ks|
  {
    if ks != [] {
      TailsSame(d1, d2, ks[..|ks| - 1]);
    }
  }

  /** `.text` set to `x`: the element's own text is `x` and its children's
    * tails. */
  function TextSet(d: Doc, tp: nat, x: string): (r: Doc)
    requires Wf(d) && tp < |d.elems|
    ensures Wf(r) && r.kids == d.kids && r.up == d.up && |r.elems| == |d.elems|
    ensures forall i :: 0 <= i < |d.elems| ==> r.elems[i].tag == d.elems[i].tag && r.elems[i].attrs == d.elems[i].attrs
    ensures OwnText(r, tp) == x + Tails(d, d.kids[tp])
  {
    var r := SetText(d, tp, Some(x));
    assert KidsIn(d, d.kids[tp]);
    TailsSame(d, r, d.kids[tp]);
    r
  }

  /** `esc` added to the tail of the last child. */
  function LastTailAppended(d: Doc, tp: nat, esc: string): (r: Doc)
    requires Wf(d) && tp < |d.elems| && d.kids[tp] != []
    ensures Wf(r) && r.kids == d.kids && r.up == d.up && |r.elems| == |d.elems|
    ensures forall i :: 0 <= i < |d.elems| ==> r.elems[i].tag == d.elems[i].tag && r.elems[i].attrs == d.elems[i].attrs
    ensures OwnText(r, tp) == OwnText(d, tp) + esc
  {
    var ks := d.kids[tp];
    assert KidsIn(d, ks);
    var c := ks[|ks| - 1];
    var r := SetTail(d, c, Some(d.elems[c].tail.GetOr([]) + esc));
    LastTailText(d, tp, c, r, esc);
    r
  }

  /** Only the last child's tail changes, so the own text grows by `esc`. */
  lemma LastTailText(d: Doc, tp: nat, c: nat, r: Doc, esc: string)
    requires Wf(d) && tp < |d.elems| && d.kids[tp] != [] && c == d.kids[tp][|d.kids[tp]| - 1]
    requires c < |d.elems| && r == SetTail(d, c, Some(d.elems[c].tail.GetOr([]) + esc))
    ensures Wf(r) && OwnText(r, tp) == OwnText(d, tp) + esc
  {
    var ks := d.kids[tp];
    var init := ks[..|ks| - 1];
    assert KidsIn(d, ks) && KidsIn(r, ks);
    assert forall j :: 0 <= j < |init| ==> r.elems[init[j]].tail == d.elems[init[j]].tail by {
      assert NoDup(ks);
      forall j | 0 <= j < |init|
        ensures init[j] != c
      {
        assert init[j] == ks[j];
      }
    }
    TailsSame(d, r, init);
    var old_tail := d.elems[c].tail.GetOr([]);
    calc {
      OwnText(r, tp);
      r.elems[tp].text.GetOr([]) + Tails(r, ks);
      d.elems[tp].text.GetOr([]) + (Tails(d, init) + (old_tail + esc));
      { SeqAssoc3(d.elems[tp].text.GetOr([]), Tails(d, init), old_tail, esc); }
      d.elems[tp].text.GetOr([]) + (Tails(d, init) + old_tail) + esc;
      OwnText(d, tp) + esc;
    }
  }

  lemma SeqAssoc3(a: string, b: string, c: string, e: string)
    ensures a + (b + (c + e)) == a + (b + c) + e
  {
  }

  /** The text-writing rule of the line loop: into `.text` when that is
    * None, even if the element already has children; otherwise onto the
    * tail of the last child, or onto `.text` when there is no child. */
  function AppendText(d: Doc, tp: nat, esc: string): (r: Doc)
    requires Wf(d) && tp < |d.elems|
    ensures Wf(r) && r.kids == d.kids && r.up == d.up && |r.elems| == |d.elems|
    ensures forall i :: 0 <= i < |d.elems| ==> r.elems[i].tag == d.elems[i].tag && r.elems[i].attrs == d.elems[i].attrs
    ensures OwnText(r, tp) == if d.elems[tp].text.None? then esc + OwnText(d, tp) else OwnText(d, tp) + esc
  {
    match d.elems[tp].text
    case None => TextSet(d, tp, esc)
    case Some(x) =>
      if d.kids[tp] != [] then LastTailAppended(d, tp, esc)
      else TextSet(d, tp, x + esc)
  }

  /** Text, then a `caesura` when asked, then the numbered `lb`, all in the
    * text parent. */
  function WriteLine(d: Doc, tp: nat, esc: string, caesura: bool, lbN: nat): (r: Doc)
    requires Wf(d) && tp < |d.elems|
    ensures Wf(r) && Extends(d, r)
    ensures var n := |d.elems|;
            |r.elems| == n + (if caesura then 2 else 1)
            && r.elems[|r.elems| - 1] == Elem("lb", map["n" := NatToString(lbN)], None, None)
            && r.up[|r.elems| - 1] == Some(tp)
            && (caesura ==> r.elems[n] == Elem("caesura", map[], None, None) && r.up[n] == Some(tp))
    ensures forall i :: 0 <= i < |d.elems| ==> r.elems[i].attrs == d.elems[i].attrs
  {
    var d1 := AppendText(d, tp, esc);
    var d2 := if caesura then SubElement(d1, tp, "caesura", map[]).0 else d1;
    SubElement(d2, tp, "lb", map["n" := NatToString(lbN)]).0
  }

  // -------------------------------------------------------------------
  // One line
  // -------------------------------------------------------------------

  /** A `{label}` marker: a div in the body with the stripped label as
    * `xml:id`, made the container and the text parent, with paragraph,
    * group, line and verse number cleared. */
  function DivStep(s: St, id: string): (r: St)
    requires Inv(s)
    ensures Inv(r) && Grows(s.doc, r.doc)
    ensures var n := |s.doc.elems|;
            r.doc.elems == s.doc.elems + [Elem("div", map["xml:id" := id], None, None)]
            && r.doc.up == s.doc.up + [Some(Body)] && r.container == n && r.textParent == n
    ensures r.p.None? && r.lg.None? && r.l.None? && r.verseNum.None?
    ensures r.letters == s.letters && r.lbCounter == s.lbCounter
  {
    var (d, n) := SubElement(s.doc, Body, "div", map["xml:id" := id]);
    s.(doc := d, container := n, p := None, lg := None, l := None, verseNum := None, textParent := n)
  }

  /** A `[label]` marker. Outside verse-only mode it opens a paragraph.
    * In verse-only mode it records the segment letters and opens a
    * paragraph for the verse number only when the letters start with
    * "a" or no paragraph is open; otherwise it only closes the line. */
  function LabelStep(verseOnly: bool, s: St, lab: string): (r: St)
    requires Inv(s)
    ensures Inv(r) && Grows(s.doc, r.doc) && OnlyOpened(s.doc, r.doc)
    ensures r.container == s.container && r.lbCounter == s.lbCounter
    ensures !verseOnly ==> r == OpenParagraphStep(false, s, lab, U.MakeXmlId(lab))
    ensures verseOnly ==> var (num, letters) := SplitVerseLabel(lab);
            r.letters == letters
            && (StartsWith(letters, "a") || s.p.None? ==>
                  r.p == Some(|s.doc.elems|) && r.verseNum == Some(num) && r.lg.Some? && r.l.Some?
                  && r.doc.elems[|s.doc.elems|] == Elem("p", ParaAttrs(num, U.MakeXmlId(num)), None, None))
            && (!(StartsWith(letters, "a") || s.p.None?) ==> r == s.(letters := letters, l := None))
  {
    if verseOnly then
      var (num, letters) := SplitVerseLabel(lab);
      var s1 := s.(letters := letters);
      if StartsWith(letters, "a") || s1.p.None? then OpenParagraphStep(true, s1, num, U.MakeXmlId(num))
      else s1.(l := None)
    else OpenParagraphStep(false, s, lab, U.MakeXmlId(lab))
  }

  /** A `<n>` marker: a `pb` with the stripped number in the text parent,
    * and the line-break counter back at 2. */
  function PbStep(s: St, n: string): (r: St)
    requires Inv(s)
    ensures Inv(r) && Grows(s.doc, r.doc)
    ensures r.doc.elems == s.doc.elems + [Elem("pb", map["n" := n], None, None)]
    ensures r.doc.up == s.doc.up + [Some(s.textParent)]
    ensures r == s.(doc := r.doc, lbCounter := 2)
  {
    var (d, _) := SubElement(s.doc, s.textParent, "pb", map["n" := n]);
    s.(doc := d, lbCounter := 2)
  }

  /** Where a content line goes. In verse-only mode: a new line unless one
    * is open. Otherwise a tab-initial line loses all its leading tabs and
    * goes into a group (a new one, with its first line, when none is
    * open) or a new line of the open group; any other line goes into the
    * paragraph, an implicit one when none is open. */
  function ContentOpen(verseOnly: bool, s: St, t: string): (r: (St, string))
    requires Inv(s)
    ensures Inv(r.0) && Grows(s.doc, r.0.doc) && OnlyOpened(s.doc, r.0.doc) && r.0.p.Some?
    ensures r.0.container == s.container && r.0.lbCounter == s.lbCounter && r.0.letters == s.letters
    ensures verseOnly ==> r.1 == t && r.0.l.Some?
    ensures verseOnly && s.l.None? ==> r.0 == OpenNewLStep(true, s)
    ensures verseOnly && s.l.Some? ==> r.0 == s
    ensures !verseOnly ==> !StartsWith(r.1, "\t")
    ensures !verseOnly && StartsWith(t, "\t") ==> r.1 == TrimLeft(t, P.IsTab) && r.0.lg.Some?
    ensures !verseOnly && !StartsWith(t, "\t") ==> r.1 == t && r.0.textParent == r.0.p.value
  {
    if verseOnly then (VersePlaced(s), t)
    else if StartsWith(t, "\t") then TabPlaced(s, t)
    else (ProsePlaced(s), t)
  }

  /** Verse-only mode: a new line unless one is open. */
  function VersePlaced(s: St): (r: St)
    requires Inv(s)
    ensures Inv(r) && Grows(s.doc, r.doc) && OnlyOpened(s.doc, r.doc) && r.p.Some? && r.l.Some?
    ensures r.container == s.container && r.lbCounter == s.lbCounter && r.letters == s.letters
    ensures s.l.None? ==> r == OpenNewLStep(true, s)
    ensures s.l.Some? ==> r == s
  {
    if s.l.None? then OpenNewLStep(true, s) else s
  }

  /** A tab-initial line outside verse-only mode: its tabs stripped, and a
    * group with its first line opened when none is open, else a new line
    * when none is open. */
  function TabPlaced(s: St, t: string): (r: (St, string))
    requires Inv(s) && StartsWith(t, "\t")
    ensures Inv(r.0) && Grows(s.doc, r.0.doc) && OnlyOpened(s.doc, r.0.doc) && r.0.p.Some? && r.0.lg.Some?
    ensures r.0.container == s.container && r.0.lbCounter == s.lbCounter && r.0.letters == s.letters
    ensures r.1 == TrimLeft(t, P.IsTab) && !StartsWith(r.1, "\t")
  {
    NoLeadingTab(t, "\t");
    (TabOpened(s), TrimLeft(t, P.IsTab))
  }

  /** The group and line a tab-initial line needs, opened when missing. */
  function TabOpened(s: St): (r: St)
    requires Inv(s)
    ensures Inv(r) && Grows(s.doc, r.doc) && OnlyOpened(s.doc, r.doc) && r.p.Some? && r.lg.Some?
    ensures r.container == s.container && r.lbCounter == s.lbCounter && r.letters == s.letters
  {
    if s.lg.None? then OpenLgStep(false, s) else if s.l.None? then OpenNewLStep(false, s) else s
  }

  lemma NoLeadingTab(t: string, tab: string)
    requires tab == "\t"
    ensures !StartsWith(TrimLeft(t, P.IsTab), tab)
  {
    var u := TrimLeft(t, P.IsTab);
    if u != [] {
      assert u[..1] == [u[0]];
    }
  }

  /** Any other line outside verse-only mode: the paragraph, an implicit
    * one when none is open, takes the text. */
  function ProsePlaced(s: St): (r: St)
    requires Inv(s)
    ensures Inv(r) && Grows(s.doc, r.doc) && OnlyOpened(s.doc, r.doc) && r.p.Some? && r.textParent == r.p.value
    ensures r.container == s.container && r.lbCounter == s.lbCounter && r.letters == s.letters
  {
    var s1 := if s.p.None? then OpenParagraphStep(false, s, "implicit", "vimplicit") else s;
    s1.(textParent := s1.p.value)
  }

  /** `close_l`: no open line, and the group (or, without one, the
    * paragraph) takes further text. */
  function CloseL(s: St): (r: St)
    requires Inv(s) && s.p.Some?
    ensures Inv(r) && r == s.(l := None, textParent := if s.lg.Some? then s.lg.value else s.p.value)
  {
    s.(l := None, textParent := if s.lg.Some? then s.lg.value else s.p.value)
  }

  /** The two bar tests of a line: the number `_RE_BAR_NUM` captures, and
    * whether `_RE_SINGLE_BAR` matched, which it is tried only without a
    * number. */
  datatype Bars = Bars(num: Option<string>, single: bool)

  function BarsOf(u: string): (r: Bars)
    ensures r.num.Some? <==> BarNum(u).Some?
    ensures r.num.Some? ==> r.num.value == BarNum(u).value.digits
    ensures r.single <==> BarNum(u).None? && EP.EndsInBar(u)
  {
    Bars(if BarNum(u).Some? then Some(BarNum(u).value.digits) else None, SingleBar(u))
  }

  /** The number sets the group's `n` only outside verse-only mode. */
  predicate SetsGroup(verseOnly: bool, b: Bars)
  {
    b.num.Some? && !verseOnly
  }

  /** `close_l`: set by a number outside verse-only mode or by a single bar. */
  predicate Closes(verseOnly: bool, b: Bars)
  {
    SetsGroup(verseOnly, b) || b.single
  }

  /** The caesura test, on the line as it stands after the tabs were
    * stripped: in verse-only mode or for a tab-initial line, and only
    * with neither bar pattern matching. */
  predicate CaesuraWanted(verseOnly: bool, u: string, b: Bars)
  {
    (verseOnly || StartsWith(u, "\t")) && !(b.num.Some? || b.single)
  }

  /** The group's `n` set to the number when the number pattern asks
    * for it. */
  function GroupNumbered(verseOnly: bool, s: St, b: Bars): (r: St)
    requires Inv(s) && (SetsGroup(verseOnly, b) ==> s.lg.Some?)
    ensures Inv(r) && Extends(s.doc, r.doc) && r == s.(doc := r.doc) && |r.doc.elems| == |s.doc.elems|
    ensures SetsGroup(verseOnly, b) ==>
              r.doc.elems[s.lg.value].attrs == s.doc.elems[s.lg.value].attrs["n" := b.num.value]
    ensures !SetsGroup(verseOnly, b) ==> r == s
  {
    if SetsGroup(verseOnly, b) then s.(doc := SetAttr(s.doc, s.lg.value, "n", b.num.value)) else s
  }

  /** `d2` is `d1` with a written line: one `lb` numbered `n` last, after
    * a `caesura` when `c`, and nothing else new. */
  predicate LineWritten(d1: Doc, d2: Doc, c: bool, n: nat)
  {
    Extends(d1, d2) && |d2.elems| == |d1.elems| + (if c then 2 else 1)
    && d2.elems[|d2.elems| - 1] == Elem("lb", map["n" := NatToString(n)], None, None)
    && (c ==> d2.elems[|d2.elems| - 2] == Elem("caesura", map[], None, None))
  }

  /** The escaped text, `caesura` and `lb` in the text parent, and the
    * counter moved on. */
  function Written(s: St, esc: string, caesura: bool): (r: St)
    requires Inv(s)
    ensures Inv(r) && r == s.(doc := r.doc, lbCounter := s.lbCounter + 1)
    ensures LineWritten(s.doc, r.doc, caesura, s.lbCounter) && r.doc.up[|r.doc.elems| - 1] == Some(s.textParent)
    ensures forall i :: 0 <= i < |s.doc.elems| ==> r.doc.elems[i].attrs == s.doc.elems[i].attrs
  {
    var d := WriteLine(s.doc, s.textParent, esc, caesura, s.lbCounter);
    WrittenInv(s, d);
    WriteLineWritten(s.doc, s.textParent, esc, caesura, s.lbCounter);
    s.(doc := d, lbCounter := s.lbCounter + 1)
  }

  lemma WriteLineWritten(d: Doc, tp: nat, esc: string, caesura: bool, lbN: nat)
    requires Wf(d) && tp < |d.elems|
    ensures LineWritten(d, WriteLine(d, tp, esc, caesura, lbN), caesura, lbN)
  {
  }

  lemma WrittenInv(s: St, d: Doc)
    requires Inv(s) && Wf(d) && |s.doc.elems| <= |d.elems|
    ensures Inv(s.(doc := d, lbCounter := s.lbCounter + 1))
  {
  }

  /** The line written, once placed and with no exception pending: the
    * group numbered, the line written, and the line closed when a bar
    * pattern matched. */
  function Emit(verseOnly: bool, s: St, u: string, b: Bars): (r: St)
    requires Inv(s) && s.p.Some? && (SetsGroup(verseOnly, b) ==> s.lg.Some?)
    ensures Inv(r) && Extends(s.doc, r.doc)
    ensures r.container == s.container && r.letters == s.letters && r.p == s.p && r.lg == s.lg
    ensures r.lbCounter == s.lbCounter + 1
    ensures SetsGroup(verseOnly, b) ==>
              r.doc.elems[s.lg.value].attrs == s.doc.elems[s.lg.value].attrs["n" := b.num.value]
    ensures Closes(verseOnly, b) ==> r.l.None? && r.textParent == if s.lg.Some? then s.lg.value else s.p.value
    ensures !Closes(verseOnly, b) ==> r.l == s.l && r.textParent == s.textParent
  {
    var s2 := Written(GroupNumbered(verseOnly, s, b), EP.Escape(u), CaesuraWanted(verseOnly, u, b));
    if Closes(verseOnly, b) then CloseL(s2) else s2
  }

  /** The line ends with its `lb`, numbered by the counter before the
    * line, in the text parent; a `caesura` comes before it exactly when
    * the caesura test holds. */
  lemma EmitWritesLb(verseOnly: bool, s: St, u: string, b: Bars)
    requires Inv(s) && s.p.Some? && (SetsGroup(verseOnly, b) ==> s.lg.Some?)
    ensures var r := Emit(verseOnly, s, u, b);
            LineWritten(s.doc, r.doc, CaesuraWanted(verseOnly, u, b), s.lbCounter)
            && r.doc.up[|r.doc.elems| - 1] == Some(s.textParent)
  {
    var g := GroupNumbered(verseOnly, s, b);
    var w := Written(g, EP.Escape(u), CaesuraWanted(verseOnly, u, b));
    if Closes(verseOnly, b) {
      assert Emit(verseOnly, s, u, b) == CloseL(w);
    } else {
      assert Emit(verseOnly, s, u, b) == w;
    }
    LineWrittenAfter(s.doc, g.doc, w.doc, CaesuraWanted(verseOnly, u, b), s.lbCounter);
  }

  /** A written line seen from a document with the same elements but for
    * their attributes. */
  lemma LineWrittenAfter(d0: Doc, d1: Doc, d2: Doc, c: bool, n: nat)
    requires Extends(d0, d1) && |d0.elems| == |d1.elems| && LineWritten(d1, d2, c, n)
    ensures LineWritten(d0, d2, c, n)
  {
  }

  /** The rest of the loop body for a non-blank line: place it, then
    * finish it. */
  function ContentStep(verseOnly: bool, s: St, t: string): (r: (St, Outcome))
    requires Inv(s)
    ensures Inv(r.0) && Extends(s.doc, r.0.doc) && r.0.container == s.container && r.0.letters == s.letters
  {
    var (s1, u) := ContentOpen(verseOnly, s, t);
    var r := Finish(verseOnly, s1, u);
    GrowsExtends(s.doc, s1.doc);
    ExtendsChain(s.doc, s1.doc, r.0.doc);
    r
  }

  /** A placed line is written unless setting the group's `n` with no
    * group open raises `AttributeError`. */
  function Finish(verseOnly: bool, s: St, u: string): (r: (St, Outcome))
    requires Inv(s) && s.p.Some?
    ensures Inv(r.0) && Extends(s.doc, r.0.doc) && r.0.container == s.container && r.0.letters == s.letters
  {
    var b := BarsOf(u);
    if SetsGroup(verseOnly, b) && s.lg.None? then (s, Raise("AttributeError"))
    else (Emit(verseOnly, s, u, b), Pass)
  }

  lemma GrowsExtends(d1: Doc, d2: Doc)
    requires Grows(d1, d2)
    ensures Extends(d1, d2)
  {
    forall i | 0 <= i < |d1.elems|
      ensures d2.elems[i].tag == d1.elems[i].tag
    {
      assert d2.elems[i] == d1.elems[i];
    }
  }

  lemma ExtendsChain(d1: Doc, d2: Doc, d3: Doc)
    requires Extends(d1, d2) && Extends(d2, d3)
    ensures Extends(d1, d3)
  {
  }

  /** A blank rest is skipped; anything else is content. */
  function TextStep(verseOnly: bool, s: St, rest: string): (r: (St, Outcome))
    requires Inv(s)
    ensures Inv(r.0) && Extends(s.doc, r.0.doc)
  {
    if IsBlank(rest) then (s, Pass) else ContentStep(verseOnly, s, rest)
  }

  /** From the page-break test on. */
  function AfterLabelStep(verseOnly: bool, s: St, rest: string): (r: (St, Outcome))
    requires Inv(s)
    ensures Inv(r.0) && Extends(s.doc, r.0.doc)
  {
    var (pb, l3) := PbPrefix(rest);
    var s1 := if pb.Some? then PbStep(s, pb.value) else s;
    var r := TextStep(verseOnly, s1, l3);
    GrowsExtends(s.doc, s1.doc);
    ExtendsChain(s.doc, s1.doc, r.0.doc);
    r
  }

  /** From the label test on. */
  function AfterDivStep(verseOnly: bool, s: St, rest: string): (r: (St, Outcome))
    requires Inv(s)
    ensures Inv(r.0) && Extends(s.doc, r.0.doc)
  {
    var (lab, l2) := LabelPrefix(rest);
    var s1 := if lab.Some? then LabelStep(verseOnly, s, lab.value) else s;
    var r := AfterLabelStep(verseOnly, s1, l2);
    GrowsExtends(s.doc, s1.doc);
    ExtendsChain(s.doc, s1.doc, r.0.doc);
    r
  }

  /** One line of the loop: its div, label and page-break markers in turn,
    * then its text. */
  function LineStep(verseOnly: bool, s: St, line: string): (r: (St, Outcome))
    requires Inv(s)
    ensures Inv(r.0) && Extends(s.doc, r.0.doc)
  {
    var (div, l1) := DivPrefix(line);
    var s1 := if div.Some? then DivStep(s, div.value) else s;
    var r := AfterDivStep(verseOnly, s1, l1);
    GrowsExtends(s.doc, s1.doc);
    ExtendsChain(s.doc, s1.doc, r.0.doc);
    r
  }

  /** The loop over the lines; an exception ends the conversion. */
  function BuildRun(verseOnly: bool, s: St, lines: seq<string>): (r: (St, Outcome))
    requires Inv(s)
    ensures Inv(r.0) && Extends(s.doc, r.0.doc)
    decreases |lines|
  {
    if lines == [] then (s, Pass)
    else
      var (s1, o) := LineStep(verseOnly, s, lines[0]);
      if o.Raise? then (s1, o) else BuildRun(verseOnly, s1, lines[1..])
  }

  /** Consuming one line in front of the rest. */
  lemma BuildCons(verseOnly: bool, s: St, lines: seq<string>)
    requires Inv(s) && lines != []
    ensures BuildRun(verseOnly, s, lines)
            == (var (s1, o) := LineStep(verseOnly, s, lines[0]);
                if o.Raise? then (s1, o) else BuildRun(verseOnly, s1, lines[1..]))
  {
  }

  // -------------------------------------------------------------------
  // Properties
  // -------------------------------------------------------------------

  /** The last element of `d` is an `lb` numbered `n`. */
  predicate EndsWithLb(d: Doc, n: nat)
  {
    |d.elems| > 0 && d.elems[|d.elems| - 1] == Elem("lb", map["n" := NatToString(n)], None, None)
  }

  /** The markers of a line applied in turn: the state they leave and the
    * text after them. */
  function Markers(verseOnly: bool, s: St, line: string): (r: (St, string))
    requires Inv(s)
    ensures Inv(r.0)
  {
    var (div, l1) := DivPrefix(line);
    var s1 := if div.Some? then DivStep(s, div.value) else s;
    var (lab, l2) := LabelPrefix(l1);
    var s2 := if lab.Some? then LabelStep(verseOnly, s1, lab.value) else s1;
    var (pb, l3) := PbPrefix(l2);
    (if pb.Some? then PbStep(s2, pb.value) else s2, l3)
  }

  /** `LineStep` is the markers, then the text that `ParseLine` finds
    * (the early `continue`s skip only what would be skipped anyway). */
  lemma LineStages(verseOnly: bool, s: St, line: string)
    requires Inv(s)
    ensures var (s3, l3) := Markers(verseOnly, s, line);
            LineStep(verseOnly, s, line) == TextStep(verseOnly, s3, l3)
            && ParseLine(line).text == (if IsBlank(l3) then None else Some(l3))
            && s3.lbCounter == (if ParseLine(line).pb.Some? then 2 else s.lbCounter)
  {
  }

  /** What a placed line adds: nothing when it raises; otherwise its `lb`
    * last, numbered by the counter, after a `caesura` exactly when the
    * caesura test holds, and nothing else. */
  lemma FinishWrites(verseOnly: bool, s: St, u: string)
    requires Inv(s) && s.p.Some?
    ensures var r := Finish(verseOnly, s, u);
            (r.1.Raise? ==> r.0 == s)
            && (r.1.Pass? ==> r.0.lbCounter == s.lbCounter + 1
                              && LineWritten(s.doc, r.0.doc, CaesuraWanted(verseOnly, u, BarsOf(u)), s.lbCounter))
  {
    var b := BarsOf(u);
    if !(SetsGroup(verseOnly, b) && s.lg.None?) {
      EmitWritesLb(verseOnly, s, u, b);
    }
  }

  /** The same for a content line, through where it is placed. */
  lemma ContentWrites(verseOnly: bool, s: St, t: string)
    requires Inv(s)
    ensures var p := ContentOpen(verseOnly, s, t);
            var q := ContentStep(verseOnly, s, t);
            (q.1.Raise? ==> q.0 == p.0)
            && (q.1.Pass? ==> q.0.lbCounter == s.lbCounter + 1
                              && LineWritten(p.0.doc, q.0.doc, CaesuraWanted(verseOnly, p.1, BarsOf(p.1)), s.lbCounter))
  {
    var p := ContentOpen(verseOnly, s, t);
    assert ContentStep(verseOnly, s, t) == Finish(verseOnly, p.0, p.1);
    FinishWrites(verseOnly, p.0, p.1);
  }

  /** The text stage: a blank rest leaves the counter; written text ends
    * with the `lb` the counter numbers and moves it on by one. */
  lemma TextLb(verseOnly: bool, s: St, t: string)
    requires Inv(s)
    ensures var (r, o) := TextStep(verseOnly, s, t);
            (IsBlank(t) ==> o.Pass? && r.lbCounter == s.lbCounter)
            && (!IsBlank(t) && o.Pass? ==> r.lbCounter == s.lbCounter + 1 && EndsWithLb(r.doc, s.lbCounter))
            && (o.Raise? ==> !IsBlank(t) && r.lbCounter == s.lbCounter)
  {
    if !IsBlank(t) {
      ContentWrites(verseOnly, s, t);
    }
  }

  /** Line-break numbering: a page break in the line restarts the count at
    * 2; a line whose text is written gets one `lb`, numbered by the count
    * before it, and moves the count on by one; any other line leaves it. */
  lemma LbNumbering(verseOnly: bool, s: St, line: string)
    requires Inv(s)
    ensures var (r, o) := LineStep(verseOnly, s, line);
            var pl := ParseLine(line);
            var base := if pl.pb.Some? then 2 else s.lbCounter;
            (pl.text.None? ==> o.Pass? && r.lbCounter == base)
            && (pl.text.Some? && o.Pass? ==> r.lbCounter == base + 1 && EndsWithLb(r.doc, base))
            && (o.Raise? ==> pl.text.Some? && r.lbCounter == base)
  {
    LineStages(verseOnly, s, line);
    var (s3, l3) := Markers(verseOnly, s, line);
    TextLb(verseOnly, s3, l3);
  }

  /** A line holding only a `{label}` (and whitespace) adds the div and
    * nothing else: paragraph, group, line and verse number are cleared
    * and the div takes the text. */
  lemma DivLineClears(verseOnly: bool, s: St, inner: string, rest: string)
    requires Inv(s) && inner != [] && '}' !in inner && IsBlank(rest)
    ensures LineStep(verseOnly, s, "{" + inner + "}" + rest) == (DivStep(s, Strip(inner)), Pass)
  {
    DivLineParse(inner, rest);
    EmptyRest();
  }

  /** In verse-only mode an open paragraph always has an open group. */
  predicate VerseInv(s: St)
  {
    s.p.Some? ==> s.lg.Some?
  }

  /** In verse-only mode no line raises (the group number is never set),
    * and an open paragraph keeps an open group from line to line. */
  lemma VerseModeKeepsGroup(s: St, line: string)
    requires Inv(s) && VerseInv(s)
    ensures LineStep(true, s, line).1.Pass? && VerseInv(LineStep(true, s, line).0)
  {
    LineStages(true, s, line);
    MarkersKeepGroup(s, line);
    var m := Markers(true, s, line);
    TextKeepsGroup(m.0, m.1);
  }

  lemma MarkersKeepGroup(s: St, line: string)
    requires Inv(s) && VerseInv(s)
    ensures VerseInv(Markers(true, s, line).0)
  {
  }

  lemma TextKeepsGroup(s: St, t: string)
    requires Inv(s) && VerseInv(s)
    ensures TextStep(true, s, t).1.Pass? && VerseInv(TextStep(true, s, t).0)
  {
    if !IsBlank(t) {
      var p := ContentOpen(true, s, t);
      assert TextStep(true, s, t) == Finish(true, p.0, p.1);
    }
  }

  /** A verse label whose letters do not start with "a", under an open
    * paragraph, continues the group: the next text opens a new `l` in the
    * same `lg`, carrying the new letters. */
  lemma NextSegmentNewLine(s: St, lab: string, t: string)
    requires Inv(s) && VerseInv(s) && s.p.Some?
    requires !StartsWith(SplitVerseLabel(lab).1, "a")
    ensures var s1 := LabelStep(true, s, lab);
            var r := ContentOpen(true, s1, t).0;
            s1.lg == s.lg && r == AddL(true, s1) && r.lg == s.lg
            && r.doc.elems[|s.doc.elems|] == Elem("l", LAttrs(true, SplitVerseLabel(lab).1), None, None)
  {
  }

  /** Text before any paragraph in verse-only mode: `_open_new_l` calls
    * `_open_lg`, which calls `_open_paragraph`, which in verse-only mode
    * calls `_open_lg` again; the result is a paragraph holding a group
    * with one empty line and a second group with an empty line and the
    * line that takes the text. */
  lemma VerseCascade(s: St)
    requires Inv(s) && s.p.None?
    ensures var r := OpenNewLStep(true, s);
            var n := |s.doc.elems|;
            |r.doc.elems| == n + 6
            && r.doc.elems[n].tag == "p" && r.doc.elems[n].attrs == ParaAttrs("implicit", "vimplicit")
            && r.doc.elems[n + 1].tag == "lg" && r.doc.up[n + 1] == Some(n)
            && r.doc.elems[n + 2].tag == "l" && r.doc.up[n + 2] == Some(n + 1)
            && r.doc.elems[n + 3].tag == "lg" && r.doc.up[n + 3] == Some(n)
            && r.doc.elems[n + 4].tag == "l" && r.doc.up[n + 4] == Some(n + 3)
            && r.doc.elems[n + 5].tag == "l" && r.doc.up[n + 5] == Some(n + 3)
            && r.p == Some(n) && r.lg == Some(n + 3) && r.l == Some(n + 5) && r.textParent == n + 5
  {
    var s1 := NewParagraph(true, s, "implicit", "vimplicit");
    var s2 := AddL(true, AddLg(true, s1));
    assert OpenParagraphStep(true, s, "implicit", "vimplicit") == s2;
    var s3 := AddL(true, AddLg(true, s2));
    assert OpenLgStep(true, s) == s3;
    assert OpenNewLStep(true, s) == AddL(true, s3);
  }

  /** Outside verse-only mode, opening a group with no paragraph open adds
    * the implicit paragraph, one group and its first line, and nothing
    * else. */
  lemma ProseImplicitGroup(s: St)
    requires Inv(s) && s.p.None?
    ensures var r := OpenLgStep(false, s);
            var n := |s.doc.elems|;
            |r.doc.elems| == n + 3
            && r.doc.elems[n] == Elem("p", ParaAttrs("implicit", "vimplicit"), None, None)
            && r.doc.elems[n + 1] == Elem("lg", map[], None, None) && r.doc.up[n + 1] == Some(n)
            && r.doc.elems[n + 2] == Elem("l", map[], None, None) && r.doc.up[n + 2] == Some(n + 1)
            && r.p == Some(n) && r.lg == Some(n + 1) && r.l == Some(n + 2)
  {
    var s1 := NewParagraph(false, s, "implicit", "vimplicit");
    assert OpenParagraphStep(false, s, "implicit", "vimplicit") == s1;
    var s2 := AddLg(false, s1);
    var s3 := AddL(false, s2);
    assert OpenNewLStep(false, s2) == s3;
    assert OpenLgStep(false, s) == s3;
  }

  /** Outside verse-only mode a tab-initial line after prose stays in the
    * open paragraph: the new group goes under it and its first line takes
    * the text, stripped of its tabs. */
  lemma TabLineJoinsParagraph(s: St, t: string)
    requires Inv(s) && s.p.Some? && s.lg.None? && StartsWith(t, "\t")
    ensures var (r, u) := ContentOpen(false, s, t);
            r == AddL(false, AddLg(false, s)) && u == TrimLeft(t, P.IsTab)
            && r.doc.up[|s.doc.elems|] == s.p && r.textParent == |s.doc.elems| + 1
  {
  }

  /** The bars of a placed line. Outside verse-only mode a number sets the
    * group's `n`, closes the line and hands the text to the group, and
    * raises `AttributeError` when no group is open; in verse-only mode a
    * number changes nothing but the caesura. A single bar closes the line
    * in both modes. */
  lemma BarsClose(verseOnly: bool, s: St, t: string)
    requires Inv(s)
    ensures var (s1, u) := ContentOpen(verseOnly, s, t);
            var (r, o) := ContentStep(verseOnly, s, t);
            (BarNum(u).Some? && !verseOnly ==>
               (o.Raise? <==> s1.lg.None?)
               && (o.Pass? ==> r.l.None? && r.textParent == s1.lg.value
                               && r.doc.elems[s1.lg.value].attrs
                                  == s1.doc.elems[s1.lg.value].attrs["n" := BarNum(u).value.digits]))
            && (BarNum(u).Some? && verseOnly ==> o.Pass? && r.l == s1.l && r.textParent == s1.textParent)
            && (SingleBar(u) ==> o.Pass? && r.l.None?)
            && (BarNum(u).None? && !EP.EndsInBar(u) ==> o.Pass? && r.l == s1.l && r.textParent == s1.textParent)
  {
  }

  /** A prose line ending in `|| n ||` raises `AttributeError` exactly
    * when no group is open (an implicit paragraph opens none). */
  lemma ProseNumberNeedsGroup(s: St, b: BarPieces)
    requires Inv(s) && WellFormedBars(b) && !StartsWith(BarsLine(b), "\t")
    ensures ContentStep(false, s, BarsLine(b)).1.Raise? <==> s.p.None? || s.lg.None?
  {
    BarNumComplete(b);
  }

  /** Outside verse-only mode no `caesura` is written: the tab test runs on
    * the line after its tabs were stripped. */
  lemma NoCaesuraOutsideVerseOnly(s: St, t: string)
    requires Inv(s)
    ensures var r := ContentStep(false, s, t).0;
            forall i :: |s.doc.elems| <= i < |r.doc.elems| ==> r.doc.elems[i].tag != "caesura"
  {
    var p := ContentOpen(false, s, t);
    ContentWrites(false, s, t);
    OpenedThenLb(s.doc, p.0.doc, ContentStep(false, s, t).0.doc, s.lbCounter);
  }

  /** Elements opened, then possibly a written line without a caesura:
    * none of the new elements is a `caesura`. */
  lemma OpenedThenLb(d0: Doc, d1: Doc, d2: Doc, n: nat)
    requires |d0.elems| <= |d1.elems| && OnlyOpened(d0, d1)
    requires d2 == d1 || LineWritten(d1, d2, false, n)
    ensures forall i :: |d0.elems| <= i < |d2.elems| ==> d2.elems[i].tag != "caesura"
  {
    forall i | |d0.elems| <= i < |d2.elems|
      ensures d2.elems[i].tag != "caesura"
    {
      if i < |d1.elems| {
        assert Opened(d1.elems[i].tag);
      }
    }
  }

  /** In verse-only mode a `caesura` precedes the `lb` exactly when
    * neither bar pattern matches the line. */
  lemma VerseCaesura(s: St, t: string)
    requires Inv(s)
    ensures var (s1, _) := ContentOpen(true, s, t);
            var r := ContentStep(true, s, t).0;
            var last := |r.doc.elems| - 1;
            last >= 1 && |r.doc.elems| > |s1.doc.elems|
            && (r.doc.elems[last - 1] == Elem("caesura", map[], None, None) && last - 1 >= |s1.doc.elems|
                <==> BarNum(t).None? && !EP.EndsInBar(t))
  {
    ContentWrites(true, s, t);
  }

  // -------------------------------------------------------------------
  // `build_tei`
  // -------------------------------------------------------------------

  /** The converter's local state as fields updated in place; every method
    * is proved to leave them as the matching step function says. */
  class Converter {
    const verseOnly: bool
    var doc: Doc
    var container: nat
    var currentP: Option<nat>
    var currentLg: Option<nat>
    var currentL: Option<nat>
    var currentVerseNum: Option<string>
    var segmentLetters: string
    var textParent: nat
    var lbCounter: nat

    function State(): St
      reads this
    {
      St(doc, container, currentP, currentLg, currentL, currentVerseNum, segmentLetters, textParent, lbCounter)
    }

    ghost predicate Valid()
      reads this
    {
      Inv(State())
    }

    /** The root, its body, and the initial state of the loop. */
    constructor(verseOnly: bool)
      ensures Valid() && State() == Start() && this.verseOnly == verseOnly
    {
      this.verseOnly := verseOnly;
      var (d0, root) := NewElement(Empty(), "TEI", map[]);
      var (d1, body) := SubElement(d0, root, "body", map[]);
      doc := d1;
      container := body;
      currentP := None;
      currentLg := None;
      currentL := None;
      currentVerseNum := None;
      segmentLetters := "";
      textParent := body;
      lbCounter := 2;
    }

    /** `_open_paragraph(meta)`, with `id` its `make_xml_id(meta)`. */
    method OpenParagraph(meta: string, id: string)
      requires Valid()
      modifies this
      ensures Valid() && State() == OpenParagraphStep(verseOnly, old(State()), meta, id)
      decreases 2
    {
      currentLg := None;
      currentL := None;
      currentVerseNum := if verseOnly then Some(meta) else None;
      var (d, n) := SubElement(doc, container, "p", ParaAttrs(meta, id));
      doc := d;
      currentP := Some(n);
      textParent := n;
      if verseOnly {
        OpenLg();
      }
    }

    /** `_open_lg()`; the implicit paragraph's id is `vimplicit`
      * (`ImplicitXmlId`). */
    method OpenLg()
      requires Valid()
      modifies this
      ensures Valid() && State() == OpenLgStep(verseOnly, old(State()))
      decreases if currentP.None? then 3 else 1
    {
      if currentP.None? {
        OpenParagraph("implicit", "vimplicit");
      }
      var (d, g) := SubElement(doc, currentP.value, "lg", LgAttrs(verseOnly, currentVerseNum));
      doc := d;
      currentLg := Some(g);
      OpenNewL();
    }

    /** `_open_new_l()`. */
    method OpenNewL()
      requires Valid()
      modifies this
      ensures Valid() && State() == OpenNewLStep(verseOnly, old(State()))
      decreases if currentLg.Some? then 0 else if currentP.None? then 4 else 2
    {
      if currentLg.None? {
        OpenLg();
      }
      var (d, l) := SubElement(doc, currentLg.value, "l", LAttrs(verseOnly, segmentLetters));
      doc := d;
      currentL := Some(l);
      textParent := l;
    }

    /** A `{label}` marker: a new div under the body. */
    method OpenDiv(id: string)
      requires Valid()
      modifies this
      ensures Valid() && State() == DivStep(old(State()), id)
    {
      var (d, n) := SubElement(doc, Body, "div", map["xml:id" := id]);
      doc := d;
      container := n;
      currentP := None;
      currentLg := None;
      currentL := None;
      currentVerseNum := None;
      textParent := n;
    }

    /** A `[label]` marker. */
    method ApplyLabel(lab: string)
      requires Valid()
      modifies this
      ensures Valid() && State() == LabelStep(verseOnly, old(State()), lab)
    {
      if verseOnly {
        var (num, letters) := SplitVerseLabel(lab);
        segmentLetters := letters;
        if StartsWith(letters, "a") || currentP.None? {
          OpenParagraph(num, U.MakeXmlId(num));
        } else {
          currentL := None;
        }
      } else {
        OpenParagraph(lab, U.MakeXmlId(lab));
      }
    }

    /** A `<n>` marker. */
    method AddPb(n: string)
      requires Valid()
      modifies this
      ensures Valid() && State() == PbStep(old(State()), n)
    {
      var (d, _) := SubElement(doc, textParent, "pb", map["n" := n]);
      doc := d;
      lbCounter := 2;
    }

    /** Where a content line goes (`ContentOpen`): the opener calls of
      * the verse/prose branch, and the line with its tabs stripped. */
    method Place(t: string) returns (line: string)
      requires Valid()
      modifies this
      ensures Valid() && (State(), line) == ContentOpen(verseOnly, old(State()), t)
    {
      line := t;
      if verseOnly {
        if currentL.None? {
          OpenNewL();
        }
      } else if StartsWith(line, "\t") {
        line := TrimLeft(line, P.IsTab);
        if currentLg.None? {
          OpenLg();
        } else if currentL.None? {
          OpenNewL();
        }
      } else {
        if currentP.None? {
          OpenParagraph("implicit", "vimplicit");
        }
        textParent := currentP.value;
      }
    }

    /** The escaped text into the text parent: its `.text` when that is
      * None, else the tail of its last child, else onto its `.text`. */
    method WriteText(escaped: string)
      requires Valid()
      modifies this
      ensures Valid() && State() == old(State()).(doc := AppendText(old(doc), old(textParent), escaped))
    {
      match doc.elems[textParent].text {
        case None =>
          doc := SetText(doc, textParent, Some(escaped));
        case Some(x) =>
          if doc.kids[textParent] != [] {
            assert KidsIn(doc, doc.kids[textParent]);
            var last := doc.kids[textParent][|doc.kids[textParent]| - 1];
            doc := SetTail(doc, last, Some(doc.elems[last].tail.GetOr([]) + escaped));
          } else {
            doc := SetText(doc, textParent, Some(x + escaped));
          }
      }
    }

    /** A non-blank line of text: placed, its bars analysed, written with
      * its `caesura` and `lb`, and its line closed when a bar asks for it.
      * A number outside verse-only mode with no group open raises, as
      * `current_lg.set` does on None. */
    method AddContent(t: string) returns (out: Outcome)
      requires Valid()
      modifies this
      ensures Valid() && (State(), out) == ContentStep(verseOnly, old(State()), t)
    {
      var line := Place(t);
      var b := BarsOf(line);
      if b.num.Some? && !verseOnly && currentLg.None? {
        return Raise("AttributeError");
      }
      EmitLine(line, b);
      out := Pass;
    }

    /** The rest of the loop body once the line is placed (`Emit`). */
    method EmitLine(line: string, b: Bars)
      requires Valid() && currentP.Some? && (SetsGroup(verseOnly, b) ==> currentLg.Some?)
      modifies this
      ensures Valid() && State() == Emit(verseOnly, old(State()), line, b)
    {
      NumberGroup(b);
      Write(line, CaesuraWanted(verseOnly, line, b));
      if Closes(verseOnly, b) {
        CloseLine();
      }
    }

    /** `current_lg.set("n", …)` for a number outside verse-only mode. */
    method NumberGroup(b: Bars)
      requires Valid() && (SetsGroup(verseOnly, b) ==> currentLg.Some?)
      modifies this
      ensures Valid() && State() == GroupNumbered(verseOnly, old(State()), b)
    {
      if b.num.Some? && !verseOnly {
        doc := SetAttr(doc, currentLg.value, "n", b.num.value);
      }
    }

    /** The `close_l` branch. */
    method CloseLine()
      requires Valid() && currentP.Some?
      modifies this
      ensures Valid() && State() == CloseL(old(State()))
    {
      currentL := None;
      textParent := if currentLg.Some? then currentLg.value else currentP.value;
    }

    /** The escaped text, the `caesura` when asked for, and the numbered
      * `lb` (`Written`). */
    method Write(line: string, caesura: bool)
      requires Valid()
      modifies this
      ensures Valid() && State() == Written(old(State()), EP.Escape(line), caesura)
    {
      WriteText(EP.Escape(line));
      if caesura {
        var (d, _) := SubElement(doc, textParent, "caesura", map[]);
        doc := d;
      }
      var (d, _) := SubElement(doc, textParent, "lb", map["n" := NatToString(lbCounter)]);
      doc := d;
      lbCounter := lbCounter + 1;
    }

    /** One line of the loop: the div marker, with its early `continue`
      * when nothing follows it. */
    method HandleLine(line: string) returns (out: Outcome)
      requires Valid()
      modifies this
      ensures Valid() && (State(), out) == LineStep(verseOnly, old(State()), line)
    {
      var (div, rest) := DivPrefix(line);
      if div.Some? {
        OpenDiv(div.value);
        if rest == [] {
          EmptyRest();
          return Pass;
        }
      }
      out := HandleAfterDiv(rest);
    }

    /** The label marker, with its early `continue`. */
    method HandleAfterDiv(rest: string) returns (out: Outcome)
      requires Valid()
      modifies this
      ensures Valid() && (State(), out) == AfterDivStep(verseOnly, old(State()), rest)
    {
      var (lab, rest2) := LabelPrefix(rest);
      if lab.Some? {
        ApplyLabel(lab.value);
        if rest2 == [] {
          EmptyRest();
          return Pass;
        }
      }
      out := HandleAfterLabel(rest2);
    }

    /** The page-break marker, with its early `continue`, then the blank
      * test and the text. */
    method HandleAfterLabel(rest: string) returns (out: Outcome)
      requires Valid()
      modifies this
      ensures Valid() && (State(), out) == AfterLabelStep(verseOnly, old(State()), rest)
    {
      var (pb, rest3) := PbPrefix(rest);
      if pb.Some? {
        AddPb(pb.value);
        if rest3 == [] {
          return Pass;
        }
      }
      if IsBlank(rest3) {
        return Pass;
      }
      out := AddContent(rest3);
    }

    /** The loop over the lines; an exception ends it. */
    method Build(lines: seq<string>) returns (out: Outcome)
      requires Valid()
      modifies this
      ensures Valid() && (State(), out) == BuildRun(verseOnly, old(State()), lines)
    {
      out := Pass;
      var i := 0;
      while i < |lines|
        invariant i <= |lines| && Valid() && out.Pass?
        invariant BuildRun(verseOnly, State(), lines[i..]) == BuildRun(verseOnly, old(State()), lines)
        decreases |lines| - i
      {
        BuildCons(verseOnly, State(), lines[i..]);
        assert lines[i..][1..] == lines[i + 1..];
        out := HandleLine(lines[i]);
        if out.Raise? {
          return;
        }
        i := i + 1;
      }
    }
  }

  /** `build_tei`: a fresh converter run over the lines. */
  method BuildTei(lines: seq<string>, verseOnly: bool) returns (root: Doc, out: Outcome)
    ensures var (s, o) := BuildRun(verseOnly, Start(), lines);
            Wf(root) && root == s.doc && out == o
  {
    var c := new Converter(verseOnly);
    out := c.Build(lines);
    root := c.doc;
  }
}
