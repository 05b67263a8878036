/** The earlier plaintext-to-TEI converter
  * (utils/transforms/convert_plaintext_to_xml_old.py). The markers are the
  * same as in the current one (`{div}`, `[paragraph]`, `<page>`), but the
  * lines of a group are numbered with the letter pairs "ab", "cd", …,
  * a verse milestone `|| 1.2 = 3 ||` may stand inside the line and
  * closes both the line and its group, prose before the first tab of a
  * line goes to the paragraph, and prose after a milestone is appended
  * after the closed group. The `verse_only` flag is accepted and ignored.
  * The state lives in local variables updated line by line, so it is a
  * class whose fields are those variables, proved against pure step
  * functions. */
module PlaintextToXmlOld {
  import opened Wrappers
  import opened Strings
  import opened XmlTree
  import P = TeiBuilderPatterns
  import EP = EarlyPatterns
  import U = TeiUtils
  import PX = PlaintextToXml

  // -------------------------------------------------------------------
  // `_LETTER_PAIRS` and `_next_letters`
  // -------------------------------------------------------------------

  /** `[chr(a) + chr(a + 1) for a in range(ord("a"), ord("z"), 2)]`. */
  const LetterPairs: seq<string> := ["ab", "cd", "ef", "gh", "ij", "kl", "mn", "op", "qr", "st", "uv", "wx", "yz"]

  /** The list written out is the comprehension: pair `i` is the letters
    * at `a + 2i` and `a + 2i + 1`, for the thirteen `i` below `z - a`
    * halved. */
  lemma LetterPairsComprehension(i: nat)
    requires i < 13
    ensures |LetterPairs| == 13 && ('a' as int) + 2 * i < 'z' as int
    ensures LetterPairs[i] == [(('a' as int) + 2 * i) as char, (('a' as int) + 2 * i + 1) as char]
  {
  }

  /** `_next_letters()`: the pair at the index, wrapping to the first pair
    * once all thirteen were used, and the index after it. */
  function NextLetters(i: nat): (r: (string, nat))
    requires i <= 13
    ensures 1 <= r.1 <= 13 && r.1 == i % 13 + 1 && r.0 == LetterPairs[i % 13]
  {
    var j := if i >= |LetterPairs| then 0 else i;
    (LetterPairs[j], j + 1)
  }

  /** The index after `k` calls from a fresh index. */
  function IndexAfter(k: nat): (r: nat)
    ensures r <= 13
  {
    if k == 0 then 0 else NextLetters(IndexAfter(k - 1)).1
  }

  /** One more step around the thirteen pairs. */
  lemma ModStep(n: nat)
    ensures (n % 13 + 1) % 13 == (n + 1) % 13
  {
    var q := n / 13;
    var r := n % 13;
    assert n == 13 * q + r;
    if r == 12 {
      assert n + 1 == 13 * (q + 1);
    } else {
      assert n + 1 == 13 * q + (r + 1);
    }
  }

  /** The `k`-th call after a reset returns pair `k mod 13`: the pairs
    * cycle and wrap back to "ab". */
  lemma {:induction false} LettersCycle(k: nat)
    ensures IndexAfter(k) % 13 == k % 13
    ensures NextLetters(IndexAfter(k)).0 == LetterPairs[k % 13]
  {
    if k > 0 {
      LettersCycle(k - 1);
      ModStep(k - 1);
    }
  }

  // -------------------------------------------------------------------
  // `_RE_BAR_NUM`: `(?:•)?\|\|\s*([0-9.]+)\s*=\s*(\d+)\s*\|\|•?`
  // -------------------------------------------------------------------

  /** The character classes the pattern repeats: `\s`, `[0-9.]` and `\d`. */
  datatype Class = Blank | NumOrDot | Digit

  predicate In(c: char, p: Class)
  {
    match p
    case Blank => IsSpace(c)
    case NumOrDot => PX.IsNumOrDot(c)
    case Digit => IsDigit(c)
  }

  /** The first index at or after `i` whose character is not in class `p`. */
  function Skip(line: string, i: nat, p: Class): (r: nat)
    requires i <= |line|
    ensures i <= r <= |line|
    decreases |line| - i
  {
    if i == |line| || !In(line[i], p) then i else Skip(line, i + 1, p)
  }

  const Bullet: char := '\U{2022}'

  /** Two bars stand at `k`. */
  predicate Bars(line: string, k: nat)
  {
    k + 2 <= |line| && line[k] == '|' && line[k + 1] == '|'
  }

  /** The two bars at `k`, and after them what the pattern asks for; the
    * end of the match, with its optional bullet. The leading optional
    * bullet only moves where a match starts, never where it ends, so the
    * match is looked for at its bars. */
  function BarAt(line: string, k: nat): (r: Option<nat>)
    requires k <= |line|
    ensures r.Some? ==> k + 2 <= r.value <= |line| && Bars(line, k)
  {
    if !Bars(line, k) then None
    else
      var i := Skip(line, k + 2, Blank);
      var j := Skip(line, i, NumOrDot);
      var i2 := Skip(line, j, Blank);
      if j == i || i2 == |line| || line[i2] != '=' then None
      else
        var i3 := Skip(line, i2 + 1, Blank);
        var j2 := Skip(line, i3, Digit);
        var i4 := Skip(line, j2, Blank);
        if j2 == i3 || !Bars(line, i4) then None
        else if i4 + 2 < |line| && line[i4 + 2] == Bullet then Some(i4 + 3)
        else Some(i4 + 2)
  }

  /** `_RE_BAR_NUM.search(line)` from `k` on: the leftmost start with a
    * match, and the end of that match. */
  function FirstBar(line: string, k: nat): (r: Option<(nat, nat)>)
    requires k <= |line|
    ensures r.Some? ==> k <= r.value.0 < |line| && BarAt(line, r.value.0) == Some(r.value.1)
    ensures r.Some? ==> forall j :: k <= j < r.value.0 ==> BarAt(line, j).None?
    ensures r.None? ==> forall j :: k <= j <= |line| ==> BarAt(line, j).None?
    decreases |line| - k
  {
    if k == |line| then None
    else match BarAt(line, k)
      case Some(e) => Some((k, e))
      case None => FirstBar(line, k + 1)
  }

  /** The characters from `a` up to `b` are all in class `p`. */
  ghost predicate Run(line: string, a: nat, b: nat, p: Class)
  {
    a <= b <= |line| && forall t :: a <= t < b ==> In(line[t], p)
  }

  /** Skipping over a run of `n` characters of the class, stopped by one
    * outside it or by the end. */
  lemma {:induction false} SkipRun(line: string, i: nat, n: nat, p: Class)
    requires Run(line, i, i + n, p)
    requires i + n == |line| || !In(line[i + n], p)
    ensures Skip(line, i, p) == i + n
    decreases n
  {
    if n > 0 {
      SkipRun(line, i + 1, n - 1, p);
    }
  }

  /** A run of the class that ends at a character outside it. */
  lemma SkipTo(line: string, a: nat, b: nat, p: Class)
    requires Run(line, a, b, p) && b < |line| && !In(line[b], p)
    ensures Skip(line, a, p) == b
  {
    SkipRun(line, a, b - a, p);
  }

  /** The match read off the positions the pattern's runs end at. */
  lemma BarAtRuns(line: string, k: nat, i: nat, j: nat, i2: nat, i3: nat, j2: nat, i4: nat)
    requires Bars(line, k) && i <= |line| && j <= |line| && i2 < |line|
    requires i3 <= |line| && j2 <= |line|
    requires Skip(line, k + 2, Blank) == i && Skip(line, i, NumOrDot) == j && j != i
    requires Skip(line, j, Blank) == i2 && line[i2] == '='
    requires Skip(line, i2 + 1, Blank) == i3 && Skip(line, i3, Digit) == j2 && j2 != i3
    requires Skip(line, j2, Blank) == i4 && Bars(line, i4)
    ensures BarAt(line, k) == Some(if i4 + 2 < |line| && line[i4 + 2] == Bullet then i4 + 3 else i4 + 2)
  {
  }

  /** The ends of the runs of `||`, blanks, a verse number, blanks, `=`,
    * blanks, a line number, blanks and `||` laid out from `k`. */
  ghost predicate MilestoneAt(line: string, k: nat, i: nat, j: nat, i2: nat, i3: nat, j2: nat, i4: nat)
  {
    Bars(line, k) && Run(line, k + 2, i, Blank) && i < j && Run(line, i, j, NumOrDot)
    && Run(line, j, i2, Blank) && i2 < |line| && line[i2] == '='
    && Run(line, i2 + 1, i3, Blank) && i3 < j2 && Run(line, i3, j2, Digit)
    && Run(line, j2, i4, Blank) && Bars(line, i4)
  }

  /** The opening bars, the verse number and the equals sign. */
  lemma MilestoneHead(line: string, k: nat, i: nat, j: nat, i2: nat)
    requires Bars(line, k) && Run(line, k + 2, i, Blank) && i < j && Run(line, i, j, NumOrDot)
    requires Run(line, j, i2, Blank) && i2 < |line| && line[i2] == '='
    ensures Skip(line, k + 2, Blank) == i && Skip(line, i, NumOrDot) == j && Skip(line, j, Blank) == i2
  {
    SkipTo(line, k + 2, i, Blank);
    assert j == i2 || In(line[j], Blank);
    SkipTo(line, i, j, NumOrDot);
    SkipTo(line, j, i2, Blank);
  }

  /** The line number and the closing bars. */
  lemma MilestoneTail(line: string, x: nat, i3: nat, j2: nat, i4: nat)
    requires Run(line, x, i3, Blank) && i3 < j2 && Run(line, i3, j2, Digit)
    requires Run(line, j2, i4, Blank) && Bars(line, i4)
    ensures Skip(line, x, Blank) == i3 && Skip(line, i3, Digit) == j2 && Skip(line, j2, Blank) == i4
  {
    SkipTo(line, x, i3, Blank);
    assert j2 == i4 || In(line[j2], Blank);
    SkipTo(line, i3, j2, Digit);
    SkipTo(line, j2, i4, Blank);
  }

  /** Every verse milestone is found where its bars stand, whatever
    * precedes it, and its match ends after its closing bars and the
    * bullet that may follow them. */
  lemma BarAtComplete(line: string, k: nat, i: nat, j: nat, i2: nat, i3: nat, j2: nat, i4: nat)
    requires MilestoneAt(line, k, i, j, i2, i3, j2, i4)
    ensures BarAt(line, k) == Some(if i4 + 2 < |line| && line[i4 + 2] == Bullet then i4 + 3 else i4 + 2)
  {
    MilestoneHead(line, k, i, j, i2);
    MilestoneTail(line, i2 + 1, i3, j2, i4);
    BarAtRuns(line, k, i, j, i2, i3, j2, i4);
  }

  /** A milestone is found by the search unless an earlier one is. */
  lemma FirstBarFinds(line: string, k: nat, i: nat, j: nat, i2: nat, i3: nat, j2: nat, i4: nat)
    requires MilestoneAt(line, k, i, j, i2, i3, j2, i4)
    ensures FirstBar(line, 0).Some? && FirstBar(line, 0).value.0 <= k
  {
    BarAtComplete(line, k, i, j, i2, i3, j2, i4);
  }

  // -------------------------------------------------------------------
  // Converter state
  // -------------------------------------------------------------------

  /** The local variables of `build_tei`: the tree, the current div (the
    * `container`), paragraph, line group and line, the position in the
    * letter pairs and the line-break counter. */
  datatype St = St(doc: Doc, container: nat, p: Option<nat>, lg: Option<nat>, l: Option<nat>,
                   letterIndex: nat, lbCounter: nat)

  /** Every cursor points into the tree at an element of its own kind; an
    * open `l` has an open group and an open group an open paragraph; the
    * letter index stays within the pairs and the counter never goes below
    * 2. */
  predicate Inv(s: St)
  {
    Wf(s.doc) && PX.Body < |s.doc.elems| && s.container < |s.doc.elems|
    && (s.p.Some? ==> IsTag(s.doc, s.p.value, "p"))
    && (s.lg.Some? ==> IsTag(s.doc, s.lg.value, "lg"))
    && (s.l.Some? ==> IsTag(s.doc, s.l.value, "l"))
    && (s.l.Some? ==> s.lg.Some?) && (s.lg.Some? ==> s.p.Some?)
    && s.letterIndex <= 13 && s.lbCounter >= 2
  }

  /** The kinds of the cursors survive any extension of the tree. */
  lemma InvExtends(s: St, d: Doc)
    requires Inv(s) && Wf(d) && Extends(s.doc, d)
    ensures Inv(s.(doc := d))
  {
  }

  /** The state before the first line: a `TEI` root with its `body`, the
    * container, the letters at the start and the counter at 2. */
  function Start(): (r: St)
    ensures Inv(r) && r.lbCounter == 2 && r.letterIndex == 0 && r.container == PX.Body
    ensures r.p.None? && r.lg.None? && r.l.None?
    ensures r.doc.elems == [Elem("TEI", map[], None, None), Elem("body", map[], None, None)]
  {
    var (d0, root) := NewElement(Empty(), "TEI", map[]);
    var (d1, body) := SubElement(d0, root, "body", map[]);
    St(d1, body, None, None, None, 0, 2)
  }

  // -------------------------------------------------------------------
  // `_open_paragraph`, `_open_lg`, `_open_new_l`
  // -------------------------------------------------------------------

  /** `_open_paragraph(label)`: a `p` in the container with `xml:id` and
    * `n`, group and line closed and the letters back at the start. The
    * caller passes `make_xml_id(label)` of the shared helpers as `id`. */
  function OpenParagraphStep(s: St, lab: string, id: string): (r: St)
    requires Inv(s)
    ensures Inv(r) && PX.Grows(s.doc, r.doc) && PX.OnlyOpened(s.doc, r.doc)
    ensures r.doc.elems == s.doc.elems + [Elem("p", PX.ParaAttrs(lab, id), None, None)]
    ensures r.doc.up == s.doc.up + [Some(s.container)]
    ensures r == s.(doc := r.doc, p := Some(|s.doc.elems|), lg := None, l := None, letterIndex := 0)
  {
    var (d, n) := SubElement(s.doc, s.container, "p", PX.ParaAttrs(lab, id));
    s.(doc := d, p := Some(n), lg := None, l := None, letterIndex := 0)
  }

  /** A bare `lg` in the open paragraph, the letters back at the start. */
  function AddLg(s: St): (r: St)
    requires Inv(s) && s.p.Some?
    ensures Inv(r) && PX.Grows(s.doc, r.doc) && PX.OnlyOpened(s.doc, r.doc)
    ensures r.doc.elems == s.doc.elems + [Elem("lg", map[], None, None)]
    ensures r.doc.up == s.doc.up + [s.p]
    ensures r == s.(doc := r.doc, lg := Some(|s.doc.elems|), letterIndex := 0)
  {
    var (d, g) := SubElement(s.doc, s.p.value, "lg", map[]);
    s.(doc := d, lg := Some(g), letterIndex := 0)
  }

  /** An `l` in the open group, numbered with the next letter pair. */
  function AddL(s: St): (r: St)
    requires Inv(s) && s.lg.Some?
    ensures Inv(r) && PX.Grows(s.doc, r.doc) && PX.OnlyOpened(s.doc, r.doc)
    ensures r.doc.elems == s.doc.elems + [Elem("l", map["n" := LetterPairs[s.letterIndex % 13]], None, None)]
    ensures r.doc.up == s.doc.up + [s.lg]
    ensures r == s.(doc := r.doc, l := Some(|s.doc.elems|), letterIndex := s.letterIndex % 13 + 1)
  {
    var (pair, i) := NextLetters(s.letterIndex);
    var (d, l) := SubElement(s.doc, s.lg.value, "l", map["n" := pair]);
    s.(doc := d, l := Some(l), letterIndex := i)
  }

  /** `_open_lg()`: the implicit paragraph first when none is open, a group
    * in the paragraph and its first line, which is always "ab". */
  function OpenLgStep(s: St): (r: St)
    requires Inv(s)
    ensures Inv(r) && PX.Grows(s.doc, r.doc) && PX.OnlyOpened(s.doc, r.doc)
    ensures r.p.Some? && r.lg.Some? && r.l.Some? && r.letterIndex == 1
    ensures r.doc.elems[r.l.value] == Elem("l", map["n" := "ab"], None, None)
    ensures s.p.Some? ==> r == AddL(AddLg(s))
    ensures r.container == s.container && r.lbCounter == s.lbCounter
    decreases 1
  {
    var s1 := if s.p.None? then OpenParagraphStep(s, "implicit", "vimplicit") else s;
    var s2 := AddLg(s1);
    var r := OpenNewLStep(s2);
    PX.OpenedChain(s.doc, s1.doc, s2.doc);
    PX.OpenedChain(s.doc, s2.doc, r.doc);
    r
  }

  /** `_open_new_l()`: a line in the open group. Without one it opens a
    * group, whose first line `_open_lg` already made, and then a second
    * line. */
  function OpenNewLStep(s: St): (r: St)
    requires Inv(s)
    ensures Inv(r) && PX.Grows(s.doc, r.doc) && PX.OnlyOpened(s.doc, r.doc)
    ensures r.p.Some? && r.lg.Some? && r.l.Some?
    ensures s.lg.Some? ==> r == AddL(s)
    ensures r.container == s.container && r.lbCounter == s.lbCounter
    decreases if s.lg.Some? then 0 else 2
  {
    if s.lg.Some? then AddL(s)
    else
      var s1 := OpenLgStep(s);
      var r := AddL(s1);
      PX.OpenedChain(s.doc, s1.doc, r.doc);
      r
  }

  /** After the first line of a group, each new line takes the next pair:
    * the letters of a group run "ab", "cd", … and start again after "yz". */
  lemma NewLineLetters(s: St)
    requires Inv(s) && s.lg.Some?
    ensures var r := OpenNewLStep(s);
            r.doc.elems[r.l.value].attrs == map["n" := LetterPairs[s.letterIndex % 13]]
            && r.letterIndex == s.letterIndex % 13 + 1 && r.lg == s.lg
  {
  }

  // -------------------------------------------------------------------
  // `_append_text`, `_append_after`
  // -------------------------------------------------------------------

  /** `_append_text(node, txt)`: the escaped text added to the node's
    * `.text`, whatever children it has; nothing for an empty text. */
  function AppendTextOld(d: Doc, n: nat, txt: string): (r: Doc)
    requires Wf(d) && n < |d.elems|
    ensures Wf(r) && Extends(d, r) && r.kids == d.kids && r.up == d.up && |r.elems| == |d.elems|
    ensures txt == [] ==> r == d
    ensures txt != [] ==> r.elems == d.elems[n := d.elems[n].(text := Some(d.elems[n].text.GetOr([]) + EP.Escape(txt)))]
  {
    if txt == [] then d else SetText(d, n, Some(d.elems[n].text.GetOr([]) + EP.Escape(txt)))
  }

  /** `_append_after(prev, txt)`: the escaped text added to the element's
    * tail; nothing for an empty text. */
  function AppendAfter(d: Doc, n: nat, txt: string): (r: Doc)
    requires Wf(d) && n < |d.elems|
    ensures Wf(r) && Extends(d, r) && r.kids == d.kids && r.up == d.up && |r.elems| == |d.elems|
    ensures txt == [] ==> r == d
    ensures txt != [] ==> r.elems == d.elems[n := d.elems[n].(tail := Some(d.elems[n].tail.GetOr([]) + EP.Escape(txt)))]
  {
    if txt == [] then d else SetTail(d, n, Some(d.elems[n].tail.GetOr([]) + EP.Escape(txt)))
  }

  /** Escaping works character by character, so it distributes over
    * concatenation. */
  lemma {:induction false} EscapeAppend(x: string, y: string)
    ensures EP.Escape(x + y) == EP.Escape(x) + EP.Escape(y)
    decreases |x|
  {
    if x != [] {
      EscapeAppend(x[1..], y);
      assert (x + y)[1..] == x[1..] + y;
      assert (x + y)[0] == x[0];
      calc {
        EP.Escape(x + y);
        EP.EscapeChar(x[0]) + EP.Escape(x[1..] + y);
        EP.EscapeChar(x[0]) + (EP.Escape(x[1..]) + EP.Escape(y));
        (EP.EscapeChar(x[0]) + EP.Escape(x[1..])) + EP.Escape(y);
      }
    } else {
      assert x + y == y;
    }
  }

  /** Text written piece by piece reads back whole: when a node's text is
    * the escaped form of `x`, appending `y` leaves the escaped form of
    * `x + y`, which decodes to `x + y`. */
  lemma AppendReadsBack(d: Doc, n: nat, x: string, y: string)
    requires Wf(d) && n < |d.elems| && d.elems[n].text.GetOr([]) == EP.Escape(x)
    ensures var r := AppendTextOld(d, n, y);
            r.elems[n].text.GetOr([]) == EP.Escape(x + y)
            && EP.Unescape(r.elems[n].text.GetOr([])) == x + y
  {
    EscapeAppend(x, y);
    EP.EscapeRoundTrip(x + y);
    if y == [] {
      assert x + y == x;
    }
  }

  // -------------------------------------------------------------------
  // A content line taken apart
  // -------------------------------------------------------------------

  /** A non-blank line after its markers, taken apart: the prose before
    * its first tab, the text that goes into the tree, the prose after a
    * milestone, whether a milestone matched, whether the line is verse
    * and whether its text ends in a single bar (`_RE_SINGLE_BAR`). */
  datatype Analysis = Analysis(pre: string, text: string, post: string, matched: bool, verse: bool, single: bool)

  /** A line with a tab that does not start with one is cut at its first
    * tab: the part before, right-stripped, is prose for the paragraph and
    * the rest, left-stripped behind a single tab, is a verse line. */
  function PreSplit(t: string): (r: (string, string))
    ensures !('\t' in t && !StartsWith(t, "\t")) ==> r == ([], t)
    ensures '\t' in t && !StartsWith(t, "\t") ==>
              r.0 == RStrip(SplitFirst(t, '\t').0) && r.1 == "\t" + LStrip(SplitFirst(t, '\t').1)
  {
    if '\t' in t && !StartsWith(t, "\t") then
      var halves := SplitFirst(t, '\t');
      (RStrip(halves.0), "\t" + LStrip(halves.1))
    else ([], t)
  }

  /** The milestone search: when a match ends before the end of the line,
    * the line is cut there and what follows, left-stripped, is prose. */
  function BarSplit(line: string): (r: (string, string, bool))
    ensures r.2 <==> FirstBar(line, 0).Some?
    ensures StartsWith(line, "\t") ==> StartsWith(r.0, "\t")
    ensures r.0 == line || (r.2 && r.0 == line[..FirstBar(line, 0).value.1] && r.1 == LStrip(line[|r.0|..]))
    ensures r.0 == line ==> r.1 == []
  {
    match FirstBar(line, 0)
    case None => (line, [], false)
    case Some((_, e)) =>
      if e < |line| then
        assert StartsWith(line, "\t") ==> line[..e][..1] == line[..1];
        (line[..e], LStrip(line[e..]), true)
      else (line, [], true)
  }

  function Analyse(t: string): (a: Analysis)
  {
    var (pre, t1) := PreSplit(t);
    var (t2, post, matched) := BarSplit(t1);
    var verse := StartsWith(t2, "\t");
    var u := if verse then TrimLeft(t2, P.IsTab) else t2;
    Analysis(pre, u, post, matched, verse, EP.EndsInBar(u))
  }

  /** The caesura test: a verse line that neither the milestone nor the
    * single trailing bar matched. */
  predicate Caesura(a: Analysis)
  {
    a.verse && !a.matched && !a.single
  }

  /** A line whose prose comes before a tab goes on as verse, and only a
    * milestone match leaves prose after it. */
  lemma AnalyseShape(t: string)
    ensures var a := Analyse(t);
            ('\t' in t && !StartsWith(t, "\t") ==> a.verse && a.pre == RStrip(SplitFirst(t, '\t').0))
            && ('\t' !in t ==> a.pre == [] && !a.verse)
            && (a.post != [] ==> a.matched)
  {
    var t1 := PreSplit(t).1;
    if '\t' in t && !StartsWith(t, "\t") {
      assert ("\t" + LStrip(SplitFirst(t, '\t').1))[..1] == "\t";
    }
    if '\t' !in t {
      var t2 := BarSplit(t1).0;
      assert t2 == t1 || t2 == t1[..|t2|];
      assert t2 == [] || (t2[0] == t1[0] && t2[..1] == [t2[0]]);
    }
  }

  // -------------------------------------------------------------------
  // The stages of a content line
  // -------------------------------------------------------------------

  /** `d2` is `d1` with texts changed and `p`, `lg` and `l` elements
    * added. */
  ghost predicate Opens(d1: Doc, d2: Doc)
  {
    Extends(d1, d2) && PX.OnlyOpened(d1, d2)
  }

  lemma OpensChain(d1: Doc, d2: Doc, d3: Doc)
    requires Opens(d1, d2) && Opens(d2, d3)
    ensures Opens(d1, d3)
  {
    forall i | |d1.elems| <= i < |d3.elems|
      ensures PX.Opened(d3.elems[i].tag)
    {
      if i < |d2.elems| {
        assert d3.elems[i].tag == d2.elems[i].tag;
      }
    }
  }

  lemma GrowsOpens(d1: Doc, d2: Doc)
    requires PX.Grows(d1, d2) && PX.OnlyOpened(d1, d2)
    ensures Opens(d1, d2)
  {
    PX.GrowsExtends(d1, d2);
  }

  /** The prose before the tab onto the paragraph's `.text`, an implicit
    * paragraph opened for it when none is open; no prose, no change. */
  function PreProseStep(s: St, pre: string): (r: St)
    requires Inv(s)
    ensures Inv(r) && Opens(s.doc, r.doc) && r.container == s.container && r.lbCounter == s.lbCounter
    ensures r.lg == s.lg && r.l == s.l && (s.p.Some? ==> r.letterIndex == s.letterIndex)
    ensures pre == [] ==> r == s
    ensures pre != [] ==>
              (r.p.Some? && r.p == (if s.p.Some? then s.p else Some(|s.doc.elems|))
               && r.doc.elems[r.p.value].text
                  == Some((if s.p.Some? then s.doc.elems[s.p.value].text.GetOr([]) else []) + EP.Escape(pre)))
  {
    if pre == [] then s
    else
      var s1 := if s.p.None? then OpenParagraphStep(s, "implicit", "vimplicit") else s;
      var r := s1.(doc := AppendTextOld(s1.doc, s1.p.value, pre));
      GrowsOpens(s.doc, s1.doc);
      OpensChain(s.doc, s1.doc, r.doc);
      r
  }

  /** Where the text of a line is written: an element, and whether onto
    * its tail rather than its `.text`. */
  datatype Target = Target(node: nat, tail: bool)

  /** A verse line: a new group with its first line when none is open,
    * else a new line when none is open; the line takes the text. The
    * first line of a group is "ab", and a new line in an open group
    * takes the next pair. */
  function VersePlace(s: St): (r: St)
    requires Inv(s)
    ensures Inv(r) && Opens(s.doc, r.doc) && PX.Grows(s.doc, r.doc) && r.p.Some? && r.lg.Some? && r.l.Some?
    ensures r.container == s.container && r.lbCounter == s.lbCounter
    ensures s.lg.None? ==> r.doc.elems[r.l.value].attrs == map["n" := "ab"] && r.l.value >= |s.doc.elems|
    ensures s.lg.Some? && s.l.None? ==>
              r.lg == s.lg && r.l == Some(|s.doc.elems|)
              && r.doc.elems[r.l.value].attrs == map["n" := LetterPairs[s.letterIndex % 13]]
    ensures s.l.Some? ==> r == s
  {
    var r := if s.lg.None? then OpenLgStep(s) else if s.l.None? then OpenNewLStep(s) else s;
    GrowsOpens(s.doc, r.doc);
    r
  }

  /** A prose line: the paragraph, an implicit one when none is open; the
    * text goes after its last child, or into it when it has none. */
  function ProsePlace(s: St): (r: (St, Target))
    requires Inv(s)
    ensures Inv(r.0) && Opens(s.doc, r.0.doc) && r.0.p.Some? && r.1.node < |r.0.doc.elems|
    ensures r.0.container == s.container && r.0.lbCounter == s.lbCounter && r.0.lg == s.lg && r.0.l == s.l
    ensures var p := r.0.p.value; var ks := r.0.doc.kids[p];
            r.1 == if ks == [] then Target(p, false) else Target(ks[|ks| - 1], true)
  {
    var s1 := if s.p.None? then OpenParagraphStep(s, "implicit", "vimplicit") else s;
    GrowsOpens(s.doc, s1.doc);
    var ks := s1.doc.kids[s1.p.value];
    (s1, if ks == [] then Target(s1.p.value, false) else Target(ks[|ks| - 1], true))
  }

  function Place(s: St, verse: bool): (r: (St, Target))
    requires Inv(s)
    ensures Inv(r.0) && Opens(s.doc, r.0.doc) && r.0.p.Some? && r.1.node < |r.0.doc.elems|
    ensures r.0.container == s.container && r.0.lbCounter == s.lbCounter
    ensures verse ==> r.0.lg.Some? && r.0.l.Some? && r.1 == Target(r.0.l.value, false)
    ensures !verse ==> r.0.lg == s.lg && r.0.l == s.l
  {
    if verse then var r := VersePlace(s); (r, Target(r.l.value, false)) else ProsePlace(s)
  }

  /** The text through `_append_after` or `_append_text`. */
  function PutText(d: Doc, t: Target, txt: string): (r: Doc)
    requires Wf(d) && t.node < |d.elems|
    ensures Wf(r) && Extends(d, r) && r.kids == d.kids && r.up == d.up && |r.elems| == |d.elems|
  {
    if t.tail then AppendAfter(d, t.node, txt) else AppendTextOld(d, t.node, txt)
  }

  /** Writing the text touches only its target. */
  lemma PutAt(d: Doc, t: Target, txt: string, i: nat)
    requires Wf(d) && t.node < |d.elems| && i < |d.elems| && i != t.node
    ensures PutText(d, t, txt).elems[i] == d.elems[i]
  {
  }

  /** A placed line: the state holds, a paragraph is open, the target is
    * in the tree, and a verse line has its `l`. */
  predicate Ready(s: St, t: Target, a: Analysis)
  {
    Inv(s) && s.p.Some? && t.node < |s.doc.elems| && (a.verse ==> s.l.Some?)
  }

  predicate WriteReady(s: St, t: Target, lbp: nat)
  {
    Inv(s) && t.node < |s.doc.elems| && lbp < |s.doc.elems|
  }

  predicate PostReady(s: St, closed: Option<nat>)
  {
    Inv(s) && s.p.Some? && (closed.Some? ==> closed.value < |s.doc.elems|)
  }

  /** Where the `lb` goes: the paragraph after a milestone or for prose,
    * else the open line. */
  function LbParent(s: St, a: Analysis): (r: nat)
    requires Inv(s) && s.p.Some? && (a.verse ==> s.l.Some?)
    ensures r < |s.doc.elems| && IsTag(s.doc, r, if a.matched || !a.verse then "p" else "l")
  {
    if a.matched || !a.verse then s.p.value else s.l.value
  }

  /** The text written, then a `caesura` in the target when asked, then
    * the `lb` numbered by the counter, and the counter moved on. */
  function WriteStep(s: St, t: Target, txt: string, c: bool, lbp: nat): (r: St)
    requires WriteReady(s, t, lbp)
    ensures Inv(r) && r == s.(doc := r.doc, lbCounter := s.lbCounter + 1)
    ensures PX.LineWritten(s.doc, r.doc, c, s.lbCounter)
    ensures r.doc.up[|r.doc.elems| - 1] == Some(lbp)
    ensures r.doc.kids[lbp] != [] && r.doc.kids[lbp][|r.doc.kids[lbp]| - 1] == |r.doc.elems| - 1
    ensures PutText(s.doc, t, txt).elems <= r.doc.elems
  {
    var d1 := PutText(s.doc, t, txt);
    var d := Marks(d1, t.node, c, lbp, s.lbCounter);
    PX.ExtendsChain(s.doc, d1, d);
    InvExtends(s, d);
    s.(doc := d, lbCounter := s.lbCounter + 1)
  }

  /** A `caesura` in `node` when `c`, then an `lb` numbered `n` in `lbp`. */
  function Marks(d: Doc, node: nat, c: bool, lbp: nat, n: nat): (r: Doc)
    requires Wf(d) && node < |d.elems| && lbp < |d.elems|
    ensures Wf(r) && PX.LineWritten(d, r, c, n) && r.up[|r.elems| - 1] == Some(lbp)
    ensures d.elems <= r.elems
    ensures r.kids[lbp] != [] && r.kids[lbp][|r.kids[lbp]| - 1] == |r.elems| - 1
  {
    var d2 := if c then SubElement(d, node, "caesura", map[]).0 else d;
    SubElement(d2, lbp, "lb", map["n" := NatToString(n)]).0
  }

  /** A milestone closes the line and the group, handing the group on as
    * the one just closed; a verse line ending in a single bar closes only
    * the line. */
  function CloseStep(s: St, a: Analysis): (r: (St, Option<nat>))
    requires Inv(s)
    ensures Inv(r.0) && r.0.doc == s.doc && r.0.p == s.p && r.0.container == s.container
    ensures r.0.lbCounter == s.lbCounter
    ensures r.1 == (if a.matched then s.lg else None)
  {
    if a.matched then (s.(l := None, lg := None), s.lg)
    else if a.verse && a.single then (s.(l := None), None)
    else (s, None)
  }

  /** The prose after a milestone: after the closed group, else after the
    * paragraph's last child, else onto the paragraph's `.text`. */
  function PostStep(s: St, closed: Option<nat>, post: string): (r: St)
    requires PostReady(s, closed)
    ensures Inv(r) && r == s.(doc := r.doc) && Extends(s.doc, r.doc) && |r.doc.elems| == |s.doc.elems|
    ensures r.doc.up == s.doc.up && r.doc.kids == s.doc.kids
    ensures post == [] ==> r == s
    ensures post != [] && closed.Some? ==> EndsWithText(r.doc.elems[closed.value].tail, EP.Escape(post))
    ensures post != [] && closed.None? && s.doc.kids[s.p.value] != [] ==>
              var ks := s.doc.kids[s.p.value];
              var k := ks[|ks| - 1];
              k < |s.doc.elems| && r.doc.elems[k].tail == Some(s.doc.elems[k].tail.GetOr([]) + EP.Escape(post))
  {
    if post == [] then s
    else if closed.Some? then
      AppendEnds(s.doc.elems[closed.value].tail.GetOr([]), EP.Escape(post));
      s.(doc := AppendAfter(s.doc, closed.value, post))
    else
      var ks := s.doc.kids[s.p.value];
      if ks != [] then s.(doc := AppendAfter(s.doc, ks[|ks| - 1], post))
      else s.(doc := AppendTextOld(s.doc, s.p.value, post))
  }

  /** The element the prose after a milestone is written to. */
  function PostTarget(s: St, closed: Option<nat>): (r: Target)
    requires PostReady(s, closed)
    ensures r.node < |s.doc.elems|
  {
    if closed.Some? then Target(closed.value, true)
    else
      var ks := s.doc.kids[s.p.value];
      if ks != [] then Target(ks[|ks| - 1], true) else Target(s.p.value, false)
  }

  /** Writing the prose after a milestone changes the text or tail of its
    * target only. */
  lemma PostAt(s: St, closed: Option<nat>, post: string, i: nat)
    requires PostReady(s, closed) && i < |s.doc.elems|
    ensures var r := PostStep(s, closed, post).doc.elems[i];
            r.tag == s.doc.elems[i].tag && r.attrs == s.doc.elems[i].attrs
            && (i != PostTarget(s, closed).node || post == [] ==> r == s.doc.elems[i])
  {
  }

  /** A non-blank line after its markers: taken apart, then handled stage
    * by stage. */
  function ContentStep(s: St, t: string): (r: St)
    requires Inv(s)
    ensures Inv(r) && Extends(s.doc, r.doc) && r.container == s.container
  {
    Content(s, Analyse(t))
  }

  /** The stages of a line once taken apart. */
  function Content(s: St, a: Analysis): (r: St)
    requires Inv(s)
    ensures Inv(r) && Extends(s.doc, r.doc) && r.container == s.container
  {
    var pl := Placed(s, a);
    Finish(pl.0, pl.1, a)
  }

  /** The prose before the tab, then the placement. */
  function Placed(s: St, a: Analysis): (r: (St, Target))
    requires Inv(s)
    ensures Ready(r.0, r.1, a) && Opens(s.doc, r.0.doc)
    ensures r.0.container == s.container && r.0.lbCounter == s.lbCounter
    ensures a.verse ==> r.0.lg.Some? && r.1 == Target(r.0.l.value, false)
    ensures !a.verse ==> r.0.lg == s.lg && r.0.l == s.l
  {
    var s1 := PreProseStep(s, a.pre);
    var pl := Place(s1, a.verse);
    OpensChain(s.doc, s1.doc, pl.0.doc);
    pl
  }

  /** The placed line written, closed, and followed by its prose. */
  function Finish(s: St, t: Target, a: Analysis): (r: St)
    requires Ready(s, t, a)
    ensures Inv(r) && Extends(s.doc, r.doc) && r.container == s.container && r.lbCounter == s.lbCounter + 1
  {
    var w := WriteStep(s, t, a.text, Caesura(a), LbParent(s, a));
    var c := CloseStep(w, a);
    PostStep(c.0, c.1, a.post)
  }

  // -------------------------------------------------------------------
  // One line, and the loop
  // -------------------------------------------------------------------

  /** `^\[([^]]+)\]`: the stripped label and the rest, left-stripped. */
  function LabelPrefixOld(line: string): (r: (Option<string>, string))
    ensures r.0.None? ==> r.1 == line
  {
    match EP.Bracketed(line, '[', ']')
    case Some((inner, e)) => (Some(Strip(inner)), LStrip(line[e..]))
    case None => (None, line)
  }

  /** A `{label}` marker: a div in the body with the stripped label as
    * `xml:id`, made the container, with paragraph, group and line
    * cleared. */
  function DivStep(s: St, id: string): (r: St)
    requires Inv(s)
    ensures Inv(r) && PX.Grows(s.doc, r.doc)
    ensures r.doc.elems == s.doc.elems + [Elem("div", map["xml:id" := id], None, None)]
    ensures r.doc.up == s.doc.up + [Some(PX.Body)]
    ensures r == s.(doc := r.doc, container := |s.doc.elems|, p := None, lg := None, l := None)
  {
    var (d, n) := SubElement(s.doc, PX.Body, "div", map["xml:id" := id]);
    s.(doc := d, container := n, p := None, lg := None, l := None)
  }

  /** A `<n>` marker: a `pb` with the stripped number in the paragraph,
    * an implicit one when none is open, and the counter back at 2. */
  function PbStep(s: St, n: string): (r: St)
    requires Inv(s)
    ensures Inv(r) && PX.Grows(s.doc, r.doc) && r.p.Some? && r.lbCounter == 2
    ensures var k := |r.doc.elems| - 1;
            r.doc.elems[k] == Elem("pb", map["n" := n], None, None) && r.doc.up[k] == r.p
    ensures s.p.Some? ==> r == s.(doc := r.doc, lbCounter := 2) && |r.doc.elems| == |s.doc.elems| + 1
    ensures s.p.None? ==> r.p == Some(|s.doc.elems|) && |r.doc.elems| == |s.doc.elems| + 2
  {
    var s1 := if s.p.None? then OpenParagraphStep(s, "implicit", "vimplicit") else s;
    var (d, _) := SubElement(s1.doc, s1.p.value, "pb", map["n" := n]);
    s1.(doc := d, lbCounter := 2)
  }

  /** A blank rest is skipped; anything else is content. */
  function TextStep(s: St, rest: string): (r: St)
    requires Inv(s)
    ensures Inv(r) && Extends(s.doc, r.doc)
  {
    if IsBlank(rest) then s else ContentStep(s, rest)
  }

  /** From the page-break test on. */
  function AfterLabelStep(s: St, rest: string): (r: St)
    requires Inv(s)
    ensures Inv(r) && Extends(s.doc, r.doc)
  {
    var (pb, l3) := PX.PbPrefix(rest);
    var s1 := if pb.Some? then PbStep(s, pb.value) else s;
    var r := TextStep(s1, l3);
    PX.GrowsExtends(s.doc, s1.doc);
    PX.ExtendsChain(s.doc, s1.doc, r.doc);
    r
  }

  /** From the paragraph test on: `_open_paragraph` with the label. */
  function AfterDivStep(s: St, rest: string): (r: St)
    requires Inv(s)
    ensures Inv(r) && Extends(s.doc, r.doc)
  {
    var (lab, l2) := LabelPrefixOld(rest);
    var s1 := if lab.Some? then OpenParagraphStep(s, lab.value, U.MakeXmlId(lab.value)) else s;
    var r := AfterLabelStep(s1, l2);
    PX.GrowsExtends(s.doc, s1.doc);
    PX.ExtendsChain(s.doc, s1.doc, r.doc);
    r
  }

  /** One line of the loop: its div, paragraph and page-break markers in
    * turn, then its text. */
  function LineStep(s: St, line: string): (r: St)
    requires Inv(s)
    ensures Inv(r) && Extends(s.doc, r.doc)
  {
    var (div, l1) := PX.DivPrefix(line);
    var s1 := if div.Some? then DivStep(s, div.value) else s;
    var r := AfterDivStep(s1, l1);
    PX.GrowsExtends(s.doc, s1.doc);
    PX.ExtendsChain(s.doc, s1.doc, r.doc);
    r
  }

  /** The loop over the lines. */
  function BuildRun(s: St, lines: seq<string>): (r: St)
    requires Inv(s)
    ensures Inv(r) && Extends(s.doc, r.doc)
    decreases |lines|
  {
    if lines == [] then s
    else
      var s1 := LineStep(s, lines[0]);
      var r := BuildRun(s1, lines[1..]);
      PX.ExtendsChain(s.doc, s1.doc, r.doc);
      r
  }

  /** An empty rest has no more markers and is blank: every early
    * `continue` of the loop is the same as going on with nothing left. */
  lemma EmptyRestOld()
    ensures LabelPrefixOld([]) == (None, []) && PX.PbPrefix([]) == (None, []) && IsBlank([])
  {
    PX.EmptyRest();
  }

  // -------------------------------------------------------------------
  // Properties of a content line
  // -------------------------------------------------------------------

  /** `x` is there and ends with `e`. */
  predicate EndsWithText(x: Option<string>, e: string)
  {
    x.Some? && |e| <= |x.value| && x.value[|x.value| - |e|..] == e
  }

  /** Appended text ends the result. */
  lemma AppendEnds(x: string, e: string)
    ensures EndsWithText(Some(x + e), e)
  {
    assert (x + e)[|x + e| - |e|..] == e;
  }

  /** The written line adds two elements with a caesura and one without. */
  lemma FinishSize(s: St, tgt: Target, a: Analysis)
    requires Ready(s, tgt, a)
    ensures |Finish(s, tgt, a).doc.elems| == |s.doc.elems| + (if Caesura(a) then 2 else 1)
  {
  }

  /** The prose after a milestone changes no tag or attribute of what the
    * line wrote. */
  lemma FinishKeeps(s: St, tgt: Target, a: Analysis, i: nat)
    requires Ready(s, tgt, a) && i < |s.doc.elems| + (if Caesura(a) then 2 else 1)
    ensures var w := WriteStep(s, tgt, a.text, Caesura(a), LbParent(s, a)).doc.elems;
            var r := Finish(s, tgt, a).doc.elems;
            i < |w| == |r| && r[i].tag == w[i].tag && r[i].attrs == w[i].attrs
  {
    var w := WriteStep(s, tgt, a.text, Caesura(a), LbParent(s, a));
    var c := CloseStep(w, a);
    PostAt(c.0, c.1, a.post, i);
  }

  /** Nor of the last element written. */
  lemma FinishLast(s: St, tgt: Target, a: Analysis)
    requires Ready(s, tgt, a)
    ensures var w := WriteStep(s, tgt, a.text, Caesura(a), LbParent(s, a)).doc.elems;
            var r := Finish(s, tgt, a).doc.elems;
            |r| == |w| > 0 && r[|r| - 1].tag == w[|w| - 1].tag && r[|r| - 1].attrs == w[|w| - 1].attrs
  {
    var w := WriteStep(s, tgt, a.text, Caesura(a), LbParent(s, a));
    var c := CloseStep(w, a);
    PostAt(c.0, c.1, a.post, |c.0.doc.elems| - 1);
  }

  /** The last element is the line's `lb`. */
  lemma FinishLbElem(s: St, tgt: Target, a: Analysis)
    requires Ready(s, tgt, a)
    ensures var r := Finish(s, tgt, a).doc.elems;
            |r| > 0 && r[|r| - 1].tag == "lb"
  {
    FinishLast(s, tgt, a);
  }

  /** The line's `lb` is numbered by the counter before the line. */
  lemma FinishLbNumber(s: St, tgt: Target, a: Analysis)
    requires Ready(s, tgt, a)
    ensures var r := Finish(s, tgt, a).doc.elems;
            |r| > 0 && r[|r| - 1].attrs == map["n" := NatToString(s.lbCounter)]
  {
    FinishLast(s, tgt, a);
  }

  /** The `lb` sits in the paragraph after a milestone or for prose, and in
    * the open line otherwise. */
  lemma FinishLbParent(s: St, tgt: Target, a: Analysis)
    requires Ready(s, tgt, a)
    ensures var r := Finish(s, tgt, a);
            var n := |r.doc.elems| - 1;
            n >= 0 && r.doc.up[n] == Some(LbParent(s, a))
            && r.doc.elems[LbParent(s, a)].tag == (if a.matched || !a.verse then "p" else "l")
  {
  }

  /** With the caesura test holding, a `caesura` comes just before the
    * `lb`. */
  lemma FinishCaesura(s: St, tgt: Target, a: Analysis)
    requires Ready(s, tgt, a)
    requires Caesura(a)
    ensures var r := Finish(s, tgt, a);
            |r.doc.elems| >= 2 && r.doc.elems[|r.doc.elems| - 2].tag == "caesura"
  {
    FinishKeeps(s, tgt, a, |s.doc.elems|);
  }

  /** The prose after a milestone ends the tail of the group it closed. */
  lemma FinishPostGroup(s: St, tgt: Target, a: Analysis)
    requires Ready(s, tgt, a)
    requires a.matched && a.post != [] && s.lg.Some?
    ensures EndsWithText(Finish(s, tgt, a).doc.elems[s.lg.value].tail, EP.Escape(a.post))
  {
  }

  /** With no group open, the prose after a milestone is the tail of the
    * line's `lb`. */
  lemma FinishPostLb(s: St, tgt: Target, a: Analysis)
    requires Ready(s, tgt, a)
    requires a.matched && a.post != [] && s.lg.None?
    ensures var r := Finish(s, tgt, a);
            |r.doc.elems| > 0 && r.doc.elems[|r.doc.elems| - 1].tail == Some(EP.Escape(a.post))
  {
    var w := WriteStep(s, tgt, a.text, Caesura(a), LbParent(s, a));
    assert [] + EP.Escape(a.post) == EP.Escape(a.post);
  }

  /** A milestone closes both the line and the group; a verse line ending
    * in a single bar closes only the line; a verse line with neither
    * keeps both open, and a prose line without a milestone leaves them
    * as they were. */
  lemma FinishCloses(s: St, tgt: Target, a: Analysis)
    requires Ready(s, tgt, a)
    ensures var r := Finish(s, tgt, a);
            (a.matched ==> r.l.None? && r.lg.None?)
            && (!a.matched && a.verse && a.single ==> r.l.None? && r.lg == s.lg)
            && (Caesura(a) ==> r.l == s.l && r.lg == s.lg)
            && (!a.matched && !a.verse ==> r.l == s.l && r.lg == s.lg)
  {
  }

  /** Line-break numbering within a content line: its `lb` comes last and
    * the counter moves on by one. */
  lemma ContentLb(s: St, a: Analysis)
    requires Inv(s)
    ensures var r := Content(s, a);
            var n := |r.doc.elems| - 1;
            n >= 0 && r.lbCounter == s.lbCounter + 1 && r.doc.elems[n].tag == "lb"
  {
    var pl := Placed(s, a);
    FinishLbElem(pl.0, pl.1, a);
  }

  /** The line's `lb` is numbered by the counter before the line. */
  lemma ContentLbNumber(s: St, a: Analysis)
    requires Inv(s)
    ensures var r := Content(s, a).doc.elems;
            |r| > 0 && r[|r| - 1].attrs == map["n" := NatToString(s.lbCounter)]
  {
    var pl := Placed(s, a);
    FinishLbNumber(pl.0, pl.1, a);
  }

  /** The line's `lb` sits in a `p` after a milestone or for prose, and in
    * an `l` otherwise. */
  lemma ContentLbParent(s: St, a: Analysis)
    requires Inv(s)
    ensures var r := Content(s, a);
            var n := |r.doc.elems| - 1;
            n >= 0 && r.doc.up[n].Some?
            && IsTag(r.doc, r.doc.up[n].value, if a.matched || !a.verse then "p" else "l")
  {
    var pl := Placed(s, a);
    FinishLbParent(pl.0, pl.1, a);
  }

  /** With the caesura test holding, a line adds a `caesura` just before
    * its `lb`. */
  lemma ContentCaesura(s: St, a: Analysis)
    requires Inv(s) && Caesura(a)
    ensures var r := Content(s, a).doc.elems;
            |r| >= |s.doc.elems| + 2 && r[|r| - 2].tag == "caesura"
  {
    var pl := Placed(s, a);
    FinishSize(pl.0, pl.1, a);
    FinishCaesura(pl.0, pl.1, a);
  }

  /** Otherwise it adds none: the placement opens only `p`, `lg` and `l`. */
  lemma ContentNoCaesura(s: St, a: Analysis)
    requires Inv(s) && !Caesura(a)
    ensures var r := Content(s, a).doc.elems;
            forall i :: |s.doc.elems| <= i < |r| ==> r[i].tag != "caesura"
  {
    var pl := Placed(s, a);
    FinishSize(pl.0, pl.1, a);
    FinishLbElem(pl.0, pl.1, a);
    NoCaesuraAdded(s.doc, pl.0.doc, Finish(pl.0, pl.1, a).doc);
  }

  /** Elements opened, then one more element that is not a `caesura`:
    * none of the new elements is a `caesura`. */
  lemma NoCaesuraAdded(d0: Doc, d1: Doc, d2: Doc)
    requires Opens(d0, d1) && Extends(d1, d2) && |d2.elems| == |d1.elems| + 1
    requires d2.elems[|d1.elems|].tag != "caesura"
    ensures forall i :: |d0.elems| <= i < |d2.elems| ==> d2.elems[i].tag != "caesura"
  {
    forall i | |d0.elems| <= i < |d2.elems|
      ensures d2.elems[i].tag != "caesura"
    {
      if i < |d1.elems| {
        assert PX.Opened(d1.elems[i].tag);
      }
    }
  }

  /** A milestone closes both the line and the group; a verse line ending
    * in a single bar closes only the line and keeps the group; a verse
    * line with neither keeps both open; a prose line without a milestone
    * leaves them as they were. */
  lemma ContentCloses(s: St, a: Analysis)
    requires Inv(s)
    ensures var r := Content(s, a);
            (a.matched ==> r.l.None? && r.lg.None?)
            && (!a.matched && a.verse && a.single ==> r.l.None? && r.lg.Some?)
            && (Caesura(a) ==> r.l.Some? && r.lg.Some?)
            && (!a.matched && !a.verse ==> r.l == s.l && r.lg == s.lg)
  {
    var pl := Placed(s, a);
    FinishCloses(pl.0, pl.1, a);
  }

  /** The prose after a milestone is the last text after the group the
    * milestone closed; with no group open it is the tail of the line's
    * `lb`. */
  lemma ContentPostProse(s: St, a: Analysis)
    requires Inv(s)
    requires a.post != [] ==> a.matched
    ensures var g := Placed(s, a).0.lg;
            var r := Content(s, a);
            a.post != [] ==>
              (g.Some? ==> g.value < |r.doc.elems| && EndsWithText(r.doc.elems[g.value].tail, EP.Escape(a.post)))
              && (g.None? ==> |r.doc.elems| > 0 && r.doc.elems[|r.doc.elems| - 1].tail == Some(EP.Escape(a.post)))
  {
    var pl := Placed(s, a);
    if a.post != [] {
      if pl.0.lg.Some? {
        FinishPostGroup(pl.0, pl.1, a);
      } else {
        FinishPostLb(pl.0, pl.1, a);
      }
    }
  }

  /** The verse line's `l`: a fresh group's first line is "ab", a new line
    * in an open group takes the next letter pair, and an open line goes
    * on. */
  lemma PlacedLetters(s: St, a: Analysis)
    requires Inv(s) && a.verse
    ensures var r := Placed(s, a).0;
            r.l.Some? && r.l.value < |r.doc.elems|
            && (s.lg.None? ==> r.doc.elems[r.l.value].attrs == map["n" := "ab"])
            && (s.lg.Some? && s.l.None? ==>
                  r.doc.elems[r.l.value].attrs == map["n" := LetterPairs[s.letterIndex % 13]])
            && (s.l.Some? ==> r.l == s.l)
  {
    var s1 := PreProseStep(s, a.pre);
  }

  /** Prose before the tab ends the paragraph's text once the line is
    * placed. */
  lemma PlacedPreProse(s: St, a: Analysis)
    requires Inv(s) && a.verse && a.pre != []
    ensures var r := Placed(s, a).0;
            r.p.Some? && r.p.value < |r.doc.elems| && EndsWithText(r.doc.elems[r.p.value].text, EP.Escape(a.pre))
  {
    var s1 := PreProseStep(s, a.pre);
    AppendEnds(if s.p.Some? then s.doc.elems[s.p.value].text.GetOr([]) else [], EP.Escape(a.pre));
  }

  /** The rest of a verse line leaves the paragraph's text alone: the text
    * goes into the line, and prose after a milestone after the group. */
  lemma FinishKeepsParagraph(s: St, tgt: Target, a: Analysis)
    requires Ready(s, tgt, a) && a.verse && tgt.node == s.l.value && (a.post != [] ==> a.matched)
    ensures var r := Finish(s, tgt, a).doc.elems;
            s.p.value < |r| && r[s.p.value] == s.doc.elems[s.p.value]
  {
    var p := s.p.value;
    var w := WriteStep(s, tgt, a.text, Caesura(a), LbParent(s, a));
    PutAt(s.doc, tgt, a.text, p);
    var c := CloseStep(w, a);
    PostAt(c.0, c.1, a.post, p);
  }

  /** Prose before the tab of a verse line ends the paragraph's text once
    * the line is written. */
  lemma ContentPreProse(s: St, a: Analysis)
    requires Inv(s) && a.verse && a.pre != [] && (a.post != [] ==> a.matched)
    ensures var p := Placed(s, a).0.p.value;
            var r := Content(s, a).doc.elems;
            p < |r| && EndsWithText(r[p].text, EP.Escape(a.pre))
  {
    var pl := Placed(s, a);
    PlacedPreProse(s, a);
    FinishKeepsParagraph(pl.0, pl.1, a);
  }

  /** The same for a line as taken apart. */
  lemma LinePreProse(s: St, t: string)
    requires Inv(s)
    ensures var a := Analyse(t);
            var p := Placed(s, a).0.p.value;
            var r := Content(s, a).doc.elems;
            a.pre != [] ==> p < |r| && EndsWithText(r[p].text, EP.Escape(a.pre))
  {
    var a := Analyse(t);
    AnalyseShape(t);
    if a.pre != [] {
      ContentPreProse(s, a);
    }
  }

  /** The markers at the head of a line, in the order the loop tests them,
    * and what is left. */
  function Markers(line: string): (Option<string>, Option<string>, Option<string>, string)
  {
    var (div, l1) := PX.DivPrefix(line);
    var (lab, l2) := LabelPrefixOld(l1);
    var (pb, l3) := PX.PbPrefix(l2);
    (div, lab, pb, l3)
  }

  /** Line-break numbering across lines: a page break sets the counter
    * back to 2, and a line with content numbers its `lb` with the counter
    * and moves it on by one; a blank rest leaves it. */
  lemma LineCounter(s: St, line: string)
    requires Inv(s)
    ensures var (_, _, pb, t) := Markers(line);
            LineStep(s, line).lbCounter == (if pb.Some? then 2 else s.lbCounter) + (if IsBlank(t) then 0 else 1)
  {
    var (div, l1) := PX.DivPrefix(line);
    var s1 := if div.Some? then DivStep(s, div.value) else s;
    var (lab, l2) := LabelPrefixOld(l1);
    var s2 := if lab.Some? then OpenParagraphStep(s1, lab.value, U.MakeXmlId(lab.value)) else s1;
    AfterLabelCounter(s2, l2);
  }

  lemma AfterLabelCounter(s: St, rest: string)
    requires Inv(s)
    ensures var (pb, t) := PX.PbPrefix(rest);
            AfterLabelStep(s, rest).lbCounter == (if pb.Some? then 2 else s.lbCounter) + (if IsBlank(t) then 0 else 1)
  {
    var (pb, t) := PX.PbPrefix(rest);
    var s1 := if pb.Some? then PbStep(s, pb.value) else s;
    if !IsBlank(t) {
      ContentLb(s1, Analyse(t));
    }
  }

  // -------------------------------------------------------------------
  // The converter: `build_tei`'s local variables as fields
  // -------------------------------------------------------------------

  /** The loop's lines, one step after another. */
  lemma BuildCons(s: St, lines: seq<string>)
    requires Inv(s) && lines != []
    ensures BuildRun(s, lines) == BuildRun(LineStep(s, lines[0]), lines[1..])
  {
  }

  class OldConverter {
    var doc: Doc
    var container: nat
    var currentP: Option<nat>
    var currentLg: Option<nat>
    var currentL: Option<nat>
    var letterIndex: nat
    var lbCounter: nat

    function State(): St
      reads this
    {
      St(doc, container, currentP, currentLg, currentL, letterIndex, lbCounter)
    }

    ghost predicate Valid()
      reads this
    {
      Inv(State())
    }

    /** The root, its body, and the initial state of the loop. */
    constructor()
      ensures Valid() && State() == Start()
    {
      var (d0, root) := NewElement(Empty(), "TEI", map[]);
      var (d1, body) := SubElement(d0, root, "body", map[]);
      doc := d1;
      container := body;
      currentP := None;
      currentLg := None;
      currentL := None;
      letterIndex := 0;
      lbCounter := 2;
    }

    /** `_open_paragraph(label)`, with `id` its `make_xml_id(label)`. */
    method OpenParagraph(lab: string, id: string)
      requires Valid()
      modifies this
      ensures Valid() && State() == OpenParagraphStep(old(State()), lab, id)
    {
      currentLg := None;
      currentL := None;
      letterIndex := 0;
      var (d, n) := SubElement(doc, container, "p", PX.ParaAttrs(lab, id));
      doc := d;
      currentP := Some(n);
    }

    /** `_open_lg()`. */
    method OpenLg()
      requires Valid()
      modifies this
      ensures Valid() && State() == OpenLgStep(old(State()))
      decreases 1
    {
      if currentP.None? {
        OpenParagraph("implicit", "vimplicit");
      }
      var (d, g) := SubElement(doc, currentP.value, "lg", map[]);
      doc := d;
      currentLg := Some(g);
      letterIndex := 0;
      OpenNewL();
    }

    /** `_next_letters()`: past the last pair the index starts again. */
    method NextLetterPair() returns (pair: string)
      requires letterIndex <= 13
      modifies this
      ensures (pair, letterIndex) == NextLetters(old(letterIndex))
      ensures State() == old(State()).(letterIndex := letterIndex)
    {
      if letterIndex >= |LetterPairs| {
        letterIndex := 0;
      }
      pair := LetterPairs[letterIndex];
      letterIndex := letterIndex + 1;
    }

    /** `_open_new_l()`. */
    method OpenNewL()
      requires Valid()
      modifies this
      ensures Valid() && State() == OpenNewLStep(old(State()))
      decreases if currentLg.Some? then 0 else 2
    {
      if currentLg.None? {
        OpenLg();
      }
      var pair := NextLetterPair();
      var (d, l) := SubElement(doc, currentLg.value, "l", map["n" := pair]);
      doc := d;
      currentL := Some(l);
    }

    /** `_append_text(node, txt)`. */
    method AppendText(node: nat, txt: string)
      requires Valid() && node < |doc.elems|
      modifies this
      ensures Valid() && State() == old(State()).(doc := AppendTextOld(old(doc), node, txt))
    {
      if txt == [] {
        return;
      }
      var escaped := EP.Escape(txt);
      match doc.elems[node].text {
        case None =>
          assert [] + escaped == escaped;
          doc := SetText(doc, node, Some(escaped));
        case Some(x) =>
          doc := SetText(doc, node, Some(x + escaped));
      }
      InvExtends(old(State()), doc);
    }

    /** `_append_after(prev, txt)`. */
    method AppendAfterOld(prev: nat, txt: string)
      requires Valid() && prev < |doc.elems|
      modifies this
      ensures Valid() && State() == old(State()).(doc := AppendAfter(old(doc), prev, txt))
    {
      if txt == [] {
        return;
      }
      var escaped := EP.Escape(txt);
      doc := SetTail(doc, prev, Some(doc.elems[prev].tail.GetOr([]) + escaped));
      InvExtends(old(State()), doc);
    }

    /** A `{label}` marker: a new div under the body. */
    method OpenDiv(id: string)
      requires Valid()
      modifies this
      ensures Valid() && State() == DivStep(old(State()), id)
    {
      var (d, n) := SubElement(doc, PX.Body, "div", map["xml:id" := id]);
      doc := d;
      container := n;
      currentP := None;
      currentLg := None;
      currentL := None;
    }

    /** A `<n>` marker. */
    method AddPb(n: string)
      requires Valid()
      modifies this
      ensures Valid() && State() == PbStep(old(State()), n)
    {
      if currentP.None? {
        OpenParagraph("implicit", "vimplicit");
      }
      var (d, _) := SubElement(doc, currentP.value, "pb", map["n" := n]);
      doc := d;
      lbCounter := 2;
    }

    /** Prose before the first tab, into the paragraph. */
    method PreProse(pre: string)
      requires Valid()
      modifies this
      ensures Valid() && State() == PreProseStep(old(State()), pre)
    {
      if pre != [] {
        if currentP.None? {
          OpenParagraph("implicit", "vimplicit");
        }
        AppendText(currentP.value, pre);
      }
    }

    /** The verse/prose branch: the openers it calls and where the text
      * goes. */
    method PlaceLine(verse: bool) returns (t: Target)
      requires Valid()
      modifies this
      ensures Valid() && (State(), t) == Place(old(State()), verse)
    {
      if verse {
        if currentLg.None? {
          OpenLg();
        } else if currentL.None? {
          OpenNewL();
        }
        t := Target(currentL.value, false);
      } else {
        if currentP.None? {
          OpenParagraph("implicit", "vimplicit");
        }
        var ks := doc.kids[currentP.value];
        t := if ks == [] then Target(currentP.value, false) else Target(ks[|ks| - 1], true);
      }
    }

    /** The line's text, through `_append_after` or `_append_text`. */
    method PutLine(t: Target, txt: string)
      requires Valid() && t.node < |doc.elems|
      modifies this
      ensures Valid() && State() == old(State()).(doc := PutText(old(doc), t, txt))
    {
      if t.tail {
        AppendAfterOld(t.node, txt);
      } else {
        AppendText(t.node, txt);
      }
    }

    /** A `caesura` in `node` when asked for, then the `lb` numbered by the
      * counter in `lbp`, and the counter moved on. */
    method AddMarks(node: nat, c: bool, lbp: nat)
      requires Valid() && node < |doc.elems| && lbp < |doc.elems|
      modifies this
      ensures State() == old(State()).(doc := Marks(old(doc), node, c, lbp, old(lbCounter)), lbCounter := old(lbCounter) + 1)
    {
      if c {
        var (d, _) := SubElement(doc, node, "caesura", map[]);
        doc := d;
      }
      var (d, _) := SubElement(doc, lbp, "lb", map["n" := NatToString(lbCounter)]);
      doc := d;
      lbCounter := lbCounter + 1;
    }

    /** The line written: its text, its `caesura` when asked for, and its
      * numbered `lb` in `lbp`. */
    method WriteLine(t: Target, txt: string, c: bool, lbp: nat)
      requires Valid() && WriteReady(State(), t, lbp)
      modifies this
      ensures Valid() && State() == WriteStep(old(State()), t, txt, c, lbp)
    {
      PutLine(t, txt);
      AddMarks(t.node, c, lbp);
    }

    /** The closes after the `lb`, handing on the group a milestone
      * closed. */
    method CloseLine(a: Analysis) returns (closed: Option<nat>)
      requires Valid()
      modifies this
      ensures Valid() && (State(), closed) == CloseStep(old(State()), a)
    {
      closed := None;
      if a.matched {
        currentL := None;
        closed := currentLg;
        currentLg := None;
      } else if a.verse && a.single {
        currentL := None;
      }
    }

    /** Prose after a milestone: after the closed group, else after the
      * paragraph's last child, else into the paragraph. */
    method AppendPost(closed: Option<nat>, post: string)
      requires Valid() && PostReady(State(), closed)
      modifies this
      ensures Valid() && State() == PostStep(old(State()), closed, post)
    {
      if post != [] {
        if closed.Some? {
          AppendAfterOld(closed.value, post);
        } else {
          var ks := doc.kids[currentP.value];
          if ks != [] {
            AppendAfterOld(ks[|ks| - 1], post);
          } else {
            AppendText(currentP.value, post);
          }
        }
      }
    }

    /** A non-blank line of text, taken apart and handled stage by
      * stage. */
    method AddContent(line: string)
      requires Valid()
      modifies this
      ensures Valid() && State() == ContentStep(old(State()), line)
    {
      var a := Analyse(line);
      PreProse(a.pre);
      var t := PlaceLine(a.verse);
      var lbp := if a.matched || !a.verse then currentP.value else currentL.value;
      WriteLine(t, a.text, Caesura(a), lbp);
      var closed := CloseLine(a);
      AppendPost(closed, a.post);
    }

    /** One line of the loop: the div marker, with its early `continue`
      * when nothing follows it. */
    method HandleLine(line: string)
      requires Valid()
      modifies this
      ensures Valid() && State() == LineStep(old(State()), line)
    {
      var (div, rest) := PX.DivPrefix(line);
      if div.Some? {
        OpenDiv(div.value);
        if rest == [] {
          EmptyRestOld();
          return;
        }
      }
      HandleAfterDiv(rest);
    }

    /** The paragraph marker, with its early `continue`. */
    method HandleAfterDiv(rest: string)
      requires Valid()
      modifies this
      ensures Valid() && State() == AfterDivStep(old(State()), rest)
    {
      var (lab, rest2) := LabelPrefixOld(rest);
      if lab.Some? {
        OpenParagraph(lab.value, U.MakeXmlId(lab.value));
        if rest2 == [] {
          EmptyRestOld();
          return;
        }
      }
      HandleAfterLabel(rest2);
    }

    /** The page-break marker, with its early `continue`, then the blank
      * test and the text. */
    method HandleAfterLabel(rest: string)
      requires Valid()
      modifies this
      ensures Valid() && State() == AfterLabelStep(old(State()), rest)
    {
      var (pb, rest3) := PX.PbPrefix(rest);
      if pb.Some? {
        AddPb(pb.value);
        if rest3 == [] {
          EmptyRestOld();
          return;
        }
      }
      if IsBlank(rest3) {
        return;
      }
      AddContent(rest3);
    }

    /** The loop over the lines. */
    method Build(lines: seq<string>)
      requires Valid()
      modifies this
      ensures Valid() && State() == BuildRun(old(State()), lines)
    {
      var i := 0;
      while i < |lines|
        invariant i <= |lines| && Valid()
        invariant BuildRun(State(), lines[i..]) == BuildRun(old(State()), lines)
        decreases |lines| - i
      {
        BuildCons(State(), lines[i..]);
        assert lines[i..][1..] == lines[i + 1..];
        HandleLine(lines[i]);
        i := i + 1;
      }
    }
  }

  /** `build_tei`: a fresh converter run over the lines. */
  method BuildTei(lines: seq<string>) returns (root: Doc)
    ensures Wf(root) && root == BuildRun(Start(), lines).doc
  {
    var c := new OldConverter();
    c.Build(lines);
    root := c.doc;
  }
}
