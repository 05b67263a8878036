/** The first line-by-line TEI builder (utils/transforms/tei_builder.py):
  * `{n}` lines open divs, `[label] text` lines open paragraphs, a leading
  * `<n>` adds a page break, and tab-initial lines become `l` elements
  * labelled "ab", "cd", … inside one `lg` per paragraph. Prose lines are
  * not handled yet and change nothing. The builder owns the tree (an
  * arena `Doc`) and its cursors, and updates both in place. */
module TeiBuilderEarly {
  import opened Wrappers
  import opened Strings
  import opened XmlTree
  import P = TeiBuilderPatterns
  import opened EarlyPatterns

  /** What one line asks of the builder, in the order the branches are tried. */
  datatype Plan =
    | DivPlan(num: string)
    | ParaPlan(lab: string, content: string)
    | LinePlan(page: Option<string>, verse: Option<string>)

  /** The verse text of a tab-initial line: the line without its leading tabs. */
  function VerseOf(s: string): (r: Option<string>)
    ensures r.Some? <==> StartsWith(s, "\t")
    ensures r.Some? ==> r.value == [] || r.value[0] != '\t'
  {
    if StartsWith(s, "\t") then Some(TrimLeft(s, P.IsTab)) else None
  }

  /** The branch `_handle_line` takes for `line`. */
  function PlanOf(line: string): (r: Plan)
    ensures r.DivPlan? <==> MatchBracedNumber(line).Some?
    ensures r.DivPlan? ==> P.DropFinalNewline(line) == "{" + r.num + "}" && r.num != [] && P.AllDigits(r.num)
    ensures r.ParaPlan? <==> MatchBracedNumber(line).None? && MatchParaLine(line).Some?
    ensures r.ParaPlan? ==> r.lab == Strip(MatchParaLine(line).value.0) && '\n' !in r.content
    ensures r.LinePlan? && r.page.Some? ==> StartsWith(line, "<") && (r.page.value == [] || !IsSpace(r.page.value[0]))
    ensures r.LinePlan? && r.page.None? ==> r.verse == VerseOf(line)
    ensures r.LinePlan? && r.page.Some? ==> r.verse.None?
  {
    match MatchBracedNumber(line)
    case Some(num) => DivPlan(num)
    case None =>
      match MatchParaLine(line)
      case Some((raw, content)) => ParaPlan(Strip(raw), content)
      case None =>
        match Bracketed(line, '<', '>')
        case Some((inner, e)) =>
          var rest := LStrip(line[e..]);
          assert !StartsWith(rest, "\t") by {
            assert IsSpace('\t');
            assert rest != [] ==> rest[..1] == [rest[0]];
          }
          LinePlan(Some(Strip(inner)), if rest == [] then None else VerseOf(rest))
        case None => LinePlan(None, VerseOf(line))
  }

  /** A tab-initial line without a leading page marker is a verse line. */
  lemma VerseLine(text: string)
    requires text == [] || text[0] != '\t'
    ensures PlanOf("\t" + text) == LinePlan(None, Some(text))
  {
    var line := "\t" + text;
    assert MatchBracedNumber(line).None?;
    assert Bracketed(line, '[', ']').None?;
    assert Bracketed(line, '<', '>').None?;
    assert line[1..] == text;
    assert TrimLeft(line, P.IsTab) == text by {
      assert line[..1] == "\t";
    }
  }

  /** A tab after a page marker is stripped with the other whitespace, so
    * the rest of such a line is never read as verse. */
  lemma TabAfterPageIgnored(n: string, text: string)
    requires n != [] && '>' !in n && !IsBlank(text)
    ensures PlanOf("<" + n + ">\t" + text).LinePlan?
    ensures PlanOf("<" + n + ">\t" + text).verse.None?
  {
    var line := "<" + n + ">\t" + text;
    assert MatchBracedNumber(line).None?;
    assert Bracketed(line, '[', ']').None?;
  }

  /** The attributes of an implicit paragraph, `n` being its label. */
  function ImplicitAttrs(n: string): Attrs
  {
    map["xml:id" := "vimplicit", "n" := n]
  }

  /** The attributes of the div opened by a `{num}` line. */
  function DivAttrs(num: string): Attrs
  {
    map["xml:id" := "f" + num, "n" := num]
  }

  /** The attributes of the paragraph opened by a `[lab]` line. */
  function ParaAttrs(lab: string): Attrs
  {
    map["xml:id" := MakeXmlId(lab), "n" := lab]
  }

  /** An optional cursor that, when set, points into the tree. */
  predicate In(d: Doc, n: Option<nat>)
  {
    n.Some? ==> n.value < |d.elems|
  }

  // -------------------------------------------------------------------
  // The tree only grows
  // -------------------------------------------------------------------

  /** `d` is `d0` with elements added: every element of `d0` keeps its tag,
    * attributes, text, tail and parent, and every child list of `d0` only
    * gains children at its end. */
  predicate Grows(d0: Doc, d: Doc)
  {
    d0.elems <= d.elems && d0.up <= d.up && |d0.kids| <= |d.kids|
    && forall i :: 0 <= i < |d0.kids| ==> d0.kids[i] <= d.kids[i]
  }

  /** Besides growing, only the child lists of `touched` changed. */
  predicate Frame(d0: Doc, d: Doc, touched: set<nat>)
  {
    Grows(d0, d) && forall i :: 0 <= i < |d0.kids| && i !in touched ==> d.kids[i] == d0.kids[i]
  }

  lemma GrowsTrans(d0: Doc, d1: Doc, d2: Doc)
    requires Grows(d0, d1) && Grows(d1, d2)
    ensures Grows(d0, d2)
  {
    forall i | 0 <= i < |d0.kids|
      ensures d0.kids[i] <= d2.kids[i]
    {
      assert d1.kids[i] <= d2.kids[i];
    }
  }

  lemma FrameTrans(d0: Doc, d1: Doc, d2: Doc, a: set<nat>, b: set<nat>)
    requires Frame(d0, d1, a) && Frame(d1, d2, b)
    ensures Frame(d0, d2, a + b)
  {
    GrowsTrans(d0, d1, d2);
  }

  /** `etree.SubElement`: a new element with no text that becomes the last
    * child of `p`, and nothing else changes. */
  lemma SubElementFrame(d: Doc, p: nat, tag: string, attrs: Attrs)
    requires Wf(d) && p < |d.elems|
    ensures var (r, n) := SubElement(d, p, tag, attrs);
            Frame(d, r, {p}) && r.kids[p] == d.kids[p] + [n] && r.kids[n] == []
  {
    var (r, n) := SubElement(d, p, tag, attrs);
    assert d.elems <= r.elems && d.up <= r.up;
    forall i | 0 <= i < |d.kids|
      ensures d.kids[i] <= r.kids[i]
    {
      assert i == p || r.kids[i] == d.kids[i];
    }
  }

  /** Setting the text of an element added since `d0` keeps `d` growing
    * from `d0`. */
  lemma SetTextFrame(d0: Doc, d: Doc, n: nat, t: Option<string>, touched: set<nat>)
    requires Frame(d0, d, touched) && |d0.elems| <= n < |d.elems|
    ensures Frame(d0, SetText(d, n, t), touched)
  {
    var r := SetText(d, n, t);
    assert d0.elems <= r.elems by {
      forall i | 0 <= i < |d0.elems|
        ensures r.elems[i] == d0.elems[i]
      {
        assert r.elems[i] == d.elems[i];
      }
    }
  }

  // -------------------------------------------------------------------
  // The builder's state and one step per branch
  // -------------------------------------------------------------------

  /** The fields of `TEIBuilder`: the tree, the current div, paragraph,
    * line group and line, the verse index and the line-break counter,
    * which no branch uses yet. */
  datatype St = St(doc: Doc, div: nat, p: Option<nat>, lg: Option<nat>, l: Option<nat>,
                   verseIndex: nat, lbCounter: nat)

  /** The body is the second element made, under the `TEI` root. */
  const Body: nat := 1

  predicate Inv(s: St)
  {
    Wf(s.doc) && Body < |s.doc.elems| && s.div < |s.doc.elems|
    && In(s.doc, s.p) && In(s.doc, s.lg) && In(s.doc, s.l)
  }

  /** `__init__`: a `TEI` root holding a `body`, the body as current div,
    * nothing open, verse index 0 and counter 1. */
  function Start(): (r: St)
    ensures Inv(r) && r.doc.elems == [Elem("TEI", map[], None, None), Elem("body", map[], None, None)]
    ensures r.doc.up == [None, Some(0)] && r.doc.kids == [[1], []] && r.div == Body
    ensures r.p.None? && r.lg.None? && r.l.None? && r.verseIndex == 0 && r.lbCounter == 1
  {
    var (d0, root) := NewElement(Empty(), "TEI", map[]);
    var (d1, body) := SubElement(d0, root, "body", map[]);
    assert Empty().kids == [];
    assert d0.kids == [[]] && root == 0 && body == 1;
    assert |d1.kids| == 2 && d1.kids[0] == [1] && d1.kids[1] == [];
    St(d1, body, None, None, None, 0, 1)
  }

  /** Step 1, `{num}`: a div in the body, made current, with no paragraph,
    * group or line open (`DivStepAdds`). */
  function DivStep(s: St, num: string): (r: St)
    requires Inv(s)
    ensures Inv(r)
  {
    var (d, n) := SubElement(s.doc, Body, "div", DivAttrs(num));
    s.(doc := d, div := n, p := None, lg := None, l := None)
  }

  /** Step 2, `[label] content`: a `p` with `attrs` in the current div,
    * holding the content when there is any (`ParaStepAdds`). */
  function ParaStep(s: St, attrs: Attrs, content: string): (r: St)
    requires Inv(s)
    ensures Inv(r)
  {
    var (d, n) := SubElement(s.doc, s.div, "p", attrs);
    s.(doc := SetText(d, n, if content == [] then None else Some(content)), p := Some(n), lg := None, l := None)
  }

  /** The implicit paragraph of steps 3 and 4: when no `p` is open, a new
    * one labelled `lbl` in the current div, made current. */
  function ImplicitStep(s: St, lbl: string): (r: St)
    requires Inv(s)
    ensures Inv(r) && r.p.Some?
  {
    if s.p.Some? then s
    else
      var (d, n) := SubElement(s.doc, s.div, "p", ImplicitAttrs(lbl));
      s.(doc := d, p := Some(n))
  }

  /** Step 3, `<page>`: a `pb` numbered `page` at the end of the current
    * `p` (an implicit one, `n="vimplicit"`, when none is open), and the
    * verse index back to 0 (`PbStepAdds`). */
  function PbStep(s: St, page: string): (r: St)
    requires Inv(s)
    ensures Inv(r)
  {
    var s1 := ImplicitStep(s, "vimplicit");
    var (d, b) := SubElement(s1.doc, s1.p.value, "pb", map["n" := page]);
    s1.(doc := d, verseIndex := 0)
  }

  /** The start of step 4: a paragraph (`n="implicit"`) when none is open,
    * then a bare `lg` at the end of it when no group is open, which
    * restarts the verse index (`GroupStepAdds`). */
  function GroupStep(s: St): (r: St)
    requires Inv(s)
    ensures Inv(r) && r.lg.Some?
  {
    var s1 := ImplicitStep(s, "implicit");
    if s1.lg.Some? then s1
    else
      var (d, g) := SubElement(s1.doc, s1.p.value, "lg", map[]);
      s1.(doc := d, lg := Some(g), verseIndex := 0)
  }

  /** The end of step 4, with the group open: a new `l` labelled `seg`
    * at the end of the group, holding `text` and, unless the text ends
    * in bars, a `caesura` (`LStepAdds`). */
  function LStep(s: St, seg: string, text: string): (r: St)
    requires Inv(s) && s.lg.Some?
    ensures Inv(r)
  {
    var (d1, m) := SubElement(s.doc, s.lg.value, "l", map["n" := seg]);
    var d2 := SetText(d1, m, Some(text));
    if EndsInBars(text) then s.(doc := d2, l := Some(m))
    else s.(doc := SubElement(d2, m, "caesura", map[]).0, l := Some(m))
  }

  /** Step 4, a tab-initial line: the group opened as needed, then the
    * label for the verse index, raising `ValueError` when `chr` would,
    * and the new `l` (`VerseAddsL`). */
  function VerseStep(s: St, text: string): (r: (St, Outcome))
    requires Inv(s)
    ensures Inv(r.0)
  {
    var g := GroupStep(s);
    match LetterPair(g.verseIndex)
    case None => (g, Raise("ValueError"))
    case Some(seg) => (LStep(g.(verseIndex := g.verseIndex + 1), seg, text), Pass)
  }

  /** `_handle_line` once `PlanOf` has picked the branch. After a page
    * break the code would go on to the verse branch; `PlanOf` never
    * gives a verse there, as `TabAfterPageIgnored` shows. */
  function PlanStep(s: St, plan: Plan): (r: (St, Outcome))
    requires Inv(s)
    ensures Inv(r.0)
  {
    match plan
    case DivPlan(num) => (DivStep(s, num), Pass)
    case ParaPlan(lab, content) => (ParaStep(s, ParaAttrs(lab), content), Pass)
    case LinePlan(page, verse) =>
      var s1 := if page.Some? then PbStep(s, page.value) else s;
      if verse.Some? then VerseStep(s1, verse.value) else (s1, Pass)
  }

  function LineStep(s: St, line: string): (r: (St, Outcome))
    requires Inv(s)
    ensures Inv(r.0)
  {
    PlanStep(s, PlanOf(line))
  }

  /** `build`: the lines in turn; an exception ends the run. */
  function BuildRun(s: St, lines: seq<string>): (r: (St, Outcome))
    requires Inv(s)
    ensures Inv(r.0)
    decreases |lines|
  {
    if lines == [] then (s, Pass)
    else
      var (s1, o) := LineStep(s, lines[0]);
      if o.Raise? then (s1, o) else BuildRun(s1, lines[1..])
  }

  /** One step of the build loop. */
  lemma BuildCons(s: St, lines: seq<string>)
    requires Inv(s) && lines != []
    ensures var (s1, o) := LineStep(s, lines[0]);
            BuildRun(s, lines) == if o.Raise? then (s1, o) else BuildRun(s1, lines[1..])
  {
  }

  /** `VerseStep` by cases, for the method that follows it. */
  lemma VerseStepUnfold(s: St, text: string)
    requires Inv(s)
    ensures var g := GroupStep(s);
            VerseStep(s, text) == match LetterPair(g.verseIndex)
                                  case None => (g, Raise("ValueError"))
                                  case Some(seg) => (LStep(g.(verseIndex := g.verseIndex + 1), seg, text), Pass)
  {
  }

  // -------------------------------------------------------------------
  // What each step adds
  // -------------------------------------------------------------------

  /** The div of step 1 is a new last child of the body. */
  lemma DivStepAdds(s: St, num: string)
    requires Inv(s)
    ensures var r := DivStep(s, num);
            var n := |s.doc.elems|;
            Frame(s.doc, r.doc, {Body}) && |r.doc.elems| == n + 1
            && r.doc.elems[n] == Elem("div", DivAttrs(num), None, None) && r.doc.up[n] == Some(Body)
            && r.doc.kids[Body] == s.doc.kids[Body] + [n] && r.doc.kids[n] == []
            && r == St(r.doc, n, None, None, None, s.verseIndex, s.lbCounter)
  {
    SubElementFrame(s.doc, Body, "div", DivAttrs(num));
  }

  /** The `p` of step 2 is a new last child of the current div, holding
    * the content when it is not empty; the verse index is kept. */
  lemma ParaStepAdds(s: St, attrs: Attrs, content: string)
    requires Inv(s)
    ensures var r := ParaStep(s, attrs, content);
            var n := |s.doc.elems|;
            Frame(s.doc, r.doc, {s.div}) && |r.doc.elems| == n + 1
            && r.doc.elems[n] == Elem("p", attrs, if content == [] then None else Some(content), None)
            && r.doc.up[n] == Some(s.div)
            && r.doc.kids[s.div] == s.doc.kids[s.div] + [n] && r.doc.kids[n] == []
            && r == s.(doc := r.doc, p := Some(n), lg := None, l := None)
  {
    var (d, n) := SubElement(s.doc, s.div, "p", attrs);
    SubElementFrame(s.doc, s.div, "p", attrs);
    SetTextFrame(s.doc, d, n, if content == [] then None else Some(content), {s.div});
  }

  /** An open paragraph is kept; otherwise a new one, labelled `lbl`, is
    * the last child of the current div. */
  lemma ImplicitStepAdds(s: St, lbl: string)
    requires Inv(s)
    ensures var r := ImplicitStep(s, lbl);
            s.doc.elems <= r.doc.elems && s.doc.up <= r.doc.up
            && (s.p.Some? ==> r == s)
            && (s.p.None? ==>
                  var n := |s.doc.elems|;
                  |r.doc.elems| == n + 1
                  && r.doc.elems[n] == Elem("p", ImplicitAttrs(lbl), None, None) && r.doc.up[n] == Some(s.div)
                  && r.doc.kids[s.div] == s.doc.kids[s.div] + [n] && r.doc.kids[n] == []
                  && r == s.(doc := r.doc, p := Some(n)))
  {
  }

  lemma ImplicitStepFrame(s: St, lbl: string)
    requires Inv(s)
    ensures Frame(s.doc, ImplicitStep(s, lbl).doc, {s.div})
  {
    if s.p.None? {
      SubElementFrame(s.doc, s.div, "p", ImplicitAttrs(lbl));
    }
  }

  /** The `pb` of step 3 is the newest element and the last child of the
    * paragraph, which is the open one or a new `n="vimplicit"` one in the
    * current div; the verse index is back to 0, group and line stay. */
  lemma PbStepAdds(s: St, page: string)
    requires Inv(s)
    ensures var r := PbStep(s, page);
            var n := |s.doc.elems|;
            var b := |r.doc.elems| - 1;
            s.doc.elems <= r.doc.elems && s.doc.up <= r.doc.up && r.p.Some?
            && (s.p.Some? ==> r.p == s.p && b == n)
            && (s.p.None? ==> b == n + 1 && r.p == Some(n)
                              && r.doc.elems[n] == Elem("p", ImplicitAttrs("vimplicit"), None, None)
                              && r.doc.up[n] == Some(s.div))
            && r.doc.elems[b] == Elem("pb", map["n" := page], None, None) && r.doc.up[b] == r.p
            && r.doc.kids[r.p.value][|r.doc.kids[r.p.value]| - 1] == b
            && r == s.(doc := r.doc, p := r.p, verseIndex := 0)
  {
    ImplicitStepAdds(s, "vimplicit");
  }

  lemma PbStepFrame(s: St, page: string)
    requires Inv(s)
    ensures Frame(s.doc, PbStep(s, page).doc, {s.div, PbStep(s, page).p.value})
  {
    var s1 := ImplicitStep(s, "vimplicit");
    ImplicitStepFrame(s, "vimplicit");
    SubElementFrame(s1.doc, s1.p.value, "pb", map["n" := page]);
    FrameTrans(s.doc, s1.doc, PbStep(s, page).doc, {s.div}, {s1.p.value});
  }

  /** Step 4 opens what it needs: the paragraph as in `ImplicitStep`
    * with `implicit`, then, when no group is open, a new `lg` as the last
    * child of that paragraph with the verse index back to 0. */
  lemma GroupStepAdds(s: St)
    requires Inv(s)
    ensures var s1 := ImplicitStep(s, "implicit");
            var r := GroupStep(s);
            s1.doc.elems <= r.doc.elems && s1.doc.up <= r.doc.up && r.p == s1.p
            && r.verseIndex == (if s.lg.None? then 0 else s.verseIndex)
            && (s.lg.Some? ==> r == s1)
            && (s.lg.None? ==>
                  var g := |s1.doc.elems|;
                  |r.doc.elems| == g + 1 && r.lg == Some(g)
                  && r.doc.elems[g] == Elem("lg", map[], None, None) && r.doc.up[g] == r.p
                  && r.doc.kids[r.p.value] == s1.doc.kids[r.p.value] + [g] && r.doc.kids[g] == []
                  && r == s1.(doc := r.doc, lg := Some(g), verseIndex := 0))
  {
  }

  lemma GroupStepFrame(s: St)
    requires Inv(s)
    ensures var s1 := ImplicitStep(s, "implicit");
            Frame(s1.doc, GroupStep(s).doc, {s1.p.value})
  {
    var s1 := ImplicitStep(s, "implicit");
    if s.lg.None? {
      SubElementFrame(s1.doc, s1.p.value, "lg", map[]);
    }
  }

  /** The `l` is a new last child of the group, labelled `seg` and holding
    * `text`, with a `caesura` inside it unless the text ends in bars; it
    * becomes the current line and nothing else moves. */
  lemma LStepAdds(s: St, seg: string, text: string)
    requires Inv(s) && s.lg.Some?
    ensures var r := LStep(s, seg, text);
            var m := |s.doc.elems|;
            s.doc.elems <= r.doc.elems && s.doc.up <= r.doc.up
            && |r.doc.elems| == m + (if EndsInBars(text) then 1 else 2)
            && r.doc.elems[m] == Elem("l", map["n" := seg], Some(text), None) && r.doc.up[m] == s.lg
            && r.doc.kids[s.lg.value] == s.doc.kids[s.lg.value] + [m]
            && r.doc.kids[m] == (if EndsInBars(text) then [] else [m + 1])
            && (!EndsInBars(text) ==> r.doc.elems[m + 1] == Elem("caesura", map[], None, None))
            && r == s.(doc := r.doc, l := Some(m))
  {
    var (d1, m) := SubElement(s.doc, s.lg.value, "l", map["n" := seg]);
    assert s.doc.elems <= SetText(d1, m, Some(text)).elems;
  }

  lemma LStepFrame(s: St, seg: string, text: string)
    requires Inv(s) && s.lg.Some?
    ensures Frame(s.doc, LStep(s, seg, text).doc, {s.lg.value})
  {
    var g := s.lg.value;
    var (d1, m) := SubElement(s.doc, g, "l", map["n" := seg]);
    SubElementFrame(s.doc, g, "l", map["n" := seg]);
    var d2 := SetText(d1, m, Some(text));
    SetTextFrame(s.doc, d1, m, Some(text), {g});
    if !EndsInBars(text) {
      var (d3, c) := SubElement(d2, m, "caesura", map[]);
      SubElementFrame(d2, m, "caesura", map[]);
      FrameTrans(s.doc, d2, d3, {g}, {m});
      assert |s.doc.kids| == m;
    }
  }

  // -------------------------------------------------------------------
  // What the steps mean together
  // -------------------------------------------------------------------

  /** The verse index after a verse line, and the outcome: with letter
    * pair k, k being the verse index or 0 for a new group, the line
    * raises exactly when `chr` cannot give the pair, and otherwise the
    * index moves on to k + 1 in the same group when one was open. */
  lemma VerseLabels(s: St, text: string)
    requires Inv(s)
    ensures var (r, o) := VerseStep(s, text);
            var k := if s.lg.None? then 0 else s.verseIndex;
            (o.Raise? <==> LetterPair(k).None?)
            && (o.Raise? ==> r == GroupStep(s) && o.error == "ValueError")
            && (o.Pass? ==> r.verseIndex == k + 1 && r.lg == GroupStep(s).lg
                            && (s.lg.Some? ==> r.lg == s.lg))
  {
    var g := GroupStep(s);
    GroupStepAdds(s);
    ImplicitStepAdds(s, "implicit");
    if LetterPair(g.verseIndex).Some? {
      LStepAdds(g.(verseIndex := g.verseIndex + 1), LetterPair(g.verseIndex).value, text);
    }
  }

  /** A verse line that does not raise is `LStep` on the opened group,
    * with the verse index moved on. */
  lemma VersePass(s: St, text: string)
    requires Inv(s) && VerseStep(s, text).1.Pass?
    ensures var g := GroupStep(s);
            LetterPair(g.verseIndex).Some?
            && VerseStep(s, text).0 == LStep(g.(verseIndex := g.verseIndex + 1), LetterPair(g.verseIndex).value, text)
  {
  }

  /** A verse line that does not raise adds a new `l`, after every element
    * there was, labelled with letter pair k (k as in `VerseLabels`) and
    * holding the text. */
  lemma VerseAddsL(s: St, text: string)
    requires Inv(s) && VerseStep(s, text).1.Pass?
    ensures var r := VerseStep(s, text).0;
            var k := if s.lg.None? then 0 else s.verseIndex;
            r.l.Some? && |s.doc.elems| <= r.l.value < |r.doc.elems|
            && r.doc.elems[r.l.value] == Elem("l", map["n" := LetterPair(k).value], Some(text), None)
  {
    var g := GroupStep(s);
    VersePass(s, text);
    GroupStepAdds(s);
    ImplicitStepAdds(s, "implicit");
    LStepAdds(g.(verseIndex := g.verseIndex + 1), LetterPair(g.verseIndex).value, text);
  }

  /** That `l` is appended to the children of the current group, once the
    * group is open, and has the group as parent. */
  lemma VerseLIsLastInGroup(s: St, text: string)
    requires Inv(s) && VerseStep(s, text).1.Pass?
    ensures var r := VerseStep(s, text).0;
            var g := GroupStep(s);
            r.l.Some? && r.lg == g.lg && r.doc.up[r.l.value] == r.lg
            && r.doc.kids[r.lg.value] == g.doc.kids[r.lg.value] + [r.l.value]
  {
    var g := GroupStep(s);
    VersePass(s, text);
    LStepAdds(g.(verseIndex := g.verseIndex + 1), LetterPair(g.verseIndex).value, text);
  }

  /** With no `p` open, a verse line first opens an implicit `p`
    * (`n="implicit"`) in the current div. */
  lemma VerseOpensImplicit(s: St, text: string)
    requires Inv(s) && s.p.None?
    ensures var r := VerseStep(s, text).0;
            var n := |s.doc.elems|;
            r.p == Some(n) && r.doc.elems[n] == Elem("p", ImplicitAttrs("implicit"), None, None)
            && r.doc.up[n] == Some(s.div)
  {
    var g := GroupStep(s);
    GroupStepAdds(s);
    ImplicitStepAdds(s, "implicit");
    if VerseStep(s, text).1.Pass? {
      VersePass(s, text);
      LStepAdds(g.(verseIndex := g.verseIndex + 1), LetterPair(g.verseIndex).value, text);
    }
  }

  /** With no group open, a verse line opens a new `lg`, right after the
    * paragraph it needs, inside that paragraph. */
  lemma VerseOpensGroup(s: St, text: string)
    requires Inv(s) && s.lg.None?
    ensures var r := VerseStep(s, text).0;
            var n := |ImplicitStep(s, "implicit").doc.elems|;
            r.lg == Some(n) && r.doc.elems[n] == Elem("lg", map[], None, None) && r.doc.up[n] == r.p
  {
    var g := GroupStep(s);
    GroupStepAdds(s);
    if VerseStep(s, text).1.Pass? {
      VersePass(s, text);
      LStepAdds(g.(verseIndex := g.verseIndex + 1), LetterPair(g.verseIndex).value, text);
    }
  }

  /** Two verse lines in a row go to the same group, and the second is
    * labelled with the pair after the first. */
  lemma VersesConsecutive(s: St, a: string, b: string)
    requires Inv(s) && VerseStep(s, a).1.Pass?
    ensures var (r1, _) := VerseStep(s, a);
            var (r2, o2) := VerseStep(r1, b);
            var k := if s.lg.None? then 0 else s.verseIndex;
            r1.lg.Some? && r2.lg == r1.lg && r1.verseIndex == k + 1
            && (o2.Pass? ==> r2.verseIndex == k + 2)
  {
    var r1 := VerseStep(s, a).0;
    VerseLabels(s, a);
    VerseLabels(r1, b);
  }

  /** A page break inside an open group restarts the labels at `ab`, in
    * that same group. */
  lemma PageBreakRestartsPairs(s: St, page: string, text: string)
    requires Inv(s) && s.lg.Some?
    ensures var (r, o) := VerseStep(PbStep(s, page), text);
            o.Pass? && r.lg == s.lg && r.doc.elems[r.l.value].attrs == map["n" := "ab"]
  {
    var s1 := PbStep(s, page);
    PbStepAdds(s, page);
    FirstPairAb();
    VerseLabels(s1, text);
    VerseAddsL(s1, text);
  }

  lemma FirstPairAb()
    ensures LetterPair(0) == Some("ab")
  {
    var r := LetterPair(0);
    assert r.Some?;
    assert r.value[0] == 'a' && r.value[1] == 'b';
  }

  /** No step edits an element made earlier: elements keep their tag,
    * attributes, text and parent, and child lists only gain children at
    * their end. */
  lemma VerseGrows(s: St, text: string)
    requires Inv(s)
    ensures Grows(s.doc, VerseStep(s, text).0.doc)
  {
    var g := GroupStep(s);
    var s1 := ImplicitStep(s, "implicit");
    GroupStepFrame(s);
    ImplicitStepFrame(s, "implicit");
    GrowsTrans(s.doc, s1.doc, g.doc);
    if LetterPair(g.verseIndex).Some? {
      var g1 := g.(verseIndex := g.verseIndex + 1);
      LStepFrame(g1, LetterPair(g.verseIndex).value, text);
      GrowsTrans(s.doc, g.doc, VerseStep(s, text).0.doc);
    }
  }

  lemma PlanGrows(s: St, plan: Plan)
    requires Inv(s)
    ensures Grows(s.doc, PlanStep(s, plan).0.doc)
  {
    match plan
    case DivPlan(num) =>
      DivStepAdds(s, num);
    case ParaPlan(lab, content) =>
      ParaStepAdds(s, ParaAttrs(lab), content);
    case LinePlan(page, verse) =>
      var s1 := if page.Some? then PbStep(s, page.value) else s;
      if page.Some? {
        PbStepFrame(s, page.value);
      }
      if verse.Some? {
        VerseGrows(s1, verse.value);
        GrowsTrans(s.doc, s1.doc, VerseStep(s1, verse.value).0.doc);
      }
  }

  /** A whole build only adds to the tree it starts from. */
  lemma {:induction false} BuildGrows(s: St, lines: seq<string>)
    requires Inv(s)
    ensures Grows(s.doc, BuildRun(s, lines).0.doc)
    decreases |lines|
  {
    if lines != [] {
      var (s1, o) := LineStep(s, lines[0]);
      PlanGrows(s, PlanOf(lines[0]));
      if o.Pass? {
        BuildGrows(s1, lines[1..]);
        GrowsTrans(s.doc, s1.doc, BuildRun(s1, lines[1..]).0.doc);
      }
    }
  }

  /** The builder object: its fields are updated in place, and every
    * method is proved to leave them as the matching step function says. */
  class EarlyBuilder {
    const verseOnly: bool
    var doc: Doc
    var currentDiv: nat
    var currentP: Option<nat>
    var currentLg: Option<nat>
    var currentL: Option<nat>
    var verseIndex: nat
    var lbCounter: nat

    function State(): St
      reads this
    {
      St(doc, currentDiv, currentP, currentLg, currentL, verseIndex, lbCounter)
    }

    ghost predicate Valid()
      reads this
    {
      Inv(State())
    }

    /** `verse_only` is stored but no branch reads it. */
    constructor(verseOnly: bool)
      ensures Valid() && State() == Start() && this.verseOnly == verseOnly
    {
      this.verseOnly := verseOnly;
      var (d0, r) := NewElement(Empty(), "TEI", map[]);
      var (d1, b) := SubElement(d0, r, "body", map[]);
      doc := d1;
      currentDiv := b;
      currentP := None;
      currentLg := None;
      currentL := None;
      verseIndex := 0;
      lbCounter := 1;
    }

    /** `build`: every line in turn; a label past the code points a
      * `char` can hold stops the run. */
    method Build(lines: seq<string>) returns (out: Outcome)
      requires Valid()
      modifies this
      ensures Valid() && (State(), out) == BuildRun(old(State()), lines)
    {
      out := Pass;
      var i := 0;
      while i < |lines|
        invariant i <= |lines| && Valid() && out.Pass?
        invariant BuildRun(State(), lines[i..]) == BuildRun(old(State()), lines)
        decreases |lines| - i
      {
        BuildCons(State(), lines[i..]);
        assert lines[i..][1..] == lines[i + 1..];
        out := HandleLine(lines[i]);
        if out.Raise? {
          return;
        }
        i := i + 1;
      }
    }

    /** `_handle_line`: the branch `PlanOf` picks, applied to the tree. */
    method HandleLine(line: string) returns (out: Outcome)
      requires Valid()
      modifies this
      ensures Valid() && (State(), out) == LineStep(old(State()), line)
    {
      out := Apply(PlanOf(line));
    }

    method Apply(plan: Plan) returns (out: Outcome)
      requires Valid()
      modifies this
      ensures Valid() && (State(), out) == PlanStep(old(State()), plan)
    {
      out := Pass;
      match plan
      case DivPlan(num) =>
        OpenDiv(num);
      case ParaPlan(lab, content) =>
        OpenPara(ParaAttrs(lab), content);
      case LinePlan(page, verse) =>
        if page.Some? {
          PageBreak(page.value);
        }
        if verse.Some? {
          out := Verse(verse.value);
        }
    }

    /** Step 1: a new div in the body, with the cursors cleared. */
    method OpenDiv(num: string)
      requires Valid()
      modifies this
      ensures Valid() && State() == DivStep(old(State()), num)
    {
      var (d, n) := SubElement(doc, Body, "div", DivAttrs(num));
      doc := d;
      currentDiv := n;
      currentP := None;
      currentLg := None;
      currentL := None;
    }

    /** Step 2: a new paragraph in the current div, carrying `attrs` and
      * the text after the label when there is any. */
    method OpenPara(attrs: Attrs, content: string)
      requires Valid()
      modifies this
      ensures Valid() && State() == ParaStep(old(State()), attrs, content)
    {
      var (d, n) := SubElement(doc, currentDiv, "p", attrs);
      doc := SetText(d, n, if content == [] then None else Some(content));
      currentP := Some(n);
      currentLg := None;
      currentL := None;
    }

    /** An implicit paragraph in the current div, when none is open. */
    method EnsurePara(lbl: string)
      requires Valid()
      modifies this
      ensures Valid() && State() == ImplicitStep(old(State()), lbl)
    {
      if currentP.None? {
        var (d, p) := SubElement(doc, currentDiv, "p", ImplicitAttrs(lbl));
        doc := d;
        currentP := Some(p);
      }
    }

    /** Step 3: a `pb` with the stripped marker in the (possibly implicit)
      * paragraph, and the verse index back to 0. */
    method PageBreak(page: string)
      requires Valid()
      modifies this
      ensures Valid() && State() == PbStep(old(State()), page)
    {
      EnsurePara("vimplicit");
      var (d, b) := SubElement(doc, currentP.value, "pb", map["n" := page]);
      doc := d;
      verseIndex := 0;
    }

    /** Step 4: the paragraph and group made sure of, then the label for
      * the verse index and the new `l`. */
    method Verse(text: string) returns (out: Outcome)
      requires Valid()
      modifies this
      ensures Valid() && (State(), out) == VerseStep(old(State()), text)
    {
      ghost var s0 := State();
      OpenGroup();
      var seg := LetterPair(verseIndex);
      VerseStepUnfold(s0, text);
      if seg.None? {
        return Raise("ValueError");
      }
      verseIndex := verseIndex + 1;
      ghost var s1 := State();
      NewLine(seg.value, text);
      assert State() == LStep(s1, seg.value, text);
      out := Pass;
    }

    /** The paragraph and the line group a verse line needs. */
    method OpenGroup()
      requires Valid()
      modifies this
      ensures Valid() && State() == GroupStep(old(State()))
    {
      EnsurePara("implicit");
      if currentLg.None? {
        var (d, g) := SubElement(doc, currentP.value, "lg", map[]);
        doc := d;
        currentLg := Some(g);
        verseIndex := 0;
      }
    }

    /** The `l` itself and its caesura. */
    method NewLine(seg: string, text: string)
      requires Valid() && currentLg.Some?
      modifies this
      ensures Valid() && State() == LStep(old(State()), seg, text)
    {
      var (d, l) := SubElement(doc, currentLg.value, "l", map["n" := seg]);
      d := SetText(d, l, Some(text));
      if !EndsInBars(text) {
        var (d2, c) := SubElement(d, l, "caesura", map[]);
        d := d2;
      }
      doc := d;
      currentL := Some(l);
    }
  }
}
