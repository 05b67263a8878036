/** The plaintext-to-TEI text builder: a single pass over the lines of a
  * lightly marked text that grows a TEI tree (`div`, `p`, `lg`/`l`,
  * `caesura`, `head`, `back`, `lb`, `pb`, `milestone`, and the inline
  * `choice`/`del`/`supplied`/`unclear`) while a cursor of open elements
  * moves along. The tree is the arena of `XmlTree`; the cursor is the
  * `State` value. Each handler of `TeiTextBuilder` is a step from one
  * `Builder` (tree and cursor) to the next; a Python exception is an `Err`
  * carrying its class name, and ends the build. */
module TeiBuilder {
  import opened Wrappers
  import opened Strings
  import opened XmlTree
  import opened TeiBuilderPatterns
  import opened InlineMarkers

  /** The fields of `TextBuildState` other than the two mode flags. */
  datatype State = State(
    root: nat, text: nat, body: nat, currentDiv: nat,
    currentP: Option<nat>, currentLg: Option<nat>, currentL: Option<nat>, currentCaesura: Option<nat>,
    prevLineHyphen: bool, lbCount: int, explicitPage: Option<string>,
    currentLocLabel: Option<string>, currentLocBase: Option<string>, currentLocXmlId: Option<string>,
    extraPSuffix: int, lastEmittedLb: Option<nat>, lastTailTextSink: Option<nat>,
    verseGroupBuffer: seq<nat>, pendingHeadElem: Option<nat>)

  /** The two mode flags of `TextBuildState`. */
  datatype Config = Config(verseOnly: bool, lineByLine: bool)

  /** The tree under construction and the cursor into it. */
  datatype Builder = Builder(doc: Doc, st: State)

  datatype Mode = Prose | Verse

  // -------------------------------------------------------------------
  // What the builder keeps true between steps
  // -------------------------------------------------------------------

  /** A cursor handle, when set, names an element with the given tag. */
  predicate Handle(d: Doc, h: Option<nat>, tag: string)
  {
    h.Some? ==> IsTag(d, h.value, tag)
  }

  predicate Detached(d: Doc, x: nat)
  {
    x < |d.up| && d.up[x].None?
  }

  /** Every handle of the cursor names an element of the right kind. */
  predicate CursorOk(d: Doc, s: State)
  {
    IsTag(d, s.root, "TEI") && IsTag(d, s.text, "text") && IsTag(d, s.body, "body")
    && s.currentDiv < |d.elems| && d.elems[s.currentDiv].tag in {"div", "body"}
    && Handle(d, s.currentP, "p") && Handle(d, s.currentLg, "lg") && Handle(d, s.currentL, "l")
    && Handle(d, s.currentCaesura, "caesura") && Handle(d, s.lastEmittedLb, "lb")
    && Handle(d, s.pendingHeadElem, "head")
    && (s.lastTailTextSink.Some? ==> s.lastTailTextSink.value < |d.elems|)
  }

  /** Verse groups waiting in the buffer, and the open `lg` outside
    * verse-only mode, are detached until the buffer is flushed; in
    * verse-only mode nothing is ever buffered. */
  predicate BufferOk(d: Doc, s: State, verseOnly: bool)
  {
    NoDup(s.verseGroupBuffer)
    && (forall k :: 0 <= k < |s.verseGroupBuffer| ==>
          IsTag(d, s.verseGroupBuffer[k], "lg") && Detached(d, s.verseGroupBuffer[k]))
    && (verseOnly ==> s.verseGroupBuffer == [])
    && (!verseOnly && s.currentLg.Some? ==>
          Detached(d, s.currentLg.value) && s.currentLg.value !in s.verseGroupBuffer)
  }

  predicate Sound(c: Config, b: Builder)
  {
    Wf(b.doc) && CursorOk(b.doc, b.st) && BufferOk(b.doc, b.st, c.verseOnly)
  }

  /** No detached `lg` gets a parent. */
  predicate LgsStayDetached(d: Doc, d2: Doc)
    requires Wf(d) && Wf(d2) && Extends(d, d2)
  {
    forall x :: 0 <= x < |d.elems| && d.elems[x].tag == "lg" && d.up[x].None? ==> d2.up[x].None?
  }

  lemma CursorKept(d: Doc, d2: Doc, s: State)
    requires Extends(d, d2) && CursorOk(d, s)
    ensures CursorOk(d2, s)
  {
  }

  /** The builder with its tree replaced by a later state of it that loses
    * no element, changes no tag and attaches no detached `lg`. */
  function WithTree(c: Config, b: Builder, d: Doc): (r: Builder)
    requires Sound(c, b) && Wf(d) && Extends(b.doc, d) && LgsStayDetached(b.doc, d)
    ensures Sound(c, r) && r == Builder(d, b.st)
  {
    CursorKept(b.doc, d, b.st);
    assert forall k :: 0 <= k < |b.st.verseGroupBuffer| ==>
      IsTag(d, b.st.verseGroupBuffer[k], "lg") && Detached(d, b.st.verseGroupBuffer[k]);
    Builder(d, b.st)
  }

  /** The state `__init__` leaves: a `TEI` root holding `text`, which holds
    * `body`; the current div is the body and nothing else is open. */
  function Init(c: Config): (b: Builder)
    ensures Sound(c, b)
    ensures b.doc.kids == [[1], [2], []] && b.doc.up == [None, Some(0), Some(1)]
    ensures b.st.currentDiv == b.st.body && b.st.verseGroupBuffer == [] && b.st.lbCount == 0
  {
    var d := Doc([Elem("TEI", map[], None, None), Elem("text", map[], None, None), Elem("body", map[], None, None)],
                 [[1], [2], []], [None, Some(0), Some(1)]);
    assert Wf(d);
    Builder(d, State(0, 1, 2, 2, None, None, None, None, false, 0, None, None, None, None, 1, None, None, [], None))
  }

  // -------------------------------------------------------------------
  // Line breaks and text
  // -------------------------------------------------------------------

  /** `{"n": str(lb_count)}`, with `break="no"` when the raw line ends in a hyphen. */
  function LbAttrs(count: int, rawLine: string): Attrs
  {
    var a := map["n" := IntToString(count)];
    if rawLine != [] && EndsWithHyphen(rawLine) then a["break" := "no"] else a
  }

  /** `_emit_lb`: the next line number as a new last `lb` child of
    * `container`, which becomes the last emitted `lb`. */
  function EmitLb(c: Config, b: Builder, container: nat, rawLine: string): (r: (Builder, nat))
    requires Sound(c, b) && container < |b.doc.elems|
    ensures Sound(c, r.0) && Extends(b.doc, r.0.doc)
    ensures r.1 == |b.doc.elems| && IsTag(r.0.doc, r.1, "lb") && r.0.doc.up[r.1] == Some(container)
    ensures r.0.doc.kids[container] == b.doc.kids[container] + [r.1]
    ensures r.0.st == b.st.(lbCount := b.st.lbCount + 1, lastEmittedLb := Some(r.1))
    ensures var a := r.0.doc.elems[r.1].attrs;
            "n" in a && a["n"] == IntToString(r.0.st.lbCount)
            && ("break" in a <==> rawLine != [] && EndsWithHyphen(rawLine))
            && ("break" in a ==> a["break"] == "no")
  {
    var count := b.st.lbCount + 1;
    var (d, lb) := SubElement(b.doc, container, "lb", LbAttrs(count, rawLine));
    var b1 := WithTree(c, b, d);
    (Builder(d, b.st.(lbCount := count, lastEmittedLb := Some(lb))), lb)
  }

  /** `_finalize_physical_line`: remember whether the line ended in a hyphen. */
  function FinalizePhysicalLine(c: Config, b: Builder, rawLine: string): (r: Builder)
    requires Sound(c, b)
    ensures Sound(c, r) && r.doc == b.doc && r.st.prevLineHyphen == EndsWithHyphen(rawLine)
    ensures r.st.(prevLineHyphen := b.st.prevLineHyphen) == b.st
  {
    b.(st := b.st.(prevLineHyphen := EndsWithHyphen(rawLine)))
  }

  /** The space `_append` puts before text joining the tail of an `lb` or `pb`. */
  function JoinSpace(d: Doc, e: nat, prevLineHyphen: bool): string
    requires e < |d.elems|
  {
    if !prevLineHyphen && d.elems[e].tag in {"lb", "pb"} then " " else ""
  }

  /** Where `_append` writes. */
  datatype Target = TailOf(e: nat) | TextOf(e: nat) | Nowhere

  /** The tail of the text sink, else the text of the open `l`, else of the open `p`. */
  function AppendTarget(s: State): Target
  {
    if s.lastTailTextSink.Some? then TailOf(s.lastTailTextSink.value)
    else if s.currentL.Some? then TextOf(s.currentL.value)
    else if s.currentP.Some? then TextOf(s.currentP.value)
    else Nowhere
  }

  /** `_append`: non-empty text goes to the tail of the text sink, or else
    * to the text of the open `l`, or else of the open `p`, or nowhere. */
  function Append(c: Config, b: Builder, t: string): (r: Builder)
    requires Sound(c, b)
    ensures Sound(c, r) && r.st == b.st && Extends(b.doc, r.doc)
  {
    if t == [] then b
    else if b.st.lastTailTextSink.Some? then
      var e := b.st.lastTailTextSink.value;
      WithTree(c, b, SetTail(b.doc, e, Some(b.doc.elems[e].tail.GetOr("") + JoinSpace(b.doc, e, b.st.prevLineHyphen) + t)))
    else if b.st.currentL.Some? then
      var e := b.st.currentL.value;
      WithTree(c, b, SetText(b.doc, e, Some(b.doc.elems[e].text.GetOr("") + t)))
    else if b.st.currentP.Some? then
      var e := b.st.currentP.value;
      WithTree(c, b, SetText(b.doc, e, Some(b.doc.elems[e].text.GetOr("") + t)))
    else b
  }

  /** `_append` changes one element at most: the tail of the sink gets the
    * join space and the text, or the text of the open `l` or `p` gets the
    * text; empty text, or no target, changes nothing. */
  lemma AppendRouting(c: Config, b: Builder, t: string, x: nat)
    requires Sound(c, b) && x < |b.doc.elems|
    ensures var r := Append(c, b, t);
            r.doc.kids == b.doc.kids && r.doc.up == b.doc.up && |r.doc.elems| == |b.doc.elems|
            && r.doc.elems[x] ==
                 if t != [] && AppendTarget(b.st) == TailOf(x) then
                   b.doc.elems[x].(tail := Some(b.doc.elems[x].tail.GetOr("") + JoinSpace(b.doc, x, b.st.prevLineHyphen) + t))
                 else if t != [] && AppendTarget(b.st) == TextOf(x) then
                   b.doc.elems[x].(text := Some(b.doc.elems[x].text.GetOr("") + t))
                 else b.doc.elems[x]
  {
  }

  /** The join space is a single space, put only on the tail of an `lb` or
    * `pb` when the previous physical line did not end in a hyphen. */
  lemma JoinSpaceOnlyAfterBreaks(d: Doc, e: nat, prevLineHyphen: bool)
    requires e < |d.elems|
    ensures JoinSpace(d, e, prevLineHyphen) in {"", " "}
    ensures JoinSpace(d, e, prevLineHyphen) == " " <==> !prevLineHyphen && d.elems[e].tag in {"lb", "pb"}
  {
  }

  // -------------------------------------------------------------------
  // Inline elements
  // -------------------------------------------------------------------

  /** `_add_inline_element`: a new inline element goes right after the text
    * sink, or at the end of the open `l` or `p`, and becomes the sink.
    * `addnext` on a sink without a parent raises TypeError. */
  function AddInlineElement(c: Config, b: Builder, el: nat): (r: Result<Builder>)
    requires Sound(c, b) && el < |b.doc.elems| && b.doc.up[el].None? && b.doc.elems[el].tag != "lg"
    requires b.st.lastTailTextSink != Some(el)
    ensures r.Err? <==> b.st.lastTailTextSink.Some? && b.doc.up[b.st.lastTailTextSink.value].None?
    ensures r.Ok? ==> Sound(c, r.value) && Extends(b.doc, r.value.doc) && r.value.doc.elems == b.doc.elems
    ensures r.Ok? ==> r.value.st == b.st.(lastTailTextSink := Some(el))
  {
    match b.st.lastTailTextSink
    case None =>
      var container := if b.st.currentL.Some? then b.st.currentL else b.st.currentP;
      var d := if container.Some? then AppendChild(b.doc, container.value, el) else b.doc;
      Ok(SinkAt(c, WithTree(c, b, d), el))
    case Some(sink) =>
      if b.doc.up[sink].None? then Err("TypeError")
      else Ok(SinkAt(c, WithTree(c, b, AddNext(b.doc, sink, el)), el))
  }

  /** The builder with `el` as its text sink. */
  function SinkAt(c: Config, b: Builder, el: nat): (r: Builder)
    requires Sound(c, b) && el < |b.doc.elems|
    ensures Sound(c, r) && r.doc == b.doc && r.st == b.st.(lastTailTextSink := Some(el))
  {
    Builder(b.doc, b.st.(lastTailTextSink := Some(el)))
  }

  /** Only the children of the element that receives the new one change. */
  lemma AddInlineKeepsKids(c: Config, b: Builder, el: nat, x: nat)
    requires Sound(c, b) && el < |b.doc.elems| && b.doc.up[el].None? && b.doc.elems[el].tag != "lg"
    requires b.st.lastTailTextSink != Some(el) && x < |b.doc.elems|
    requires b.st.lastTailTextSink.Some? ==> b.doc.up[b.st.lastTailTextSink.value] != Some(x)
    requires b.st.lastTailTextSink.None? ==> b.st.currentL != Some(x) && b.st.currentP != Some(x)
    ensures var r := AddInlineElement(c, b, el);
            r.Ok? ==> r.value.doc.kids[x] == b.doc.kids[x]
  {
  }

  /** Where `_add_inline_element` puts the element: right after the sink,
    * or last in the open `l`, else the open `p`; with neither it stays
    * detached. */
  lemma AddInlinePlacement(c: Config, b: Builder, el: nat)
    requires Sound(c, b) && el < |b.doc.elems| && b.doc.up[el].None? && b.doc.elems[el].tag != "lg"
    requires b.st.lastTailTextSink != Some(el)
    ensures var r := AddInlineElement(c, b, el);
            r.Ok? ==>
              match b.st.lastTailTextSink
              case Some(sink) =>
                NextSibling(r.value.doc, sink) == Some(el) && r.value.doc.up[el] == b.doc.up[sink]
              case None =>
                var container := if b.st.currentL.Some? then b.st.currentL else b.st.currentP;
                r.value.doc.up[el] == container
                && (container.Some? ==> r.value.doc.kids[container.value] == b.doc.kids[container.value] + [el])
  {
    if b.st.lastTailTextSink.None? && (b.st.currentL.Some? || b.st.currentP.Some?) {
      DetachedInNoList(b.doc, el);
    }
  }

  /** The tag `_emit_del`, `_emit_supplied` or `_emit_unclear` creates. */
  function InlineTag(k: Kind): string
  {
    match k
    case PageMark => "pb"
    case ChoiceMark => "choice"
    case DelMark => "del"
    case SuppliedMark => "supplied"
    case UnclearMark => "unclear"
  }

  /** `e` is a `choice` whose two children are a `sic` and a `corr` with the given texts. */
  predicate ChoiceShape(d: Doc, e: nat, sic: string, corr: string)
  {
    IsTag(d, e, "choice") && e < |d.kids| && |d.kids[e]| == 2
    && d.kids[e][0] < |d.elems| && d.elems[d.kids[e][0]] == Elem("sic", map[], Some(sic), None)
    && d.kids[e][1] < |d.elems| && d.elems[d.kids[e][1]] == Elem("corr", map[], Some(corr), None)
  }

  /** The detached `choice` of `_emit_choice`, holding a `sic` and a `corr` with the two texts. */
  function ChoiceElement(d: Doc, sic: string, corr: string): (r: (Doc, nat))
    requires Wf(d)
    ensures Wf(r.0) && Extends(d, r.0) && LgsStayDetached(d, r.0)
    ensures r.1 == |d.elems| && r.1 < |r.0.up| && r.0.up[r.1].None? && ChoiceShape(r.0, r.1, sic, corr)
  {
    var r := NewElement(d, "choice", map[]);
    var r1 := SubElement(r.0, r.1, "sic", map[]);
    var d1 := SetText(r1.0, r1.1, Some(sic));
    var r2 := SubElement(d1, r.1, "corr", map[]);
    var d2 := SetText(r2.0, r2.1, Some(corr));
    assert d2.kids[r.1] == [r1.1, r2.1];
    (d2, r.1)
  }

  /** A new detached element with the given text. */
  function NewTextElement(c: Config, b: Builder, tag: string, t: string): (r: (Builder, nat))
    requires Sound(c, b)
    ensures Sound(c, r.0) && r.0.st == b.st && Extends(b.doc, r.0.doc)
    ensures r.1 == |b.doc.elems| && |r.0.doc.elems| == r.1 + 1
    ensures r.0.doc.elems[r.1] == Elem(tag, map[], Some(t), None) && r.0.doc.up[r.1].None?
  {
    var (d, e) := NewElement(b.doc, tag, map[]);
    (WithTree(c, b, SetText(d, e, Some(t))), e)
  }

  /** `_emit_choice`, `_emit_del`, `_emit_supplied` and `_emit_unclear`:
    * a new detached element for the marker, added inline. */
  function EmitInline(c: Config, b: Builder, m: Marker): (r: Result<Builder>)
    requires Sound(c, b) && m.kind != PageMark
    ensures r.Ok? ==> Sound(c, r.value) && Extends(b.doc, r.value.doc)
    ensures r.Ok? ==> r.value.st == b.st.(lastTailTextSink := Some(|b.doc.elems|))
  {
    var (b1, el) :=
      if m.kind == ChoiceMark then
        var (d, e) := ChoiceElement(b.doc, m.first, m.second.GetOr(""));
        (WithTree(c, b, d), e)
      else NewTextElement(c, b, InlineTag(m.kind), m.first);
    AddInlineElement(c, b1, el)
  }

  /** A deletion, supplied or unclear marker becomes a `del`, `supplied` or
    * `unclear` element holding the marker's text; it is the new text sink. */
  lemma EmitInlineShape(c: Config, b: Builder, m: Marker)
    requires Sound(c, b) && m.kind != PageMark && m.kind != ChoiceMark
    ensures var r := EmitInline(c, b, m);
            var e := |b.doc.elems|;
            r.Ok? ==> IsTag(r.value.doc, e, InlineTag(m.kind)) && r.value.doc.elems[e].text == Some(m.first)
  {
  }

  /** A correction becomes `choice` holding `sic` with the original and
    * `corr` with the correction (empty when there is none). */
  lemma EmitChoiceShape(c: Config, b: Builder, m: Marker)
    requires Sound(c, b) && m.kind == ChoiceMark
    ensures var r := EmitInline(c, b, m);
            r.Ok? ==> ChoiceShape(r.value.doc, |b.doc.elems|, m.first, m.second.GetOr(""))
  {
    var (d, e) := ChoiceElement(b.doc, m.first, m.second.GetOr(""));
    var b1 := WithTree(c, b, d);
    if b.st.lastTailTextSink.Some? {
      assert b.doc.up[b.st.lastTailTextSink.value] == d.up[b.st.lastTailTextSink.value];
    }
    AddInlineKeepsKids(c, b1, e, e);
  }

  // -------------------------------------------------------------------
  // Page breaks and milestones
  // -------------------------------------------------------------------

  /** `_get_container`: the innermost open element, down from the div. */
  function GetContainer(b: Builder): (e: nat)
    requires CursorOk(b.doc, b.st)
    ensures e < |b.doc.elems| && b.doc.elems[e].tag in {"l", "lg", "p", "div", "body"}
  {
    if b.st.currentL.Some? then b.st.currentL.value
    else if b.st.currentLg.Some? then b.st.currentLg.value
    else if b.st.currentP.Some? then b.st.currentP.value
    else b.st.currentDiv
  }

  /** `(.//l | .//p)[last()]` under the current div. */
  function LastVerseOrParagraph(b: Builder): (r: Option<nat>)
    requires Wf(b.doc) && CursorOk(b.doc, b.st)
    ensures r.Some? ==> r.value < |b.doc.elems| && b.doc.elems[r.value].tag in {"l", "p"}
    ensures r.Some? ==> LastWithTag(b.doc, Descendants(b.doc, b.st.currentDiv), {"l", "p"}, r.value)
    ensures r.None? <==> forall x :: x in Descendants(b.doc, b.st.currentDiv) ==> !Tagged(b.doc, x, {"l", "p"})
  {
    var ds := Descendants(b.doc, b.st.currentDiv);
    var xs := FilterTag(b.doc, ds, {"l", "p"});
    FilterTagEmpty(b.doc, ds, {"l", "p"});
    if xs == [] then None
    else
      assert xs[|xs| - 1] in xs;
      FilterTagLast(b.doc, ds, {"l", "p"});
      Some(xs[|xs| - 1])
  }

  /** Python's `el.get("break") == "no"`. */
  predicate BreakNo(e: Elem)
  {
    "break" in e.attrs && e.attrs["break"] == "no"
  }

  /** Where `_emit_pb` puts the page break, with the last emitted `lb`
    * removed when it has a parent, and whether that `lb` had `break="no"`.
    * The page break goes into the `lb`'s parent unless that parent sits
    * directly in another div; without an `lb`, into the innermost open
    * element or, without line-by-line breaks, after the last `l` or `p` of
    * the div. The parent of an `lb` whose parent has none raises
    * AttributeError on `.tag`. */
  function TakeLastLb(c: Config, b: Builder): (r: Result<(Builder, nat, bool)>)
    requires Sound(c, b)
    ensures r.Ok? ==> Sound(c, r.value.0) && Extends(b.doc, r.value.0.doc) && r.value.0.st == b.st
    ensures r.Ok? ==> r.value.1 < |r.value.0.doc.elems| && r.value.0.doc.elems == b.doc.elems
  {
    var container := GetContainer(b);
    match b.st.lastEmittedLb
    case Some(lb) =>
      (match b.doc.up[lb]
       case None => Ok((b, container, false))
       case Some(parent) =>
         match b.doc.up[parent]
         case None => Err("AttributeError")
         case Some(grand) =>
           var target := if b.doc.elems[grand].tag == "div" && grand != b.st.currentDiv then container else parent;
           Ok((WithTree(c, b, Detach(b.doc, lb)), target, BreakNo(b.doc.elems[lb]))))
    case None =>
      var last := LastVerseOrParagraph(b);
      if !c.lineByLine && last.Some? then Ok((b, last.value, false)) else Ok((b, container, false))
  }

  /** The `lb_count` after a page break: the given line number minus one,
    * 0 when it is not a number, 1 when no line number is given. */
  function LbCountAfterPage(lineNo: Option<string>): int
  {
    match lineNo
    case None => 1
    case Some(t) =>
      match ParseInt(t)
      case Some(v) => v - 1
      case None => 0
  }

  /** `_emit_pb`: a page break replaces the last emitted `lb`; it becomes the
    * text sink, and the line count restarts from the given line. */
  function EmitPb(c: Config, b: Builder, page: string, lineNo: Option<string>): (r: Result<Builder>)
    requires Sound(c, b)
    ensures r.Ok? ==> Sound(c, r.value) && Extends(b.doc, r.value.doc)
  {
    var t :- TakeLastLb(c, b);
    var attrs := if t.2 then map["n" := page, "break" := "no"] else map["n" := page];
    var (d, pb) := SubElement(t.0.doc, t.1, "pb", attrs);
    var b1 := WithTree(c, t.0, d);
    Ok(Builder(d, t.0.st.(lastEmittedLb := None, lastTailTextSink := Some(pb), explicitPage := Some(page),
                           lbCount := LbCountAfterPage(lineNo))))
  }

  /** `_emit_pb` raises AttributeError exactly when the pending `lb` sits in
    * an element that has no parent. */
  lemma EmitPbFails(c: Config, b: Builder, page: string, lineNo: Option<string>)
    requires Sound(c, b)
    ensures var lb := b.st.lastEmittedLb;
            EmitPb(c, b, page, lineNo).Err? <==>
              lb.Some? && b.doc.up[lb.value].Some? && b.doc.up[b.doc.up[lb.value].value].None?
  {
  }

  /** On success the `pb` labelled with the page is in the tree, it is the
    * new text sink, the line count restarts from the line number, and an
    * attached pending `lb` has been taken out, its `break="no"` moving to the `pb`. */
  lemma EmitPbReplacesLb(c: Config, b: Builder, page: string, lineNo: Option<string>)
    requires Sound(c, b)
    ensures var r := EmitPb(c, b, page, lineNo);
            var lb := b.st.lastEmittedLb;
            var attached := lb.Some? && b.doc.up[lb.value].Some?;
            r.Ok? ==>
              var pb := |b.doc.elems|;
              r.value.st == b.st.(lastEmittedLb := None, lastTailTextSink := Some(pb), explicitPage := Some(page),
                                  lbCount := LbCountAfterPage(lineNo))
              && IsTag(r.value.doc, pb, "pb") && r.value.doc.up[pb].Some?
              && "n" in r.value.doc.elems[pb].attrs && r.value.doc.elems[pb].attrs["n"] == page
              && (BreakNo(r.value.doc.elems[pb]) <==> attached && BreakNo(b.doc.elems[lb.value]))
              && (attached ==> r.value.doc.up[lb.value].None?)
  {
    TakeLastLbDetaches(c, b);
  }

  /** The pending `lb`, when attached, is taken out and its `break="no"` reported. */
  lemma TakeLastLbDetaches(c: Config, b: Builder)
    requires Sound(c, b)
    ensures var r := TakeLastLb(c, b);
            var lb := b.st.lastEmittedLb;
            var attached := lb.Some? && b.doc.up[lb.value].Some?;
            r.Ok? ==>
              (r.value.2 <==> attached && BreakNo(b.doc.elems[lb.value]))
              && (attached ==> r.value.0.doc.up[lb.value].None?)
  {
  }

  /** The line count after `<p,l>` is `l - 1`, so the next `lb` is numbered `l`. */
  lemma PageLineCountsOn(c: Config, b: Builder, page: string, lineNo: nat)
    requires Sound(c, b)
    ensures var r := EmitPb(c, b, page, Some(NatToString(lineNo)));
            r.Ok? ==> EmitLb(c, r.value, |b.doc.elems|, "").0.st.lbCount == lineNo
  {
    IntRoundTrip(lineNo);
  }

  /** `_emit_milestone`: a `milestone` labelled with the note, in the innermost open element. */
  function EmitMilestone(c: Config, b: Builder, name: string): (r: Builder)
    requires Sound(c, b)
    ensures Sound(c, r) && r.st == b.st && Extends(b.doc, r.doc)
    ensures var m := |b.doc.elems|;
            IsTag(r.doc, m, "milestone") && r.doc.up[m] == Some(GetContainer(b))
            && r.doc.elems[m].attrs == map["n" := name]
  {
    WithTree(c, b, SubElement(b.doc, GetContainer(b), "milestone", map["n" := name]).0)
  }

  // -------------------------------------------------------------------
  // Closing and opening blocks
  // -------------------------------------------------------------------

  /** An open element with no text and no children: `not el.text and not len(el)`. */
  predicate EmptyElement(d: Doc, e: Option<nat>)
  {
    e.Some? && e.value < |d.elems| && e.value < |d.kids| && (d.elems[e.value].text.None? || d.elems[e.value].text.value == [])
    && d.kids[e.value] == []
  }

  /** `_close_p`: an open `p` without text and children is removed from the
    * tree; either way no `p` is open afterwards. */
  function CloseP(c: Config, b: Builder): (r: Builder)
    requires Sound(c, b)
    ensures Sound(c, r) && Extends(b.doc, r.doc) && r.st == b.st.(currentP := None)
    ensures EmptyElement(b.doc, b.st.currentP) ==>
              r.doc.elems == b.doc.elems && r.doc.up == b.doc.up[b.st.currentP.value := None]
    ensures !EmptyElement(b.doc, b.st.currentP) ==> r.doc == b.doc
  {
    var d := if EmptyElement(b.doc, b.st.currentP) then Detach(b.doc, b.st.currentP.value) else b.doc;
    Builder(WithTree(c, b, d).doc, b.st.(currentP := None))
  }

  /** `for child_lg in buffer: parent_lg.append(child_lg)`. */
  function AppendAll(d: Doc, g: nat, lgs: seq<nat>): (r: Doc)
    requires Wf(d) && g < |d.elems| && NoDup(lgs)
    requires forall k :: 0 <= k < |lgs| ==> lgs[k] < |d.elems| && d.up[lgs[k]].None? && lgs[k] != g
    ensures Wf(r) && r.elems == d.elems
    decreases |lgs|
  {
    if lgs == [] then d
    else
      var d1 := AppendChild(d, g, lgs[0]);
      assert forall k :: 1 <= k < |lgs| ==> lgs[k] != lgs[0];
      AppendAll(d1, g, lgs[1..])
  }

  /** A detached element appended to `p` becomes its last child. */
  lemma AppendDetached(d: Doc, p: nat, c: nat)
    requires Wf(d) && p < |d.elems| && c < |d.elems| && d.up[c].None?
    ensures AppendChild(d, p, c).kids[p] == d.kids[p] + [c]
  {
    DetachedInNoList(d, c);
  }

  lemma HeadThenTail(a: seq<nat>, s: seq<nat>)
    requires s != []
    ensures (a + [s[0]]) + s[1..] == a + s
  {
    assert s == [s[0]] + s[1..];
  }

  /** The groups become, in order, the last children of `g`. */
  lemma {:induction false} AppendAllKids(d: Doc, g: nat, lgs: seq<nat>)
    requires Wf(d) && g < |d.elems| && NoDup(lgs)
    requires forall k :: 0 <= k < |lgs| ==> lgs[k] < |d.elems| && d.up[lgs[k]].None? && lgs[k] != g
    ensures AppendAll(d, g, lgs).kids[g] == d.kids[g] + lgs
    decreases |lgs|
  {
    if lgs != [] {
      var d1 := AppendChild(d, g, lgs[0]);
      AppendDetached(d, g, lgs[0]);
      assert forall k :: 1 <= k < |lgs| ==> lgs[k] != lgs[0];
      AppendAllKids(d1, g, lgs[1..]);
      calc {
        AppendAll(d, g, lgs).kids[g];
        AppendAll(d1, g, lgs[1..]).kids[g];
        (d.kids[g] + [lgs[0]]) + lgs[1..];
        { HeadThenTail(d.kids[g], lgs); }
        d.kids[g] + lgs;
      }
    }
  }

  /** No element other than `g` gains or loses a child. */
  lemma {:induction false} AppendAllOtherKids(d: Doc, g: nat, lgs: seq<nat>, x: nat)
    requires Wf(d) && g < |d.elems| && NoDup(lgs)
    requires forall k :: 0 <= k < |lgs| ==> lgs[k] < |d.elems| && d.up[lgs[k]].None? && lgs[k] != g
    requires x < |d.kids| && x != g
    ensures AppendAll(d, g, lgs).kids[x] == d.kids[x]
    decreases |lgs|
  {
    if lgs != [] {
      var d1 := AppendChild(d, g, lgs[0]);
      assert d1.kids[x] == d.kids[x];
      assert forall k :: 1 <= k < |lgs| ==> lgs[k] != lgs[0];
      AppendAllOtherKids(d1, g, lgs[1..], x);
    }
  }

  /** The groups get `g` as parent; every other element keeps its parent. */
  lemma {:induction false} AppendAllUp(d: Doc, g: nat, lgs: seq<nat>, x: nat)
    requires Wf(d) && g < |d.elems| && NoDup(lgs)
    requires forall k :: 0 <= k < |lgs| ==> lgs[k] < |d.elems| && d.up[lgs[k]].None? && lgs[k] != g
    requires x < |d.elems|
    ensures AppendAll(d, g, lgs).up[x] == if x in lgs then Some(g) else d.up[x]
    decreases |lgs|
  {
    if lgs != [] {
      var d1 := AppendChild(d, g, lgs[0]);
      assert forall k :: 1 <= k < |lgs| ==> lgs[k] != lgs[0];
      AppendAllUp(d1, g, lgs[1..], x);
      assert x in lgs <==> x == lgs[0] || x in lgs[1..];
    }
  }

  /** The buffer `_flush_verse_group_buffer` works on: the waiting groups and,
    * outside verse-only mode, the open `lg`. */
  function Pending(c: Config, s: State): seq<nat>
  {
    s.verseGroupBuffer + if s.currentLg.Some? && !c.verseOnly then [s.currentLg.value] else []
  }

  lemma PendingDetached(c: Config, b: Builder)
    requires Sound(c, b)
    ensures var buf := Pending(c, b.st);
            NoDup(buf) && forall k :: 0 <= k < |buf| ==> IsTag(b.doc, buf[k], "lg") && Detached(b.doc, buf[k])
  {
    var buf := Pending(c, b.st);
    forall k | 0 <= k < |buf|
      ensures IsTag(b.doc, buf[k], "lg") && Detached(b.doc, buf[k])
    {
      if k < |b.st.verseGroupBuffer| {
        assert buf[k] == b.st.verseGroupBuffer[k];
      }
    }
  }

  /** The cursor after the flush: nothing buffered, and outside verse-only
    * mode no `lg` (and then no `l`) open. */
  function FlushedState(c: Config, s: State): State
  {
    s.(verseGroupBuffer := [], currentLg := if c.verseOnly then s.currentLg else None,
       currentL := if !c.verseOnly && s.currentLg.Some? then None else s.currentL)
  }

  /** With the buffer emptied no detached group remains to watch, so any
    * later tree that keeps the tags keeps the cursor sound. */
  lemma Flushed(c: Config, d: Doc, d2: Doc, s: State)
    requires Wf(d2) && Extends(d, d2) && CursorOk(d, s)
    ensures Sound(c, Builder(d2, FlushedState(c, s)))
  {
    CursorKept(d, d2, s);
  }

  /** Two or more groups: a new `lg type="group"` at the end of the div,
    * holding the groups in order. */
  function WrapGroups(d: Doc, div: nat, buf: seq<nat>, name: string, id: string): (r: (Doc, nat))
    requires Wf(d) && div < |d.elems| && NoDup(buf)
    requires forall k :: 0 <= k < |buf| ==> buf[k] < |d.elems| && d.up[buf[k]].None?
    ensures Wf(r.0) && Extends(d, r.0) && r.1 == |d.elems|
  {
    var (d1, g) := SubElement(d, div, "lg", map["type" := "group", "n" := name, "xml:id" := id]);
    (AppendAll(d1, g, buf), g)
  }

  /** One group: labelled with the location and put at the end of the div. */
  function PlaceSingle(d: Doc, div: nat, lg: nat, name: string, id: string): (r: Doc)
    requires Wf(d) && div < |d.elems| && lg < |d.elems|
    ensures Wf(r) && Extends(d, r)
  {
    AppendChild(SetAttr(SetAttr(d, lg, "xml:id", id), lg, "n", name), div, lg)
  }

  /** `_flush_verse_group_buffer`: the open `lg` joins the buffer (outside
    * verse-only mode); one buffered `lg` is put in the div with the current
    * location's `n` and `xml:id`; two or more are wrapped in one new
    * `lg type="group"`. A location still None as an attribute value raises
    * TypeError. */
  function FlushVerseGroupBuffer(c: Config, b: Builder): (r: Result<Builder>)
    requires Sound(c, b)
    ensures r.Ok? ==> Sound(c, r.value) && Extends(b.doc, r.value.doc) && r.value.st == FlushedState(c, b.st)
  {
    var buf := Pending(c, b.st);
    if buf == [] then
      Flushed(c, b.doc, b.doc, b.st);
      Ok(Builder(b.doc, FlushedState(c, b.st)))
    else if b.st.currentLocLabel.None? || b.st.currentLocXmlId.None? then Err("TypeError")
    else
      PendingDetached(c, b);
      var name, id := b.st.currentLocLabel.value, b.st.currentLocXmlId.value;
      var d := if |buf| > 1 then WrapGroups(b.doc, b.st.currentDiv, buf, name, id).0
               else PlaceSingle(b.doc, b.st.currentDiv, buf[0], name, id);
      Flushed(c, b.doc, d, b.st);
      Ok(Builder(d, FlushedState(c, b.st)))
  }

  /** The flush fails exactly when there is something to place and the
    * location label or id is None; with nothing to place the tree stays. */
  lemma FlushFailsOnMissingLocation(c: Config, b: Builder)
    requires Sound(c, b)
    ensures var r := FlushVerseGroupBuffer(c, b);
            var buf := Pending(c, b.st);
            (r.Err? <==> buf != [] && (b.st.currentLocLabel.None? || b.st.currentLocXmlId.None?))
            && (buf == [] ==> r == Ok(Builder(b.doc, FlushedState(c, b.st))))
  {
  }

  /** A single group becomes the last child of the div, with the location's
    * `xml:id` and `n`. */
  lemma FlushPlacesSingle(c: Config, b: Builder)
    requires Sound(c, b) && |Pending(c, b.st)| == 1
    ensures var r := FlushVerseGroupBuffer(c, b);
            var lg := Pending(c, b.st)[0];
            var div := b.st.currentDiv;
            r.Ok? ==>
              r.value.doc.up[lg] == Some(div)
              && r.value.doc.kids[div] == b.doc.kids[div] + [lg]
              && r.value.doc.elems[lg].attrs
                 == b.doc.elems[lg].attrs["xml:id" := b.st.currentLocXmlId.value]["n" := b.st.currentLocLabel.value]
  {
    var lg := Pending(c, b.st)[0];
    PendingDetached(c, b);
    if b.st.currentLocLabel.Some? && b.st.currentLocXmlId.Some? {
      var name, id := b.st.currentLocLabel.value, b.st.currentLocXmlId.value;
      AppendDetached(SetAttr(SetAttr(b.doc, lg, "xml:id", id), lg, "n", name), b.st.currentDiv, lg);
    }
  }

  /** The wrapper is the last child of the div and holds the groups in
    * order, each with the wrapper as parent. */
  lemma WrapGroupsShape(d: Doc, div: nat, buf: seq<nat>, name: string, id: string)
    requires Wf(d) && div < |d.elems| && NoDup(buf)
    requires forall k :: 0 <= k < |buf| ==> buf[k] < |d.elems| && d.up[buf[k]].None?
    ensures var d2 := WrapGroups(d, div, buf, name, id).0;
            var g := |d.elems|;
            IsTag(d2, g, "lg") && d2.up[g] == Some(div)
            && d2.kids[div] == d.kids[div] + [g]
            && d2.kids[g] == buf
            && d2.elems[g].attrs == map["type" := "group", "n" := name, "xml:id" := id]
            && forall k :: 0 <= k < |buf| ==> d2.up[buf[k]] == Some(g)
  {
    var (d1, g) := SubElement(d, div, "lg", map["type" := "group", "n" := name, "xml:id" := id]);
    AppendAllKids(d1, g, buf);
    AppendAllOtherKids(d1, g, buf, div);
    AppendAllUp(d1, g, buf, g);
    forall k | 0 <= k < |buf|
      ensures AppendAll(d1, g, buf).up[buf[k]] == Some(g)
    {
      AppendAllUp(d1, g, buf, buf[k]);
    }
  }

  /** Two or more groups become, in order, the children of a new
    * `lg type="group"` labelled with the location, the last child of the div. */
  lemma FlushWrapsGroups(c: Config, b: Builder)
    requires Sound(c, b) && |Pending(c, b.st)| >= 2
    ensures var r := FlushVerseGroupBuffer(c, b);
            var buf := Pending(c, b.st);
            var div := b.st.currentDiv;
            var g := |b.doc.elems|;
            r.Ok? ==>
              IsTag(r.value.doc, g, "lg") && r.value.doc.up[g] == Some(div)
              && r.value.doc.kids[div] == b.doc.kids[div] + [g]
              && r.value.doc.kids[g] == buf
              && r.value.doc.elems[g].attrs
                 == map["type" := "group", "n" := b.st.currentLocLabel.value, "xml:id" := b.st.currentLocXmlId.value]
              && forall k :: 0 <= k < |buf| ==> r.value.doc.up[buf[k]] == Some(g)
  {
    PendingDetached(c, b);
    if b.st.currentLocLabel.Some? && b.st.currentLocXmlId.Some? {
      WrapGroupsShape(b.doc, b.st.currentDiv, Pending(c, b.st), b.st.currentLocLabel.value, b.st.currentLocXmlId.value);
    }
  }

  /** `_close_lg`: flush the buffer, then forget the open `lg` and `l`. */
  function CloseLg(c: Config, b: Builder): (r: Result<Builder>)
    requires Sound(c, b)
    ensures r.Ok? ==> Sound(c, r.value) && Extends(b.doc, r.value.doc)
    ensures r.Ok? ==> r.value.st == b.st.(verseGroupBuffer := [], currentLg := None,
                                         currentL := if b.st.currentLg.Some? then None else b.st.currentL)
  {
    var b1 :- FlushVerseGroupBuffer(c, b);
    Ok(if b1.st.currentLg.Some? then b1.(st := b1.st.(currentLg := None, currentL := None)) else b1)
  }

  /** Flush, close the `p`, close the `lg`: what `_open_div` and
    * `_open_location` do first. */
  function CloseAll(c: Config, b: Builder): (r: Result<Builder>)
    requires Sound(c, b)
    ensures r.Ok? ==> Sound(c, r.value) && Extends(b.doc, r.value.doc)
    ensures r.Ok? ==> r.value.st == b.st.(verseGroupBuffer := [], currentLg := None, currentP := None,
                                         currentL := if b.st.currentLg.Some? then None else b.st.currentL)
  {
    var b1 :- FlushVerseGroupBuffer(c, b);
    CloseLg(c, CloseP(c, b1))
  }

  /** A new `div n=name` at the end of the body, as the current div, with no location. */
  function StartDiv(c: Config, b: Builder, name: string): (r: Builder)
    requires Sound(c, b)
    ensures Sound(c, r) && Extends(b.doc, r.doc)
    ensures var div := |b.doc.elems|;
            r.st == b.st.(currentDiv := div, currentLocLabel := None, currentLocXmlId := None, extraPSuffix := 1)
            && |r.doc.elems| == div + 1 && IsTag(r.doc, div, "div") && r.doc.elems[div].attrs == map["n" := name]
            && r.doc.up[div] == Some(b.st.body) && r.doc.kids[div] == []
  {
    var (d, div) := SubElement(b.doc, b.st.body, "div", map["n" := name]);
    var b1 := WithTree(c, b, d);
    Builder(d, b.st.(currentDiv := div, currentLocLabel := None, currentLocXmlId := None, extraPSuffix := 1))
  }

  /** `_open_div`: close everything open and start a new `div n=label` in the body. */
  function OpenDiv(c: Config, b: Builder, name: string): (r: Result<Builder>)
    requires Sound(c, b)
    ensures r.Ok? ==> Sound(c, r.value) && Extends(b.doc, r.value.doc)
  {
    var b1 :- CloseAll(c, b);
    Ok(StartDiv(c, b1, name))
  }

  /** After `_open_div` the current div is a new, empty `div n=label` at the
    * end of the body, and no `p`, `lg` or location is open or buffered. */
  lemma OpenDivStartsSection(c: Config, b: Builder, name: string)
    requires Sound(c, b)
    ensures var r := OpenDiv(c, b, name);
            r.Ok? ==>
              var div := r.value.st.currentDiv;
              div == |r.value.doc.elems| - 1 && IsTag(r.value.doc, div, "div")
              && r.value.doc.up[div] == Some(b.st.body) && r.value.doc.kids[div] == []
              && r.value.doc.elems[div].attrs == map["n" := name]
              && r.value.st.currentP.None? && r.value.st.currentLg.None? && r.value.st.verseGroupBuffer == []
              && r.value.st.currentLocLabel.None? && r.value.st.currentLocXmlId.None?
  {
  }

  /** The line count `_open_location` takes from a "page,line" label, if any. */
  function LocationLineCount(name: string): Option<int>
  {
    if ',' in name then ParseInt(Strip(SplitFirst(name, ',').1)) else None
  }

  /** A new `p` for a location in the current div, with the label's `xml:id`;
    * it is the open `p`, with no text sink and no pending hyphen. */
  function StartParagraph(c: Config, b: Builder, name: string, count: int): (r: Builder)
    requires Sound(c, b)
    ensures Sound(c, r) && Extends(b.doc, r.doc)
    ensures var p := |b.doc.elems|;
            r.st == b.st.(currentLocLabel := Some(name), currentLocXmlId := Some(MakeXmlId(name)), lbCount := count,
                          extraPSuffix := 1, currentP := Some(p), lastTailTextSink := None, prevLineHyphen := false)
            && |r.doc.elems| == p + 1 && IsTag(r.doc, p, "p") && r.doc.up[p] == Some(b.st.currentDiv)
            && r.doc.elems[p].attrs == map["xml:id" := MakeXmlId(name), "n" := name]
  {
    var id := MakeXmlId(name);
    var (d, p) := SubElement(b.doc, b.st.currentDiv, "p", map["xml:id" := id, "n" := name]);
    var b1 := WithTree(c, b, d);
    Builder(d, b.st.(currentLocLabel := Some(name), currentLocXmlId := Some(id), lbCount := count, extraPSuffix := 1,
                     currentP := Some(p), lastTailTextSink := None, prevLineHyphen := false))
  }

  /** `_open_location`: close everything open, then open a `p` for the
    * label with its `xml:id`. Outside verse-only mode a "page,line" label
    * whose line part is an integer sets the line count. */
  function OpenLocation(c: Config, b: Builder, name: string): (r: Result<Builder>)
    requires Sound(c, b)
    ensures r.Ok? ==> Sound(c, r.value) && Extends(b.doc, r.value.doc)
  {
    var b1 :- CloseAll(c, b);
    var count := if !c.verseOnly && LocationLineCount(name).Some? then LocationLineCount(name).value else b1.st.lbCount;
    Ok(StartParagraph(c, b1, name, count))
  }

  /** After `_open_location` the open `p` is a new child of the div with the
    * label as `n` and its `xml:id`; the location is the label, nothing is
    * buffered, and the line count is the label's line number when it has one. */
  lemma OpenLocationOpensP(c: Config, b: Builder, name: string)
    requires Sound(c, b)
    ensures var r := OpenLocation(c, b, name);
            r.Ok? ==>
              var p := r.value.st.currentP;
              p.Some? && IsTag(r.value.doc, p.value, "p")
              && r.value.doc.up[p.value] == Some(b.st.currentDiv) && r.value.st.currentDiv == b.st.currentDiv
              && r.value.doc.elems[p.value].attrs == map["xml:id" := MakeXmlId(name), "n" := name]
              && r.value.st.currentLocLabel == Some(name) && r.value.st.currentLocXmlId == Some(MakeXmlId(name))
              && r.value.st.lastTailTextSink.None? && !r.value.st.prevLineHyphen
              && r.value.st.currentLg.None? && r.value.st.verseGroupBuffer == []
              && r.value.st.lbCount == if !c.verseOnly && LocationLineCount(name).Some? then LocationLineCount(name).value
                                       else b.st.lbCount
  {
  }

  /** The base under which `_open_or_switch_lg_for_label` groups a label. */
  function LgBase(name: string, groupByBase: bool): string
  {
    if groupByBase then ParseVerseLabel(name).0 else Strip(name)
  }

  /** A new `lg` with `n` = base and `xml:id` = `v` + base, in the div in
    * verse-only mode and detached otherwise; it is the open `lg`, with no `l`. */
  function StartLg(c: Config, b: Builder, name: string, base: string): (r: (Builder, nat))
    requires Sound(c, b) && b.st.verseGroupBuffer == []
    ensures Sound(c, r.0) && Extends(b.doc, r.0.doc) && r.1 == |b.doc.elems|
    ensures r.0.st == b.st.(currentLocBase := Some(base), currentLocLabel := Some(name), currentLg := Some(r.1), currentL := None)
    ensures |r.0.doc.elems| == r.1 + 1 && IsTag(r.0.doc, r.1, "lg") && r.0.doc.kids[r.1] == []
    ensures r.0.doc.elems[r.1].attrs == map["n" := base, "xml:id" := VerseId(base)]
    ensures r.0.doc.up[r.1] == if c.verseOnly then Some(b.st.currentDiv) else None
  {
    var attrs := map["n" := base, "xml:id" := VerseId(base)];
    var (d, lg) := if c.verseOnly then SubElement(b.doc, b.st.currentDiv, "lg", attrs) else NewElement(b.doc, "lg", attrs);
    var b1 := WithTree(c, b, d);
    (Builder(d, b.st.(currentLocBase := Some(base), currentLocLabel := Some(name), currentLg := Some(lg), currentL := None)), lg)
  }

  /** `_open_or_switch_lg_for_label` on a label with a new base: drop an
    * empty open `p`, close the `lg`, and start a new one. */
  function SwitchLg(c: Config, b: Builder, name: string, base: string): (r: Result<(Builder, nat)>)
    requires Sound(c, b)
    ensures r.Ok? ==> Sound(c, r.value.0) && Extends(b.doc, r.value.0.doc)
    ensures r.Ok? ==> r.value.0.st.currentLg == Some(r.value.1) && r.value.0.st.currentLocLabel == Some(name)
                      && r.value.0.st.currentDiv == b.st.currentDiv && r.value.0.st.pendingHeadElem == b.st.pendingHeadElem
                      && r.value.0.st.lastTailTextSink == b.st.lastTailTextSink
  {
    var b1 := if EmptyElement(b.doc, b.st.currentP) then CloseP(c, b) else b;
    var b2 :- CloseLg(c, b1);
    Ok(StartLg(c, b2, name, base))
  }

  /** `_open_or_switch_lg_for_label`: keep the open `lg` when the label has
    * the same base, else switch to a new one. An empty open `p` without a
    * parent raises AttributeError. */
  function OpenOrSwitchLg(c: Config, b: Builder, name: string, groupByBase: bool): (r: Result<(Builder, nat)>)
    requires Sound(c, b)
    ensures r.Ok? ==> Sound(c, r.value.0) && Extends(b.doc, r.value.0.doc)
    ensures r.Ok? ==> r.value.0.st.currentLg == Some(r.value.1) && r.value.0.st.currentLocLabel == Some(name)
                      && r.value.0.st.currentDiv == b.st.currentDiv && r.value.0.st.pendingHeadElem == b.st.pendingHeadElem
                      && r.value.0.st.lastTailTextSink == b.st.lastTailTextSink
  {
    var base := LgBase(name, groupByBase);
    if b.st.currentLg.Some? && b.st.currentLocBase == Some(base) then
      Ok((b.(st := b.st.(currentLocLabel := Some(name))), b.st.currentLg.value))
    else if EmptyElement(b.doc, b.st.currentP) && b.doc.up[b.st.currentP.value].None? then
      Err("AttributeError")
    else SwitchLg(c, b, name, base)
  }

  /** A label with the open `lg`'s base keeps that `lg` and the tree. */
  lemma SameBaseKeepsLg(c: Config, b: Builder, name: string, groupByBase: bool)
    requires Sound(c, b) && b.st.currentLg.Some? && b.st.currentLocBase == Some(LgBase(name, groupByBase))
    ensures OpenOrSwitchLg(c, b, name, groupByBase) == Ok((b.(st := b.st.(currentLocLabel := Some(name))), b.st.currentLg.value))
  {
  }

  /** Any other label opens a fresh, empty `lg` labelled with the base,
    * placed in the div in verse-only mode and detached otherwise, with
    * nothing buffered and no `l` open. */
  lemma NewBaseOpensLg(c: Config, b: Builder, name: string, groupByBase: bool)
    requires Sound(c, b) && !(b.st.currentLg.Some? && b.st.currentLocBase == Some(LgBase(name, groupByBase)))
    ensures var r := OpenOrSwitchLg(c, b, name, groupByBase);
            var base := LgBase(name, groupByBase);
            r.Ok? ==>
              var lg := r.value.1;
              lg == |r.value.0.doc.elems| - 1 && IsTag(r.value.0.doc, lg, "lg") && r.value.0.doc.kids[lg] == []
              && r.value.0.doc.elems[lg].attrs == map["n" := base, "xml:id" := VerseId(base)]
              && r.value.0.doc.up[lg] == (if c.verseOnly then Some(b.st.currentDiv) else None)
              && r.value.0.st.currentLocBase == Some(base)
              && r.value.0.st.currentL.None? && r.value.0.st.verseGroupBuffer == []
  {
  }

  /** `_append_child_text`: a new child with the stripped text, unless the text is blank. */
  function AppendChildText(c: Config, b: Builder, parent: nat, tag: string, t: string): (r: (Builder, Option<nat>))
    requires Sound(c, b) && parent < |b.doc.elems|
    ensures Sound(c, r.0) && r.0.st == b.st && Extends(b.doc, r.0.doc)
    ensures r.1.None? <==> IsBlank(t)
    ensures r.1.None? ==> r.0 == b
    ensures r.1.Some? ==> r.1.value == |b.doc.elems| && |r.0.doc.elems| == r.1.value + 1
                          && r.0.doc.up[r.1.value] == Some(parent)
                          && r.0.doc.elems[r.1.value] == Elem(tag, map[], Some(Strip(t)), None)
                          && r.0.doc.kids[parent] == b.doc.kids[parent] + [r.1.value]
                          && r.0.doc.up == b.doc.up + [Some(parent)]
  {
    if IsBlank(t) then (b, None)
    else
      var (d, el) := SubElement(b.doc, parent, tag, map[]);
      (WithTree(c, b, SetText(d, el, Some(Strip(t)))), Some(el))
  }

  /** `etree.SubElement(parent, tag)` where `parent` may be None, which raises TypeError. */
  function SubElementOf(c: Config, b: Builder, parent: Option<nat>, tag: string): (r: Result<(Builder, nat)>)
    requires Sound(c, b) && (parent.Some? ==> parent.value < |b.doc.elems|)
    ensures r.Err? <==> parent.None?
    ensures r.Ok? ==> Sound(c, r.value.0) && r.value.0.st == b.st && Extends(b.doc, r.value.0.doc)
    ensures r.Ok? ==> r.value.1 == |b.doc.elems| && IsTag(r.value.0.doc, r.value.1, tag) && r.value.0.doc.up[r.value.1] == parent
  {
    match parent
    case None => Err("TypeError")
    case Some(p) =>
      var (d, el) := SubElement(b.doc, p, tag, map[]);
      Ok((WithTree(c, b, d), el))
  }

  // -------------------------------------------------------------------
  // Content with mid-line markers
  // -------------------------------------------------------------------

  /** The block structure of the cursor is the same: the same div, `p` and
    * `lg`, location, buffer, pending head and hyphen flag. */
  predicate BlocksKept(s: State, s2: State)
  {
    s2.root == s.root && s2.text == s.text && s2.body == s.body && s2.currentDiv == s.currentDiv
    && s2.currentP == s.currentP && s2.currentLg == s.currentLg && s2.prevLineHyphen == s.prevLineHyphen
    && s2.currentLocLabel == s.currentLocLabel && s2.currentLocBase == s.currentLocBase
    && s2.currentLocXmlId == s.currentLocXmlId && s2.extraPSuffix == s.extraPSuffix
    && s2.verseGroupBuffer == s.verseGroupBuffer && s2.pendingHeadElem == s.pendingHeadElem
  }

  /** The cursor after a marker: only the line count, the page, the last
    * `lb` and the text sink may have moved. */
  predicate MarkerStep(s: State, s2: State)
  {
    BlocksKept(s, s2) && s2.currentL == s.currentL && s2.currentCaesura == s.currentCaesura
  }

  lemma MarkerStepsCompose(s1: State, s2: State, s3: State)
    requires MarkerStep(s1, s2) && MarkerStep(s2, s3)
    ensures MarkerStep(s1, s3)
  {
  }

  lemma BlocksKeptCompose(s1: State, s2: State, s3: State)
    requires BlocksKept(s1, s2) && BlocksKept(s2, s3)
    ensures BlocksKept(s1, s3)
  {
  }

  lemma ExtendsCompose(d1: Doc, d2: Doc, d3: Doc)
    requires Extends(d1, d2) && Extends(d2, d3)
    ensures Extends(d1, d3)
  {
  }

  /** The handler of a kept marker: `_emit_pb_from_match` for a page marker,
    * else the inline emitter. Either way the new element is the text sink. */
  function EmitMarker(c: Config, b: Builder, m: Marker): (r: Result<Builder>)
    requires Sound(c, b)
    ensures r.Ok? ==> Sound(c, r.value) && Extends(b.doc, r.value.doc)
    ensures r.Ok? ==> MarkerStep(b.st, r.value.st) && r.value.st.lastTailTextSink == Some(|b.doc.elems|)
  {
    if m.kind == PageMark then EmitPb(c, b, m.first, m.second) else EmitInline(c, b, m)
  }

  /** The marker loop of `_process_content_with_midline_elements`: the text
    * before each kept marker goes to `_append`, then the marker's handler
    * runs. The second result lists the texts handed to `_append`. */
  function RouteMarkers(c: Config, b: Builder, content: string, kept: seq<Marker>, pos: nat): (r: Result<(Builder, seq<string>)>)
    requires Sound(c, b) && pos <= |content| && Ordered(content, kept, pos)
    ensures r.Ok? ==> Sound(c, r.value.0) && Extends(b.doc, r.value.0.doc) && MarkerStep(b.st, r.value.0.st)
    ensures r.Ok? ==> r.value.1 == Gaps(content, kept, pos)
    decreases |kept|
  {
    if kept == [] then Ok((b, []))
    else
      OrderedTail(content, kept, pos);
      var gap := content[pos..kept[0].start];
      var b1 :- EmitMarker(c, Append(c, b, gap), kept[0]);
      var t :- RouteMarkers(c, b1, content, kept[1..], kept[0].end);
      MarkerStepsCompose(b.st, b1.st, t.0.st);
      ExtendsCompose(b.doc, b1.doc, t.0.doc);
      Ok((t.0, [gap] + t.1))
  }

  /** The text that follows the last kept marker, with its line-final hyphen removed. */
  function PostText(content: string): string
  {
    var kept := Selected(content);
    OrderedFromStart(content, kept);
    RemoveEolHyphen(Rest(content, kept, 0))
  }

  /** Every string `_process_content_with_midline_elements` hands to `_append`, in order. */
  function AppendedTexts(content: string, mode: Mode): seq<string>
  {
    var kept := Selected(content);
    OrderedFromStart(content, kept);
    Gaps(content, kept, 0) + [PostText(content)] + (if mode == Prose && !EndsWithHyphen(content) then [" "] else [])
  }

  /** Verse hands `_append` the gaps and then the line-final text. */
  lemma VerseTexts(content: string)
    ensures Ordered(content, Selected(content), 0)
    ensures AppendedTexts(content, Verse) == Gaps(content, Selected(content), 0) + [PostText(content)]
  {
    OrderedFromStart(content, Selected(content));
  }

  /** Prose hands `_append` the verse texts and then, unless the content
    * ends in a hyphen, the joining space. */
  lemma ProseTextsExtendVerse(content: string)
    ensures AppendedTexts(content, Prose)
            == AppendedTexts(content, Verse) + (if !EndsWithHyphen(content) then [" "] else [])
  {
  }

  lemma OrderedFromStart(content: string, kept: seq<Marker>)
    requires kept == Selected(content)
    ensures Ordered(content, kept, 0)
  {
  }

  /** What `_process_content_with_midline_elements` passes to `_append`
    * before the line-final text is the content outside the kept markers:
    * with the markers' own text and the line-final text put back between
    * them, it is the content again, each character once and in order. */
  lemma AppendedTextsConserveContent(content: string)
    ensures var kept := Selected(content);
            Ordered(content, kept, 0)
            && Interleave(content, kept, Gaps(content, kept, 0), Rest(content, kept, 0)) == content
  {
    var kept := Selected(content);
    OrderedFromStart(content, kept);
    TextConserved(content, kept, 0);
  }

  /** The line-final text is the content after the last marker, less at
    * most a hyphen and the whitespace after it. */
  lemma PostTextDropsOnlyHyphen(content: string)
    ensures var kept := Selected(content);
            Ordered(content, kept, 0)
            && (!EndsWithHyphen(Rest(content, kept, 0)) ==> PostText(content) == Rest(content, kept, 0))
            && (EndsWithHyphen(Rest(content, kept, 0)) ==> PostText(content) + "-" == RStrip(Rest(content, kept, 0)))
  {
    OrderedFromStart(content, Selected(content));
  }

  /** The prose ending: a join space unless the content ends in a hyphen,
    * then in line-by-line mode an `lb` in the `p` that becomes the sink;
    * otherwise the sink is dropped when the `p` has no children. With no
    * open `p` both `SubElement` and `len` raise TypeError. */
  function FinishProse(c: Config, b: Builder, content: string, rawLine: string): (r: Result<Builder>)
    requires Sound(c, b)
    ensures r.Err? <==> b.st.currentP.None?
    ensures r.Ok? ==> Sound(c, r.value) && Extends(b.doc, r.value.doc) && MarkerStep(b.st, r.value.st)
    ensures r.Ok? && c.lineByLine ==>
              r.value.st.lastEmittedLb.Some? && r.value.st.lastTailTextSink == r.value.st.lastEmittedLb
              && r.value.doc.up[r.value.st.lastEmittedLb.value] == b.st.currentP
    ensures r.Ok? && !c.lineByLine ==>
              r.value.st.lbCount == b.st.lbCount && r.value.st.lastEmittedLb == b.st.lastEmittedLb
              && r.value.st.lastTailTextSink == (if r.value.doc.kids[b.st.currentP.value] == [] then None else b.st.lastTailTextSink)
  {
    var b1 := if !EndsWithHyphen(content) then Append(c, b, " ") else b;
    if b1.st.currentP.None? then Err("TypeError")
    else Ok(ProseSink(c, b1, rawLine))
  }

  /** The sink rule of `FinishProse` once the `p` is known to be open. */
  function ProseSink(c: Config, b: Builder, rawLine: string): (r: Builder)
    requires Sound(c, b) && b.st.currentP.Some?
    ensures Sound(c, r) && Extends(b.doc, r.doc) && MarkerStep(b.st, r.st)
    ensures c.lineByLine ==>
              r.st.lastEmittedLb.Some? && r.st.lastTailTextSink == r.st.lastEmittedLb
              && r.doc.up[r.st.lastEmittedLb.value] == b.st.currentP
    ensures !c.lineByLine ==>
              r.st.lbCount == b.st.lbCount && r.st.lastEmittedLb == b.st.lastEmittedLb
              && r.st.lastTailTextSink == (if r.doc.kids[b.st.currentP.value] == [] then None else b.st.lastTailTextSink)
  {
    if c.lineByLine then
      var (b2, lb) := EmitLb(c, b, b.st.currentP.value, rawLine);
      b2.(st := b2.st.(lastTailTextSink := Some(lb)))
    else if b.doc.kids[b.st.currentP.value] == [] then b.(st := b.st.(lastTailTextSink := None))
    else b
  }

  /** The verse ending: a `caesura` in the `l` unless the line-final text
    * closes the line or the content is empty, then in line-by-line mode an
    * `lb` in the `l`; a closed line leaves no `l` open. The flag says
    * whether the line-final text holds a verse end. */
  function FinishVerse(c: Config, b: Builder, content: string, post: string, rawLine: string): (r: Result<(Builder, bool)>)
    requires Sound(c, b)
    ensures r.Err? <==> b.st.currentL.None? && ((content != [] && !ClosesLine(RStrip(post))) || c.lineByLine)
    ensures r.Ok? ==> Sound(c, r.value.0) && Extends(b.doc, r.value.0.doc)
    ensures r.Ok? ==> BlocksKept(b.st, r.value.0.st) && r.value.0.st.explicitPage == b.st.explicitPage
    ensures r.Ok? ==> r.value.1 == HasVerseEnd(RStrip(post))
    ensures r.Ok? ==> r.value.0.st.currentL == if ClosesLine(RStrip(post)) then None else b.st.currentL
  {
    var tailText := RStrip(post);
    var b1 :- AddCaesura(c, b, !ClosesLine(tailText) && content != []);
    var b2 :- VerseLb(c, b1, rawLine);
    BlocksKeptCompose(b.st, b1.st, b2.st);
    ExtendsCompose(b.doc, b1.doc, b2.doc);
    Ok((if ClosesLine(tailText) then b2.(st := b2.st.(currentL := None)) else b2, HasVerseEnd(tailText)))
  }

  /** The caesura and the text sink after the verse ending: a caesura
    * exactly when the content is non-empty and the line is not closed, a
    * new last child of the `l`; the sink is the final `lb` in line-by-line
    * mode and otherwise the caesura, or nothing. */
  lemma VerseSink(c: Config, b: Builder, content: string, post: string, rawLine: string)
    requires Sound(c, b)
    ensures var r := FinishVerse(c, b, content, post, rawLine);
            r.Ok? ==>
              (r.value.0.st.currentCaesura.Some? <==> content != [] && !ClosesLine(RStrip(post)))
              && (r.value.0.st.currentCaesura.Some? ==>
                    var k := r.value.0.st.currentCaesura.value;
                    k == |b.doc.elems| && IsTag(r.value.0.doc, k, "caesura") && r.value.0.doc.up[k] == b.st.currentL)
              && (c.lineByLine ==>
                    r.value.0.st.lastEmittedLb.Some? && r.value.0.st.lastTailTextSink == r.value.0.st.lastEmittedLb)
              && (!c.lineByLine ==>
                    r.value.0.st.lastTailTextSink == r.value.0.st.currentCaesura && r.value.0.st.lbCount == b.st.lbCount)
  {
    var b1 := AddCaesura(c, b, !ClosesLine(RStrip(post)) && content != []);
    if b1.Ok? {
      var b2 := VerseLb(c, b1.value, rawLine);
      if b2.Ok? && c.lineByLine {
        assert IsTag(b2.value.doc, |b1.value.doc.elems|, "lb");
      }
    }
  }

  /** The caesura step of the verse ending. */
  function AddCaesura(c: Config, b: Builder, wanted: bool): (r: Result<Builder>)
    requires Sound(c, b)
    ensures r.Err? <==> wanted && b.st.currentL.None?
    ensures r.Ok? ==> Sound(c, r.value) && Extends(b.doc, r.value.doc) && BlocksKept(b.st, r.value.st)
    ensures r.Ok? ==> r.value.st.currentL == b.st.currentL && r.value.st.lbCount == b.st.lbCount
                      && r.value.st.lastEmittedLb == b.st.lastEmittedLb && r.value.st.explicitPage == b.st.explicitPage
    ensures r.Ok? && wanted ==>
              var k := |b.doc.elems|;
              r.value.st.currentCaesura == Some(k) && r.value.st.lastTailTextSink == Some(k)
              && IsTag(r.value.doc, k, "caesura") && r.value.doc.up[k] == b.st.currentL
    ensures r.Ok? && !wanted ==>
              r.value.st.currentCaesura.None? && r.value.st.lastTailTextSink == b.st.lastTailTextSink && r.value.doc == b.doc
  {
    if wanted then
      var t :- SubElementOf(c, b, b.st.currentL, "caesura");
      Ok(t.0.(st := t.0.st.(currentCaesura := Some(t.1), lastTailTextSink := Some(t.1))))
    else Ok(b.(st := b.st.(currentCaesura := None)))
  }

  /** The line-break step of the verse ending. */
  function VerseLb(c: Config, b: Builder, rawLine: string): (r: Result<Builder>)
    requires Sound(c, b)
    ensures r.Err? <==> c.lineByLine && b.st.currentL.None?
    ensures r.Ok? ==> Sound(c, r.value) && Extends(b.doc, r.value.doc) && BlocksKept(b.st, r.value.st)
    ensures r.Ok? ==> r.value.st.currentL == b.st.currentL && r.value.st.currentCaesura == b.st.currentCaesura
                      && r.value.st.explicitPage == b.st.explicitPage
    ensures r.Ok? && c.lineByLine ==>
              var k := |b.doc.elems|;
              r.value.st.lbCount == b.st.lbCount + 1 && r.value.st.lastEmittedLb == Some(k)
              && r.value.st.lastTailTextSink == Some(k)
              && IsTag(r.value.doc, k, "lb") && r.value.doc.up[k] == b.st.currentL
    ensures r.Ok? && !c.lineByLine ==>
              r.value.st.lbCount == b.st.lbCount && r.value.st.lastEmittedLb == b.st.lastEmittedLb && r.value.doc == b.doc
              && r.value.st.lastTailTextSink == (if b.st.currentCaesura.None? then None else b.st.lastTailTextSink)
  {
    if c.lineByLine then
      if b.st.currentL.None? then Err("TypeError")
      else
        var (b1, lb) := EmitLb(c, b, b.st.currentL.value, rawLine);
        Ok(b1.(st := b1.st.(lastTailTextSink := Some(lb))))
    else if b.st.currentCaesura.None? then Ok(b.(st := b.st.(lastTailTextSink := None)))
    else Ok(b)
  }

  /** The kept markers and the text between them in order, then the
    * line-final text without its hyphen; the texts are those handed to `_append`. */
  function RouteContent(c: Config, b: Builder, content: string): (r: Result<(Builder, seq<string>)>)
    requires Sound(c, b)
    ensures r.Ok? ==> Sound(c, r.value.0) && Extends(b.doc, r.value.0.doc) && MarkerStep(b.st, r.value.0.st)
    ensures r.Ok? ==> r.value.1 == AppendedTexts(content, Verse)
  {
    var kept := Selected(content);
    OrderedFromStart(content, kept);
    var t :- RouteMarkers(c, b, content, kept, 0);
    VerseTexts(content);
    Ok((Append(c, t.0, PostText(content)), t.1 + [PostText(content)]))
  }

  /** `_process_content_with_midline_elements`: the routed content, then the
    * prose or verse ending. The flag is the verse-end result (always false
    * for prose); the texts are those handed to `_append`. */
  function ProcessContent(c: Config, b: Builder, content: string, mode: Mode, rawLine: string)
    : (r: Result<(Builder, bool, seq<string>)>)
    requires Sound(c, b)
    ensures r.Ok? ==> Sound(c, r.value.0) && Extends(b.doc, r.value.0.doc) && BlocksKept(b.st, r.value.0.st)
    ensures r.Ok? ==> r.value.2 == AppendedTexts(content, mode)
    ensures r.Ok? && mode == Prose ==>
              !r.value.1 && r.value.0.st.currentL == b.st.currentL && r.value.0.st.currentCaesura == b.st.currentCaesura
  {
    var t :- RouteContent(c, b, content);
    ProseTextsExtendVerse(content);
    if mode == Prose then
      var b2 :- FinishProse(c, t.0, content, rawLine);
      Ok((b2, false, t.1 + (if !EndsWithHyphen(content) then [" "] else [])))
    else
      var v :- FinishVerse(c, t.0, content, PostText(content), rawLine);
      Ok((v.0, v.1, t.1))
  }

  /** In verse mode the ending is decided by the line-final text: a caesura
    * exactly when the content is non-empty and that text does not close
    * the line, the `l` closed exactly when it does, and the result true
    * exactly when it holds a verse end. */
  lemma VerseEnding(c: Config, b: Builder, content: string, rawLine: string)
    requires Sound(c, b)
    ensures var r := ProcessContent(c, b, content, Verse, rawLine);
            var post := RStrip(PostText(content));
            r.Ok? ==>
              r.value.1 == HasVerseEnd(post)
              && (r.value.0.st.currentCaesura.Some? <==> content != [] && !ClosesLine(post))
              && r.value.0.st.currentL == (if ClosesLine(post) then None else b.st.currentL)
              && (c.lineByLine ==> r.value.0.st.lastEmittedLb.Some? && r.value.0.st.lastTailTextSink == r.value.0.st.lastEmittedLb)
  {
    var t := RouteContent(c, b, content);
    if t.Ok? {
      VerseSink(c, t.value.0, content, PostText(content), rawLine);
    }
  }

  /** In prose mode the open `p` gets, in line-by-line mode, a final `lb`
    * that becomes the sink. */
  lemma ProseEnding(c: Config, b: Builder, content: string, rawLine: string)
    requires Sound(c, b) && c.lineByLine && b.st.currentP.Some?
    ensures var r := ProcessContent(c, b, content, Prose, rawLine);
            r.Ok? ==>
              r.value.0.st.lastEmittedLb.Some? && r.value.0.st.lastTailTextSink == r.value.0.st.lastEmittedLb
              && r.value.0.doc.up[r.value.0.st.lastEmittedLb.value] == b.st.currentP
  {
  }

  // -------------------------------------------------------------------
  // Verse lines
  // -------------------------------------------------------------------

  /** A new `l` with the given attributes, last in `lg`; it is the open `l`,
    * and there is no text sink. */
  function StartL(c: Config, b: Builder, lg: nat, attrs: Attrs): (r: Builder)
    requires Sound(c, b) && lg < |b.doc.elems|
    ensures Sound(c, r) && Extends(b.doc, r.doc) && BlocksKept(b.st, r.st)
    ensures var l := |b.doc.elems|;
            r.st.currentL == Some(l) && r.st.lastTailTextSink.None? && IsTag(r.doc, l, "l")
            && r.doc.up[l] == Some(lg) && r.doc.kids[lg] == b.doc.kids[lg] + [l] && r.doc.elems[l].attrs == attrs
  {
    var (d, l) := SubElement(b.doc, lg, "l", attrs);
    var b1 := WithTree(c, b, d);
    Builder(d, b.st.(currentL := Some(l), lastTailTextSink := None))
  }

  /** `_handle_verse_only_line`: in verse-only mode a `[label] text` line
    * goes into the `lg` of the label's base (the base is also the new
    * location), in a new `l` labelled with the segment letters when no `l`
    * is open, as verse content. */
  function HandleVerseOnlyLine(c: Config, b: Builder, name: string, rest: string): (r: Result<Builder>)
    requires Sound(c, b)
    ensures r.Ok? ==> Sound(c, r.value) && Extends(b.doc, r.value.doc)
  {
    var (base, seg) := ParseVerseLabel(name);
    var t :- OpenOrSwitchLg(c, b, base, true);
    var b1 := if t.0.st.currentL.None? then StartL(c, t.0, t.1, if seg.Some? then map["n" := seg.value] else map[]) else t.0;
    var p :- ProcessContent(c, b1, rest, Verse, rest);
    ExtendsCompose(b.doc, t.0.doc, b1.doc);
    ExtendsCompose(b.doc, b1.doc, p.0.doc);
    Ok(p.0)
  }

  /** The verse of a verse-only `[label] text` line lands in the `lg` of the
    * label's base, which becomes the location; the div is unchanged. */
  lemma VerseOnlyLineJoinsBase(c: Config, b: Builder, name: string, rest: string)
    requires Sound(c, b)
    ensures var r := HandleVerseOnlyLine(c, b, name, rest);
            var lg := OpenOrSwitchLg(c, b, ParseVerseLabel(name).0, true);
            r.Ok? ==>
              lg.Ok? && r.value.st.currentLg == Some(lg.value.1) && r.value.st.currentDiv == b.st.currentDiv
              && r.value.st.currentLocLabel == Some(ParseVerseLabel(name).0)
  {
  }

  /** The open `lg` ends: outside verse-only mode it joins the buffer; no
    * `lg` or `l` is open afterwards. */
  function BufferLg(c: Config, b: Builder): (r: Builder)
    requires Sound(c, b)
    ensures Sound(c, r) && r.doc == b.doc
    ensures r.st == b.st.(verseGroupBuffer := Pending(c, b.st), currentLg := None, currentL := None)
  {
    PendingDetached(c, b);
    Builder(b.doc, b.st.(verseGroupBuffer := Pending(c, b.st), currentLg := None, currentL := None))
  }

  /** The pending head, if any, becomes the last child of `lg` and is no
    * longer pending. */
  function TakePendingHead(c: Config, b: Builder, lg: nat): (r: Builder)
    requires Sound(c, b) && IsTag(b.doc, lg, "lg")
    ensures Sound(c, r) && Extends(b.doc, r.doc) && r.st == b.st.(pendingHeadElem := None)
    ensures b.st.pendingHeadElem.Some? ==>
              var h := b.st.pendingHeadElem.value;
              r.doc.up == b.doc.up[h := Some(lg)] && r.doc.kids[lg] == Without(b.doc.kids[lg], h) + [h]
    ensures b.st.pendingHeadElem.None? ==> r.doc == b.doc
  {
    match b.st.pendingHeadElem
    case None => b.(st := b.st.(pendingHeadElem := None))
    case Some(h) =>
      var d := AppendChild(b.doc, lg, h);
      Builder(WithTree(c, b, d).doc, b.st.(pendingHeadElem := None))
  }

  /** The verse-only path of `_handle_verse_line`: the `lg` of the current
    * location (or of "v"), with the pending head and the text before the
    * tab as heads, a new `l` when none is open, and the rest as verse. */
  function VerseOnlyTabLine(c: Config, b: Builder, preTab: string, afterTab: string, line: string): (r: Result<Builder>)
    requires Sound(c, b)
    ensures r.Ok? ==> Sound(c, r.value) && Extends(b.doc, r.value.doc)
    ensures r.Ok? ==> (r.value.st.currentLocLabel ==
              Some(if b.st.currentLocLabel.Some? && b.st.currentLocLabel.value != [] then b.st.currentLocLabel.value else "v"))
  {
    // `s.current_loc_label or "v"`: the empty label is false as well
    var name := if b.st.currentLocLabel.Some? && b.st.currentLocLabel.value != [] then b.st.currentLocLabel.value else "v";
    var t :- OpenOrSwitchLg(c, b, name, true);
    var b3 := HeadsThenL(c, t.0, t.1, preTab);
    var p :- ProcessContent(c, b3, afterTab, Verse, line);
    ExtendsCompose(b.doc, t.0.doc, b3.doc);
    ExtendsCompose(b.doc, b3.doc, p.0.doc);
    Ok(p.0)
  }

  /** An empty location label counts as none: the verse-only line goes
    * to the group of "v", as it does before any location. */
  lemma EmptyLocLabelIsV(c: Config, b: Builder, preTab: string, afterTab: string, line: string)
    requires Sound(c, b) && b.st.currentLocLabel == Some("")
    ensures var r := VerseOnlyTabLine(c, b, preTab, afterTab, line);
            r.Ok? ==> r.value.st.currentLocLabel == Some("v")
  {
  }

  /** In the verse-only `lg`: the pending head, then the text before the tab
    * as a head, then a new `l` when none is open. */
  function HeadsThenL(c: Config, b: Builder, lg: nat, preTab: string): (r: Builder)
    requires Sound(c, b) && IsTag(b.doc, lg, "lg")
    ensures Sound(c, r) && Extends(b.doc, r.doc) && r.st.currentL.Some?
    ensures r.st.pendingHeadElem.None? && r.st.currentLg == b.st.currentLg
    ensures r.st.currentLocLabel == b.st.currentLocLabel
  {
    var b1 := TakePendingHead(c, b, lg);
    var b2 := AppendChildText(c, b1, lg, "head", preTab).0;
    ExtendsCompose(b.doc, b1.doc, b2.doc);
    var b3 := if b2.st.currentL.None? then StartL(c, b2, lg, map[]) else b2;
    ExtendsCompose(b.doc, b2.doc, b3.doc);
    b3
  }

  /** Outside verse-only mode, with no `lg` open: a new detached `lg` taking
    * the pending head and a non-blank text before the tab as heads; the
    * second result is what is left of that text. */
  function EnsureLg(c: Config, b: Builder, preTab: string): (r: (Builder, string))
    requires Sound(c, b) && !c.verseOnly
    ensures Sound(c, r.0) && Extends(b.doc, r.0.doc) && r.0.st.currentLg.Some?
    ensures b.st.currentLg.Some? ==> r == (b, preTab)
    ensures b.st.currentLg.None? ==>
              var lg := |b.doc.elems|;
              r.0.st.currentLg == Some(lg) && IsTag(r.0.doc, lg, "lg") && r.0.doc.up[lg].None?
              && r.0.st.pendingHeadElem.None? && r.0.st.currentL == b.st.currentL
              && (IsBlank(preTab) ==> r.1 == preTab) && (!IsBlank(preTab) ==> r.1 == "")
  {
    if b.st.currentLg.Some? then (b, preTab)
    else (NewLg(c, b, preTab), if IsBlank(preTab) then preTab else "")
  }

  /** The new group: a detached `lg` holding the pending head and the head
    * text; it is the open `lg`. */
  function NewLg(c: Config, b: Builder, preTab: string): (r: Builder)
    requires Sound(c, b) && !c.verseOnly && b.st.currentLg.None?
    ensures Sound(c, r) && Extends(b.doc, r.doc)
    ensures var lg := |b.doc.elems|;
            r.st == b.st.(currentLg := Some(lg), pendingHeadElem := None) && IsTag(r.doc, lg, "lg") && r.doc.up[lg].None?
  {
    var (b2, lg) := FreshLg(c, b);
    var (b3, h) := AppendChildText(c, b2, lg, "head", preTab);
    ExtendsCompose(b.doc, b2.doc, b3.doc);
    assert b3.doc.up[lg].None?;
    b3.(st := b3.st.(currentLg := Some(lg)))
  }

  /** A new detached `lg` that has taken the pending head. */
  function FreshLg(c: Config, b: Builder): (r: (Builder, nat))
    requires Sound(c, b)
    ensures Sound(c, r.0) && Extends(b.doc, r.0.doc) && r.0.st == b.st.(pendingHeadElem := None)
    ensures r.1 == |b.doc.elems| && IsTag(r.0.doc, r.1, "lg") && r.0.doc.up[r.1].None?
    ensures forall k :: 0 <= k < |b.st.verseGroupBuffer| ==> b.st.verseGroupBuffer[k] < r.1
  {
    var (d, lg) := NewElement(b.doc, "lg", map[]);
    var b1 := WithTree(c, b, d);
    var b2 := TakePendingHead(c, b1, lg);
    assert b2.doc.up[lg].None? by {
      if b1.st.pendingHeadElem.Some? {
        assert IsTag(b1.doc, b1.st.pendingHeadElem.value, "head");
      }
    }
    ExtendsCompose(b.doc, b1.doc, b2.doc);
    (b2, lg)
  }

  /** With no `l` open: a non-blank text before the tab as a head, then a new `l`. */
  function EnsureL(c: Config, b: Builder, preTab: string): (r: Builder)
    requires Sound(c, b) && b.st.currentLg.Some?
    ensures Sound(c, r) && Extends(b.doc, r.doc) && r.st.currentLg == b.st.currentLg && r.st.currentL.Some?
    ensures r.st.currentP == b.st.currentP
  {
    if b.st.currentL.Some? then b
    else
      var b1 := AppendChildText(c, b, b.st.currentLg.value, "head", preTab).0;
      StartL(c, b1, b.st.currentLg.value, map[])
  }

  /** The start of the back text: the end of the last verse end on the line, if any. */
  function BackStart(afterTab: string): (r: Option<nat>)
    ensures r.Some? ==> r.value <= |afterTab| && HasVerseEnd(afterTab)
    ensures r.None? <==> !HasVerseEnd(afterTab)
  {
    var ends := VerseEnds(afterTab, 0);
    if ends == [] then None else Some(ends[|ends| - 1].1)
  }

  /** A `back` with the text, last in the open `lg`; a final `lb` or `pb`
    * of an `l` that was the text sink moves into it. */
  function PlaceBack(c: Config, b: Builder, back: string): (r: Builder)
    requires Sound(c, b) && b.st.currentLg.Some? && !IsBlank(back)
    ensures Sound(c, r) && Extends(b.doc, r.doc) && r.st == b.st
    ensures var e := |b.doc.elems|;
            IsTag(r.doc, e, "back") && r.doc.elems[e].text == Some(Strip(back)) && r.doc.up[e] == b.st.currentLg
  {
    var (b1, backEl) := AppendChildText(c, b, b.st.currentLg.value, "back", back);
    MoveSinkIntoBack(c, b1, backEl.value)
  }

  /** The text sink, when it is an `lb` or `pb` sitting in an `l`, moves
    * into the new `back`. */
  function MoveSinkIntoBack(c: Config, b: Builder, backEl: nat): (r: Builder)
    requires Sound(c, b) && backEl < |b.doc.elems|
    requires b.st.lastTailTextSink != Some(backEl)
    ensures Sound(c, r) && Extends(b.doc, r.doc) && r.st == b.st
    ensures r.doc.elems == b.doc.elems && r.doc.up[backEl] == b.doc.up[backEl]
  {
    var milestone := b.st.lastTailTextSink;
    if milestone.Some? && b.doc.elems[milestone.value].tag in {"lb", "pb"}
       && b.doc.up[milestone.value].Some? && b.doc.elems[b.doc.up[milestone.value].value].tag == "l" then
      WithTree(c, b, AppendChild(b.doc, backEl, milestone.value))
    else b
  }

  /** The verse after the tab outside verse-only mode: the text up to the
    * end of the last verse end is content, the non-blank rest a `back`,
    * and a verse end closes the `lg` into the buffer. */
  function VerseTail(c: Config, b: Builder, afterTab: string, line: string): (r: Result<Builder>)
    requires Sound(c, b) && b.st.currentLg.Some?
    ensures r.Ok? ==> Sound(c, r.value) && Extends(b.doc, r.value.doc)
  {
    var start := BackStart(afterTab);
    var payload := if start.Some? then afterTab[..start.value] else afterTab;
    var back := if start.Some? then afterTab[start.value..] else "";
    var p :- ProcessContent(c, b, payload, Verse, line);
    var b1 := if back != [] && !IsBlank(back) then PlaceBack(c, p.0, back) else p.0;
    ExtendsCompose(b.doc, p.0.doc, b1.doc);
    Ok(if p.1 then BufferLg(c, b1) else b1)
  }

  /** `_handle_verse_line`: a line with a tab. The open `p` is closed; a
    * non-blank text before the tab ends the open `lg` and becomes a head;
    * the text after it is verse. */
  function HandleVerseLine(c: Config, b: Builder, line: string): (r: Result<Builder>)
    requires Sound(c, b) && '\t' in line
    ensures r.Ok? ==> Sound(c, r.value) && Extends(b.doc, r.value.doc)
  {
    var (b2, preTab, afterTab) := VerseLineStart(c, b, line);
    var r := if c.verseOnly then VerseOnlyTabLine(c, b2, preTab, afterTab, line)
             else GroupedVerse(c, b2, preTab, afterTab, line);
    if r.Ok? then ExtendsCompose(b.doc, b2.doc, r.value.doc); r else r
  }

  /** The start of `_handle_verse_line`: the open `p` closed, the line split
    * at its first tab, and, when the text before the tab is not blank, the
    * open `lg` moved to the buffer. */
  function VerseLineStart(c: Config, b: Builder, line: string): (r: (Builder, string, string))
    requires Sound(c, b) && '\t' in line
    ensures Sound(c, r.0) && Extends(b.doc, r.0.doc) && r.0.st.currentP.None?
    ensures r.1 == RStrip(SplitFirst(line, '\t').0) && r.2 == SplitFirst(line, '\t').1
    ensures !IsBlank(r.1) && b.st.currentLg.Some? ==>
              r.0.st.verseGroupBuffer == Pending(c, b.st) && r.0.st.currentLg.None? && r.0.st.currentL.None?
    ensures IsBlank(r.1) || b.st.currentLg.None? ==> r.0.st == b.st.(currentP := None)
  {
    var b1 := CloseP(c, b);
    var (pre, afterTab) := SplitFirst(line, '\t');
    var preTab := RStrip(pre);
    (if !IsBlank(preTab) && b1.st.currentLg.Some? then BufferLg(c, b1) else b1, preTab, afterTab)
  }

  /** The verse after the tab outside verse-only mode: an open `lg` and `l`
    * are ensured, then the text after the tab is processed. */
  function GroupedVerse(c: Config, b: Builder, preTab: string, afterTab: string, line: string): (r: Result<Builder>)
    requires Sound(c, b) && !c.verseOnly
    ensures r.Ok? ==> Sound(c, r.value) && Extends(b.doc, r.value.doc)
  {
    var (b3, rest) := EnsureLg(c, b, preTab);
    var b4 := EnsureL(c, b3, rest);
    var r := VerseTail(c, b4, afterTab, line);
    ExtendsCompose(b.doc, b3.doc, b4.doc);
    if r.Ok? then ExtendsCompose(b.doc, b4.doc, r.value.doc); r else r
  }


  // -------------------------------------------------------------------
  // Lines
  // -------------------------------------------------------------------

  /** The kinds of line `_handle_line` tells apart. */
  datatype LineKind =
    | BlankLine
    | SectionLine(name: string)
    | PageLine(page: string, lineNo: Option<string>)
    | NoteLine(note: string)
    | LocationLine(locLabel: string, rest: string)
    | PendingHeadLine(head: string)
    | VerseLine
    | ProseLine

  /** The order in which `_handle_line` tries the line patterns. */
  function Classify(line: string): (k: LineKind)
    ensures k == BlankLine <==> IsBlank(line)
    ensures k == VerseLine ==> '\t' in line
    ensures k == ProseLine ==> '\t' !in line && !IsBlank(line)
  {
    if IsBlank(line) then BlankLine
    else if MatchSection(line).Some? then SectionLine(MatchSection(line).value)
    else if MatchPageLine(line).Some? then PageLine(MatchPageLine(line).value.0, Some(MatchPageLine(line).value.1))
    else if MatchPage(line).Some? then PageLine(MatchPage(line).value, None)
    else if MatchNote(line).Some? then NoteLine(MatchNote(line).value)
    else if MatchLocation(line).Some? then LocationLine(MatchLocation(line).value.0, MatchLocation(line).value.1)
    else if MatchPendingHead(line).Some? then PendingHeadLine(MatchPendingHead(line).value)
    else if '\t' in line then VerseLine
    else ProseLine
  }

  /** A verse head on a line of its own: the `p` is closed and a detached
    * `head` with the stripped text (with an `lb` in line-by-line mode)
    * waits for the next `lg`. */
  function PendingHead(c: Config, b: Builder, head: string): (r: Builder)
    requires Sound(c, b)
    ensures Sound(c, r) && Extends(b.doc, r.doc)
    ensures var h := |b.doc.elems|;
            r.st.pendingHeadElem == Some(h) && r.st.currentP.None? && r.doc.up[h].None?
            && r.doc.elems[h].text == Some(Strip(head))
  {
    var b1 := CloseP(c, b);
    var (b2, h) := NewTextElement(c, b1, "head", Strip(head));
    var b3 := if c.lineByLine then EmitLb(c, b2, h, "").0 else b2;
    ExtendsCompose(b.doc, b1.doc, b2.doc);
    ExtendsCompose(b.doc, b2.doc, b3.doc);
    b3.(st := b3.st.(pendingHeadElem := Some(h)))
  }

  /** A section line opens a div and leaves no text sink. */
  function Section(c: Config, b: Builder, name: string): (r: Result<Builder>)
    requires Sound(c, b)
    ensures r.Ok? ==> Sound(c, r.value) && Extends(b.doc, r.value.doc)
    ensures r.Ok? ==> OpenDiv(c, b, name).Ok? && r.value == OpenDiv(c, b, name).value.(st := OpenDiv(c, b, name).value.st.(lastTailTextSink := None))
  {
    var b1 :- OpenDiv(c, b, name);
    Ok(b1.(st := b1.st.(lastTailTextSink := None)))
  }

  /** A prose line: content in prose mode, which needs an open `p`; without
    * one `_handle_line` falls through to its final `raise Exception`. */
  function ProseLineStep(c: Config, b: Builder, line: string): (r: Result<Builder>)
    requires Sound(c, b)
    ensures b.st.currentP.None? ==> r == Err("Exception")
    ensures r.Ok? ==> Sound(c, r.value) && Extends(b.doc, r.value.doc)
  {
    if b.st.currentP.None? then Err("Exception")
    else
      var p :- ProcessContent(c, b, line, Prose, line);
      Ok(FinalizePhysicalLine(c, p.0, line))
  }

  /** A note line `<...>`: a milestone, counted as a physical line. */
  function NoteStep(c: Config, b: Builder, note: string, line: string): (r: Builder)
    requires Sound(c, b)
    ensures Sound(c, r) && Extends(b.doc, r.doc)
  {
    FinalizePhysicalLine(c, EmitMilestone(c, b, note), line)
  }

  /** A location line `[label] rest`: verse in verse-only mode, counted as a
    * physical line; otherwise a new location. */
  function LocationStep(c: Config, b: Builder, name: string, rest: string, line: string): (r: Result<Builder>)
    requires Sound(c, b)
    ensures r.Ok? ==> Sound(c, r.value) && Extends(b.doc, r.value.doc)
  {
    if c.verseOnly then
      var b1 :- HandleVerseOnlyLine(c, b, name, rest);
      Ok(FinalizePhysicalLine(c, b1, line))
    else OpenLocation(c, b, name)
  }

  /** A line with a tab: verse, counted as a physical line. */
  function VerseStep(c: Config, b: Builder, line: string): (r: Result<Builder>)
    requires Sound(c, b) && '\t' in line
    ensures r.Ok? ==> Sound(c, r.value) && Extends(b.doc, r.value.doc)
  {
    var b1 :- HandleVerseLine(c, b, line);
    Ok(FinalizePhysicalLine(c, b1, line))
  }

  /** `_handle_line`: one line, dispatched on its kind. */
  function HandleLine(c: Config, b: Builder, line: string): (r: Result<Builder>)
    requires Sound(c, b)
    ensures r.Ok? ==> Sound(c, r.value) && Extends(b.doc, r.value.doc)
  {
    HandleKind(c, b, Classify(line), line)
  }

  /** The handler `_handle_line` runs for a line of the given kind. */
  function HandleKind(c: Config, b: Builder, kind: LineKind, line: string): (r: Result<Builder>)
    requires Sound(c, b) && (kind == VerseLine ==> '\t' in line)
    ensures r.Ok? ==> Sound(c, r.value) && Extends(b.doc, r.value.doc)
  {
    match kind
    case BlankLine => Ok(b)
    case SectionLine(name) => Section(c, b, name)
    case PageLine(page, lineNo) => EmitPb(c, b, page, lineNo)
    case NoteLine(note) => Ok(NoteStep(c, b, note, line))
    case LocationLine(locLabel, rest) => LocationStep(c, b, Strip(locLabel), rest, line)
    case PendingHeadLine(head) => Ok(PendingHead(c, b, head))
    case VerseLine => VerseStep(c, b, line)
    case ProseLine => ProseLineStep(c, b, line)
  }

  /** `raw.rstrip("\n")`. */
  function Chomp(line: string): string
  {
    TrimRight(line, ch => ch == '\n')
  }

  /** `build`'s loop: every line, without its trailing newlines, in order;
    * the first exception ends it. */
  function HandleLines(c: Config, b: Builder, lines: seq<string>): (r: Result<Builder>)
    requires Sound(c, b)
    ensures r.Ok? ==> Sound(c, r.value) && Extends(b.doc, r.value.doc)
    decreases |lines|
  {
    if lines == [] then Ok(b)
    else
      var b1 :- HandleLine(c, b, Chomp(lines[0]));
      var r := HandleLines(c, b1, lines[1..]);
      if r.Ok? then ExtendsCompose(b.doc, b1.doc, r.value.doc); r else r
  }

  lemma HandleLinesStep(c: Config, b: Builder, lines: seq<string>)
    requires Sound(c, b) && lines != []
    ensures var r := HandleLine(c, b, Chomp(lines[0]));
            HandleLines(c, b, lines) == if r.Err? then Err(r.error) else HandleLines(c, r.value, lines[1..])
  {
  }

  lemma HandleLinesAt(c: Config, b0: Builder, b: Builder, lines: seq<string>, i: nat)
    requires Sound(c, b0) && Sound(c, b) && i < |lines|
    requires HandleLines(c, b0, lines) == HandleLines(c, b, lines[i..])
    ensures var r := HandleLine(c, b, Chomp(lines[i]));
            (r.Err? ==> HandleLines(c, b0, lines) == Err(r.error)) &&
            (r.Ok? ==> HandleLines(c, b0, lines) == HandleLines(c, r.value, lines[i + 1..]))
  {
    assert lines[i..][0] == lines[i] && lines[i..][1..] == lines[i + 1..];
    HandleLinesStep(c, b, lines[i..]);
  }

  lemma RunUnfold(c: Config, b: Builder, lines: seq<string>)
    requires Sound(c, b)
    ensures var h := HandleLines(c, b, lines);
            Run(c, b, lines) == if h.Err? then Err(h.error) else FlushVerseGroupBuffer(c, h.value)
  {
  }

  /** `build`: the lines, then a final flush of the verse-group buffer. */
  function Run(c: Config, b: Builder, lines: seq<string>): (r: Result<Builder>)
    requires Sound(c, b)
    ensures r.Ok? ==> Sound(c, r.value) && Extends(b.doc, r.value.doc)
  {
    var b1 :- HandleLines(c, b, lines);
    var r := FlushVerseGroupBuffer(c, b1);
    if r.Ok? then ExtendsCompose(b.doc, b1.doc, r.value.doc); r else r
  }

  // -------------------------------------------------------------------
  // What the line handlers promise
  // -------------------------------------------------------------------

  /** A blank line changes nothing. */
  lemma BlankLineNoOp(c: Config, b: Builder, line: string)
    requires Sound(c, b) && IsBlank(line)
    ensures HandleLine(c, b, line) == Ok(b)
  {
  }

  /** Prose with no open `p` raises. */
  lemma ProseNeedsParagraph(c: Config, b: Builder, line: string)
    requires Sound(c, b) && b.st.currentP.None? && Classify(line) == ProseLine
    ensures HandleLine(c, b, line) == Err("Exception")
  {
  }

  /** A section line `{name}` starts a new, empty div named by the label,
    * last in the body, with no `p` or `lg` open and no text sink. */
  lemma SectionLineOpensDiv(c: Config, b: Builder, name: string)
    requires Sound(c, b)
    ensures var r := Section(c, b, name);
            r.Ok? ==>
              var div := r.value.st.currentDiv;
              IsTag(r.value.doc, div, "div") && r.value.doc.elems[div].attrs == map["n" := name]
              && r.value.doc.up[div] == Some(b.st.body) && r.value.doc.kids[div] == []
              && r.value.st.lastTailTextSink.None? && r.value.st.currentP.None? && r.value.st.currentLg.None?
  {
    OpenDivStartsSection(c, b, name);
  }

  /** A page line `<p>` or `<p,l>` records the page and restarts the line count. */
  lemma PageLineSetsPage(c: Config, b: Builder, page: string, lineNo: Option<string>)
    requires Sound(c, b)
    ensures var r := EmitPb(c, b, page, lineNo);
            r.Ok? ==> r.value.st.explicitPage == Some(page) && r.value.st.lbCount == LbCountAfterPage(lineNo)
  {
    EmitPbReplacesLb(c, b, page, lineNo);
  }

  /** Outside verse-only mode a location line `[label]` opens a `p` for the
    * stripped label, which becomes the location. */
  lemma LocationLineOpensP(c: Config, b: Builder, name: string, rest: string, line: string)
    requires Sound(c, b) && !c.verseOnly
    ensures var r := LocationStep(c, b, name, rest, line);
            r.Ok? ==>
              r.value.st.currentP.Some? && r.value.st.currentLocLabel == Some(name)
              && r.value.doc.elems[r.value.st.currentP.value].attrs == map["xml:id" := MakeXmlId(name), "n" := name]
  {
    OpenLocationOpensP(c, b, name);
  }

  /** A pending-head line closes the `p` and leaves a detached `head` with
    * the stripped text waiting. */
  lemma PendingHeadWaits(c: Config, b: Builder, head: string)
    requires Sound(c, b)
    ensures var r := Ok(PendingHead(c, b, head));
            r.Ok? && r.value.st.currentP.None? && r.value.st.pendingHeadElem.Some?
            && r.value.doc.up[r.value.st.pendingHeadElem.value].None?
            && r.value.doc.elems[r.value.st.pendingHeadElem.value].text == Some(Strip(head))
  {
  }

  /** A prose line with an open `p` hands `_append` the content outside its
    * markers, keeps the `p` open and records whether it ended in a hyphen. */
  lemma ProseLineAppends(c: Config, b: Builder, line: string)
    requires Sound(c, b) && b.st.currentP.Some?
    ensures var r := ProseLineStep(c, b, line);
            var p := ProcessContent(c, b, line, Prose, line);
            (r.Ok? <==> p.Ok?)
            && (r.Ok? ==> p.value.2 == AppendedTexts(line, Prose) && r.value.st.prevLineHyphen == EndsWithHyphen(line)
                          && r.value.st.currentP == b.st.currentP)
  {
  }

  /** A note line `<...>` adds a `milestone` named by it to the innermost
    * open element and counts as a physical line. */
  lemma NoteLineAddsMilestone(c: Config, b: Builder, note: string, line: string)
    requires Sound(c, b)
    ensures var r := Ok(NoteStep(c, b, note, line));
            var m := |b.doc.elems|;
            r.Ok? && IsTag(r.value.doc, m, "milestone") && r.value.doc.up[m] == Some(GetContainer(b))
            && r.value.doc.elems[m].attrs == map["n" := note]
            && r.value.st.prevLineHyphen == EndsWithHyphen(line)
  {
  }

  /** After `build` nothing is left in the verse-group buffer, and outside
    * verse-only mode no `lg` is open. */
  lemma RunFlushes(c: Config, b: Builder, lines: seq<string>)
    requires Sound(c, b)
    ensures var r := Run(c, b, lines);
            r.Ok? ==> r.value.st.verseGroupBuffer == [] && (!c.verseOnly ==> r.value.st.currentLg.None?)
  {
  }

  /** In verse-only mode no `lg` ever waits in the buffer. */
  lemma VerseOnlyNeverBuffers(c: Config, b: Builder, lines: seq<string>)
    requires Sound(c, b) && c.verseOnly
    ensures var r := HandleLines(c, b, lines);
            b.st.verseGroupBuffer == [] && (r.Ok? ==> r.value.st.verseGroupBuffer == [])
  {
  }

  /** The loop of `build` over the lines: each line chomped and handled in
    * turn until one raises. */
  method HandleAll(c: Config, b0: Builder, lines: seq<string>) returns (r: Result<Builder>)
    requires Sound(c, b0)
    ensures r == HandleLines(c, b0, lines)
  {
    var b := b0;
    var i := 0;
    while i < |lines|
      invariant 0 <= i <= |lines| && Sound(c, b)
      invariant HandleLines(c, b0, lines) == HandleLines(c, b, lines[i..])
    {
      HandleLinesAt(c, b0, b, lines, i);
      var h := HandleLine(c, b, Chomp(lines[i]));
      if h.Err? {
        return Err(h.error);
      }
      b := h.value;
      i := i + 1;
    }
    assert lines[i..] == [];
    return Ok(b);
  }

  /** `build` on values: the loop over the lines, then the final flush. */
  method RunAll(c: Config, b: Builder, lines: seq<string>) returns (r: Result<Builder>)
    requires Sound(c, b)
    ensures r == Run(c, b, lines)
  {
    RunUnfold(c, b, lines);
    var h := HandleAll(c, b, lines);
    if h.Err? {
      return Err(h.error);
    }
    r := FlushVerseGroupBuffer(c, h.value);
  }

  // -------------------------------------------------------------------
  // The builder object
  // -------------------------------------------------------------------

  /** `TeiTextBuilder`: the mode flags, the tree and the cursor. */
  class TeiTextBuilder {
    const cfg: Config
    var doc: Doc
    var st: State

    ghost predicate Valid()
      reads this
    {
      Sound(cfg, Builder(doc, st))
    }

    /** `__init__`: `TEI/text/body`, with the body as the current div. */
    constructor(verseOnly: bool, lineByLine: bool)
      ensures Valid() && cfg == Config(verseOnly, lineByLine) && Builder(doc, st) == Init(cfg)
    {
      var c := Config(verseOnly, lineByLine);
      var b := Init(c);
      cfg := c;
      doc := b.doc;
      st := b.st;
    }

    /** `build`: each line in turn, then the final flush; an exception
      * ends the build and is reported. */
    method Build(lines: seq<string>) returns (o: Outcome)
      requires Valid()
      modifies this
      ensures Valid()
      ensures var r := Run(cfg, old(Builder(doc, st)), lines);
              (o.Pass? <==> r.Ok?) && (r.Ok? ==> Builder(doc, st) == r.value) && (r.Err? ==> o == Raise(r.error))
    {
      var r := RunAll(cfg, Builder(doc, st), lines);
      if r.Err? {
        return Raise(r.error);
      }
      doc, st := r.value.doc, r.value.st;
      assert Builder(doc, st) == r.value;
      o := Pass;
    }
  }
}
