/** The text logic of the TEI-to-HTML renderer: the reading text of a TEI
  * element, the rich rendering of line and page breaks, corrections and
  * unclear passages into an HTML tree, the verse-number mark of verse-only
  * output, and the PDF page offsets of the metadata. The TEI input is an
  * immutable tree value; the HTML output is an arena owned by the
  * converter. */
module HtmlRender {
  import opened Wrappers
  import opened Strings
  import opened XmlTree

  // ---------------------------------------------------------------------
  // The TEI input

  /** A parsed TEI element with its `.text`, children and `.tail`. */
  datatype XNode = XNode(tag: string, attrs: map<string, string>, text: Option<string>, kids: seq<XNode>, tail: Option<string>)

  /** `el.get(key)`. */
  function Attr(x: XNode, key: string): Option<string>
  {
    if key in x.attrs then Some(x.attrs[key]) else None
  }

  /** Python truthiness of an optional string. */
  predicate NonEmpty(s: Option<string>)
  {
    s.Some? && s.value != []
  }

  function OrEmpty(s: Option<string>): string
  {
    if s.Some? then s.value else []
  }

  /** `el.find(tag)`: the first child with that tag. */
  function FindChild(ks: seq<XNode>, tag: string): (r: Option<nat>)
    ensures r.Some? ==> r.value < |ks| && ks[r.value].tag == tag && forall j :: 0 <= j < r.value ==> ks[j].tag != tag
    ensures r.None? ==> forall j :: 0 <= j < |ks| ==> ks[j].tag != tag
  {
    if ks == [] then None
    else if ks[0].tag == tag then Some(0)
    else
      var r := FindChild(ks[1..], tag);
      if r.Some? then Some(r.value + 1) else None
  }

  /** The full text of the first child with that tag, or `''`. */
  function ChildText(c: XNode, tag: string): string
  {
    match FindChild(c.kids, tag)
    case Some(i) => IterText(c.kids[i])
    case None => []
  }

  /** `''.join(el.itertext())`: the element's text, then each child's text
    * and tail, in document order. */
  function IterText(x: XNode): string
    decreases x, 1, 0
  {
    OrEmpty(x.text) + IterKids(x, |x.kids|)
  }

  function IterKids(x: XNode, k: nat): string
    requires k <= |x.kids|
    decreases x, 0, k
  {
    if k == 0 then [] else IterKids(x, k - 1) + IterText(x.kids[k - 1]) + OrEmpty(x.kids[k - 1].tail)
  }

  /** `get_plain_text_recursive(el)`: the reading text. */
  function PlainText(x: XNode): string
    decreases x, 1, 0
  {
    OrEmpty(x.text) + PlainKids(x, |x.kids|)
  }

  function PlainKids(x: XNode, k: nat): string
    requires k <= |x.kids|
    decreases x, 0, k
  {
    if k == 0 then [] else PlainKids(x, k - 1) + PlainChild(x.kids[k - 1]) + OrEmpty(x.kids[k - 1].tail)
  }

  /** What one child contributes before its tail: a choice only its first
    * `corr`, a `del` nothing, anything else (`supplied` included) its own
    * reading text. */
  function PlainChild(c: XNode): string
    decreases c, 2, 0
  {
    if c.tag == "choice" then
      match FindChild(c.kids, "corr")
      case Some(i) => PlainText(c.kids[i])
      case None => []
    else if c.tag == "del" then []
    else PlainText(c)
  }

  /** No choice or `del` anywhere below. */
  ghost predicate NoEdits(x: XNode)
    decreases x
  {
    forall i :: 0 <= i < |x.kids| ==> x.kids[i].tag != "choice" && x.kids[i].tag != "del" && NoEdits(x.kids[i])
  }

  /** The reading text drops what a `del` holds and what a choice holds
    * besides its `corr`, so it is never longer than the full text, and it
    * is the full text when there are no edits. */
  lemma {:induction false} PlainTextWithin(x: XNode)
    ensures |PlainText(x)| <= |IterText(x)|
    ensures NoEdits(x) ==> PlainText(x) == IterText(x)
    decreases x, 1
  {
    PlainKidsWithin(x, |x.kids|);
  }

  lemma {:induction false} PlainKidsWithin(x: XNode, k: nat)
    requires k <= |x.kids|
    ensures |PlainKids(x, k)| <= |IterKids(x, k)|
    ensures NoEdits(x) ==> PlainKids(x, k) == IterKids(x, k)
    decreases x, 0, k
  {
    if k > 0 {
      PlainKidsWithin(x, k - 1);
      var c := x.kids[k - 1];
      PlainTextWithin(c);
      if c.tag == "choice" {
        match FindChild(c.kids, "corr")
        case Some(i) =>
          PlainTextWithin(c.kids[i]);
          IterKidsHas(c, i + 1);
          IterKidsGrow(c, i + 1, |c.kids|);
        case None =>
      }
    }
  }

  /** The text of child `k - 1` is part of the first `k` children's text. */
  lemma IterKidsHas(x: XNode, k: nat)
    requires 0 < k <= |x.kids|
    ensures |IterText(x.kids[k - 1])| <= |IterKids(x, k)|
  {
  }

  lemma {:induction false} IterKidsGrow(x: XNode, j: nat, k: nat)
    requires j <= k <= |x.kids|
    ensures |IterKids(x, j)| <= |IterKids(x, k)|
    decreases k - j
  {
    if j < k {
      IterKidsGrow(x, j, k - 1);
    }
  }

  /** How many correction entries the rich rendering of `x`'s children
    * records: one per choice, `del` and `supplied` it reaches. Breaks are
    * not entered; a choice is entered only through its `sic` and `corr`. */
  function Edits(x: XNode): nat
    decreases x, 1, 0
  {
    EditsUpTo(x, |x.kids|)
  }

  function EditsUpTo(x: XNode, k: nat): nat
    requires k <= |x.kids|
    decreases x, 0, k
  {
    if k == 0 then 0 else EditsUpTo(x, k - 1) + EditsOfChild(x.kids[k - 1])
  }

  function EditsOfChild(c: XNode): nat
    decreases c, 3, 0
  {
    if c.tag == "lb" || c.tag == "pb" then 0
    else if c.tag == "choice" then 1 + ChildEdits(c, "sic") + ChildEdits(c, "corr")
    else if c.tag == "del" || c.tag == "supplied" then 1 + Edits(c)
    else Edits(c)
  }

  /** What the first child with that tag records, if there is one. */
  function ChildEdits(c: XNode, tag: string): nat
    decreases c, 2, 0
  {
    match FindChild(c.kids, tag)
    case Some(i) => Edits(c.kids[i])
    case None => 0
  }

  /** Which part of an element a correction half renders. */
  datatype Body = Whole | Kid(i: nat) | NoBody

  predicate BodyOk(c: XNode, b: Body)
  {
    b.Kid? ==> b.i < |c.kids|
  }

  /** What rendering that part records. */
  function BodyEdits(c: XNode, b: Body): nat
    requires BodyOk(c, b)
  {
    match b
    case Whole => Edits(c)
    case Kid(i) => Edits(c.kids[i])
    case NoBody => 0
  }

  lemma ChoiceEdits(c: XNode, e1: nat, e2: nat)
    requires c.tag == "choice"
    requires e1 == if FindChild(c.kids, "sic").Some? then Edits(c.kids[FindChild(c.kids, "sic").value]) else 0
    requires e2 == if FindChild(c.kids, "corr").Some? then Edits(c.kids[FindChild(c.kids, "corr").value]) else 0
    ensures EditsOfChild(c) == 1 + e1 + e2
  {
  }

  /** No choice, `del` or `supplied` anywhere below. */
  ghost predicate NoCorrections(x: XNode)
    decreases x
  {
    forall i :: 0 <= i < |x.kids| ==>
      x.kids[i].tag !in {"choice", "del", "supplied"} && NoCorrections(x.kids[i])
  }

  /** Without corrections in the tree nothing is recorded. */
  lemma {:induction false} EditsNone(x: XNode)
    requires NoCorrections(x)
    ensures Edits(x) == 0
    decreases x, 1
  {
    EditsUpToNone(x, |x.kids|);
  }

  lemma {:induction false} EditsUpToNone(x: XNode, k: nat)
    requires k <= |x.kids| && NoCorrections(x)
    ensures EditsUpTo(x, k) == 0
    decreases x, 0, k
  {
    if k > 0 {
      EditsUpToNone(x, k - 1);
      var c := x.kids[k - 1];
      if c.tag != "lb" && c.tag != "pb" {
        EditsNone(c);
      }
    }
  }

  // ---------------------------------------------------------------------
  // The HTML output

  /** Where a correction was found. */
  datatype Place =
    | PagePlace(page: Option<string>, line: Option<string>, locationId: Option<string>)
    | VersePlace(verse: Option<string>, versePart: Option<string>, locationId: Option<string>)

  /** One entry of `corrections_data`. */
  datatype Correction = Correction(sic: string, corr: string, place: Place)

  /** `str(x)` for an optional string: Python prints `None` for a missing one. */
  function PyStr(s: Option<string>): string
  {
    if s.Some? then s.value else "None"
  }

  /** `d2` is `d1` with elements added and with children added only at the
    * end of `h`'s list or of new elements' lists: no tag or attribute of an
    * existing element changes, and no other existing element's children. */
  ghost predicate Grows(d1: Doc, d2: Doc, h: nat)
  {
    Extends(d1, d2) && |d1.kids| <= |d2.kids|
    && (forall i :: 0 <= i < |d1.elems| ==> d2.elems[i].attrs == d1.elems[i].attrs)
    && (h < |d1.kids| ==> d1.kids[h] <= d2.kids[h])
    && forall i :: 0 <= i < |d1.kids| && i != h ==> d2.kids[i] == d1.kids[i]
  }

  /** Growing at `h` and then at `h` or at a new element is growing at `h`. */
  lemma GrowsTrans(d1: Doc, d2: Doc, d3: Doc, h: nat, a: nat)
    requires Grows(d1, d2, h) && Grows(d2, d3, a) && (a == h || a >= |d1.kids|)
    ensures Grows(d1, d3, h)
  {
    if h < |d1.kids| {
      assert d1.kids[h] <= d2.kids[h] && d2.kids[h] <= d3.kids[h];
    }
  }

  /** The string text goes into next: the last child's tail, or the
    * element's own text when it has no children. */
  function Sink(d: Doc, h: nat): Option<string>
    requires Wf(d) && h < |d.elems|
  {
    if |d.kids[h]| > 0 then d.elems[d.kids[h][|d.kids[h]| - 1]].tail else d.elems[h].text
  }

  /** Replaces the text `h`'s next content goes into; every tree, and the
    * tail of every detached element, stay as they are. */
  function SetSink(d: Doc, h: nat, v: Option<string>): (r: Doc)
    requires Wf(d) && h < |d.elems|
    ensures Wf(r) && Grows(d, r, h) && r.kids == d.kids && r.up == d.up && |r.elems| == |d.elems|
    ensures Sink(r, h) == v
    ensures forall n :: 0 <= n < |d.elems| && d.up[n].None? ==> r.elems[n].tail == d.elems[n].tail
  {
    if |d.kids[h]| > 0 then SetTail(d, d.kids[h][|d.kids[h]| - 1], v) else SetText(d, h, v)
  }

  /** Appends the detached element `n` to `h`'s children. */
  function AttachLast(d: Doc, h: nat, n: nat): (r: Doc)
    requires Wf(d) && h < |d.elems| && n < |d.elems| && d.up[n].None?
    ensures Wf(r) && Grows(d, r, h) && r.elems == d.elems && r.kids[h] == d.kids[h] + [n]
  {
    DetachedInNoList(d, n);
    AppendChild(d, h, n)
  }

  /** `d2`'s text before `h`'s next content is `d1`'s, ending in a space:
    * a last child's tail gains one (an empty tail becomes a lone space), and
    * `h`'s own text gains one unless it is empty. */
  ghost predicate SpacedSink(d1: Doc, d2: Doc, h: nat)
    requires Wf(d1) && Wf(d2) && h < |d1.elems| && h < |d2.elems| && d1.kids[h] == d2.kids[h]
  {
    if |d1.kids[h]| > 0 then Sink(d2, h) == Some(WithSpace(OrEmpty(Sink(d1, h))))
    else Sink(d2, h) == if NonEmpty(Sink(d1, h)) then Some(WithSpace(Sink(d1, h).value)) else Sink(d1, h)
  }

  /** `n, n + 1, …, n + k - 1`. */
  function Fresh(n: nat, k: nat): (r: seq<nat>)
    ensures |r| == k && forall i :: 0 <= i < k ==> r[i] == n + i
  {
    if k == 0 then [] else Fresh(n, k - 1) + [n + k - 1]
  }

  function OptSeq(o: Option<nat>): seq<nat>
  {
    if o.Some? then [o.value] else []
  }

  /** A text that ends in a space: one is added only when missing. */
  function WithSpace(s: string): (r: string)
    ensures EndsWith(r, " ")
    ensures r == s <==> EndsWith(s, " ")
    ensures r == s || r == s + " "
  {
    if EndsWith(s, " ") then s else s + " "
  }

  function BrAttrs(): Attrs
  {
    map["class" := "lb-br rich-text"]
  }

  function LbLabelAttrs(n: string): Attrs
  {
    map["class" := "lb-label rich-text", "data-line" := n]
  }

  function PbLabelAttrs(n: string): Attrs
  {
    map["class" := "pb-label rich-text", "data-page" := n, "target" := "_blank"]
  }

  function LbLabelText(page: Option<string>, n: string): string
  {
    "(p." + PyStr(page) + ", l." + n + ")"
  }

  function PbLabelText(n: string, noLineNumbers: bool): string
  {
    if noLineNumbers then "(p." + n + ")" else "(p." + n + ", l.1)"
  }

  function CorrectionAttrs(): Attrs
  {
    map["class" := "correction"]
  }

  /** The shown half of a choice, titled with the corrected text. */
  function AnteAttrs(corrText: string): Attrs
  {
    Titled("ante-correction", "pre-correction (post-: " + corrText + ")")
  }

  /** The hidden half of a choice, titled with the original text. */
  function PostAttrs(sicText: string): Attrs
  {
    Hidden("post-correction", Some("post-correction (pre-: " + sicText + ")"))
  }

  function Titled(cls: string, title: string): Attrs
  {
    map["class" := cls, "title" := title]
  }

  function Hidden(cls: string, title: Option<string>): Attrs
  {
    if title.Some? then map["class" := cls, "style" := "display:none;", "title" := title.value]
    else map["class" := cls, "style" := "display:none;"]
  }

  /** The tags of `n`'s children, in order. */
  ghost function Tags(d: Doc, n: nat): (r: seq<string>)
    requires Wf(d) && n < |d.elems|
    ensures |r| == |d.kids[n]|
  {
    seq(|d.kids[n]|, j requires 0 <= j < |d.kids[n]| => d.elems[d.kids[n][j]].tag)
  }

  /** A child added at the end of `n` adds its tag. */
  lemma TagsAdd(d1: Doc, d2: Doc, n: nat, c: nat)
    requires Wf(d1) && Wf(d2) && n < |d1.elems| && c < |d2.elems|
    requires Extends(d1, d2) && d2.kids[n] == d1.kids[n] + [c]
    ensures Tags(d2, n) == Tags(d1, n) + [d2.elems[c].tag]
  {
  }

  /** Tags of `n`'s children stay as long as its list does. */
  lemma TagsKept(d1: Doc, d2: Doc, n: nat)
    requires Wf(d1) && Wf(d2) && n < |d1.elems| && Extends(d1, d2) && d2.kids[n] == d1.kids[n]
    ensures Tags(d2, n) == Tags(d1, n)
  {
  }

  /** Like `Grows`, except that elements from `lo` on may change their
    * children freely. */
  ghost predicate GrowsBelow(d1: Doc, d2: Doc, h: nat, lo: nat)
  {
    Extends(d1, d2) && |d1.kids| <= |d2.kids|
    && (forall i :: 0 <= i < |d1.elems| ==> d2.elems[i].attrs == d1.elems[i].attrs)
    && (h < |d1.kids| ==> d1.kids[h] <= d2.kids[h])
    && forall i :: 0 <= i < |d1.kids| && i != h && i < lo ==> d2.kids[i] == d1.kids[i]
  }

  lemma GrowsIsBelow(d1: Doc, d2: Doc, a: nat, h: nat, lo: nat)
    requires Grows(d1, d2, a) && (a == h || a >= lo)
    ensures GrowsBelow(d1, d2, h, lo)
  {
  }

  lemma GrowsBelowTrans(d1: Doc, d2: Doc, d3: Doc, h: nat, lo: nat)
    requires GrowsBelow(d1, d2, h, lo) && GrowsBelow(d2, d3, h, lo)
    ensures GrowsBelow(d1, d3, h, lo)
  {
    if h < |d1.kids| {
      assert d1.kids[h] <= d2.kids[h] && d2.kids[h] <= d3.kids[h];
    }
  }

  /** A new element `n` below `h`, grown freely below itself, leaves
    * `h` grown. */
  lemma GrowsAround(d0: Doc, d1: Doc, d2: Doc, h: nat, n: nat)
    requires Grows(d0, d1, h) && n == |d0.kids| && GrowsBelow(d1, d2, n, n + 1)
    ensures Grows(d0, d2, h)
  {
    if h < |d0.kids| {
      assert d0.kids[h] <= d1.kids[h] && d1.kids[h] == d2.kids[h];
    }
  }

  function LgAttrs(plain: bool, verseOnly: bool): Attrs
  {
    map["class" := if plain then "lg plain-text" else "lg rich-text",
        "style" := if verseOnly then "" else "padding-left: 2em; margin-bottom: 1.3em;"]
  }

  /** The tags of a line group's div after one more child: a head with
    * text adds a paragraph, a line a span, a `back` a paragraph only when
    * the div is still empty, a milestone a span in rich mode. */
  function LgStep(tags: seq<string>, c: XNode, plain: bool): seq<string>
  {
    if c.tag == "head" then (if NonEmpty(c.text) then tags + ["p"] else tags)
    else if c.tag == "l" then tags + ["span"]
    else if c.tag == "back" then (if tags == [] then ["p"] else tags)
    else if c.tag == "milestone" && !plain then tags + ["span"]
    else tags
  }

  /** The tags of a line group's div. */
  function LgShape(ks: seq<XNode>, plain: bool): seq<string>
  {
    if ks == [] then [] else LgStep(LgShape(ks[..|ks| - 1], plain), ks[|ks| - 1], plain)
  }

  /** One more child of the group is one more step. */
  lemma LgSnoc(ks: seq<XNode>, k: nat, plain: bool)
    requires k < |ks|
    ensures LgShape(ks[..k + 1], plain) == LgStep(LgShape(ks[..k], plain), ks[k], plain)
    ensures LgEdits(ks[..k + 1]) == LgEdits(ks[..k]) + LgChildEdits(ks[k])
  {
    assert ks[..k + 1][..k] == ks[..k];
  }

  function LgChildEdits(c: XNode): nat
  {
    if c.tag == "l" || c.tag == "back" then Edits(c) else 0
  }

  /** What the lines and backs of a line group record. */
  function LgEdits(ks: seq<XNode>): nat
  {
    if ks == [] then 0 else LgEdits(ks[..|ks| - 1]) + LgChildEdits(ks[|ks| - 1])
  }

  /** Each line of a group gets its own span, so the div has at least as
    * many children as the group has lines, and never more children than
    * the group plus one. */
  lemma {:induction false} LgShapeSize(ks: seq<XNode>, plain: bool)
    ensures Lines(ks) <= |LgShape(ks, plain)| <= |ks|
  {
    if ks != [] {
      LgShapeSize(ks[..|ks| - 1], plain);
    }
  }

  function Lines(ks: seq<XNode>): nat
  {
    if ks == [] then 0 else Lines(ks[..|ks| - 1]) + if ks[|ks| - 1].tag == "l" then 1 else 0
  }

  /** The renderer's state: the HTML tree it writes and the pending line
    * and page labels, the location it is at, and the corrections found. */
  class HtmlConverter {
    const noLineNumbers: bool
    const verseOnly: bool
    const onlyPlain: bool
    var doc: Doc
    var currentPage: Option<string>
    var currentLine: Option<string>
    var pendingLabel: Option<nat>
    var pendingBreaks: nat
    var corrections: seq<Correction>
    var currentVerse: Option<string>
    var currentVersePart: Option<string>
    var currentLocationId: Option<string>

    /** The tree is well formed, and a pending label is a detached element
      * with no tail yet. */
    ghost predicate Valid()
      reads this
    {
      Wf(doc)
      && (pendingLabel.Some? ==>
            pendingLabel.value < |doc.elems| && doc.up[pendingLabel.value].None?
            && doc.elems[pendingLabel.value].tail.None?)
    }

    constructor(noLineNumbers: bool, verseOnly: bool, onlyPlain: bool)
      ensures Valid() && doc == Empty()
      ensures this.noLineNumbers == noLineNumbers && this.verseOnly == verseOnly && this.onlyPlain == onlyPlain
      ensures currentPage == Some("") && currentLine == Some("1")
      ensures pendingLabel.None? && pendingBreaks == 0 && corrections == []
      ensures currentVerse.None? && currentVersePart.None? && currentLocationId.None?
    {
      this.noLineNumbers := noLineNumbers;
      this.verseOnly := verseOnly;
      this.onlyPlain := onlyPlain;
      doc := Empty();
      currentPage := Some("");
      currentLine := Some("1");
      pendingLabel := None;
      pendingBreaks := 0;
      corrections := [];
      currentVerse := None;
      currentVersePart := None;
      currentLocationId := None;
    }

    /** Where a correction found now is recorded. */
    function Here(): Place
      reads this
    {
      if verseOnly then VersePlace(currentVerse, currentVersePart, currentLocationId)
      else PagePlace(currentPage, currentLine, currentLocationId)
    }

    /** Pending breaks and the pending label are written out before this
      * text. */
    predicate Flushes(text: string, plain: bool)
      reads this
    {
      !plain && (pendingBreaks > 0 || pendingLabel.Some?) && !IsBlank(text)
    }

    /** `append_text(element, text, strip_leading_whitespace, treat_as_plain)`. */
    method AppendText(h: nat, text: string, strip: bool, plain: bool)
      requires Valid() && h < |doc.elems|
      modifies this
      ensures Valid() && Grows(old(doc), doc, h)
      ensures currentPage == old(currentPage) && currentLine == old(currentLine) && corrections == old(corrections)
      ensures text == [] ==> doc == old(doc) && pendingBreaks == old(pendingBreaks) && pendingLabel == old(pendingLabel)
      ensures text != [] && !old(Flushes(text, plain)) ==>
        && pendingBreaks == old(pendingBreaks) && pendingLabel == old(pendingLabel)
        && doc.kids == old(doc.kids) && |doc.elems| == |old(doc.elems)|
        && Sink(doc, h) == Some(OrEmpty(old(Sink(doc, h))) + text)
      ensures text != [] && old(Flushes(text, plain)) ==>
        && pendingBreaks == 0 && pendingLabel.None?
        && doc.kids[h] == old(doc.kids[h]) + Fresh(|old(doc.elems)|, old(pendingBreaks)) + OptSeq(old(pendingLabel))
        && Sink(doc, h) == Some(if strip then LStrip(text) else text)
    {
      if text == [] {
        return;
      }
      var t := text;
      ghost var d0 := doc;
      if !plain && (pendingBreaks > 0 || pendingLabel.Some?) && !IsBlank(text) {
        Flush(h);
        assert Sink(doc, h).None?;
        if strip {
          t := LStrip(text);
        }
      }
      ghost var d1 := doc;
      assert OrEmpty(None) + t == t;
      WriteSink(h, t);
      GrowsTrans(d0, d1, doc, h, h);
    }

    /** Writes the pending breaks, then the pending label, out as the last
      * children of `h`. */
    method Flush(h: nat)
      requires Valid() && h < |doc.elems| && (pendingBreaks > 0 || pendingLabel.Some?)
      modifies this
      ensures Valid() && Grows(old(doc), doc, h) && pendingBreaks == 0 && pendingLabel.None?
      ensures currentPage == old(currentPage) && currentLine == old(currentLine) && corrections == old(corrections)
      ensures doc.kids[h] == old(doc.kids[h]) + Fresh(|old(doc.elems)|, old(pendingBreaks)) + OptSeq(old(pendingLabel))
      ensures |doc.kids[h]| > 0 && doc.elems[doc.kids[h][|doc.kids[h]| - 1]].tail.None?
    {
      ghost var d0 := doc;
      AddBreaks(h);
      if pendingLabel.Some? {
        ghost var d1 := doc;
        doc := AttachLast(doc, h, pendingLabel.value);
        pendingLabel := None;
        GrowsTrans(d0, d1, doc, h, h);
      }
    }

    /** Appends `t` to the last child's tail, or to `h`'s text when it has no
      * children. */
    method WriteSink(h: nat, t: string)
      requires Valid() && h < |doc.elems|
      modifies this
      ensures Valid() && Grows(old(doc), doc, h) && doc.kids == old(doc.kids) && |doc.elems| == |old(doc.elems)|
      ensures pendingBreaks == old(pendingBreaks) && pendingLabel == old(pendingLabel)
      ensures currentPage == old(currentPage) && currentLine == old(currentLine) && corrections == old(corrections)
      ensures Sink(doc, h) == Some(OrEmpty(old(Sink(doc, h))) + t)
    {
      doc := SetSink(doc, h, Some(OrEmpty(Sink(doc, h)) + t));
    }

    /** Writes the pending `<br>`s out as new last children of `h`. */
    method AddBreaks(h: nat)
      requires Valid() && h < |doc.elems|
      modifies this
      ensures Valid() && Grows(old(doc), doc, h) && pendingBreaks == 0
      ensures pendingLabel == old(pendingLabel) && currentPage == old(currentPage)
      ensures currentLine == old(currentLine) && corrections == old(corrections)
      ensures |doc.elems| == |old(doc.elems)| + old(pendingBreaks)
      ensures doc.kids[h] == old(doc.kids[h]) + Fresh(|old(doc.elems)|, old(pendingBreaks))
      ensures forall i :: |old(doc.elems)| <= i < |doc.elems| ==> doc.elems[i] == Elem("br", BrAttrs(), None, None)
    {
      ghost var d0 := doc;
      var n0 := |doc.elems|;
      for j := 0 to pendingBreaks
        invariant Valid() && Grows(d0, doc, h) && |doc.elems| == n0 + j
        invariant doc.kids[h] == d0.kids[h] + Fresh(n0, j)
        invariant forall i :: n0 <= i < |doc.elems| ==> doc.elems[i] == Elem("br", BrAttrs(), None, None)
        invariant pendingLabel == old(pendingLabel) && pendingBreaks == old(pendingBreaks)
        invariant currentPage == old(currentPage) && currentLine == old(currentLine) && corrections == old(corrections)
      {
        ghost var before := doc;
        var _ := Child(h, "br", BrAttrs(), None);
        GrowsTrans(d0, before, doc, h, h);
      }
      pendingBreaks := 0;
    }

    /** The space or hyphen that stands for a line or page break in the
      * running text. */
    method JoinAtBreak(c: XNode, h: nat)
      requires Valid() && h < |doc.elems|
      modifies this
      ensures Valid() && Grows(old(doc), doc, h)
      ensures pendingLabel == old(pendingLabel) && pendingBreaks == old(pendingBreaks)
      ensures currentPage == old(currentPage) && currentLine == old(currentLine) && corrections == old(corrections)
      ensures Attr(c, "break") == Some("no") ==>
        && |doc.elems| == |old(doc.elems)| + 1 && doc.kids[h] == old(doc.kids[h]) + [|old(doc.elems)|]
        && doc.elems[|old(doc.elems)|] == Elem("span", map["class" := "hyphen"], Some("-"), None)
      ensures Attr(c, "break") != Some("no") ==> doc.kids == old(doc.kids) && |doc.elems| == |old(doc.elems)|
      ensures Attr(c, "break") != Some("no") ==> SpacedSink(old(doc), doc, h)
    {
      if Attr(c, "break") == Some("no") {
        var _ := Child(h, "span", map["class" := "hyphen"], Some("-"));
      } else {
        SpaceBefore(h);
      }
    }

    /** The running text before `h`'s next content ends in a space: the last
      * child's tail, which becomes " " when empty, or `h`'s own text when it
      * is not empty. */
    method SpaceBefore(h: nat)
      requires Valid() && h < |doc.elems|
      modifies this
      ensures Valid() && Grows(old(doc), doc, h) && doc.kids == old(doc.kids) && |doc.elems| == |old(doc.elems)|
      ensures pendingLabel == old(pendingLabel) && pendingBreaks == old(pendingBreaks)
      ensures currentPage == old(currentPage) && currentLine == old(currentLine) && corrections == old(corrections)
      ensures SpacedSink(old(doc), doc, h)
    {
      var sink := Sink(doc, h);
      if |doc.kids[h]| > 0 {
        doc := SetSink(doc, h, Some(WithSpace(OrEmpty(sink))));
      } else if NonEmpty(sink) {
        doc := SetSink(doc, h, Some(WithSpace(sink.value)));
      }
    }

    /** A new detached label element, made the pending label. */
    method NewLabel(tag: string, attrs: Attrs, text: string)
      requires Valid()
      modifies this
      ensures Valid() && Grows(old(doc), doc, |old(doc.elems)|) && |doc.elems| == |old(doc.elems)| + 1
      ensures pendingLabel == Some(|old(doc.elems)|) && doc.elems[|old(doc.elems)|] == Elem(tag, attrs, Some(text), None)
      ensures doc.kids[..|old(doc.elems)|] == old(doc.kids)
      ensures pendingBreaks == old(pendingBreaks) && currentPage == old(currentPage)
      ensures currentLine == old(currentLine) && corrections == old(corrections)
    {
      var (d, n) := NewElement(doc, tag, attrs);
      doc := SetText(d, n, Some(text));
      pendingLabel := Some(n);
    }

    /** An `lb` in rich mode. The label's `data-line` cannot be `None`, so
      * an `lb` without `n` raises. */
    method LineBreak(c: XNode, afterCaesura: bool, h: nat, inLg: bool) returns (out: Outcome)
      requires Valid() && h < |doc.elems|
      modifies this
      ensures out.Pass? <==> Attr(c, "n").Some?
      ensures out.Pass? ==> Valid() && Grows(old(doc), doc, h) && corrections == old(corrections) && currentPage == old(currentPage)
      ensures out.Pass? ==> currentLine == if NonEmpty(Attr(c, "n")) then Attr(c, "n") else old(currentLine)
      ensures out.Pass? ==> pendingBreaks == old(pendingBreaks) + if !inLg || afterCaesura then 1 else 0
      ensures out.Pass? ==> (pendingLabel.Some? && pendingLabel.value < |doc.elems|
        && doc.elems[pendingLabel.value] == Elem("span", LbLabelAttrs(Attr(c, "n").value), Some(LbLabelText(currentPage, Attr(c, "n").value)), None))
    {
      ghost var d0 := doc;
      JoinAtBreak(c, h);
      ghost var d1 := doc;
      var n := Attr(c, "n");
      if NonEmpty(n) {
        currentLine := n;
      }
      if !inLg || afterCaesura {
        pendingBreaks := pendingBreaks + 1;
      }
      if n.None? {
        return Raise("TypeError");
      }
      NewLabel("span", LbLabelAttrs(n.value), LbLabelText(currentPage, n.value));
      GrowsTrans(d0, d1, doc, h, |d1.elems|);
      return Pass;
    }

    /** A `pb` in rich mode: the page is its `n` and the line starts again
      * at 1. The label's `data-page` cannot be `None`, so a `pb` without
      * `n` raises. */
    method PageBreak(c: XNode, h: nat, inLg: bool) returns (out: Outcome)
      requires Valid() && h < |doc.elems|
      modifies this
      ensures out.Pass? <==> Attr(c, "n").Some?
      ensures out.Pass? ==> Valid() && Grows(old(doc), doc, h) && corrections == old(corrections)
      ensures out.Pass? ==> currentPage == Attr(c, "n") && currentLine == Some("1")
      ensures out.Pass? ==> pendingBreaks == old(pendingBreaks) + if !inLg then 1 else 0
      ensures out.Pass? ==> (pendingLabel.Some? && pendingLabel.value < |doc.elems|
        && doc.elems[pendingLabel.value] == Elem("a", PbLabelAttrs(Attr(c, "n").value), Some(PbLabelText(Attr(c, "n").value, noLineNumbers)), None))
    {
      ghost var d0 := doc;
      JoinAtBreak(c, h);
      ghost var d1 := doc;
      currentPage := Attr(c, "n");
      currentLine := Some("1");
      if !inLg {
        pendingBreaks := pendingBreaks + 1;
      }
      if currentPage.None? {
        return Raise("TypeError");
      }
      NewLabel("a", PbLabelAttrs(currentPage.value), PbLabelText(currentPage.value, noLineNumbers));
      GrowsTrans(d0, d1, doc, h, |d1.elems|);
      return Pass;
    }

    /** Records a correction, unless only plain text is wanted. */
    method Record(sic: string, corr: string)
      modifies this
      ensures corrections == old(corrections) + if onlyPlain then [] else [Correction(sic, corr, old(Here()))]
      ensures doc == old(doc) && pendingLabel == old(pendingLabel) && pendingBreaks == old(pendingBreaks)
      ensures currentPage == old(currentPage) && currentLine == old(currentLine)
    {
      if !onlyPlain {
        corrections := corrections + [Correction(sic, corr, Here())];
      }
    }

    /** A new last child of `h`. */
    method Child(h: nat, tag: string, attrs: Attrs, text: Option<string>) returns (n: nat)
      requires Valid() && h < |doc.elems|
      modifies this
      ensures Valid() && Grows(old(doc), doc, h) && n == |old(doc.elems)| && |doc.elems| == n + 1
      ensures doc.kids[h] == old(doc.kids[h]) + [n] && doc.kids[n] == []
      ensures doc.elems[n] == Elem(tag, attrs, text, None) && doc.elems[..n] == old(doc.elems)
      ensures pendingLabel == old(pendingLabel) && pendingBreaks == old(pendingBreaks)
      ensures currentPage == old(currentPage) && currentLine == old(currentLine) && corrections == old(corrections)
      ensures Here() == old(Here())
    {
      var (d, m) := SubElement(doc, h, tag, attrs);
      n := m;
      doc := SetText(d, n, text);
    }

    /** One half of a correction: a new `<i>` under `span`, with the
      * children of `body` rendered into it. */
    method Half(span: nat, attrs: Attrs, text: Option<string>, c: XNode, body: Body, inLg: bool) returns (out: Outcome)
      requires Valid() && span < |doc.elems| && BodyOk(c, body)
      modifies this
      decreases c, 3
      ensures body.NoBody? ==> out.Pass?
      ensures out.Pass? ==> Valid() && Grows(old(doc), doc, span)
      ensures out.Pass? ==> (|doc.elems| > |old(doc.elems)| && doc.kids[span] == old(doc.kids[span]) + [|old(doc.elems)|]
        && doc.elems[|old(doc.elems)|].tag == "i" && doc.elems[|old(doc.elems)|].attrs == attrs)
      ensures out.Pass? ==> (old(corrections) <= corrections
        && |corrections| == |old(corrections)| + if onlyPlain then 0 else BodyEdits(c, body))
    {
      var n := Child(span, "i", attrs, text);
      out := Pass;
      if !body.NoBody? {
        ghost var d1 := doc;
        out := ProcessChildren(if body.Kid? then c.kids[body.i] else c, n, false, inLg);
        if out.Pass? {
          GrowsTrans(old(doc), d1, doc, span, n);
        }
      }
    }

    /** Both halves of a correction, in order. */
    method Halves(span: nat, c: XNode, attrs1: Attrs, text1: Option<string>, body1: Body,
                  attrs2: Attrs, text2: Option<string>, body2: Body, inLg: bool) returns (out: Outcome)
      requires Valid() && span < |doc.elems| && BodyOk(c, body1) && BodyOk(c, body2)
      modifies this
      decreases c, 4
      ensures out.Pass? ==> Valid() && Grows(old(doc), doc, span)
      ensures out.Pass? ==> (old(corrections) <= corrections
        && |corrections| == |old(corrections)| + if onlyPlain then 0 else BodyEdits(c, body1) + BodyEdits(c, body2))
    {
      out := Half(span, attrs1, text1, c, body1, inLg);
      if out.Raise? {
        return;
      }
      ghost var d1 := doc;
      out := Half(span, attrs2, text2, c, body2, inLg);
      if out.Pass? {
        GrowsTrans(old(doc), d1, doc, span, span);
      }
    }

    /** A correction span under `h`: the entry is recorded, then the two
      * halves are rendered into it. */
    method CorrectionSpan(h: nat, entry: Correction, c: XNode, attrs1: Attrs, text1: Option<string>, body1: Body,
                          attrs2: Attrs, text2: Option<string>, body2: Body, inLg: bool) returns (out: Outcome)
      requires Valid() && h < |doc.elems| && BodyOk(c, body1) && BodyOk(c, body2) && entry.place == Here()
      modifies this
      decreases c, 5
      ensures out.Pass? ==> Valid() && Grows(old(doc), doc, h)
      ensures out.Pass? ==> (old(corrections) <= corrections
        && |corrections| == |old(corrections)| + if onlyPlain then 0 else 1 + BodyEdits(c, body1) + BodyEdits(c, body2))
      ensures out.Pass? && !onlyPlain ==> corrections[|old(corrections)|] == entry
      ensures out.Pass? ==> (|doc.elems| > |old(doc.elems)| && doc.kids[h] == old(doc.kids[h]) + [|old(doc.elems)|]
        && doc.elems[|old(doc.elems)|].tag == "span" && doc.elems[|old(doc.elems)|].attrs == CorrectionAttrs())
    {
      var span := Child(h, "span", CorrectionAttrs(), None);
      Record(entry.sic, entry.corr);
      ghost var d1 := doc;
      out := Halves(span, c, attrs1, text1, body1, attrs2, text2, body2, inLg);
      if out.Pass? {
        GrowsTrans(old(doc), d1, doc, h, span);
      }
    }

    /** A choice: a correction span holding the `sic` rendering, shown, and
      * the `corr` rendering, hidden. */
    method Choice(c: XNode, h: nat, inLg: bool) returns (out: Outcome)
      requires Valid() && h < |doc.elems| && c.tag == "choice"
      modifies this
      decreases c, 6
      ensures out.Pass? ==> Valid() && Grows(old(doc), doc, h)
      ensures out.Pass? ==> old(corrections) <= corrections && |corrections| == |old(corrections)| + if onlyPlain then 0 else EditsOfChild(c)
      ensures out.Pass? && !onlyPlain ==> (corrections[|old(corrections)|] ==
        Correction(ChildText(c, "sic"), ChildText(c, "corr"), old(Here())))
      ensures out.Pass? ==> (|doc.elems| > |old(doc.elems)| && doc.kids[h] == old(doc.kids[h]) + [|old(doc.elems)|]
        && doc.elems[|old(doc.elems)|].tag == "span" && doc.elems[|old(doc.elems)|].attrs == CorrectionAttrs())
    {
      var sic := FindChild(c.kids, "sic");
      var corr := FindChild(c.kids, "corr");
      var sicText := ChildText(c, "sic");
      var corrText := ChildText(c, "corr");
      var b1 := if sic.Some? then Kid(sic.value) else NoBody;
      var b2 := if corr.Some? then Kid(corr.value) else NoBody;
      ChoiceEdits(c, BodyEdits(c, b1), BodyEdits(c, b2));
      out := CorrectionSpan(h, Correction(sicText, corrText, Here()), c,
        AnteAttrs(corrText), None, b1, PostAttrs(sicText), None, b2, inLg);
    }

    /** A `del` or a `supplied`: a correction span with the rendering shown
      * for a deletion and hidden for a supplement, and an empty other half. */
    method Edit(c: XNode, h: nat, inLg: bool) returns (out: Outcome)
      requires Valid() && h < |doc.elems| && (c.tag == "del" || c.tag == "supplied")
      modifies this
      decreases c, 6
      ensures out.Pass? ==> Valid() && Grows(old(doc), doc, h)
      ensures out.Pass? ==> old(corrections) <= corrections && |corrections| == |old(corrections)| + if onlyPlain then 0 else EditsOfChild(c)
      ensures out.Pass? && !onlyPlain ==> (corrections[|old(corrections)|] == Correction(
        if c.tag == "del" then IterText(c) else [], if c.tag == "supplied" then IterText(c) else [], old(Here())))
      ensures out.Pass? ==> (|doc.elems| > |old(doc.elems)| && doc.kids[h] == old(doc.kids[h]) + [|old(doc.elems)|]
        && doc.elems[|old(doc.elems)|].tag == "span" && doc.elems[|old(doc.elems)|].attrs == CorrectionAttrs())
    {
      var text := IterText(c);
      if c.tag == "del" {
        out := CorrectionSpan(h, Correction(text, [], Here()), c,
          Titled("ante-correction", "deletion"), None, Whole, Hidden("post-correction", None), Some(""), NoBody, inLg);
      } else {
        out := CorrectionSpan(h, Correction([], text, Here()), c,
          map["class" := "ante-correction"], Some(""), NoBody, Hidden("post-correction", Some("supplied")), None, Whole, inLg);
      }
    }

    /** An `unclear`: a span titled "unclear" holding its rendering. */
    method Unclear(c: XNode, h: nat, inLg: bool) returns (out: Outcome)
      requires Valid() && h < |doc.elems|
      modifies this
      decreases c, 4
      ensures out.Pass? ==> Valid() && Grows(old(doc), doc, h)
      ensures out.Pass? ==> old(corrections) <= corrections && |corrections| == |old(corrections)| + if onlyPlain then 0 else Edits(c)
      ensures out.Pass? ==> (|doc.elems| > |old(doc.elems)| && doc.kids[h] == old(doc.kids[h]) + [|old(doc.elems)|]
        && doc.elems[|old(doc.elems)|].tag == "span" && doc.elems[|old(doc.elems)|].attrs == Titled("unclear", "unclear"))
    {
      var span := Child(h, "span", Titled("unclear", "unclear"), None);
      ghost var d1 := doc;
      out := ProcessChildren(c, span, false, inLg);
      if out.Pass? {
        GrowsTrans(old(doc), d1, doc, h, span);
      }
    }

    /** One child of `x` in rich mode, then its tail. */
    method ProcessChild(x: XNode, k: nat, h: nat, inLg: bool) returns (out: Outcome)
      requires Valid() && h < |doc.elems| && k < |x.kids|
      modifies this
      decreases x, 1
      ensures out.Pass? ==> Valid() && Grows(old(doc), doc, h)
      ensures out.Pass? ==> old(corrections) <= corrections && |corrections| == |old(corrections)| + if onlyPlain then 0 else EditsOfChild(x.kids[k])
    {
      var c := x.kids[k];
      out := RenderChild(c, k > 0 && x.kids[k - 1].tag == "caesura", h, inLg);
      if out.Raise? {
        return;
      }
      if NonEmpty(c.tail) {
        ghost var d1 := doc;
        AppendText(h, c.tail.value, c.tag == "lb" || c.tag == "pb", false);
        GrowsTrans(old(doc), d1, doc, h, h);
      }
    }

    /** The rendering of one child, by its tag. */
    method RenderChild(c: XNode, afterCaesura: bool, h: nat, inLg: bool) returns (out: Outcome)
      requires Valid() && h < |doc.elems|
      modifies this
      decreases c, 7
      ensures out.Pass? ==> Valid() && Grows(old(doc), doc, h)
      ensures out.Pass? ==> old(corrections) <= corrections && |corrections| == |old(corrections)| + if onlyPlain then 0 else EditsOfChild(c)
    {
      if c.tag == "lb" {
        out := LineBreak(c, afterCaesura, h, inLg);
      } else if c.tag == "pb" {
        out := PageBreak(c, h, inLg);
      } else if c.tag == "choice" {
        out := Choice(c, h, inLg);
      } else if c.tag == "del" || c.tag == "supplied" {
        out := Edit(c, h, inLg);
      } else if c.tag == "unclear" {
        out := Unclear(c, h, inLg);
      } else {
        out := ProcessChildren(c, h, false, inLg);
      }
    }

    /** `process_children(xml_node, html_node, treat_as_plain, in_lg)`. In
      * plain mode the node's reading text is appended as one piece; in rich
      * mode its text and then each child are rendered. */
    method ProcessChildren(x: XNode, h: nat, plain: bool, inLg: bool) returns (out: Outcome)
      requires Valid() && h < |doc.elems|
      modifies this
      decreases x, 2
      ensures out.Pass? ==> Valid() && Grows(old(doc), doc, h)
      ensures out.Pass? ==> (old(corrections) <= corrections
        && |corrections| == |old(corrections)| + if plain || onlyPlain then 0 else Edits(x))
      ensures plain ==> (out.Pass? && corrections == old(corrections)
        && currentPage == old(currentPage) && currentLine == old(currentLine))
      ensures plain && PlainText(x) == [] ==> doc == old(doc)
      ensures plain && PlainText(x) != [] ==> (doc.kids == old(doc.kids)
        && Sink(doc, h) == Some(OrEmpty(old(Sink(doc, h))) + PlainText(x)))
    {
      if plain {
        AppendText(h, PlainText(x), false, true);
        return Pass;
      }
      ghost var d0 := doc;
      if NonEmpty(x.text) {
        AppendText(h, x.text.value, false, false);
      }
      for k := 0 to |x.kids|
        invariant Valid() && h < |doc.elems| && Grows(d0, doc, h)
        invariant old(corrections) <= corrections
        invariant |corrections| == |old(corrections)| + if onlyPlain then 0 else EditsUpTo(x, k)
      {
        ghost var before := doc;
        out := ProcessChild(x, k, h, inLg);
        if out.Raise? {
          return;
        }
        GrowsTrans(d0, before, doc, h, h);
      }
      out := Pass;
    }

    /** `process_lg_content`: a line group becomes a div; its heads become
      * paragraphs, its lines spans, a `back` continues the last of them,
      * and in rich mode a milestone becomes a numbered span. */
    method ProcessLg(lg: XNode, container: nat, plain: bool) returns (out: Outcome)
      requires Valid() && container < |doc.elems|
      modifies this
      decreases lg, 10
      ensures plain ==> out.Pass?
      ensures out.Pass? ==> Valid() && Grows(old(doc), doc, container)
      ensures out.Pass? ==> (|doc.elems| > |old(doc.elems)| && doc.kids[container] == old(doc.kids[container]) + [|old(doc.elems)|]
        && doc.elems[|old(doc.elems)|].tag == "div" && doc.elems[|old(doc.elems)|].attrs == LgAttrs(plain, verseOnly))
      ensures out.Pass? ==> Tags(doc, |old(doc.elems)|) == LgShape(lg.kids, plain)
      ensures out.Pass? ==> (old(corrections) <= corrections
        && |corrections| == |old(corrections)| + if plain || onlyPlain then 0 else LgEdits(lg.kids))
    {
      var div := Child(container, "div", LgAttrs(plain, verseOnly), None);
      ghost var d0 := doc;
      out := LgKids(lg, div, plain);
      if out.Pass? {
        GrowsAround(old(doc), d0, doc, container, div);
      }
    }

    /** The loop of `process_lg_content` over the group's children. */
    method LgKids(lg: XNode, div: nat, plain: bool) returns (out: Outcome)
      requires Valid() && div < |doc.elems| && doc.kids[div] == []
      modifies this
      decreases lg, 9
      ensures plain ==> out.Pass?
      ensures out.Pass? ==> Valid() && GrowsBelow(old(doc), doc, div, div + 1)
      ensures out.Pass? ==> Tags(doc, div) == LgShape(lg.kids, plain)
      ensures out.Pass? ==> (old(corrections) <= corrections
        && |corrections| == |old(corrections)| + if plain || onlyPlain then 0 else LgEdits(lg.kids))
    {
      out := Pass;
      GrowsIsBelow(doc, doc, div, div, div + 1);
      assert lg.kids[..0] == [];
      for k := 0 to |lg.kids|
        invariant out.Pass?
        invariant Valid() && div < |doc.elems| && GrowsBelow(old(doc), doc, div, div + 1)
        invariant forall j :: 0 <= j < |doc.kids[div]| ==> doc.kids[div][j] > div
        invariant Tags(doc, div) == LgShape(lg.kids[..k], plain)
        invariant old(corrections) <= corrections
        invariant |corrections| == |old(corrections)| + if plain || onlyPlain then 0 else LgEdits(lg.kids[..k])
      {
        LgSnoc(lg.kids, k, plain);
        ghost var before := doc;
        out := LgChild(lg.kids[k], div, plain);
        if out.Raise? {
          return;
        }
        GrowsBelowTrans(old(doc), before, doc, div, div + 1);
      }
      assert lg.kids[..|lg.kids|] == lg.kids;
    }

    /** One child of a line group, rendered into the group's div; every
      * child of the div comes after it. */
    method LgChild(c: XNode, div: nat, plain: bool) returns (out: Outcome)
      requires Valid() && div < |doc.elems|
      requires forall j :: 0 <= j < |doc.kids[div]| ==> doc.kids[div][j] > div
      modifies this
      decreases c, 8
      ensures plain ==> out.Pass?
      ensures out.Pass? ==> Valid() && GrowsBelow(old(doc), doc, div, div + 1)
      ensures out.Pass? ==> forall j :: 0 <= j < |doc.kids[div]| ==> doc.kids[div][j] > div
      ensures out.Pass? ==> Tags(doc, div) == LgStep(old(Tags(doc, div)), c, plain)
      ensures out.Pass? ==> (old(corrections) <= corrections
        && |corrections| == |old(corrections)| + if plain || onlyPlain then 0 else LgChildEdits(c))
    {
      out := Pass;
      if c.tag == "head" {
        if NonEmpty(c.text) {
          LgHead(c.text.value, div, plain);
        }
      } else if c.tag == "l" {
        var span := LgPart(div, "span", map[], None);
        out := LgInto(c, span, div, plain);
      } else if c.tag == "back" {
        out := LgBack(c, div, plain);
      } else if c.tag == "milestone" && !plain {
        var m := LgPart(div, "span", map["class" := "milestone"], Some(PyStr(Attr(c, "n"))));
      } else {
        GrowsIsBelow(doc, doc, div, div, div + 1);
      }
    }

    /** A head with text: a paragraph of class `lg-head` holding it. */
    method LgHead(text: string, div: nat, plain: bool)
      requires Valid() && div < |doc.elems|
      requires forall j :: 0 <= j < |doc.kids[div]| ==> doc.kids[div][j] > div
      modifies this
      ensures Valid() && GrowsBelow(old(doc), doc, div, div + 1)
      ensures forall j :: 0 <= j < |doc.kids[div]| ==> doc.kids[div][j] > div
      ensures Tags(doc, div) == old(Tags(doc, div)) + ["p"] && corrections == old(corrections)
    {
      var p := LgPart(div, "p", map["class" := "lg-head"], None);
      ghost var d1 := doc;
      AppendText(p, text, false, plain);
      TagsKept(d1, doc, div);
      GrowsIsBelow(d1, doc, p, div, div + 1);
      GrowsBelowTrans(old(doc), d1, doc, div, div + 1);
    }

    /** A `back` continues the div's last child, or a new paragraph when
      * the div is still empty. */
    method LgBack(c: XNode, div: nat, plain: bool) returns (out: Outcome)
      requires Valid() && div < |doc.elems|
      requires forall j :: 0 <= j < |doc.kids[div]| ==> doc.kids[div][j] > div
      modifies this
      decreases c, 7
      ensures plain ==> out.Pass?
      ensures out.Pass? ==> Valid() && GrowsBelow(old(doc), doc, div, div + 1)
      ensures out.Pass? ==> forall j :: 0 <= j < |doc.kids[div]| ==> doc.kids[div][j] > div
      ensures out.Pass? ==> Tags(doc, div) == if old(Tags(doc, div)) == [] then ["p"] else old(Tags(doc, div))
      ensures out.Pass? ==> (old(corrections) <= corrections
        && |corrections| == |old(corrections)| + if plain || onlyPlain then 0 else Edits(c))
    {
      var target;
      ghost var d0 := doc;
      if |doc.kids[div]| > 0 {
        target := doc.kids[div][|doc.kids[div]| - 1];
        GrowsIsBelow(d0, doc, div, div, div + 1);
      } else {
        target := LgPart(div, "p", map[], None);
      }
      ghost var d1 := doc;
      out := LgInto(c, target, div, plain);
      if out.Pass? {
        GrowsBelowTrans(d0, d1, doc, div, div + 1);
      }
    }

    /** A new child of the line group's div. */
    method LgPart(div: nat, tag: string, attrs: Attrs, text: Option<string>) returns (n: nat)
      requires Valid() && div < |doc.elems|
      requires forall j :: 0 <= j < |doc.kids[div]| ==> doc.kids[div][j] > div
      modifies this
      ensures Valid() && GrowsBelow(old(doc), doc, div, div + 1) && div < n < |doc.elems|
      ensures forall j :: 0 <= j < |doc.kids[div]| ==> doc.kids[div][j] > div
      ensures Tags(doc, div) == old(Tags(doc, div)) + [tag] && corrections == old(corrections)
    {
      ghost var d0 := doc;
      n := Child(div, tag, attrs, text);
      TagsAdd(d0, doc, div, n);
      GrowsIsBelow(d0, doc, div, div, div + 1);
    }

    /** A line or a `back` rendered into `target`, a child of the div. */
    method LgInto(c: XNode, target: nat, div: nat, plain: bool) returns (out: Outcome)
      requires Valid() && div < target < |doc.elems|
      requires forall j :: 0 <= j < |doc.kids[div]| ==> doc.kids[div][j] > div
      modifies this
      decreases c, 6
      ensures plain ==> out.Pass?
      ensures out.Pass? ==> Valid() && GrowsBelow(old(doc), doc, div, div + 1)
      ensures out.Pass? ==> forall j :: 0 <= j < |doc.kids[div]| ==> doc.kids[div][j] > div
      ensures out.Pass? ==> Tags(doc, div) == old(Tags(doc, div))
      ensures out.Pass? ==> (old(corrections) <= corrections
        && |corrections| == |old(corrections)| + if plain || onlyPlain then 0 else Edits(c))
    {
      ghost var d0 := doc;
      out := ProcessChildren(c, target, plain, !plain);
      if out.Pass? {
        TagsKept(d0, doc, div);
        GrowsIsBelow(d0, doc, target, div, div + 1);
      }
    }
  }

  // ---------------------------------------------------------------------
  // The verse number in verse-only output

  /** A break whose tail holds nothing but blanks. */
  predicate BlankBreak(c: XNode)
  {
    (c.tag == "pb" || c.tag == "lb") && !(NonEmpty(c.tail) && !IsBlank(c.tail.value))
  }

  /** Where the run of blank-tailed breaks at the end of `ks` begins. */
  function TrailStart(ks: seq<XNode>): (k: nat)
    ensures k <= |ks|
    ensures forall i :: k <= i < |ks| ==> BlankBreak(ks[i])
    ensures k > 0 ==> !BlankBreak(ks[k - 1])
  {
    if ks == [] || !BlankBreak(ks[|ks| - 1]) then |ks| else TrailStart(ks[..|ks| - 1])
  }

  /** The last child tagged `l`. */
  function LastL(ks: seq<XNode>): (r: Option<nat>)
    ensures r.Some? ==> r.value < |ks| && ks[r.value].tag == "l" && forall j :: r.value < j < |ks| ==> ks[j].tag != "l"
    ensures r.None? ==> forall j :: 0 <= j < |ks| ==> ks[j].tag != "l"
  {
    if ks == [] then None
    else if ks[|ks| - 1].tag == "l" then Some(|ks| - 1)
    else LastL(ks[..|ks| - 1])
  }

  /** A text with " {verse_id} ||" appended. */
  function Marked(s: Option<string>, verseId: string): (r: Option<string>)
    ensures r.Some? && EndsWith(r.value, " ||") && StartsWith(r.value, OrEmpty(s))
  {
    Some(OrEmpty(s) + " " + verseId + " ||")
  }

  /** Appends " {verse_id} ||" to the last `l` of a verse, before its
    * trailing blank-tailed breaks, which are taken off and put back in
    * their order. */
  method MarkVerseEnd(l: XNode, verseId: string) returns (r: XNode)
    ensures r.tag == l.tag && r.attrs == l.attrs && r.tail == l.tail && |r.kids| == |l.kids|
    ensures var k := TrailStart(l.kids);
      && (forall i :: 0 <= i < |l.kids| && i != k - 1 ==> r.kids[i] == l.kids[i])
      && (k > 0 ==> r.text == l.text && r.kids[k - 1] == l.kids[k - 1].(tail := Marked(l.kids[k - 1].tail, verseId)))
      && (k == 0 ==> r.text == Marked(l.text, verseId))
  {
    var kids, trailing := TakeTrailing(l.kids);
    var text := l.text;
    var k := |kids|;
    if k > 0 {
      kids := kids[k - 1 := kids[k - 1].(tail := Marked(kids[k - 1].tail, verseId))];
    } else {
      text := Marked(text, verseId);
    }
    r := l.(text := text, kids := kids + trailing);
  }

  /** Takes the trailing blank-tailed breaks off the end of `ks`, keeping
    * their order. */
  method TakeTrailing(ks: seq<XNode>) returns (kids: seq<XNode>, trailing: seq<XNode>)
    ensures kids + trailing == ks && |kids| == TrailStart(ks)
  {
    kids := ks;
    trailing := [];
    while |kids| > 0 && (kids[|kids| - 1].tag == "pb" || kids[|kids| - 1].tag == "lb")
      invariant kids + trailing == ks
      invariant TrailStart(ks) == TrailStart(kids)
      decreases |kids|
    {
      var last := kids[|kids| - 1];
      if NonEmpty(last.tail) && !IsBlank(last.tail.value) {
        break;
      }
      trailing := [last] + trailing;
      kids := kids[..|kids| - 1];
      TrailStartDrop(ks, kids, trailing);
    }
  }

  lemma TrailStartDrop(all: seq<XNode>, kids: seq<XNode>, trailing: seq<XNode>)
    requires |trailing| > 0 && kids + trailing == all && BlankBreak(trailing[0])
    requires TrailStart(all) == TrailStart(kids + [trailing[0]])
    ensures TrailStart(all) == TrailStart(kids)
  {
    assert (kids + [trailing[0]])[..|kids|] == kids;
  }

  // ---------------------------------------------------------------------
  // PDF page offsets

  /** One list item `printed → pdf` or `printed, pdf`, parsed as two
    * integers, or `None`. */
  function ParseOffset(item: string): Option<(int, int)>
  {
    var text := Strip(item);
    var parts := if '→' in text then Split(text, '→') else Split(text, ',');
    if |parts| != 2 then None
    else
      var a := ParseInt(Strip(parts[0]));
      var b := ParseInt(Strip(parts[1]));
      if a.Some? && b.Some? then Some((a.value, b.value)) else None
  }

  /** The offsets of the items that `parse` accepts, in order. */
  function Offsets(items: seq<string>, parse: string -> Option<(int, int)>): seq<(int, int)>
  {
    if items == [] then []
    else
      var front := Offsets(items[..|items| - 1], parse);
      match parse(items[|items| - 1])
      case Some(p) => front + [p]
      case None => front
  }

  /** The loop over the list items of the "PDF Page Offset" field. */
  method ParseOffsets(items: seq<string>) returns (offsets: seq<(int, int)>)
    ensures offsets == Offsets(items, ParseOffset)
  {
    offsets := [];
    for i := 0 to |items|
      invariant offsets == Offsets(items[..i], ParseOffset)
    {
      assert items[..i + 1][..i] == items[..i];
      match ParseOffset(items[i])
      case Some(p) => offsets := offsets + [p];
      case None =>
    }
    assert items[..|items|] == items;
  }

  /** The page offsets: those of the field's items, or `[[1, 1]]` when there
    * is no such field or none of its items parses. */
  function PdfOffsets(field: Option<seq<string>>): (r: seq<(int, int)>)
    ensures r != []
    ensures field.None? ==> r == [(1, 1)]
  {
    if field.Some? && Offsets(field.value, ParseOffset) != [] then Offsets(field.value, ParseOffset) else [(1, 1)]
  }

  /** Every offset comes from an item that parses, and no parsing item is
    * skipped: the offsets are exactly the parsed items, in order. */
  lemma {:induction false} OffsetsMeaning(items: seq<string>, parse: string -> Option<(int, int)>, p: (int, int))
    ensures p in Offsets(items, parse) <==> exists i :: 0 <= i < |items| && parse(items[i]) == Some(p)
    ensures |Offsets(items, parse)| <= |items|
    decreases |items|
  {
    if items != [] {
      var front := items[..|items| - 1];
      OffsetsMeaning(front, parse, p);
      if exists i :: 0 <= i < |items| && parse(items[i]) == Some(p) {
        var i :| 0 <= i < |items| && parse(items[i]) == Some(p);
        if i < |items| - 1 {
          assert front[i] == items[i];
        }
      }
      forall i | 0 <= i < |front| && parse(front[i]) == Some(p)
        ensures exists j :: 0 <= j < |items| && parse(items[j]) == Some(p)
      {
        assert items[i] == front[i];
      }
    }
  }

  lemma SplitTwo(a: string, b: string, c: char)
    requires c !in a && c !in b
    ensures Split(a + [c] + b, c) == [a, b]
  {
    var s := a + [c] + b;
    var r := Split(s, c);
    assert s[|a|] == c;
    SplitFirstAt(s, a, b, c);
    assert Split(b, c) == [b];
  }

  lemma SplitFirstAt(s: string, a: string, b: string, c: char)
    requires s == a + [c] + b && c !in a
    ensures SplitFirst(s, c) == (a, b)
  {
    var i := Find(s, c).value;
    assert s[|a|] == c;
    assert forall j :: 0 <= j < i ==> s[..i][j] != c;
    assert forall j :: 0 <= j < |a| ==> s[j] == a[j];
    assert i == |a|;
    assert s[..i] == a && s[i + 1..] == b;
  }

  lemma NoArrow(n: int)
    ensures '→' !in IntToString(n) && ',' !in IntToString(n)
    ensures var s := IntToString(n); s != [] && !IsSpace(s[0]) && !IsSpace(s[|s| - 1])
  {
    var a := if n < 0 then -n else n;
    var d := NatToString(a);
    assert IsDigit(d[0]) && IsDigit(d[|d| - 1]);
    if n < 0 {
      assert IntToString(n) == "-" + d;
      assert ("-" + d)[|"-" + d| - 1] == d[|d| - 1];
    }
  }

  /** Writing two integers with an arrow or a comma between them gives
    * that offset back. */
  lemma OffsetRoundTrip(a: int, b: int, sep: char)
    requires sep == '→' || sep == ','
    ensures ParseOffset(IntToString(a) + [sep] + IntToString(b)) == Some((a, b))
  {
    var x := IntToString(a);
    var y := IntToString(b);
    NoArrow(a);
    NoArrow(b);
    var s := x + [sep] + y;
    assert s[0] == x[0] && s[|s| - 1] == y[|y| - 1];
    StripUnpadded(s);
    assert Strip(s) == s;
    if sep == ',' {
      assert '→' !in s;
    } else {
      assert s[|x|] == '→';
    }
    SplitTwo(x, y, sep);
    StripUnpadded(x);
    StripUnpadded(y);
    IntRoundTrip(a);
    IntRoundTrip(b);
  }
}
