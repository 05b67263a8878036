/** The shared helpers of the older plaintext-to-TEI converters: their
  * @xml:id maker and the three tree clean-ups run after a build (drop an
  * `lb` just before a `pb`, hoist a `pb` that ends a `p`, and turn a
  * hyphen before a line or page break into `break="no"`). The clean-ups
  * work in place on the tree; here each one is a loop over the list of
  * milestones taken before it starts, threading the arena `Doc`. */
module TeiUtils {
  import opened Wrappers
  import opened Strings
  import opened XmlTree

  // -------------------------------------------------------------------
  // make_xml_id
  // -------------------------------------------------------------------

  /** The label stripped, with every `.` made `_`. */
  function Underscored(lab: string): (r: string)
    ensures '.' !in r
  {
    ReplaceCharRemoves(Strip(lab), '.', "_");
    Replace(Strip(lab), ".", "_")
  }

  /** A label with non-empty stripped parts before and after its first comma. */
  predicate IsPageLine(t: string)
  {
    ',' in t && Strip(SplitFirst(t, ',').0) != [] && Strip(SplitFirst(t, ',').1) != []
  }

  /** `s.strip()` adds no character that `s` lacks. */
  lemma StripKeepsOut(s: string, c: char)
    requires c !in s
    ensures c !in Strip(s)
  {
    var t := RStrip(s);
    var r := LStrip(t);
    assert Strip(s) == r;
    forall k | 0 <= k < |r|
      ensures r[k] != c
    {
      var j := |t| - |r| + k;
      assert r[k] == t[j] == s[j];
      assert s[j] in s;
    }
  }

  /** `p{page}_l{line}` from the stripped parts around the first comma. */
  function PageLineXmlId(t: string): (r: string)
    requires IsPageLine(t) && '.' !in t
    ensures |r| >= 1 && r[0] == 'p' && '.' !in r
  {
    var (page, lineNo) := SplitFirst(t, ',');
    assert '.' !in page by {
      assert forall k :: 0 <= k < |page| ==> page[k] == t[k];
    }
    var pageId, lineId := Strip(page), Replace(Strip(lineNo), ".", "_");
    StripKeepsOut(page, '.');
    ReplaceCharRemoves(Strip(lineNo), '.', "_");
    NoDotId(pageId, lineId);
    "p" + pageId + "_l" + lineId
  }

  lemma NoDotId(pageId: string, lineId: string)
    requires '.' !in pageId && '.' !in lineId
    ensures '.' !in "p" + pageId + "_l" + lineId
  {
  }

  /** `make_xml_id` of the shared helpers: the dots are made underscores
    * first, so a run like `..` gives `__` rather than one `_`. */
  function MakeXmlId(lab: string): (r: string)
    ensures |r| >= 1 && '.' !in r
    ensures r[0] == 'p' <==> IsPageLine(Underscored(lab))
    ensures r[0] == 'v' <==> !IsPageLine(Underscored(lab))
    ensures r[0] == 'v' ==> r == "v" + ReplaceNonWordRuns(Underscored(lab))
    ensures r[0] == 'v' ==> forall i :: 1 <= i < |r| ==> IsWordChar(r[i])
  {
    var t := Underscored(lab);
    if IsPageLine(t) then PageLineXmlId(t) else VerseXmlId(t)
  }

  /** `v` and the label with each run of non-word characters made one `_`. */
  function VerseXmlId(t: string): (r: string)
    ensures |r| >= 1 && r[0] == 'v' && '.' !in r
    ensures forall i :: 1 <= i < |r| ==> IsWordChar(r[i])
  {
    var w := ReplaceNonWordRuns(t);
    assert !IsWordChar('.');
    assert forall i :: 1 <= i < |"v" + w| ==> ("v" + w)[i] == w[i - 1];
    "v" + w
  }

  /** A page-and-line label gives `p{page}_l{line}` from the stripped parts. */
  lemma PageLineId(lab: string)
    requires IsPageLine(Underscored(lab))
    ensures var t := Underscored(lab);
            MakeXmlId(lab) == "p" + Strip(SplitFirst(t, ',').0) + "_l" + Strip(SplitFirst(t, ',').1)
  {
    var t := Underscored(lab);
    var (page, lineNo) := SplitFirst(t, ',');
    assert '.' !in lineNo by {
      assert forall k :: 0 <= k < |lineNo| ==> lineNo[k] == t[|page| + 1 + k];
    }
    StripKeepsOut(lineNo, '.');
    ReplaceNoOccurrence(Strip(lineNo));
  }

  /** Replacing `.` in a string without one changes nothing. */
  lemma {:induction false} ReplaceNoOccurrence(s: string)
    requires '.' !in s
    ensures Replace(s, ".", "_") == s
    decreases |s|
  {
    if |s| >= 1 {
      assert s[..1] != "." by {
        assert s[..1][0] == s[0];
      }
      ReplaceNoOccurrence(s[1..]);
      assert s == [s[0]] + s[1..];
    }
  }

  // -------------------------------------------------------------------
  // _remove_lb_before_pb
  // -------------------------------------------------------------------

  /** `root.xpath(".//tag")`: the descendants of `root` with that tag, in document order. */
  function Tagged(d: Doc, root: nat, tag: string): (r: seq<nat>)
    requires Wf(d) && root < |d.elems|
    ensures Below(r, |d.elems|)
    ensures forall x :: x in r ==> d.elems[x].tag == tag
  {
    var r := FilterTag(d, Descendants(d, root), {tag});
    assert forall i :: 0 <= i < |r| ==> r[i] in r;
    r
  }

  /** Every handle in `xs` names an element of an arena of size `n`. */
  predicate Below(xs: seq<nat>, n: nat)
  {
    forall i :: 0 <= i < |xs| ==> xs[i] < n
  }

  predicate NextIsPb(d: Doc, n: nat)
    requires Wf(d) && n < |d.elems|
  {
    var nxt := NextSibling(d, n);
    nxt.Some? && d.elems[nxt.value].tag == "pb"
  }

  /** One visit of the loop: the `lb` goes when its next sibling is a `pb`. */
  function DropLb(d: Doc, lb: nat): (r: Doc)
    requires Wf(d) && lb < |d.elems|
    ensures Wf(r) && r.elems == d.elems
    ensures NextIsPb(d, lb) ==> r.up == d.up[lb := None] && d.up[lb].Some?
    ensures !NextIsPb(d, lb) ==> r == d
  {
    if NextIsPb(d, lb) then Detach(d, lb) else d
  }

  /** The tree after visiting `lbs` in order. */
  function DropLbs(d: Doc, lbs: seq<nat>): (r: Doc)
    requires Wf(d) && Below(lbs, |d.elems|)
    ensures Wf(r) && r.elems == d.elems
    decreases |lbs|
  {
    if lbs == [] then d else DropLbs(DropLb(d, lbs[0]), lbs[1..])
  }

  /** `_remove_lb_before_pb(root)`. */
  method RemoveLbBeforePb(d: Doc, root: nat) returns (r: Doc)
    requires Wf(d) && root < |d.elems|
    ensures r == DropLbs(d, Tagged(d, root, "lb"))
  {
    var lbs := Tagged(d, root, "lb");
    r := d;
    for i := 0 to |lbs|
      invariant Wf(r) && r.elems == d.elems
      invariant DropLbs(r, lbs[i..]) == DropLbs(d, lbs)
    {
      if NextIsPb(r, lbs[i]) {
        r := Detach(r, lbs[i]);
      }
      assert lbs[i..][1..] == lbs[i + 1..];
    }
  }

  /** Only visited `lb`s ever leave the tree: every other element, every
    * `pb` among them, keeps its parent. */
  lemma {:induction false} DropLbsKeepsOthers(d: Doc, lbs: seq<nat>, n: nat)
    requires Wf(d) && Below(lbs, |d.elems|)
    requires n < |d.elems| && n !in lbs
    ensures DropLbs(d, lbs).up[n] == d.up[n]
    decreases |lbs|
  {
    if lbs != [] {
      DropLbsKeepsOthers(DropLb(d, lbs[0]), lbs[1..], n);
    }
  }

  /** `_remove_lb_before_pb` never removes a `pb`. */
  lemma PbsStay(d: Doc, root: nat, n: nat)
    requires Wf(d) && root < |d.elems| && n < |d.elems| && d.elems[n].tag == "pb"
    ensures DropLbs(d, Tagged(d, root, "lb")).up[n] == d.up[n]
  {
    DropLbsKeepsOthers(d, Tagged(d, root, "lb"), n);
  }

  /** The list is taken before the loop, so of two `lb`s in a row before a
    * `pb` only the second goes: when the first is visited its next
    * sibling is still the second `lb`, and afterwards the first `lb`
    * stands right before the `pb`. */
  lemma LbRunKeepsFirst(d: Doc, lb1: nat, lb2: nat, pb: nat)
    requires Wf(d) && lb1 < |d.elems| && lb2 < |d.elems| && pb < |d.elems|
    requires d.elems[lb2].tag == "lb" && d.elems[pb].tag == "pb"
    requires NextSibling(d, lb1) == Some(lb2) && NextSibling(d, lb2) == Some(pb)
    ensures var r := DropLb(DropLb(d, lb1), lb2);
            r.up[lb1] == d.up[lb1] && r.up[lb2] == None && NextSibling(r, lb1) == Some(pb)
  {
    var p := d.up[lb1].value;
    var s := d.kids[p];
    var k := IndexOf(s, lb1);
    assert k + 1 < |s| && s[k + 1] == lb2;
    assert k + 2 < |s| && s[k + 2] == pb by {
      assert d.up[lb2] == Some(p);
      IndexOfUnique(s, k + 1);
    }
    assert DropLb(d, lb1) == d by {
      assert !NextIsPb(d, lb1);
    }
    var r := Detach(d, lb2);
    assert DropLb(d, lb2) == r by {
      assert NextIsPb(d, lb2);
    }
    assert r.up[lb1] == Some(p) && r.kids[p] == s[..k + 1] + s[k + 2..] by {
      WithoutSplit(s, k + 1, lb2);
    }
    assert NextSibling(r, lb1) == Some(pb) by {
      var rs := r.kids[p];
      assert rs[k] == lb1 && rs[k + 1] == pb;
      IndexOfUnique(rs, k);
    }
  }

  /** In a list without repeats, an element's first index is its only one. */
  lemma IndexOfUnique(s: seq<nat>, j: nat)
    requires NoDup(s) && j < |s|
    ensures IndexOf(s, s[j]) == j
  {
  }

  /** Removing the element at position `j` closes the gap. */
  lemma {:induction false} WithoutSplit(s: seq<nat>, j: nat, x: nat)
    requires NoDup(s) && j < |s| && s[j] == x
    ensures Without(s, x) == s[..j] + s[j + 1..]
    decreases |s|
  {
    if j == 0 {
      assert x !in s[1..] by {
        assert forall b :: 1 <= b < |s| ==> s[0] != s[b];
      }
    } else {
      var t := s[1..];
      assert s[0] != x by {
        assert 0 < j < |s|;
      }
      assert NoDup(t) by {
        forall a, b | 0 <= a < b < |t|
          ensures t[a] != t[b]
        {
          assert t[a] == s[a + 1] && t[b] == s[b + 1];
        }
      }
      assert t[j - 1] == x;
      WithoutSplit(t, j - 1, x);
      assert Without(s, x) == [s[0]] + Without(t, x);
      assert s[..j] == [s[0]] + t[..j - 1];
      assert s[j + 1..] == t[j..];
      SeqAssoc([s[0]], t[..j - 1], t[j..]);
    }
  }

  lemma SeqAssoc(a: seq<nat>, b: seq<nat>, c: seq<nat>)
    ensures a + (b + c) == (a + b) + c
  {
  }

  // -------------------------------------------------------------------
  // _move_trailing_pb
  // -------------------------------------------------------------------

  /** The `pb` is the last child of a `p`. (Every element visited is a `pb`.) */
  predicate EndsP(d: Doc, pb: nat)
    requires Wf(d) && pb < |d.elems|
  {
    d.elems[pb].tag == "pb" && d.up[pb].Some? && d.elems[d.up[pb].value].tag == "p"
    && |d.kids[d.up[pb].value]| > 0 && d.kids[d.up[pb].value][|d.kids[d.up[pb].value]| - 1] == pb
  }

  /** One visit of the loop: a `pb` that ends its `p` is removed from it
    * and inserted right after the `p`; a `p` with no parent makes the
    * insertion raise AttributeError. */
  function HoistPb(d: Doc, pb: nat): (r: Result<Doc>)
    requires Wf(d) && pb < |d.elems|
    ensures r.Ok? ==> Wf(r.value) && r.value.elems == d.elems
    ensures r.Err? <==> EndsP(d, pb) && d.up[d.up[pb].value].None?
    ensures !EndsP(d, pb) ==> r == Ok(d)
    ensures EndsP(d, pb) && r.Ok? ==>
              var p := d.up[pb].value;
              && r.value.up == d.up[pb := d.up[p]]
              && NextSibling(r.value, p) == Some(pb)
  {
    if EndsP(d, pb) then
      var p := d.up[pb].value;
      var d1 := Detach(d, pb);
      match d1.up[p]
      case None => Err("AttributeError")
      case Some(g) =>
        assert p in d1.kids[g];
        var k := IndexOf(d1.kids[g], p);
        var r := InsertChild(d1, g, k + 1, pb);
        assert r.kids[g][k] == p && r.kids[g][k + 1] == pb;
        assert IndexOf(r.kids[g], p) == k by {
          assert r.kids[g][..k] == d1.kids[g][..k];
        }
        Ok(r)
    else Ok(d)
  }

  function HoistPbs(d: Doc, pbs: seq<nat>): (r: Result<Doc>)
    requires Wf(d) && Below(pbs, |d.elems|)
    ensures r.Ok? ==> Wf(r.value) && r.value.elems == d.elems
    decreases |pbs|
  {
    if pbs == [] then Ok(d)
    else
      match HoistPb(d, pbs[0])
      case Err(e) => Err(e)
      case Ok(d1) => HoistPbs(d1, pbs[1..])
  }

  /** `_move_trailing_pb(root)`. */
  method MoveTrailingPb(d: Doc, root: nat) returns (r: Result<Doc>)
    requires Wf(d) && root < |d.elems|
    ensures r == HoistPbs(d, Tagged(d, root, "pb"))
  {
    var pbs := Tagged(d, root, "pb");
    var cur := d;
    for i := 0 to |pbs|
      invariant Wf(cur) && cur.elems == d.elems
      invariant HoistPbs(cur, pbs[i..]) == HoistPbs(d, pbs)
    {
      assert pbs[i..][1..] == pbs[i + 1..];
      var step := HoistPb(cur, pbs[i]);
      if step.Err? {
        return Err(step.error);
      }
      cur := step.value;
    }
    r := Ok(cur);
  }

  /** Hoisting moves only `pb`s and never takes one out of the tree: a
    * `pb` has a parent afterwards exactly when it had one before, and
    * every other element keeps its parent. */
  lemma {:induction false} HoistKeepsPbs(d: Doc, pbs: seq<nat>, n: nat)
    requires Wf(d) && Below(pbs, |d.elems|) && n < |d.elems|
    requires HoistPbs(d, pbs).Ok?
    ensures var r := HoistPbs(d, pbs).value;
            (r.up[n].Some? <==> d.up[n].Some?) && (n !in pbs ==> r.up[n] == d.up[n])
    decreases |pbs|
  {
    if pbs != [] {
      var d1 := HoistPb(d, pbs[0]).value;
      HoistKeepsPbs(d1, pbs[1..], n);
    }
  }

  /** A `pb` whose parent is not a `p` stays where it is. */
  lemma {:induction false} HoistSparesOtherParents(d: Doc, pbs: seq<nat>, n: nat)
    requires Wf(d) && Below(pbs, |d.elems|) && n < |d.elems|
    requires HoistPbs(d, pbs).Ok?
    requires d.up[n].Some? && d.elems[d.up[n].value].tag != "p"
    ensures HoistPbs(d, pbs).value.up[n] == d.up[n]
    decreases |pbs|
  {
    if pbs != [] {
      var d1 := HoistPb(d, pbs[0]).value;
      assert d1.up[n] == d.up[n];
      HoistSparesOtherParents(d1, pbs[1..], n);
    }
  }

  // -------------------------------------------------------------------
  // _fix_hyphen_join
  // -------------------------------------------------------------------

  /** `x and x.endswith("-")` for a text or tail. */
  predicate Hyphenated(t: Option<string>)
  {
    t.Some? && |t.value| > 0 && t.value[|t.value| - 1] == '-'
  }

  function Unhyphen(t: Option<string>): (r: Option<string>)
    requires Hyphenated(t)
    ensures r.Some? && r.value + "-" == t.value
  {
    Some(t.value[..|t.value| - 1])
  }

  /** The sibling whose text may hold the hyphen: the previous sibling, or
    * the one before it when the previous sibling is a `caesura`. */
  function Candidate(d: Doc, el: nat): (r: Option<nat>)
    requires Wf(d) && el < |d.elems|
    ensures r.Some? ==> r.value < |d.elems|
  {
    var prev := PrevSibling(d, el);
    if prev.Some? && d.elems[prev.value].tag == "caesura" then PrevSibling(d, prev.value) else prev
  }

  /** Where a milestone's hyphen is taken from, in the order tried. */
  datatype Site = TailOf(n: nat) | TextOf(n: nat)

  function HyphenSite(d: Doc, el: nat): (r: Option<Site>)
    requires Wf(d) && el < |d.elems|
    ensures r.Some? ==> r.value.n < |d.elems|
    ensures r.Some? && r.value.TailOf? ==> Hyphenated(d.elems[r.value.n].tail)
    ensures r.Some? && r.value.TextOf? ==> Hyphenated(d.elems[r.value.n].text)
  {
    var c := Candidate(d, el);
    if c.Some? && Hyphenated(d.elems[c.value].tail) then Some(TailOf(c.value))
    else if c.Some? && Hyphenated(d.elems[c.value].text) then Some(TextOf(c.value))
    else if d.up[el].Some? && Hyphenated(d.elems[d.up[el].value].text) then Some(TextOf(d.up[el].value))
    else None
  }

  /** One visit of the loop: the hyphen is cut from the first site that
    * has one, and the milestone gets `break="no"`. */
  function FixHyphen(d: Doc, el: nat): (r: Doc)
    requires Wf(d) && el < |d.elems|
    ensures Wf(r) && r.kids == d.kids && r.up == d.up && |r.elems| == |d.elems|
    ensures forall i :: 0 <= i < |d.elems| ==> r.elems[i].tag == d.elems[i].tag
  {
    match HyphenSite(d, el)
    case None => d
    case Some(TailOf(n)) => SetAttr(SetTail(d, n, Unhyphen(d.elems[n].tail)), el, "break", "no")
    case Some(TextOf(n)) => SetAttr(SetText(d, n, Unhyphen(d.elems[n].text)), el, "break", "no")
  }

  function FixHyphens(d: Doc, els: seq<nat>): (r: Doc)
    requires Wf(d) && Below(els, |d.elems|)
    ensures Wf(r) && r.kids == d.kids && r.up == d.up && |r.elems| == |d.elems|
    ensures forall i :: 0 <= i < |d.elems| ==> r.elems[i].tag == d.elems[i].tag
    decreases |els|
  {
    if els == [] then d else FixHyphens(FixHyphen(d, els[0]), els[1..])
  }

  /** The tree after `_fix_hyphen_join(root)`: every `lb`, then every `pb`,
    * each list taken when its turn comes. */
  function HyphensJoined(d: Doc, root: nat): (r: Doc)
    requires Wf(d) && root < |d.elems|
    ensures Wf(r) && r.kids == d.kids && r.up == d.up && |r.elems| == |d.elems|
  {
    var d1 := FixHyphens(d, Tagged(d, root, "lb"));
    FixHyphens(d1, Tagged(d1, root, "pb"))
  }

  /** `_fix_hyphen_join(root)`. */
  method FixHyphenJoin(d: Doc, root: nat) returns (r: Doc)
    requires Wf(d) && root < |d.elems|
    ensures r == HyphensJoined(d, root)
  {
    r := d;
    var tags := ["lb", "pb"];
    for t := 0 to 2
      invariant Wf(r) && r.kids == d.kids && r.up == d.up && |r.elems| == |d.elems|
      invariant t == 0 ==> r == d
      invariant t == 1 ==> r == FixHyphens(d, Tagged(d, root, "lb"))
      invariant t == 2 ==> r == HyphensJoined(d, root)
    {
      var els := Tagged(r, root, tags[t]);
      r := FixEach(r, els);
    }
  }

  /** The inner loop of `_fix_hyphen_join`: each milestone of one tag in
    * document order. */
  method FixEach(d: Doc, els: seq<nat>) returns (r: Doc)
    requires Wf(d) && Below(els, |d.elems|)
    ensures r == FixHyphens(d, els)
  {
    r := d;
    for i := 0 to |els|
      invariant Wf(r) && r.kids == d.kids && r.up == d.up && |r.elems| == |d.elems|
      invariant FixHyphens(r, els[i..]) == FixHyphens(d, els)
    {
      assert els[i..][1..] == els[i + 1..];
      r := FixHyphen(r, els[i]);
    }
  }

  /** The number of text and tail characters in the tree. */
  function Chars(es: seq<Elem>): nat
  {
    if es == [] then 0 else Chars(es[..|es| - 1]) + Len(es[|es| - 1].text) + Len(es[|es| - 1].tail)
  }

  function Len(t: Option<string>): nat
  {
    if t.Some? then |t.value| else 0
  }

  lemma {:induction false} CharsUpdate(es: seq<Elem>, n: nat, e: Elem)
    requires n < |es|
    ensures Chars(es[n := e]) + Len(es[n].text) + Len(es[n].tail) == Chars(es) + Len(e.text) + Len(e.tail)
    decreases |es|
  {
    if n < |es| - 1 {
      assert es[n := e][..|es| - 1] == es[..|es| - 1][n := e];
      CharsUpdate(es[..|es| - 1], n, e);
    } else {
      assert es[n := e][..|es| - 1] == es[..|es| - 1];
    }
  }

  /** A visit removes at most one character, the final `-` of the first
    * site that has one, and sets `break="no"` exactly when it does. */
  lemma FixHyphenRemovesOne(d: Doc, el: nat)
    requires Wf(d) && el < |d.elems|
    ensures Chars(FixHyphen(d, el).elems) + (if HyphenSite(d, el).Some? then 1 else 0) == Chars(d.elems)
    ensures FixHyphen(d, el).elems[el].attrs ==
              if HyphenSite(d, el).Some? then d.elems[el].attrs["break" := "no"] else d.elems[el].attrs
  {
    FixHyphenMarks(d, el);
    match HyphenSite(d, el)
    case None =>
    case Some(TailOf(n)) =>
      var d1 := SetTail(d, n, Unhyphen(d.elems[n].tail));
      CutChars(d.elems, n, d1.elems[n]);
      MarkChars(d1, el);
    case Some(TextOf(n)) =>
      var d1 := SetText(d, n, Unhyphen(d.elems[n].text));
      CutChars(d.elems, n, d1.elems[n]);
      MarkChars(d1, el);
  }

  lemma FixHyphenMarks(d: Doc, el: nat)
    requires Wf(d) && el < |d.elems|
    ensures FixHyphen(d, el).elems[el].attrs ==
              if HyphenSite(d, el).Some? then d.elems[el].attrs["break" := "no"] else d.elems[el].attrs
  {
    match HyphenSite(d, el)
    case None =>
    case Some(TailOf(n)) =>
      assert SetTail(d, n, Unhyphen(d.elems[n].tail)).elems[el].attrs == d.elems[el].attrs;
    case Some(TextOf(n)) =>
      assert SetText(d, n, Unhyphen(d.elems[n].text)).elems[el].attrs == d.elems[el].attrs;
  }

  lemma CutChars(es: seq<Elem>, n: nat, e: Elem)
    requires n < |es| && Len(e.text) + Len(e.tail) + 1 == Len(es[n].text) + Len(es[n].tail)
    ensures Chars(es[n := e]) + 1 == Chars(es)
  {
    CharsUpdate(es, n, e);
  }

  /** Setting an attribute leaves the characters alone. */
  lemma MarkChars(d: Doc, el: nat)
    requires el < |d.elems|
    ensures Chars(SetAttr(d, el, "break", "no").elems) == Chars(d.elems)
  {
    CharsUpdate(d.elems, el, d.elems[el].(attrs := d.elems[el].attrs["break" := "no"]));
  }

  /** Over a whole list, at most one character per milestone is removed. */
  lemma {:induction false} FixHyphensBound(d: Doc, els: seq<nat>)
    requires Wf(d) && Below(els, |d.elems|)
    ensures Chars(d.elems) - |els| <= Chars(FixHyphens(d, els).elems) <= Chars(d.elems)
    decreases |els|
  {
    if els != [] {
      FixHyphenRemovesOne(d, els[0]);
      FixHyphensBound(FixHyphen(d, els[0]), els[1..]);
    }
  }

  /** The parent's text is tried even when the milestone has a previous
    * sibling whose text and tail hold no hyphen: the hyphen is taken from
    * the parent's text, wherever the milestone stands. */
  lemma ParentTextFallback(d: Doc, el: nat, prev: nat)
    requires Wf(d) && el < |d.elems| && PrevSibling(d, el) == Some(prev)
    requires d.elems[prev].tag != "caesura"
    requires !Hyphenated(d.elems[prev].tail) && !Hyphenated(d.elems[prev].text)
    requires Hyphenated(d.elems[d.up[el].value].text)
    ensures HyphenSite(d, el) == Some(TextOf(d.up[el].value))
  {
  }

  // -------------------------------------------------------------------
  // post_process
  // -------------------------------------------------------------------

  /** The tree after `post_process(root)`: remove-lb, then move-pb, then
    * fix-hyphen, each on the result of the one before. */
  function PostProcessed(d: Doc, root: nat): (r: Result<Doc>)
    requires Wf(d) && root < |d.elems|
    ensures r.Ok? ==> Wf(r.value) && |r.value.elems| == |d.elems|
  {
    var d1 := DropLbs(d, Tagged(d, root, "lb"));
    match HoistPbs(d1, Tagged(d1, root, "pb"))
    case Err(e) => Err(e)
    case Ok(d2) => Ok(HyphensJoined(d2, root))
  }

  /** `post_process(root)`. */
  method PostProcess(d: Doc, root: nat) returns (r: Result<Doc>)
    requires Wf(d) && root < |d.elems|
    ensures r == PostProcessed(d, root)
  {
    var d1 := RemoveLbBeforePb(d, root);
    var moved := MoveTrailingPb(d1, root);
    if moved.Err? {
      return Err(moved.error);
    }
    var d3 := FixHyphenJoin(moved.value, root);
    r := Ok(d3);
  }
}
