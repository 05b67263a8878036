/** An lxml element tree as an arena: elements are numbered in creation
  * order, and the parent/children links are kept apart from the element
  * contents. An element with no parent is a detached element (Python's
  * `etree.Element(...)`) or the root. Nothing is ever deleted from the
  * arena: `remove()` only unlinks. */
module XmlTree {
  import opened Wrappers

  type Attrs = map<string, string>

  /** The contents of one element: tag, attributes, `.text` and `.tail`. */
  datatype Elem = Elem(tag: string, attrs: Attrs, text: Option<string>, tail: Option<string>)

  datatype Doc = Doc(elems: seq<Elem>, kids: seq<seq<nat>>, up: seq<Option<nat>>)

  predicate NoDup(s: seq<nat>)
  {
    forall a, b :: 0 <= a < b < |s| ==> s[a] != s[b]
  }

  /** Parent and children links agree: every child names its parent, every
    * parent lists its children once, and every link is in range. */
  predicate Wf(d: Doc)
  {
    |d.kids| == |d.elems| && |d.up| == |d.elems|
    && (forall i, k :: 0 <= i < |d.kids| && 0 <= k < |d.kids[i]| ==>
          d.kids[i][k] < |d.elems| && d.up[d.kids[i][k]] == Some(i))
    && (forall i :: 0 <= i < |d.up| && d.up[i].Some? ==>
          d.up[i].value < |d.elems| && i in d.kids[d.up[i].value])
    && (forall i :: 0 <= i < |d.kids| ==> NoDup(d.kids[i]))
  }

  /** `d2` is a later state of `d1`: no element is lost and no tag changes. */
  predicate Extends(d1: Doc, d2: Doc)
  {
    |d1.elems| <= |d2.elems|
    && forall i :: 0 <= i < |d1.elems| ==> d2.elems[i].tag == d1.elems[i].tag
  }

  predicate IsTag(d: Doc, n: nat, tag: string)
  {
    n < |d.elems| && d.elems[n].tag == tag
  }

  function Empty(): (d: Doc)
    ensures Wf(d) && |d.elems| == 0
  {
    Doc([], [], [])
  }

  // ---------------------------------------------------------------
  // Creating elements
  // ---------------------------------------------------------------

  /** `etree.Element(tag, attrs)`: a new detached element. */
  function NewElement(d: Doc, tag: string, attrs: Attrs): (r: (Doc, nat))
    requires Wf(d)
    ensures Wf(r.0) && Extends(d, r.0)
    ensures r.1 == |d.elems| && |r.0.elems| == |d.elems| + 1
    ensures r.0.elems == d.elems + [Elem(tag, attrs, None, None)]
    ensures r.0.kids == d.kids + [[]] && r.0.up == d.up + [None]
  {
    var r := Doc(d.elems + [Elem(tag, attrs, None, None)], d.kids + [[]], d.up + [None]);
    assert forall i :: 0 <= i < |r.up| && r.up[i].Some? ==> i < |d.up| && r.kids[r.up[i].value] == d.kids[d.up[i].value];
    (r, |d.elems|)
  }

  /** `etree.SubElement(parent, tag, attrs)`: a new last child of `p`. */
  function SubElement(d: Doc, p: nat, tag: string, attrs: Attrs): (r: (Doc, nat))
    requires Wf(d) && p < |d.elems|
    ensures Wf(r.0) && Extends(d, r.0)
    ensures r.1 == |d.elems| && |r.0.elems| == |d.elems| + 1
    ensures r.0.elems == d.elems + [Elem(tag, attrs, None, None)]
    ensures r.0.up == d.up + [Some(p)]
    ensures r.0.kids == (d.kids + [[]])[p := d.kids[p] + [r.1]]
  {
    var (d1, n) := NewElement(d, tag, attrs);
    assert d1.kids[p] == d.kids[p];
    assert d1.kids[p][..|d1.kids[p]|] + [n] + d1.kids[p][|d1.kids[p]|..] == d.kids[p] + [n];
    (Attach(d1, p, |d1.kids[p]|, n), n)
  }

  // ---------------------------------------------------------------
  // Moving elements
  // ---------------------------------------------------------------

  function Without(s: seq<nat>, x: nat): (r: seq<nat>)
    ensures forall y :: y in r <==> y in s && y != x
    ensures NoDup(s) ==> NoDup(r)
    ensures x !in s ==> r == s
  {
    if s == [] then []
    else
      var rest := Without(s[1..], x);
      if s[0] == x then rest
      else
        assert NoDup(s) ==> s[0] !in s[1..];
        [s[0]] + rest
  }

  lemma DetachedInNoList(d: Doc, c: nat)
    requires Wf(d) && c < |d.elems| && d.up[c] == None
    ensures forall i :: 0 <= i < |d.kids| ==> c !in d.kids[i]
  {
    forall i, k | 0 <= i < |d.kids| && 0 <= k < |d.kids[i]|
      ensures d.kids[i][k] != c
    {
      assert d.up[d.kids[i][k]] == Some(i);
    }
  }

  /** Unlinks `c` from its parent, if it has one (`parent.remove(c)`). Its
    * tail and subtree go with it. */
  function Detach(d: Doc, c: nat): (r: Doc)
    requires Wf(d) && c < |d.elems|
    ensures Wf(r) && r.elems == d.elems && r.up == d.up[c := None]
    ensures d.up[c].None? ==> r == d
    ensures d.up[c].Some? ==> r.kids == d.kids[d.up[c].value := Without(d.kids[d.up[c].value], c)]
  {
    match d.up[c]
    case None => d
    case Some(p) =>
      var r := Doc(d.elems, d.kids[p := Without(d.kids[p], c)], d.up[c := None]);
      assert Wf(r) by {
        forall i, k | 0 <= i < |r.kids| && 0 <= k < |r.kids[i]|
          ensures r.kids[i][k] < |r.elems| && r.up[r.kids[i][k]] == Some(i)
        {
          var x := r.kids[i][k];
          assert x in d.kids[i];
          var k' := IndexOf(d.kids[i], x);
          assert d.up[d.kids[i][k']] == Some(i);
        }
        forall i | 0 <= i < |r.up| && r.up[i].Some?
          ensures r.up[i].value < |r.elems| && i in r.kids[r.up[i].value]
        {
          assert i != c;
        }
      }
      r
  }

  lemma InsertNoDup(s: seq<nat>, k: nat, c: nat)
    requires NoDup(s) && c !in s && k <= |s|
    ensures NoDup(s[..k] + [c] + s[k..])
  {
    var cs := s[..k] + [c] + s[k..];
    forall a, b | 0 <= a < b < |cs|
      ensures cs[a] != cs[b]
    {
      if a < k && b > k {
        assert cs[b] == s[b - 1];
      } else if a > k {
        assert cs[a] == s[a - 1] && cs[b] == s[b - 1];
      } else if a == k {
        assert cs[b] in s;
      } else if b == k {
        assert cs[a] in s;
      }
    }
  }

  /** Links the detached `c` in as child number `k` of `p`. */
  function Attach(d: Doc, p: nat, k: nat, c: nat): (r: Doc)
    requires Wf(d) && p < |d.elems| && c < |d.elems| && d.up[c] == None && k <= |d.kids[p]|
    ensures Wf(r) && r.elems == d.elems && r.up == d.up[c := Some(p)]
    ensures r.kids == d.kids[p := d.kids[p][..k] + [c] + d.kids[p][k..]]
  {
    DetachedInNoList(d, c);
    var cs := d.kids[p][..k] + [c] + d.kids[p][k..];
    assert forall y :: y in cs <==> y in d.kids[p] || y == c by {
      assert d.kids[p] == d.kids[p][..k] + d.kids[p][k..];
    }
    var r := Doc(d.elems, d.kids[p := cs], d.up[c := Some(p)]);
    assert Wf(r) by {
      InsertNoDup(d.kids[p], k, c);
      forall i, j | 0 <= i < |r.kids| && 0 <= j < |r.kids[i]|
        ensures r.kids[i][j] < |r.elems| && r.up[r.kids[i][j]] == Some(i)
      {
        var x := r.kids[i][j];
        if i == p {
          if x != c {
            assert x in d.kids[p];
            var j' := IndexOf(d.kids[p], x);
            assert d.up[d.kids[p][j']] == Some(p);
          }
        } else {
          assert x == d.kids[i][j];
        }
      }
    }
    r
  }

  /** `parent.append(c)`: `c` leaves its old parent and becomes the last child of `p`. */
  function AppendChild(d: Doc, p: nat, c: nat): (r: Doc)
    requires Wf(d) && p < |d.elems| && c < |d.elems|
    ensures Wf(r) && r.elems == d.elems && r.up == d.up[c := Some(p)]
    ensures r.kids[p] == Without(d.kids[p], c) + [c]
    ensures forall i :: 0 <= i < |d.kids| && i != p && Some(i) != d.up[c] ==> r.kids[i] == d.kids[i]
    ensures forall i :: 0 <= i < |d.kids| && i != p && Some(i) == d.up[c] ==> r.kids[i] == Without(d.kids[i], c)
  {
    var d1 := Detach(d, c);
    assert d1.kids[p] == Without(d.kids[p], c) by {
      if d.up[c] != Some(p) {
        assert c !in d.kids[p];
      }
    }
    Attach(d1, p, |d1.kids[p]|, c)
  }

  /** `parent.insert(k, c)` for an index within range. */
  function InsertChild(d: Doc, p: nat, k: nat, c: nat): (r: Doc)
    requires Wf(d) && p < |d.elems| && c < |d.elems| && d.up[c].None? && k <= |d.kids[p]|
    ensures Wf(r) && r.elems == d.elems && r.up == d.up[c := Some(p)]
    ensures r.kids == d.kids[p := d.kids[p][..k] + [c] + d.kids[p][k..]]
  {
    Attach(d, p, k, c)
  }

  function IndexOf(s: seq<nat>, x: nat): (k: nat)
    requires x in s
    ensures k < |s| && s[k] == x && x !in s[..k]
  {
    if s[0] == x then 0
    else
      var k := IndexOf(s[1..], x);
      assert s[1..][..k] == s[1..k + 1];
      k + 1
  }

  /** `sink.addnext(e)` when `sink` has a parent: `e` leaves its old place
    * and becomes the next sibling of `sink`. */
  function AddNext(d: Doc, sink: nat, e: nat): (r: Doc)
    requires Wf(d) && sink < |d.elems| && e < |d.elems| && sink != e && d.up[sink].Some?
    ensures Wf(r) && r.elems == d.elems && r.up == d.up[e := d.up[sink]]
    ensures NextSibling(r, sink) == Some(e)
    ensures forall i :: 0 <= i < |d.kids| && Some(i) != d.up[sink] && Some(i) != d.up[e] ==> r.kids[i] == d.kids[i]
  {
    var d1 := Detach(d, e);
    var p := d1.up[sink].value;
    assert sink in d1.kids[p];
    var k := IndexOf(d1.kids[p], sink);
    var r := Attach(d1, p, k + 1, e);
    assert r.kids[p][k] == sink && r.kids[p][k + 1] == e;
    assert IndexOf(r.kids[p], sink) == k by {
      assert r.kids[p][..k] == d1.kids[p][..k];
    }
    r
  }

  // ---------------------------------------------------------------
  // Changing contents
  // ---------------------------------------------------------------

  function SetText(d: Doc, n: nat, t: Option<string>): (r: Doc)
    requires n < |d.elems|
    ensures r.kids == d.kids && r.up == d.up && |r.elems| == |d.elems|
    ensures r.elems == d.elems[n := d.elems[n].(text := t)]
    ensures Wf(d) ==> Wf(r)
    ensures Extends(d, r)
  {
    d.(elems := d.elems[n := d.elems[n].(text := t)])
  }

  function SetTail(d: Doc, n: nat, t: Option<string>): (r: Doc)
    requires n < |d.elems|
    ensures r.kids == d.kids && r.up == d.up && |r.elems| == |d.elems|
    ensures r.elems == d.elems[n := d.elems[n].(tail := t)]
    ensures Wf(d) ==> Wf(r)
    ensures Extends(d, r)
  {
    d.(elems := d.elems[n := d.elems[n].(tail := t)])
  }

  /** `el.set(key, value)`. */
  function SetAttr(d: Doc, n: nat, key: string, value: string): (r: Doc)
    requires n < |d.elems|
    ensures r.kids == d.kids && r.up == d.up && |r.elems| == |d.elems|
    ensures r.elems == d.elems[n := d.elems[n].(attrs := d.elems[n].attrs[key := value])]
    ensures Wf(d) ==> Wf(r)
    ensures Extends(d, r)
  {
    d.(elems := d.elems[n := d.elems[n].(attrs := d.elems[n].attrs[key := value])])
  }

  // ---------------------------------------------------------------
  // Navigation
  // ---------------------------------------------------------------

  /** `el.getnext()`: the following sibling, `None` for the last child or a parentless element. */
  function NextSibling(d: Doc, n: nat): (r: Option<nat>)
    requires Wf(d) && n < |d.elems|
    ensures r.Some? ==> r.value < |d.elems| && d.up[r.value] == d.up[n]
  {
    match d.up[n]
    case None => None
    case Some(p) =>
      var k := IndexOf(d.kids[p], n);
      if k + 1 < |d.kids[p]| then Some(d.kids[p][k + 1]) else None
  }

  /** `el.getprevious()`: the preceding sibling, `None` for the first child or a parentless element. */
  function PrevSibling(d: Doc, n: nat): (r: Option<nat>)
    requires Wf(d) && n < |d.elems|
    ensures r.Some? ==> r.value < |d.elems| && d.up[r.value] == d.up[n]
  {
    match d.up[n]
    case None => None
    case Some(p) =>
      var k := IndexOf(d.kids[p], n);
      if k > 0 then Some(d.kids[p][k - 1]) else None
  }

  /** The elements of the forest `cs` in document order (pre-order), each
    * element followed by its descendants; `fuel` bounds the depth. */
  function Preorder(d: Doc, cs: seq<nat>, fuel: nat): (r: seq<nat>)
    requires Wf(d) && forall c :: c in cs ==> c < |d.elems|
    ensures forall x :: x in r ==> x < |d.elems|
    decreases fuel, |cs|
  {
    if fuel == 0 || |cs| == 0 then []
    else
      assert cs[0] in cs;
      assert forall c :: c in d.kids[cs[0]] ==> c < |d.elems| by {
        forall c | c in d.kids[cs[0]]
          ensures c < |d.elems|
        {
          var k := IndexOf(d.kids[cs[0]], c);
          assert d.kids[cs[0]][k] < |d.elems|;
        }
      }
      assert forall c :: c in cs[1..] ==> c in cs;
      [cs[0]] + Preorder(d, d.kids[cs[0]], fuel - 1) + Preorder(d, cs[1..], fuel)
  }

  /** `el.xpath(".//tag")`: the descendants of `n` with that tag, in
    * document order. The depth bound is the arena size, which exceeds the
    * depth of any tree held in it. */
  function Descendants(d: Doc, n: nat): (r: seq<nat>)
    requires Wf(d) && n < |d.elems|
    ensures forall x :: x in r ==> x < |d.elems|
  {
    Preorder(d, d.kids[n], |d.elems|)
  }

  function FilterTag(d: Doc, xs: seq<nat>, tags: set<string>): (r: seq<nat>)
    requires forall x :: x in xs ==> x < |d.elems|
    ensures forall x :: x in r <==> x in xs && d.elems[x].tag in tags
    ensures |r| <= |xs|
  {
    if xs == [] then []
    else
      assert xs[0] in xs;
      assert forall x :: x in xs[1..] ==> x in xs;
      (if d.elems[xs[0]].tag in tags then [xs[0]] else []) + FilterTag(d, xs[1..], tags)
  }

  /** `x` is an element with a tag in `tags`. */
  predicate Tagged(d: Doc, x: nat, tags: set<string>)
  {
    x < |d.elems| && d.elems[x].tag in tags
  }

  /** `x` is an element of `xs` with a tag in `tags`, and no later element
    * of `xs` has one: XPath's `[last()]` over those tags. */
  ghost predicate LastWithTag(d: Doc, xs: seq<nat>, tags: set<string>, x: nat)
  {
    exists k :: 0 <= k < |xs| && xs[k] == x && Tagged(d, x, tags)
                && forall j :: k < j < |xs| ==> !Tagged(d, xs[j], tags)
  }

  /** `r` can be read off `xs` left to right: the filter keeps the order. */
  ghost predicate SubseqOf(r: seq<nat>, xs: seq<nat>)
    decreases |xs|
  {
    if r == [] then true
    else if xs == [] then false
    else if r[0] == xs[0] then SubseqOf(r[1..], xs[1..])
    else SubseqOf(r, xs[1..])
  }

  lemma LastWithTagCons(d: Doc, xs: seq<nat>, tags: set<string>, x: nat)
    requires xs != [] && LastWithTag(d, xs[1..], tags, x)
    ensures LastWithTag(d, xs, tags, x)
  {
    var k :| 0 <= k < |xs[1..]| && xs[1..][k] == x && Tagged(d, x, tags)
             && forall j :: k < j < |xs[1..]| ==> !Tagged(d, xs[1..][j], tags);
    assert xs[k + 1] == x;
    forall j | k + 1 < j < |xs|
      ensures !Tagged(d, xs[j], tags)
    {
      assert xs[j] == xs[1..][j - 1];
    }
  }

  lemma LastWithTagHead(d: Doc, xs: seq<nat>, tags: set<string>)
    requires xs != [] && Tagged(d, xs[0], tags)
    requires forall y :: y in xs[1..] ==> !Tagged(d, y, tags)
    ensures LastWithTag(d, xs, tags, xs[0])
  {
    forall j | 0 < j < |xs|
      ensures !Tagged(d, xs[j], tags)
    {
      assert xs[j] == xs[1..][j - 1] && xs[j] in xs[1..];
    }
  }

  /** `FilterTag` keeps nothing exactly when no element has the tag. */
  lemma FilterTagEmpty(d: Doc, xs: seq<nat>, tags: set<string>)
    requires forall x :: x in xs ==> x < |d.elems|
    ensures FilterTag(d, xs, tags) == [] <==> forall x :: x in xs ==> !Tagged(d, x, tags)
  {
    var r := FilterTag(d, xs, tags);
    if r != [] {
      assert r[0] in r;
    }
  }

  /** The last element `FilterTag` keeps is the last one with the tag. */
  lemma {:induction false} FilterTagLast(d: Doc, xs: seq<nat>, tags: set<string>)
    requires forall x :: x in xs ==> x < |d.elems|
    ensures var r := FilterTag(d, xs, tags);
            r != [] ==> LastWithTag(d, xs, tags, r[|r| - 1])
    decreases |xs|
  {
    var r := FilterTag(d, xs, tags);
    if xs != [] && r != [] {
      assert forall x :: x in xs[1..] ==> x in xs;
      var rest := FilterTag(d, xs[1..], tags);
      if rest == [] {
        assert r == [xs[0]] && xs[0] in xs;
        LastWithTagHead(d, xs, tags);
      } else {
        FilterTagLast(d, xs[1..], tags);
        assert r[|r| - 1] == rest[|rest| - 1];
        LastWithTagCons(d, xs, tags, r[|r| - 1]);
      }
    }
  }

  /** `FilterTag` keeps document order. */
  lemma {:induction false} FilterTagOrder(d: Doc, xs: seq<nat>, tags: set<string>)
    requires forall x :: x in xs ==> x < |d.elems|
    ensures SubseqOf(FilterTag(d, xs, tags), xs)
    decreases |xs|
  {
    if xs != [] {
      assert forall x :: x in xs[1..] ==> x in xs;
      var rest := FilterTag(d, xs[1..], tags);
      FilterTagOrder(d, xs[1..], tags);
      assert xs[0] in xs;
      if d.elems[xs[0]].tag in tags {
        var r := [xs[0]] + rest;
        assert FilterTag(d, xs, tags) == r;
        assert r[0] == xs[0] && r[1..] == rest;
        assert SubseqOf(r, xs) == SubseqOf(rest, xs[1..]);
      } else {
        assert FilterTag(d, xs, tags) == [] + rest == rest;
        if rest != [] {
          assert rest[0] in rest && rest[0] != xs[0];
          assert SubseqOf(rest, xs) == SubseqOf(rest, xs[1..]);
        }
      }
    }
  }
}
