/** Filtering a markdown file down to the sections whose level-one heading
  * is allowed, keeping the text before the first heading when it is not
  * blank. */
module MdSections {
  import opened Strings

  /** A line starts at `j` with "# " and at least one more character on the
    * same line: the pattern `^# (.+)$` in multi-line mode. */
  predicate HeadingAt(s: string, j: nat)
  {
    j + 2 < |s| && (j == 0 || s[j - 1] == '\n') && s[j] == '#' && s[j + 1] == ' ' && s[j + 2] != '\n'
  }

  /** The first heading at or after `i`, or `|s|`. */
  function NextHeading(s: string, i: nat): (r: nat)
    requires i <= |s|
    ensures i <= r <= |s| && (r < |s| ==> HeadingAt(s, r))
    ensures forall j :: i <= j < r ==> !HeadingAt(s, j)
    decreases |s| - i
  {
    if i == |s| || HeadingAt(s, i) then i else NextHeading(s, i + 1)
  }

  /** A heading's title and the body after it, up to the next heading. */
  datatype Section = Section(title: string, body: string)

  /** The sections from the heading at `j` to the end of `s`. */
  function SectionsFrom(s: string, j: nat): (r: seq<Section>)
    requires j < |s| && HeadingAt(s, j)
    ensures r != []
    ensures forall k :: 0 <= k < |r| ==> r[k].title != [] && '\n' !in r[k].title
    ensures forall k :: 0 <= k < |r| ==> r[k].body == [] || r[k].body[0] == '\n'
    decreases |s| - j
  {
    var e := NextChar(s, j + 2, '\n');
    var k := NextHeading(s, e);
    assert '\n' !in s[j + 2..e] by {
      var title := s[j + 2..e];
      forall t | 0 <= t < |title|
        ensures title[t] != '\n'
      {
        assert title[t] == s[j + 2 + t];
      }
    }
    [Section(s[j + 2..e], s[e..k])] + (if k < |s| then SectionsFrom(s, k) else [])
  }

  /** `re.split(r'^# (.+)$', md, flags=re.MULTILINE)`: the preamble, then
    * each title with its body. */
  function Split(s: string): (string, seq<Section>)
  {
    var h := NextHeading(s, 0);
    (s[..h], if h < |s| then SectionsFrom(s, h) else [])
  }

  function Concat(chunks: seq<string>): string
  {
    if chunks == [] then [] else chunks[0] + Concat(chunks[1..])
  }

  /** A heading line with its body. */
  function Chunk(title: string, body: string): string
  {
    "# " + title + body
  }

  /** A section written back as markdown. */
  function Render(sec: Section): string
  {
    Chunk(sec.title, sec.body)
  }

  /** Each section's stripped title, which is what the allowed fields are
    * matched against, with its body. */
  function Keyed(secs: seq<Section>): (r: seq<(string, string)>)
    ensures |r| == |secs|
    ensures forall k :: 0 <= k < |r| ==> r[k] == (Strip(secs[k].title), secs[k].body)
  {
    seq(|secs|, k requires 0 <= k < |secs| => (Strip(secs[k].title), secs[k].body))
  }

  function RenderAll(secs: seq<Section>): string
  {
    if secs == [] then [] else Render(secs[0]) + RenderAll(secs[1..])
  }

  /** The first section written back is the text from its heading to the
    * next one. */
  lemma RenderHead(s: string, j: nat)
    requires j < |s| && HeadingAt(s, j)
    ensures var e := NextChar(s, j + 2, '\n');
      Render(SectionsFrom(s, j)[0]) == s[j..NextHeading(s, e)]
  {
    var e := NextChar(s, j + 2, '\n');
    var k := NextHeading(s, e);
    assert s[j..j + 2] == "# ";
    assert s[j..k] == s[j..j + 2] + s[j + 2..e] + s[e..k];
  }

  /** The split loses nothing: the sections written back after the
    * preamble give the text from `j` on. */
  lemma {:induction false} SectionsRoundTrip(s: string, j: nat)
    requires j < |s| && HeadingAt(s, j)
    ensures RenderAll(SectionsFrom(s, j)) == s[j..]
    decreases |s| - j
  {
    var e := NextChar(s, j + 2, '\n');
    var k := NextHeading(s, e);
    var all := SectionsFrom(s, j);
    SectionsCons(s, j);
    RenderHead(s, j);
    if k < |s| {
      SectionsRoundTrip(s, k);
      Glue(all, SectionsFrom(s, k), s, j, k);
    } else {
      Glue(all, [], s, j, k);
    }
  }

  /** One rendered section followed by the rendering of the rest. */
  lemma Glue(all: seq<Section>, rest: seq<Section>, s: string, j: nat, k: nat)
    requires j <= k <= |s| && all != [] && all == [all[0]] + rest
    requires Render(all[0]) == s[j..k] && RenderAll(rest) == s[k..]
    ensures RenderAll(all) == s[j..]
  {
    RenderAllCons(all[0], rest);
    assert s[j..] == s[j..k] + s[k..];
  }

  /** The sections from a heading: its own, then those from the next. */
  lemma SectionsCons(s: string, j: nat)
    requires j < |s| && HeadingAt(s, j)
    ensures var k := NextHeading(s, NextChar(s, j + 2, '\n'));
            SectionsFrom(s, j) == [SectionsFrom(s, j)[0]] + (if k < |s| then SectionsFrom(s, k) else [])
  {
  }

  lemma RenderAllCons(x: Section, rest: seq<Section>)
    ensures RenderAll([x] + rest) == Render(x) + RenderAll(rest)
  {
    assert ([x] + rest)[1..] == rest;
  }

  lemma SplitRoundTrip(s: string)
    ensures Split(s).0 + RenderAll(Split(s).1) == s
  {
    var h := NextHeading(s, 0);
    if h < |s| {
      SectionsRoundTrip(s, h);
    }
    assert s == s[..h] + s[h..];
  }

  /** The text before the first heading holds no heading. */
  lemma PreambleHasNoHeading(s: string)
    ensures forall j :: 0 <= j < |Split(s).0| ==> !HeadingAt(s, j)
  {
  }

  /** The chunks of the kept sections, in input order. */
  function Kept(ks: seq<(string, string)>, allowed: set<string>): seq<string>
  {
    if ks == [] then []
    else
      var last := ks[|ks| - 1];
      Kept(ks[..|ks| - 1], allowed) + (if last.0 in allowed then [Chunk(last.0, last.1)] else [])
  }

  /** The preamble when it holds something other than whitespace. */
  function Preamble(pre: string): seq<string>
  {
    if IsBlank(pre) then [] else [pre]
  }

  function Filtered(md: string, allowed: set<string>): string
  {
    var (pre, secs) := Split(md);
    Concat(Preamble(pre) + Kept(Keyed(secs), allowed))
  }

  /** `filter_md_sections(md_content, allowed_fields)`. */
  method FilterMdSections(md: string, allowed: set<string>) returns (r: string)
    ensures r == Filtered(md, allowed)
  {
    var parts := Split(md);
    var pre, secs := parts.0, parts.1;
    var chunks: seq<string> := [];
    if !IsBlank(pre) {
      chunks := chunks + [pre];
    }
    assert chunks == Preamble(pre);
    ghost var ks := Keyed(secs);
    for i := 0 to |secs|
      invariant chunks == Preamble(pre) + Kept(ks[..i], allowed)
    {
      var title := Strip(secs[i].title);
      var body := secs[i].body;
      KeptStep(Preamble(pre), ks, allowed, i, chunks);
      assert ks[i] == (title, body);
      if title in allowed {
        chunks := chunks + [Chunk(title, body)];
      }
    }
    assert ks[..|secs|] == ks;
    r := Concat(chunks);
    assert Filtered(md, allowed) == Concat(Preamble(pre) + Kept(ks, allowed));
  }

  lemma KeptStep(head: seq<string>, ks: seq<(string, string)>, allowed: set<string>, i: nat, chunks: seq<string>)
    requires i < |ks| && chunks == head + Kept(ks[..i], allowed)
    ensures ks[i].0 in allowed ==> chunks + [Chunk(ks[i].0, ks[i].1)] == head + Kept(ks[..i + 1], allowed)
    ensures ks[i].0 !in allowed ==> chunks == head + Kept(ks[..i + 1], allowed)
  {
    assert ks[..i + 1][..i] == ks[..i];
    assert ks[..i + 1][i] == ks[i];
    if ks[i].0 in allowed {
      var c := Chunk(ks[i].0, ks[i].1);
      assert Kept(ks[..i + 1], allowed) == Kept(ks[..i], allowed) + [c];
      assert chunks + [c] == head + (Kept(ks[..i], allowed) + [c]);
    }
  }

  /** `c` is the chunk of the allowed entry `e`. */
  ghost predicate ChunkOf(c: string, e: (string, string), allowed: set<string>)
  {
    e.0 in allowed && c == Chunk(e.0, e.1)
  }

  /** Every allowed entry is kept. */
  lemma {:induction false} KeptHas(ks: seq<(string, string)>, allowed: set<string>, k: nat)
    requires k < |ks| && ks[k].0 in allowed
    ensures Chunk(ks[k].0, ks[k].1) in Kept(ks, allowed)
    decreases |ks|
  {
    var front := ks[..|ks| - 1];
    if k < |front| {
      assert front[k] == ks[k];
      KeptHas(front, allowed, k);
    }
  }

  /** Every kept chunk comes from an allowed entry. */
  lemma {:induction false} KeptOnly(ks: seq<(string, string)>, allowed: set<string>, c: string)
    requires c in Kept(ks, allowed)
    ensures exists k :: 0 <= k < |ks| && ChunkOf(c, ks[k], allowed)
    decreases |ks|
  {
    var front := ks[..|ks| - 1];
    if c in Kept(front, allowed) {
      KeptOnly(front, allowed, c);
      var k :| 0 <= k < |front| && ChunkOf(c, front[k], allowed);
      assert ks[k] == front[k];
    } else {
      assert ChunkOf(c, ks[|ks| - 1], allowed);
    }
  }

  /** A section is kept exactly when its stripped title is allowed; it is
    * then written as "# ", the stripped title and its body unchanged. */
  lemma FilterKeepsAllowed(md: string, allowed: set<string>, c: string)
    ensures var secs := Split(md).1;
      c in Kept(Keyed(secs), allowed) <==>
        exists k :: 0 <= k < |secs| && Strip(secs[k].title) in allowed && c == Chunk(Strip(secs[k].title), secs[k].body)
  {
    var secs := Split(md).1;
    var ks := Keyed(secs);
    if c in Kept(ks, allowed) {
      KeptOnly(ks, allowed, c);
      var k :| 0 <= k < |ks| && ChunkOf(c, ks[k], allowed);
      assert Strip(secs[k].title) in allowed && c == Chunk(Strip(secs[k].title), secs[k].body);
    }
    if exists k :: 0 <= k < |secs| && Strip(secs[k].title) in allowed && c == Chunk(Strip(secs[k].title), secs[k].body) {
      var k :| 0 <= k < |secs| && Strip(secs[k].title) in allowed && c == Chunk(Strip(secs[k].title), secs[k].body);
      KeptHas(ks, allowed, k);
    }
  }

  /** With no allowed heading only the non-blank preamble is left. */
  lemma {:induction false} KeptNone(ks: seq<(string, string)>)
    ensures Kept(ks, {}) == []
    decreases |ks|
  {
    if ks != [] {
      KeptNone(ks[..|ks| - 1]);
    }
  }

  lemma FilterNothingAllowed(md: string)
    ensures Filtered(md, {}) == if IsBlank(Split(md).0) then "" else Split(md).0
  {
    var (pre, secs) := Split(md);
    KeptNone(Keyed(secs));
    assert Filtered(md, {}) == Concat(Preamble(pre) + []);
    assert Preamble(pre) + [] == Preamble(pre);
    if !IsBlank(pre) {
      ConcatCons(pre, []);
      assert [pre] + [] == [pre];
    }
  }

  /** Sections whose titles are all allowed and already stripped are kept
    * whole. */
  lemma {:induction false} KeptAll(ks: seq<(string, string)>, secs: seq<Section>, allowed: set<string>)
    requires |ks| == |secs|
    requires forall k :: 0 <= k < |secs| ==> ks[k] == (secs[k].title, secs[k].body) && secs[k].title in allowed
    ensures Concat(Kept(ks, allowed)) == RenderAll(secs)
    decreases |secs|
  {
    if secs != [] {
      var front := secs[..|secs| - 1];
      var last := secs[|secs| - 1];
      KeptAll(ks[..|ks| - 1], front, allowed);
      ConcatSnoc(Kept(ks[..|ks| - 1], allowed), Render(last));
      RenderAllSnoc(front, last);
      assert secs == front + [last];
    }
  }

  lemma {:induction false} ConcatSnoc(xs: seq<string>, x: string)
    ensures Concat(xs + [x]) == Concat(xs) + x
    decreases |xs|
  {
    if xs == [] {
      assert [] + [x] == [x];
    } else {
      assert (xs + [x])[1..] == xs[1..] + [x];
      ConcatSnoc(xs[1..], x);
    }
  }

  lemma {:induction false} ConcatCons(x: string, xs: seq<string>)
    ensures Concat([x] + xs) == x + Concat(xs)
  {
    assert ([x] + xs)[1..] == xs;
  }

  lemma {:induction false} RenderAllSnoc(secs: seq<Section>, last: Section)
    ensures RenderAll(secs + [last]) == RenderAll(secs) + Render(last)
    decreases |secs|
  {
    if secs == [] {
      assert [] + [last] == [last];
    } else {
      assert (secs + [last])[1..] == secs[1..] + [last];
      RenderAllSnoc(secs[1..], last);
    }
  }

  /** When every heading is allowed and written without stray blanks, and
    * the preamble is not blank, the filter gives back the whole file. */
  lemma FilterAllKeepsAll(md: string, allowed: set<string>)
    requires !IsBlank(Split(md).0)
    requires forall k :: 0 <= k < |Split(md).1| ==>
      Strip(Split(md).1[k].title) == Split(md).1[k].title && Split(md).1[k].title in allowed
    ensures Filtered(md, allowed) == md
  {
    var (pre, secs) := Split(md);
    KeptAll(Keyed(secs), secs, allowed);
    ConcatCons(pre, Kept(Keyed(secs), allowed));
    SplitRoundTrip(md);
  }
}
