/** The mid-line markers of the TEI text builder: page breaks `<p>` or
  * `<p,l>`, corrections `≤sic≥«corr»`, deletions `≤x≥`, supplied text
  * `«x»` and unclear text `¿x¿`. Each pattern is scanned like
  * `re.finditer`; all matches are ordered by (start, -end) and the
  * overlapping ones are dropped greedily, so that at one position the
  * longest match wins. */
module InlineMarkers {
  import opened Wrappers
  import opened Strings
  import opened TeiBuilderPatterns

  datatype Kind = PageMark | ChoiceMark | DelMark | SuppliedMark | UnclearMark

  /** One match: its kind, its span `[start, end)` in the content, its first
    * group, and its second group (the line number of a page marker, the
    * correction of a choice). */
  datatype Marker = Marker(kind: Kind, start: nat, end: nat, first: string, second: Option<string>)

  predicate InBounds(m: Marker, s: string)
  {
    m.start < m.end <= |s|
  }

  // -------------------------------------------------------------------
  // One match at a given position
  // -------------------------------------------------------------------

  /** MID_LINE_PAGE_RE `<(\d+)(?:,(\d+))?>` at `i`. */
  function PageAt(s: string, i: nat): (r: Option<Marker>)
    requires i <= |s|
    ensures r.Some? ==> r.value.kind == PageMark && r.value.start == i && InBounds(r.value, s)
    ensures r.Some? ==> |r.value.first| >= 1 && AllDigits(r.value.first)
    ensures r.Some? && r.value.second.Some? ==> |r.value.second.value| >= 1 && AllDigits(r.value.second.value)
  {
    if i < |s| && s[i] == '<' then
      var e1 := DigitRunEnd(s, i + 1);
      if e1 == i + 1 || e1 == |s| then None
      else if s[e1] == '>' then Some(Marker(PageMark, i, e1 + 1, s[i + 1..e1], None))
      else if s[e1] == ',' then
        var e2 := DigitRunEnd(s, e1 + 1);
        if e2 > e1 + 1 && e2 < |s| && s[e2] == '>' then
          Some(Marker(PageMark, i, e2 + 1, s[i + 1..e1], Some(s[e1 + 1..e2])))
        else None
      else None
    else None
  }

  /** CHOICE_RE `≤([^≥]*)≥«([^»]*)»` at `i`. */
  function ChoiceAt(s: string, i: nat): (r: Option<Marker>)
    requires i <= |s|
    ensures r.Some? ==> r.value.kind == ChoiceMark && r.value.start == i && InBounds(r.value, s)
    ensures r.Some? ==> '≥' !in r.value.first && r.value.second.Some? && '»' !in r.value.second.value
  {
    if i < |s| && s[i] == '≤' then
      var j := NextChar(s, i + 1, '≥');
      if j + 1 < |s| && s[j + 1] == '«' then
        var k := NextChar(s, j + 2, '»');
        if k < |s| then Some(Marker(ChoiceMark, i, k + 1, s[i + 1..j], Some(s[j + 2..k]))) else None
      else None
    else None
  }

  /** The patterns `open([^close]*)close` of DEL_RE, SUPPLIED_RE and UNCLEAR_RE at `i`. */
  function EnclosedAt(s: string, i: nat, kind: Kind, open: char, close: char): (r: Option<Marker>)
    requires i <= |s|
    ensures r.Some? ==> r.value.kind == kind && r.value.start == i && InBounds(r.value, s)
    ensures r.Some? ==> close !in r.value.first && r.value.second.None?
    ensures r.Some? ==> i + 2 <= r.value.end && r.value.first == s[i + 1..r.value.end - 1]
  {
    if i < |s| && s[i] == open then
      var j := NextChar(s, i + 1, close);
      if j < |s| then Some(Marker(kind, i, j + 1, s[i + 1..j], None)) else None
    else None
  }

  function MatchAt(kind: Kind, s: string, i: nat): (r: Option<Marker>)
    requires i <= |s|
    ensures r.Some? ==> r.value.kind == kind && r.value.start == i && InBounds(r.value, s)
  {
    match kind
    case PageMark => PageAt(s, i)
    case ChoiceMark => ChoiceAt(s, i)
    case DelMark => EnclosedAt(s, i, DelMark, '≤', '≥')
    case SuppliedMark => EnclosedAt(s, i, SuppliedMark, '«', '»')
    case UnclearMark => EnclosedAt(s, i, UnclearMark, '¿', '¿')
  }

  /** At a position where a correction matches, a deletion matches too and is shorter. */
  lemma ChoiceOutlastsDel(s: string, i: nat)
    requires i <= |s| && ChoiceAt(s, i).Some?
    ensures MatchAt(DelMark, s, i).Some?
    ensures MatchAt(DelMark, s, i).value.end < ChoiceAt(s, i).value.end
  {
  }

  // -------------------------------------------------------------------
  // finditer
  // -------------------------------------------------------------------

  /** `re.finditer` for one kind from position `from`: after a match the
    * scan resumes at its end. */
  function FindAll(kind: Kind, s: string, from: nat): (r: seq<Marker>)
    requires from <= |s|
    ensures forall k :: 0 <= k < |r| ==>
              r[k].kind == kind && InBounds(r[k], s) && from <= r[k].start && MatchAt(kind, s, r[k].start) == Some(r[k])
    ensures forall k :: 0 <= k < |r| - 1 ==> r[k].end <= r[k + 1].start
    decreases |s| - from
  {
    if from == |s| then []
    else
      match MatchAt(kind, s, from)
      case Some(m) => [m] + FindAll(kind, s, m.end)
      case None => FindAll(kind, s, from + 1)
  }

  /** Every match of every pattern, pattern by pattern in the order the builder lists them. */
  function AllMatches(s: string): (r: seq<Marker>)
    ensures forall k :: 0 <= k < |r| ==> InBounds(r[k], s)
  {
    FindAll(PageMark, s, 0) + FindAll(ChoiceMark, s, 0) + FindAll(DelMark, s, 0)
    + FindAll(SuppliedMark, s, 0) + FindAll(UnclearMark, s, 0)
  }

  // -------------------------------------------------------------------
  // Ordering by (start, -end)
  // -------------------------------------------------------------------

  /** The sort key of `a` is at most that of `b`. */
  predicate KeyLe(a: Marker, b: Marker)
  {
    a.start < b.start || (a.start == b.start && a.end >= b.end)
  }

  predicate Sorted(ms: seq<Marker>)
  {
    forall a, b :: 0 <= a < b < |ms| ==> KeyLe(ms[a], ms[b])
  }

  /** Inserts `x` after every element whose key is at most its own. */
  function Insert(x: Marker, ys: seq<Marker>): (r: seq<Marker>)
    requires Sorted(ys)
    ensures multiset(r) == multiset(ys) + multiset{x}
    ensures Sorted(r)
    decreases |ys|
  {
    if ys == [] then [x]
    else if KeyLe(ys[0], x) then
      var tl := Insert(x, ys[1..]);
      InsertHead(ys[0], x, ys[1..], tl);
      assert ys == [ys[0]] + ys[1..];
      [ys[0]] + tl
    else
      [x] + ys
  }

  /** The head of a sorted list stays first after inserting a larger key into its tail. */
  lemma InsertHead(h: Marker, x: Marker, ys: seq<Marker>, tl: seq<Marker>)
    requires Sorted([h] + ys) && KeyLe(h, x)
    requires Sorted(tl) && multiset(tl) == multiset(ys) + multiset{x}
    ensures Sorted([h] + tl)
  {
    forall m | m in tl
      ensures KeyLe(h, m)
    {
      assert m in multiset(tl);
      if m != x {
        assert m in multiset(ys);
        var j :| 0 <= j < |ys| && ys[j] == m;
        assert ([h] + ys)[0] == h && ([h] + ys)[j + 1] == m;
      }
    }
    forall a, b | 0 <= a < b < |[h] + tl|
      ensures KeyLe(([h] + tl)[a], ([h] + tl)[b])
    {
      if a == 0 {
        assert tl[b - 1] in tl;
      } else {
        assert ([h] + tl)[a] == tl[a - 1] && ([h] + tl)[b] == tl[b - 1];
      }
    }
  }

  /** `list.sort(key=lambda m: (m.start(), -m.end()))`: a sorted permutation. */
  function SortByKey(ms: seq<Marker>): (r: seq<Marker>)
    ensures Sorted(r) && multiset(r) == multiset(ms)
  {
    if ms == [] then []
    else
      assert ms == ms[..|ms| - 1] + [ms[|ms| - 1]];
      Insert(ms[|ms| - 1], SortByKey(ms[..|ms| - 1]))
  }

  // -------------------------------------------------------------------
  // Greedy selection
  // -------------------------------------------------------------------

  /** The selection the builder's loop computes: keep a match when it starts
    * at or after the end of the last kept one. */
  function Greedy(ms: seq<Marker>, lastEnd: int): seq<Marker>
  {
    if ms == [] then []
    else if ms[0].start >= lastEnd then [ms[0]] + Greedy(ms[1..], ms[0].end)
    else Greedy(ms[1..], lastEnd)
  }

  /** Every match ends at or after its start. */
  predicate Spans(ms: seq<Marker>)
  {
    forall k :: 0 <= k < |ms| ==> ms[k].start <= ms[k].end
  }

  /** Kept matches start after `lastEnd`, come from the input, and never overlap. */
  lemma {:induction false} GreedyNonOverlapping(ms: seq<Marker>, lastEnd: int)
    requires Spans(ms)
    ensures forall k :: 0 <= k < |Greedy(ms, lastEnd)| ==> Greedy(ms, lastEnd)[k].start >= lastEnd
    ensures forall m :: m in Greedy(ms, lastEnd) ==> m in ms
    ensures forall k :: 0 <= k < |Greedy(ms, lastEnd)| - 1 ==>
              Greedy(ms, lastEnd)[k].end <= Greedy(ms, lastEnd)[k + 1].start
  {
    if ms != [] {
      GreedyNonOverlapping(ms[1..], ms[0].end);
      GreedyNonOverlapping(ms[1..], lastEnd);
    }
  }

  /** In sorted input, a kept match is the longest of all matches starting
    * where it starts: `≤x≥«y»` is kept as a correction, never as the
    * deletion `≤x≥` that starts at the same place. */
  lemma {:induction false} GreedyKeepsLongest(ms: seq<Marker>, lastEnd: int)
    requires Sorted(ms) && Spans(ms)
    ensures forall k, m :: k in Greedy(ms, lastEnd) && m in ms && m.start == k.start ==> m.end <= k.end
  {
    if ms != [] {
      var h := ms[0];
      assert forall m :: m in ms[1..] ==> KeyLe(h, m) by {
        forall m | m in ms[1..]
          ensures KeyLe(h, m)
        {
          var j :| 0 <= j < |ms[1..]| && ms[1..][j] == m;
          assert ms[j + 1] == m;
        }
      }
      assert Sorted(ms[1..]);
      if h.start >= lastEnd {
        GreedyKeepsLongest(ms[1..], h.end);
        GreedyNonOverlapping(ms[1..], h.end);
      } else {
        GreedyKeepsLongest(ms[1..], lastEnd);
        GreedyNonOverlapping(ms[1..], lastEnd);
      }
    }
  }

  /** The builder's filtering loop over the sorted matches. */
  method SelectMarkers(ms: seq<Marker>) returns (kept: seq<Marker>)
    requires Spans(ms)
    ensures kept == Greedy(ms, -1)
    ensures forall k :: 0 <= k < |kept| - 1 ==> kept[k].end <= kept[k + 1].start
    ensures forall m :: m in kept ==> m in ms
  {
    kept := [];
    var lastEnd: int := -1;
    var i := 0;
    while i < |ms|
      invariant 0 <= i <= |ms|
      invariant kept + Greedy(ms[i..], lastEnd) == Greedy(ms, -1)
    {
      assert ms[i..][1..] == ms[i + 1..];
      if ms[i].start >= lastEnd {
        kept := kept + [ms[i]];
        lastEnd := ms[i].end;
      }
      i := i + 1;
    }
    GreedyNonOverlapping(ms, -1);
  }

  /** The markers the builder handles on a line of content, in order. */
  function Selected(content: string): (r: seq<Marker>)
    ensures forall k :: 0 <= k < |r| ==> InBounds(r[k], content)
    ensures forall k :: 0 <= k < |r| - 1 ==> r[k].end <= r[k + 1].start
  {
    var sorted := SortByKey(AllMatches(content));
    SortedInBounds(AllMatches(content), sorted, content);
    GreedyNonOverlapping(sorted, -1);
    Greedy(sorted, -1)
  }

  /** A permutation of in-bounds matches is in bounds and well spanned. */
  lemma SortedInBounds(ms: seq<Marker>, sorted: seq<Marker>, content: string)
    requires forall k :: 0 <= k < |ms| ==> InBounds(ms[k], content)
    requires multiset(sorted) == multiset(ms)
    ensures forall m :: m in sorted ==> InBounds(m, content)
    ensures Spans(sorted)
  {
    forall m | m in sorted
      ensures InBounds(m, content)
    {
      assert m in multiset(ms);
      var j :| 0 <= j < |ms| && ms[j] == m;
    }
    forall k | 0 <= k < |sorted|
      ensures sorted[k].start <= sorted[k].end
    {
      assert sorted[k] in sorted;
    }
  }

  // -------------------------------------------------------------------
  // The text between markers
  // -------------------------------------------------------------------

  /** The texts between consecutive markers, from `pos` on, without the text
    * after the last one: `pre_text` of each iteration of the builder's loop. */
  function Gaps(content: string, ms: seq<Marker>, pos: nat): (r: seq<string>)
    requires pos <= |content|
    requires Ordered(content, ms, pos)
    ensures |r| == |ms|
    decreases |ms|
  {
    if ms == [] then [] else [content[pos..ms[0].start]] + Gaps(content, ms[1..], ms[0].end)
  }

  /** The text after the last marker (`post_text` before its hyphen is removed). */
  function Rest(content: string, ms: seq<Marker>, pos: nat): (r: string)
    requires pos <= |content|
    requires Ordered(content, ms, pos)
    decreases |ms|
  {
    if ms == [] then content[pos..] else Rest(content, ms[1..], ms[0].end)
  }

  /** `ms` are in bounds, start at or after `pos` and do not overlap. */
  predicate Ordered(content: string, ms: seq<Marker>, pos: nat)
  {
    (forall k :: 0 <= k < |ms| ==> InBounds(ms[k], content))
    && (|ms| > 0 ==> pos <= ms[0].start)
    && (forall k :: 0 <= k < |ms| - 1 ==> ms[k].end <= ms[k + 1].start)
  }

  /** After the first marker the rest stay ordered from its end. */
  lemma OrderedTail(content: string, ms: seq<Marker>, pos: nat)
    requires Ordered(content, ms, pos) && ms != []
    ensures pos <= ms[0].start < ms[0].end <= |content|
    ensures Ordered(content, ms[1..], ms[0].end)
  {
    assert InBounds(ms[0], content);
  }

  /** Gaps, marker texts and rest, interleaved. */
  function Interleave(content: string, ms: seq<Marker>, gaps: seq<string>, rest: string): string
    requires |gaps| == |ms| && forall k :: 0 <= k < |ms| ==> InBounds(ms[k], content)
  {
    if ms == [] then rest
    else
      assert InBounds(ms[0], content);
      gaps[0] + content[ms[0].start..ms[0].end] + Interleave(content, ms[1..], gaps[1..], rest)
  }

  /** Nothing is lost or repeated: the gaps the builder appends, the marker
    * texts its handlers consume and the rest, in order, make up the content. */
  lemma {:induction false} TextConserved(content: string, ms: seq<Marker>, pos: nat)
    requires pos <= |content| && Ordered(content, ms, pos)
    ensures Interleave(content, ms, Gaps(content, ms, pos), Rest(content, ms, pos)) == content[pos..]
    decreases |ms|
  {
    if ms != [] {
      TextConserved(content, ms[1..], ms[0].end);
      assert content[pos..] == content[pos..ms[0].start] + content[ms[0].start..ms[0].end] + content[ms[0].end..];
    }
  }
}
