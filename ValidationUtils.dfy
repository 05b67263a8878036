/** The text cleaners of the validation step: bracket groups are removed
  * (reporting illegal nesting), balanced innermost brackets are deleted,
  * keepable `〈…〉` content is unwrapped and whitespace is normalised. */
module ValidationUtils {
  import opened Wrappers
  import opened Strings
  import opened Rewrite

  // ---------------------------------------------------------------------
  // remove_bracket_groups

  const NestingMsg := "Invalid nesting within group "

  /** `re.search(r'[\[\]\{\}]', hit)`. */
  predicate HasBracket(t: string)
  {
    exists i | 0 <= i < |t| :: t[i] in "[]{}"
  }

  /** One message per hit holding a square or curly bracket, in order. */
  function Reports(hits: seq<string>): (r: seq<string>)
    ensures |r| <= |hits|
  {
    if hits == [] then []
    else
      var h := hits[|hits| - 1];
      Reports(hits[..|hits| - 1]) + (if HasBracket(h) then [NestingMsg + h] else [])
  }

  /** `for hit in hits: content = content.replace(hit, '')`: never longer,
    * and shorter when the first hit occurs in the text. */
  function DeleteAll(s: string, hits: seq<string>): (r: string)
    requires forall k :: 0 <= k < |hits| ==> hits[k] != []
    ensures |r| <= |s|
    ensures hits != [] && Contains(s, hits[0]) ==> |r| < |s|
  {
    if hits == [] then s
    else
      var front := hits[..|hits| - 1];
      var t := DeleteAll(s, front);
      ReplaceByEmptyShrinks(t, hits[|hits| - 1]);
      Replace(t, hits[|hits| - 1], [])
  }

  /** The text left and the messages reported by `remove_bracket_groups`:
    * rounds of `findall` then deletion, until the pattern no longer
    * matches. The pattern must not match the empty string (`Sane`):
    * otherwise the source loops for ever. */
  function RemoveGroups(m: Matcher, s: string): (r: (string, seq<string>))
    requires Sane(m)
    ensures !Found(m, r.0)
    ensures |r.0| <= |s|
    ensures !Found(m, s) ==> r == (s, [])
    decreases |s|
  {
    var hits := FindAll(m, s);
    if hits == [] then (s, [])
    else
      FirstHitOccurs(m, s);
      var rest := RemoveGroups(m, DeleteAll(s, hits));
      (rest.0, Reports(hits) + rest.1)
  }

  /** `remove_bracket_groups(content, bracket_group_pattern)`. */
  method RemoveBracketGroups(content: string, m: Matcher) returns (r: string, errors: seq<string>)
    requires Sane(m)
    ensures (r, errors) == RemoveGroups(m, content)
  {
    r := content;
    errors := [];
    assert [] + RemoveGroups(m, content).1 == RemoveGroups(m, content).1;
    while true
      invariant Resumes(m, content, r, errors)
      decreases |r|
    {
      var hits := FindAll(m, r);
      if hits == [] {
        RemoveGroupsDone(m, content, r, errors);
        break;
      }
      ghost var before, reported := r, errors;
      FirstHitOccurs(m, r);
      r, errors := DeleteRound(r, hits, errors);
      RemoveGroupsNext(m, content, before, reported);
    }
  }

  /** Removing groups from `r` and reporting after `errors` gives the
    * overall result. */
  ghost predicate Resumes(m: Matcher, content: string, r: string, errors: seq<string>)
    requires Sane(m)
  {
    RemoveGroups(m, content) == (RemoveGroups(m, r).0, errors + RemoveGroups(m, r).1)
  }

  lemma RemoveGroupsDone(m: Matcher, content: string, r: string, errors: seq<string>)
    requires Sane(m) && Resumes(m, content, r, errors) && FindAll(m, r) == []
    ensures (r, errors) == RemoveGroups(m, content)
  {
    assert RemoveGroups(m, r) == (r, []);
    assert errors + [] == errors;
  }

  lemma RemoveGroupsNext(m: Matcher, content: string, s: string, errors: seq<string>)
    requires Sane(m) && Resumes(m, content, s, errors) && FindAll(m, s) != []
    ensures var hits := FindAll(m, s);
      Resumes(m, content, DeleteAll(s, hits), errors + Reports(hits))
      && |DeleteAll(s, hits)| < |s|
  {
    var hits := FindAll(m, s);
    var t := DeleteAll(s, hits);
    FirstHitOccurs(m, s);
    assert RemoveGroups(m, s) == (RemoveGroups(m, t).0, Reports(hits) + RemoveGroups(m, t).1);
    assert errors + (Reports(hits) + RemoveGroups(m, t).1) == (errors + Reports(hits)) + RemoveGroups(m, t).1;
  }

  /** The `for hit in hits` loop of one round. */
  method DeleteRound(s: string, hits: seq<string>, reported: seq<string>) returns (r: string, errors: seq<string>)
    requires forall k :: 0 <= k < |hits| ==> hits[k] != []
    ensures r == DeleteAll(s, hits)
    ensures errors == reported + Reports(hits)
  {
    r, errors := s, reported;
    for i := 0 to |hits|
      invariant r == DeleteAll(s, hits[..i])
      invariant errors == reported + Reports(hits[..i])
    {
      assert hits[..i + 1][..i] == hits[..i];
      if HasBracket(hits[i]) {
        errors := errors + [NestingMsg + hits[i]];
      }
      r := Replace(r, hits[i], []);
    }
    assert hits[..|hits|] == hits;
  }

  /** Every message names a reported hit that holds a bracket, and there is
    * a message exactly when some hit holds one. */
  lemma {:induction false} ReportsMeaning(hits: seq<string>)
    ensures Reports(hits) == [] <==> forall k :: 0 <= k < |hits| ==> !HasBracket(hits[k])
    ensures forall e :: e in Reports(hits) ==>
              exists k :: 0 <= k < |hits| && HasBracket(hits[k]) && e == NestingMsg + hits[k]
    decreases |hits|
  {
    if hits != [] {
      var front := hits[..|hits| - 1];
      ReportsMeaning(front);
      assert forall k :: 0 <= k < |front| ==> front[k] == hits[k];
    }
  }

  // ---------------------------------------------------------------------
  // remove_removables

  /** The length of the prefix of `s` free of the characters in `stop`. */
  function Span(s: string, stop: string): (k: nat)
    ensures k <= |s|
    ensures forall i :: 0 <= i < k ==> s[i] !in stop
    ensures k < |s| ==> s[k] in stop
  {
    if s == [] || s[0] in stop then 0 else 1 + Span(s[1..], stop)
  }

  /** `o[^stop]*c` (with `c` among `stop`) tried at the start of `t`; the
    * match is deleted. */
  function EnclosedAt(t: string, o: char, c: char, stop: string): (r: Option<Hit>)
    requires c in stop
    ensures r.Some? ==> 2 <= r.value.len <= |t| && r.value.repl == []
    ensures r.Some? ==> (t[0] == o && t[r.value.len - 1] == c
              && forall i :: 1 <= i < r.value.len - 1 ==> t[i] !in stop)
    ensures r.None? && |t| >= 1 && t[0] == o ==>
              forall j :: 1 <= j < |t| && t[j] == c ==> exists i :: 1 <= i < j && t[i] in stop
  {
    if |t| >= 1 && t[0] == o then
      var k := Span(t[1..], stop);
      if k < |t| - 1 && t[1 + k] == c then Some(Hit(k + 2, []))
      else
        assert forall j :: 1 <= j < |t| && t[j] == c ==> j > 1 + k && t[1 + k] in stop by {
          forall j | 1 <= j < |t| && t[j] == c
            ensures j > 1 + k && t[1 + k] in stop
          {
            assert t[1..][j - 1] == c;
          }
        }
        None
    else None
  }

  function Enclosed(o: char, c: char, stop: string): Matcher
    requires c in stop
  {
    t => EnclosedAt(t, o, c, stop)
  }

  lemma EnclosedDeletes(o: char, c: char, stop: string)
    requires c in stop
    ensures Sane(Enclosed(o, c, stop)) && Deletes(Enclosed(o, c, stop))
  {
    forall t
      ensures Enclosed(o, c, stop)(t) == EnclosedAt(t, o, c, stop)
    {
    }
  }

  /** The four removable patterns, in the order they are applied. */
  function Removables(): (r: seq<Matcher>)
    ensures |r| == 4
  {
    [Enclosed('(', ')', "()[]{}<>"), Enclosed('<', '>', "<>[]{}()"),
     Enclosed('[', ']', "[]{}<>"), Enclosed('{', '}', "[]{}<>")]
  }

  lemma RemovablesDelete(k: nat)
    requires k < 4
    ensures Sane(Removables()[k]) && Deletes(Removables()[k]) && Shrinks(Removables()[k], Length)
  {
    if k == 0 {
      EnclosedDeletes('(', ')', "()[]{}<>");
    } else if k == 1 {
      EnclosedDeletes('<', '>', "<>[]{}()");
    } else if k == 2 {
      EnclosedDeletes('[', ']', "[]{}<>");
    } else {
      EnclosedDeletes('{', '}', "[]{}<>");
    }
    DeletesShrinks(Removables()[k]);
  }

  /** The text after the first `k` removal loops: right after loop `k` its
    * pattern no longer matches, and only characters of the input remain. */
  function Removed(s: string, k: nat): (r: string)
    requires k <= 4
    ensures k >= 1 ==> !Found(Removables()[k - 1], r)
    ensures multiset(r) <= multiset(s)
  {
    if k == 0 then s
    else
      RemovablesDelete(k - 1);
      var prev := Removed(s, k - 1);
      ExhaustDeletes(Removables()[k - 1], prev);
      Exhaust(Removables()[k - 1], Length, prev)
  }

  /** `remove_removables(file_content)`. */
  method RemoveRemovables(content: string) returns (r: string)
    ensures r == Removed(content, 4)
  {
    r := content;
    var patterns := Removables();
    for k := 0 to 4
      invariant r == Removed(content, k)
    {
      RemovablesDelete(k);
      var m := patterns[k];
      while Found(m, r)
        invariant Exhaust(m, Length, r) == Removed(content, k + 1)
        decreases |r|
      {
        r := Sub(m, r);
      }
    }
  }

  /** The output is never longer than the input. */
  lemma RemovedShorter(s: string)
    ensures |Removed(s, 4)| <= |s|
  {
    var r := Removed(s, 4);
    assert multiset(s) == multiset(r) + (multiset(s) - multiset(r));
  }

  // ---------------------------------------------------------------------
  // keep_keepables

  /** `〈(.*?)〉` tried at the start of `t` (`.` stops at a newline): the
    * brackets are dropped and their content kept. */
  function KeepAt(t: string): (r: Option<Hit>)
    ensures r.Some? ==> 2 <= r.value.len <= |t|
    ensures r.Some? ==> t[..r.value.len] == ['〈'] + r.value.repl + ['〉']
    ensures r.Some? ==> '〉' !in r.value.repl && '\n' !in r.value.repl
    ensures r.None? && |t| >= 1 && t[0] == '〈' ==>
              forall j :: 1 <= j < |t| && t[j] == '〉' ==> '\n' in t[1..j]
  {
    if |t| >= 1 && t[0] == '〈' then
      var k := Span(t[1..], "〉\n");
      if k < |t| - 1 && t[1 + k] == '〉' then
        KeptInner(t, k);
        Some(Hit(k + 2, t[1..1 + k]))
      else
        assert forall j :: 1 <= j < |t| && t[j] == '〉' ==> '\n' in t[1..j] by {
          forall j | 1 <= j < |t| && t[j] == '〉'
            ensures '\n' in t[1..j]
          {
            assert t[1..][j - 1] == '〉';
            assert t[1..j][k] == t[1 + k];
          }
        }
        None
    else None
  }

  /** The bracketed match found by `KeepAt`, split into its parts. */
  lemma KeptInner(t: string, k: nat)
    requires k + 2 <= |t| && t[0] == '〈' && t[1 + k] == '〉'
    requires forall i :: 0 <= i < k ==> t[1..][i] !in "〉\n"
    ensures t[..k + 2] == ['〈'] + t[1..1 + k] + ['〉']
    ensures '〉' !in t[1..1 + k] && '\n' !in t[1..1 + k]
  {
    var inner := t[1..1 + k];
    assert t[..k + 2] == ['〈'] + inner + ['〉'] by {
      forall i | 0 <= i < k + 2
        ensures t[..k + 2][i] == (['〈'] + inner + ['〉'])[i]
      {
        if 1 <= i <= k {
          assert (['〈'] + inner + ['〉'])[i] == inner[i - 1];
        }
      }
    }
    forall i | 0 <= i < k
      ensures inner[i] != '〉' && inner[i] != '\n'
    {
      assert inner[i] == t[1..][i];
    }
  }

  lemma KeepSane()
    ensures Sane(KeepAt)
  {
  }

  /** `keep_keepables(file_content)`. */
  function KeepKeepables(s: string): string
  {
    KeepSane();
    Sub(KeepAt, s)
  }

  lemma KeepCounts()
    ensures Sane(KeepAt)
    ensures Fewer(KeepAt, '〈') && Fewer(KeepAt, '〉')
    ensures forall c :: c != '〈' && c != '〉' ==> SameCount(KeepAt, c)
  {
    forall t | KeepAt(t).Some?
      ensures Count(t[..KeepAt(t).value.len], '〈') == Count(KeepAt(t).value.repl, '〈') + 1
      ensures Count(t[..KeepAt(t).value.len], '〉') == Count(KeepAt(t).value.repl, '〉') + 1
      ensures forall c :: c != '〈' && c != '〉' ==>
                Count(t[..KeepAt(t).value.len], c) == Count(KeepAt(t).value.repl, c)
    {
      var h := KeepAt(t).value;
      assert t[..h.len] == ['〈'] + h.repl + ['〉'];
    }
  }

  /** Unwrapping keeps every other character, and removes one `〈` and one
    * `〉` per bracket pair; without a pair the text is unchanged. */
  lemma KeepKeepablesCounts(s: string, c: char)
    ensures c != '〈' && c != '〉' ==> Count(KeepKeepables(s), c) == Count(s, c)
    ensures Count(KeepKeepables(s), '〈') <= Count(s, '〈')
    ensures Found(KeepAt, s) ==> Count(KeepKeepables(s), '〈') < Count(s, '〈')
    ensures Found(KeepAt, s) ==> Count(KeepKeepables(s), '〉') < Count(s, '〉')
    ensures !Found(KeepAt, s) ==> KeepKeepables(s) == s
  {
    KeepCounts();
    SubCount(KeepAt, '〈', s);
    SubCount(KeepAt, '〉', s);
    if c != '〈' && c != '〉' {
      SubSameCount(KeepAt, c, s);
    }
  }

  // ---------------------------------------------------------------------
  // clean_up_whitespace

  /** The number of copies of `c` that `t` starts with. */
  function RunLen(t: string, c: char): (k: nat)
    ensures k <= |t|
    ensures forall i :: 0 <= i < k ==> t[i] == c
    ensures k < |t| ==> t[k] != c
  {
    if t != [] && t[0] == c then 1 + RunLen(t[1..], c) else 0
  }

  /** `c{2,}` replaced by `keep`, tried at the start of `t`. */
  function CollapseAt(t: string, c: char, keep: string): Option<Hit>
  {
    if RunLen(t, c) >= 2 then Some(Hit(RunLen(t, c), keep)) else None
  }

  function Collapse(c: char, keep: string): Matcher
  {
    t => CollapseAt(t, c, keep)
  }

  lemma CollapseApply(c: char, keep: string)
    ensures forall t :: Collapse(c, keep)(t) == CollapseAt(t, c, keep)
  {
  }

  /** ` *(\n+) *` replaced by the newlines, tried at the start of `t`. */
  function SpacedNewlineAt(t: string): (r: Option<Hit>)
    ensures r.Some? ==> 1 <= r.value.len <= |t|
    ensures r.Some? ==> r.value.repl != [] && forall i :: 0 <= i < |r.value.repl| ==> r.value.repl[i] == '\n'
    ensures r.Some? ==> r.value.len == |t| || t[r.value.len] != ' '
    ensures r.Some? <==> RunLen(t, ' ') < |t| && t[RunLen(t, ' ')] == '\n'
  {
    var k1 := RunLen(t, ' ');
    if k1 < |t| && t[k1] == '\n' then
      var k2 := RunLen(t[k1..], '\n');
      var k3 := RunLen(t[k1 + k2..], ' ');
      assert k1 + k2 + k3 == |t| || t[k1 + k2 + k3] == t[k1 + k2..][k3];
      Some(Hit(k1 + k2 + k3, t[k1..k1 + k2]))
    else None
  }

  lemma SpacedNewlineSane()
    ensures Sane(SpacedNewlineAt)
  {
  }

  const TabRuns := Collapse('\t', "\t")
  const SpacedNewlines := SpacedNewlineAt
  const NewlineRuns := Collapse('\n', "\n\n")
  const SpaceRuns := Collapse(' ', " ")

  lemma CleanSane()
    ensures Sane(TabRuns) && Sane(SpacedNewlines) && Sane(NewlineRuns) && Sane(SpaceRuns)
  {
    CollapseApply('\t', "\t");
    CollapseApply('\n', "\n\n");
    CollapseApply(' ', " ");
  }

  /** Step `k` of the six replacements; `\A\s*` and `\s*\Z` delete the
    * leading and trailing whitespace. */
  function CleanStep(s: string, k: nat): string
    requires k < 6
  {
    CleanSane();
    if k == 0 then Sub(TabRuns, s)
    else if k == 1 then Sub(SpacedNewlines, s)
    else if k == 2 then Sub(NewlineRuns, s)
    else if k == 3 then Sub(SpaceRuns, s)
    else if k == 4 then LStrip(s)
    else RStrip(s)
  }

  /** The text after the first `k` replacements. */
  function Cleaned(s: string, k: nat): string
    requires k <= 6
  {
    if k == 0 then s else CleanStep(Cleaned(s, k - 1), k - 1)
  }

  /** `clean_up_whitespace(content)`. */
  method CleanUpWhitespace(content: string) returns (r: string)
    ensures r == Cleaned(content, 6)
  {
    r := content;
    for k := 0 to 6
      invariant r == Cleaned(content, k)
    {
      r := CleanStep(r, k);
    }
  }

  /** No `x` is directly followed by `y`. */
  ghost predicate NoAdj(s: string, x: char, y: char)
  {
    forall i :: 0 <= i < |s| - 1 ==> !(s[i] == x && s[i + 1] == y)
  }

  /** No three `c` in a row. */
  ghost predicate NoTriple(s: string, c: char)
  {
    forall i :: 0 <= i < |s| - 2 ==> !(s[i] == c && s[i + 1] == c && s[i + 2] == c)
  }

  lemma SliceNoAdj(s: string, i: nat, j: nat, x: char, y: char)
    requires i <= j <= |s| && NoAdj(s, x, y)
    ensures NoAdj(s[i..j], x, y)
  {
    forall p | 0 <= p < |s[i..j]| - 1
      ensures !(s[i..j][p] == x && s[i..j][p + 1] == y)
    {
      assert s[i..j][p] == s[i + p] && s[i..j][p + 1] == s[i + p + 1];
    }
  }

  lemma SliceNoTriple(s: string, i: nat, j: nat, c: char)
    requires i <= j <= |s| && NoTriple(s, c)
    ensures NoTriple(s[i..j], c)
  {
    forall p | 0 <= p < |s[i..j]| - 2
      ensures !(s[i..j][p] == c && s[i..j][p + 1] == c && s[i..j][p + 2] == c)
    {
      assert s[i..j][p] == s[i + p] && s[i..j][p + 1] == s[i + p + 1] && s[i..j][p + 2] == s[i + p + 2];
    }
  }

  lemma {:induction false} ConcatNoAdj(a: string, b: string, x: char, y: char)
    requires NoAdj(a, x, y) && NoAdj(b, x, y)
    requires a != [] && b != [] ==> !(a[|a| - 1] == x && b[0] == y)
    ensures NoAdj(a + b, x, y)
  {
    var s := a + b;
    forall i | 0 <= i < |s| - 1
      ensures !(s[i] == x && s[i + 1] == y)
    {
      if i + 1 < |a| {
        assert s[i] == a[i] && s[i + 1] == a[i + 1];
      } else if i >= |a| {
        assert s[i] == b[i - |a|] && s[i + 1] == b[i - |a| + 1];
      } else {
        assert s[i] == a[|a| - 1] && s[i + 1] == b[0];
      }
    }
  }

  /** A replacement that cannot start or end a forbidden pair unless the
    * text it replaces did. */
  ghost predicate Safe(m: Matcher, x: char, y: char)
  {
    forall t :: m(t).Some? ==>
      var h := m(t).value;
      1 <= h.len <= |t| && h.repl != [] && NoAdj(h.repl, x, y)
      && (h.repl[0] == y ==> t[0] == y)
      && (h.repl[|h.repl| - 1] == x ==> t[h.len - 1] == x)
  }

  /** A safe rewrite never creates an `x` directly followed by a `y`. */
  lemma {:induction false} SubNoAdj(m: Matcher, x: char, y: char, s: string)
    requires Sane(m) && Safe(m, x, y) && NoAdj(s, x, y)
    ensures NoAdj(Sub(m, s), x, y)
    ensures s != [] ==> Sub(m, s) != [] && (Sub(m, s)[0] == y ==> s[0] == y)
    decreases |s|
  {
    if s != [] {
      match m(s)
      case Some(h) =>
        var rest := s[h.len..];
        SliceNoAdj(s, h.len, |s|, x, y);
        SubNoAdj(m, x, y, rest);
        if rest != [] {
          assert rest[0] == s[h.len];
        }
        ConcatNoAdj(h.repl, Sub(m, rest), x, y);
      case None =>
        var rest := s[1..];
        SliceNoAdj(s, 1, |s|, x, y);
        SubNoAdj(m, x, y, rest);
        ConcatNoAdj([s[0]], Sub(m, rest), x, y);
    }
  }

  /** Collapsing a run of `c` into one or two `c` cannot start or end an
    * `x`-`y` pair other than `c`-`c`. */
  lemma CollapseSafe(c: char, keep: string, x: char, y: char)
    requires keep == [c] || keep == [c, c]
    requires x != c || y != c
    ensures Sane(Collapse(c, keep)) && Safe(Collapse(c, keep), x, y)
  {
    CollapseApply(c, keep);
    assert NoAdj(keep, x, y);
  }

  lemma SpacedNewlineSafe(x: char, y: char)
    requires x != '\n' && y != '\n'
    ensures Sane(SpacedNewlines) && Safe(SpacedNewlines, x, y)
  {
  }

  lemma CollapseKeepsHead(c: char, keep: string)
    requires keep != [] && keep[0] == c
    ensures Sane(Collapse(c, keep)) && KeepsHead(Collapse(c, keep))
  {
    CollapseApply(c, keep);
  }

  /** After `c{2,}` becomes a single `c`, no two `c` are adjacent. */
  lemma {:induction false} CollapseSingle(c: char, s: string)
    ensures Sane(Collapse(c, [c]))
    ensures NoAdj(Sub(Collapse(c, [c]), s), c, c)
    decreases |s|
  {
    CollapseKeepsHead(c, [c]);
    var m := Collapse(c, [c]);
    if s != [] {
      var k := RunLen(s, c);
      if k >= 2 {
        assert m(s) == Some(Hit(k, [c]));
        var rest := s[k..];
        CollapseSingle(c, rest);
        if rest != [] {
          SubHead(m, rest);
          assert rest[0] == s[k];
        }
        ConcatNoAdj([c], Sub(m, rest), c, c);
      } else {
        assert m(s) == None;
        var rest := s[1..];
        CollapseSingle(c, rest);
        if rest != [] {
          SubHead(m, rest);
          assert s[0] == c ==> rest[0] != c;
        }
        ConcatNoAdj([s[0]], Sub(m, rest), c, c);
      }
    }
  }

  lemma {:induction false} ConcatNoTriple(a: string, b: string, c: char)
    requires NoTriple(a, c) && NoTriple(b, c)
    requires |a| >= 1 && |b| >= 2 ==> !(a[|a| - 1] == c && b[0] == c && b[1] == c)
    requires |a| >= 2 && |b| >= 1 ==> !(a[|a| - 2] == c && a[|a| - 1] == c && b[0] == c)
    ensures NoTriple(a + b, c)
  {
    var s := a + b;
    forall i | 0 <= i < |s| - 2
      ensures !(s[i] == c && s[i + 1] == c && s[i + 2] == c)
    {
      if i + 2 < |a| {
        assert s[i] == a[i] && s[i + 1] == a[i + 1] && s[i + 2] == a[i + 2];
      } else if i >= |a| {
        assert s[i] == b[i - |a|] && s[i + 1] == b[i - |a| + 1] && s[i + 2] == b[i - |a| + 2];
      } else if i + 1 == |a| {
        assert s[i] == a[|a| - 1] && s[i + 1] == b[0] && s[i + 2] == b[1];
      } else {
        assert s[i] == a[|a| - 2] && s[i + 1] == a[|a| - 1] && s[i + 2] == b[0];
      }
    }
  }

  /** After `c{2,}` becomes `cc`, no three `c` are in a row. */
  lemma {:induction false} CollapseDouble(c: char, s: string)
    ensures Sane(Collapse(c, [c, c]))
    ensures NoTriple(Sub(Collapse(c, [c, c]), s), c)
    decreases |s|
  {
    CollapseKeepsHead(c, [c, c]);
    var m := Collapse(c, [c, c]);
    if s != [] {
      var k := RunLen(s, c);
      var n := if k >= 2 then k else 1;
      var rest := s[n..];
      CollapseDouble(c, rest);
      var tail := Sub(m, rest);
      if rest != [] {
        SubHead(m, rest);
        assert rest[0] == s[n];
      }
      if k >= 2 {
        assert m(s) == Some(Hit(k, [c, c]));
        ConcatNoTriple([c, c], tail, c);
      } else {
        assert m(s) == None;
        ConcatNoTriple([s[0]], tail, c);
      }
    }
  }

  /** After ` *(\n+) *` becomes the newlines alone, no space touches a
    * newline. */
  lemma {:induction false} SpacedNewlineClears(s: string)
    ensures Sane(SpacedNewlines)
    ensures NoAdj(Sub(SpacedNewlines, s), ' ', '\n') && NoAdj(Sub(SpacedNewlines, s), '\n', ' ')
    ensures s != [] ==> Sub(SpacedNewlines, s) != []
    ensures s != [] && Sub(SpacedNewlines, s)[0] == ' ' ==> s[0] == ' ' && SpacedNewlineAt(s).None?
    ensures s != [] && Sub(SpacedNewlines, s)[0] == '\n' ==> SpacedNewlineAt(s).Some?
    decreases |s|
  {
    SpacedNewlineSane();
    var m := SpacedNewlines;
    if s != [] {
      match SpacedNewlineAt(s)
      case Some(h) =>
        var rest := s[h.len..];
        SpacedNewlineClears(rest);
        var tail := Sub(m, rest);
        assert Sub(m, s) == h.repl + tail;
        assert tail == [] || tail[0] != ' ' by {
          if rest != [] {
            assert rest[0] == s[h.len];
          }
        }
        ClearsAfterNewlines(h.repl, tail);
      case None =>
        var rest := s[1..];
        SpacedNewlineClears(rest);
        var tail := Sub(m, rest);
        assert Sub(m, s) == [s[0]] + tail;
        assert s[0] != '\n' by {
          assert RunLen(s, ' ') == 0 || s[0] == ' ';
        }
        assert s[0] == ' ' ==> tail == [] || tail[0] != '\n' by {
          if rest != [] && s[0] == ' ' {
            assert RunLen(s, ' ') == 1 + RunLen(rest, ' ');
          }
        }
        ClearsAfterChar(s[0], tail);
    }
  }

  /** A run of newlines followed by text that starts with no space. */
  lemma ClearsAfterNewlines(nl: string, tail: string)
    requires nl != [] && forall i :: 0 <= i < |nl| ==> nl[i] == '\n'
    requires NoAdj(tail, ' ', '\n') && NoAdj(tail, '\n', ' ')
    requires tail == [] || tail[0] != ' '
    ensures NoAdj(nl + tail, ' ', '\n') && NoAdj(nl + tail, '\n', ' ')
    ensures (nl + tail)[0] == '\n'
  {
    assert NoAdj(nl, ' ', '\n') && NoAdj(nl, '\n', ' ');
    ConcatNoAdj(nl, tail, ' ', '\n');
    ConcatNoAdj(nl, tail, '\n', ' ');
  }

  /** One character that is not a newline, followed by text that starts
    * with no newline when that character is a space. */
  lemma ClearsAfterChar(c: char, tail: string)
    requires c != '\n'
    requires NoAdj(tail, ' ', '\n') && NoAdj(tail, '\n', ' ')
    requires c == ' ' ==> tail == [] || tail[0] != '\n'
    ensures NoAdj([c] + tail, ' ', '\n') && NoAdj([c] + tail, '\n', ' ')
    ensures ([c] + tail)[0] == c
  {
    ConcatNoAdj([c], tail, ' ', '\n');
    ConcatNoAdj([c], tail, '\n', ' ');
  }

  /** Collapsing spaces never makes three newlines meet. */
  lemma {:induction false} SpaceRunsKeepNoTriple(s: string)
    requires NoTriple(s, '\n')
    ensures Sane(SpaceRuns)
    ensures NoTriple(Sub(SpaceRuns, s), '\n')
    decreases |s|
  {
    CollapseKeepsHead(' ', " ");
    var m := SpaceRuns;
    if s != [] {
      var k := RunLen(s, ' ');
      var n := if k >= 2 then k else 1;
      var rest := s[n..];
      SliceNoTriple(s, n, |s|, '\n');
      SpaceRunsKeepNoTriple(rest);
      var tail := Sub(m, rest);
      if k >= 2 {
        assert m(s) == Some(Hit(k, " "));
        ConcatNoTriple(" ", tail, '\n');
      } else {
        assert m(s) == None;
        SpaceRunsSecond(rest);
        assert |rest| >= 2 ==> rest[0] == s[1] && rest[1] == s[2];
        ConcatNoTriple([s[0]], tail, '\n');
      }
    }
  }

  /** Collapsing spaces keeps two leading newlines and nothing else makes
    * them. */
  lemma SpaceRunsSecond(v: string)
    requires Sane(SpaceRuns) && KeepsHead(SpaceRuns)
    ensures var t := Sub(SpaceRuns, v);
      |t| >= 2 && t[0] == '\n' && t[1] == '\n' ==> |v| >= 2 && v[0] == '\n' && v[1] == '\n'
  {
    var m := SpaceRuns;
    if v != [] && v[0] == '\n' {
      CollapseApply(' ', " ");
      assert m(v) == None;
      assert Sub(m, v) == [v[0]] + Sub(m, v[1..]);
      if v[1..] != [] {
        SubHead(m, v[1..]);
      }
    } else if v != [] {
      SubHead(m, v);
    }
  }

  /** The five spacing properties, before the strips. */
  ghost predicate Spaced(r: string)
  {
    NoAdj(r, ' ', ' ') && NoAdj(r, '\t', '\t') && NoTriple(r, '\n')
    && NoAdj(r, ' ', '\n') && NoAdj(r, '\n', ' ')
  }

  lemma StepsSpaced(s: string)
    ensures Spaced(Cleaned(s, 4))
  {
    CleanSane();
    var s1 := Cleaned(s, 1);
    var s2 := Cleaned(s, 2);
    var s3 := Cleaned(s, 3);
    assert Cleaned(s, 0) == s;
    assert s1 == CleanStep(s, 0);
    assert s1 == Sub(TabRuns, s);
    assert s2 == Sub(SpacedNewlines, s1);
    assert s3 == Sub(NewlineRuns, s2);
    assert Cleaned(s, 4) == Sub(SpaceRuns, s3);
    CollapseSingle('\t', s);
    SpacedNewlineStep(s1);
    NewlineRunsStep(s2);
    SpaceRunsStep(s3);
  }

  /** Step 2 keeps tabs single and clears spaces off newlines. */
  lemma SpacedNewlineStep(s1: string)
    requires NoAdj(s1, '\t', '\t')
    ensures Sane(SpacedNewlines)
    ensures var s2 := Sub(SpacedNewlines, s1);
      NoAdj(s2, '\t', '\t') && NoAdj(s2, ' ', '\n') && NoAdj(s2, '\n', ' ')
  {
    SpacedNewlineSafe('\t', '\t');
    SubNoAdj(SpacedNewlines, '\t', '\t', s1);
    SpacedNewlineClears(s1);
  }

  /** Step 3 caps newline runs at two and keeps the earlier properties. */
  lemma NewlineRunsStep(s2: string)
    requires NoAdj(s2, '\t', '\t') && NoAdj(s2, ' ', '\n') && NoAdj(s2, '\n', ' ')
    ensures Sane(NewlineRuns)
    ensures var s3 := Sub(NewlineRuns, s2);
      NoAdj(s3, '\t', '\t') && NoAdj(s3, ' ', '\n') && NoAdj(s3, '\n', ' ') && NoTriple(s3, '\n')
  {
    CollapseSafe('\n', "\n\n", '\t', '\t');
    SubNoAdj(NewlineRuns, '\t', '\t', s2);
    CollapseSafe('\n', "\n\n", ' ', '\n');
    SubNoAdj(NewlineRuns, ' ', '\n', s2);
    CollapseSafe('\n', "\n\n", '\n', ' ');
    SubNoAdj(NewlineRuns, '\n', ' ', s2);
    CollapseDouble('\n', s2);
  }

  /** Step 4 makes spaces single and keeps the earlier properties. */
  lemma SpaceRunsStep(s3: string)
    requires NoAdj(s3, '\t', '\t') && NoAdj(s3, ' ', '\n') && NoAdj(s3, '\n', ' ') && NoTriple(s3, '\n')
    ensures Sane(SpaceRuns)
    ensures Spaced(Sub(SpaceRuns, s3))
  {
    CollapseSafe(' ', " ", '\t', '\t');
    SubNoAdj(SpaceRuns, '\t', '\t', s3);
    CollapseSafe(' ', " ", ' ', '\n');
    SubNoAdj(SpaceRuns, ' ', '\n', s3);
    CollapseSafe(' ', " ", '\n', ' ');
    SubNoAdj(SpaceRuns, '\n', ' ', s3);
    SpaceRunsKeepNoTriple(s3);
    CollapseSingle(' ', s3);
  }

  lemma SliceSpaced(s: string, i: nat, j: nat)
    requires i <= j <= |s| && Spaced(s)
    ensures Spaced(s[i..j])
  {
    SliceNoAdj(s, i, j, ' ', ' ');
    SliceNoAdj(s, i, j, '\t', '\t');
    SliceNoAdj(s, i, j, ' ', '\n');
    SliceNoAdj(s, i, j, '\n', ' ');
    SliceNoTriple(s, i, j, '\n');
  }

  /** The shape of `clean_up_whitespace`'s output: no leading or trailing
    * whitespace, no two spaces or two tabs in a row, no three newlines in a
    * row and no space next to a newline. */
  lemma CleanedShape(s: string)
    ensures var r := Cleaned(s, 6);
      (r == [] || (!IsSpace(r[0]) && !IsSpace(r[|r| - 1]))) && Spaced(r)
  {
    var s4 := Cleaned(s, 4);
    var s5 := Cleaned(s, 5);
    var r := Cleaned(s, 6);
    assert s5 == CleanStep(s4, 4) == LStrip(s4);
    assert r == CleanStep(s5, 5) == RStrip(s5);
    StepsSpaced(s);
    StripSpaced(s4);
    StripEnds(s4);
  }

  /** The strips delete the ends and keep the spacing properties. */
  lemma StripSpaced(x: string)
    requires Spaced(x)
    ensures Spaced(RStrip(LStrip(x)))
  {
    var y := LStrip(x);
    SuffixSpaced(x, y);
    PrefixSpaced(y, RStrip(y));
  }

  lemma SuffixSpaced(x: string, y: string)
    requires Spaced(x) && |y| <= |x| && y == x[|x| - |y|..]
    ensures Spaced(y)
  {
    SliceSpaced(x, |x| - |y|, |x|);
  }

  lemma PrefixSpaced(x: string, y: string)
    requires Spaced(x) && |y| <= |x| && y == x[..|y|]
    ensures Spaced(y)
  {
    SliceSpaced(x, 0, |y|);
  }

  lemma StripEnds(x: string)
    ensures var r := RStrip(LStrip(x));
      r == [] || (!IsSpace(r[0]) && !IsSpace(r[|r| - 1]))
  {
    var y := LStrip(x);
    var r := RStrip(y);
    if r != [] {
      assert r == y[..|r|];
      assert r[0] == y[0];
    }
  }
}
