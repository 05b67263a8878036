/** Python's `re.search` and `re.sub` for patterns that never match the
  * empty string and never look behind their starting point. Such a
  * pattern is given as a `Matcher`: tried at the start of a string, it
  * says how many characters the match spans and what replaces them. */
module Rewrite {
  import opened Wrappers
  import opened Strings

  datatype Hit = Hit(len: nat, repl: string)

  type Matcher = string -> Option<Hit>

  /** Every match spans at least one character of the string it is tried on. */
  ghost predicate Sane(m: Matcher)
  {
    forall s :: m(s).Some? ==> 1 <= m(s).value.len <= |s|
  }

  /** `re.search(p, s)`: some position of `s` starts a match. */
  predicate Found(m: Matcher, s: string)
    decreases |s|
  {
    s != [] && (m(s).Some? || Found(m, s[1..]))
  }

  /** `re.sub(p, repl, s)`: the leftmost match is replaced, the scan goes on
    * after it, and characters where no match starts are copied. */
  function Sub(m: Matcher, s: string): (r: string)
    requires Sane(m)
    ensures !Found(m, s) ==> r == s
    decreases |s|
  {
    if s == [] then []
    else
      match m(s)
      case Some(h) => h.repl + Sub(m, s[h.len..])
      case None => [s[0]] + Sub(m, s[1..])
  }

  lemma SubAtMatch(m: Matcher, s: string)
    requires Sane(m) && m(s).Some?
    ensures Sub(m, s) == m(s).value.repl + Sub(m, s[m(s).value.len..])
  {
  }

  /** `re.findall(p, s)` for a pattern without groups: the matched texts,
    * leftmost first, each scan resuming after the previous match. */
  function FindAll(m: Matcher, s: string): (r: seq<string>)
    requires Sane(m)
    ensures r == [] <==> !Found(m, s)
    ensures forall k :: 0 <= k < |r| ==> r[k] != []
    decreases |s|
  {
    if s == [] then []
    else
      match m(s)
      case Some(h) => [s[..h.len]] + FindAll(m, s[h.len..])
      case None => FindAll(m, s[1..])
  }

  /** Applying the rewrite wherever the pattern occurs makes `w` smaller. */
  ghost predicate Shrinks(m: Matcher, w: string -> nat)
    requires Sane(m)
  {
    forall s :: Found(m, s) ==> w(Sub(m, s)) < w(s)
  }

  /** `while re.search(p, s): s = re.sub(p, repl, s)`. */
  function Exhaust(m: Matcher, w: string -> nat, s: string): (r: string)
    requires Sane(m) && Shrinks(m, w)
    ensures !Found(m, r)
    ensures !Found(m, s) ==> r == s
    decreases w(s)
  {
    if Found(m, s) then Exhaust(m, w, Sub(m, s)) else s
  }

  /** The number of occurrences of `c` in `s`. */
  function Count(s: string, c: char): nat
  {
    multiset(s)[c]
  }

  /** No replacement holds more `c` than the text it replaces. */
  ghost predicate NoMore(m: Matcher, c: char)
    requires Sane(m)
  {
    forall s :: m(s).Some? ==> Count(m(s).value.repl, c) <= Count(s[..m(s).value.len], c)
  }

  /** Every replacement holds fewer `c` than the text it replaces. */
  ghost predicate Fewer(m: Matcher, c: char)
    requires Sane(m)
  {
    forall s :: m(s).Some? ==> Count(m(s).value.repl, c) < Count(s[..m(s).value.len], c)
  }

  /** Every replacement holds as many `c` as the text it replaces. */
  ghost predicate SameCount(m: Matcher, c: char)
    requires Sane(m)
  {
    forall s :: m(s).Some? ==> Count(m(s).value.repl, c) == Count(s[..m(s).value.len], c)
  }

  lemma {:induction false} SubSameCount(m: Matcher, c: char, s: string)
    requires Sane(m) && SameCount(m, c)
    ensures Count(Sub(m, s), c) == Count(s, c)
    decreases |s|
  {
    if s != [] {
      match m(s)
      case Some(h) =>
        SubSameCount(m, c, s[h.len..]);
        assert s == s[..h.len] + s[h.len..];
      case None =>
        SubSameCount(m, c, s[1..]);
        assert s == [s[0]] + s[1..];
    }
  }

  /** A rewrite whose replacements never add a `c` never adds one in all,
    * and one whose replacements each drop a `c` drops one whenever the
    * pattern occurs. */
  lemma {:induction false} SubCount(m: Matcher, c: char, s: string)
    requires Sane(m) && NoMore(m, c)
    ensures Count(Sub(m, s), c) <= Count(s, c)
    ensures Fewer(m, c) && Found(m, s) ==> Count(Sub(m, s), c) < Count(s, c)
    decreases |s|
  {
    if s != [] {
      match m(s)
      case Some(h) =>
        SubCount(m, c, s[h.len..]);
        assert s == s[..h.len] + s[h.len..];
      case None =>
        SubCount(m, c, s[1..]);
        assert s == [s[0]] + s[1..];
    }
  }

  /** The first text `findall` reports occurs in the string searched. */
  lemma {:induction false} FirstHitOccurs(m: Matcher, s: string)
    requires Sane(m) && Found(m, s)
    ensures Contains(s, FindAll(m, s)[0])
    decreases |s|
  {
    match m(s)
    case Some(h) =>
      assert OccursAt(s, FindAll(m, s)[0], 0);
    case None =>
      FirstHitOccurs(m, s[1..]);
      var t := FindAll(m, s[1..])[0];
      assert FindAll(m, s)[0] == t;
      var i :| 0 <= i <= |s[1..]| - |t| && OccursAt(s[1..], t, i);
      assert s[1..][i..i + |t|] == t;
      assert s[i + 1..i + 1 + |t|] == t by {
        forall k | 0 <= k < |t|
          ensures s[i + 1 + k] == t[k]
        {
          assert t[k] == s[1..][i..i + |t|][k];
        }
      }
      assert OccursAt(s, t, i + 1);
  }

  /** Every replacement is empty: the rewrite only deletes. */
  ghost predicate Deletes(m: Matcher)
  {
    forall s :: m(s).Some? ==> m(s).value.repl == []
  }

  /** The length of a string, as a termination measure. */
  function Length(s: string): nat
  {
    |s|
  }

  /** A deleting rewrite keeps a sub-multiset of the characters, and
    * removes some whenever the pattern occurs. */
  lemma {:induction false} SubDeletes(m: Matcher, s: string)
    requires Sane(m) && Deletes(m)
    ensures multiset(Sub(m, s)) <= multiset(s)
    ensures Found(m, s) ==> |Sub(m, s)| < |s|
    ensures |Sub(m, s)| <= |s|
    decreases |s|
  {
    if s != [] {
      match m(s)
      case Some(h) =>
        var rest := s[h.len..];
        SubDeletes(m, rest);
        assert Sub(m, s) == Sub(m, rest) by {
          assert h.repl == [];
        }
        DropPrefix(s, h.len);
      case None =>
        var rest := s[1..];
        SubDeletes(m, rest);
        assert Sub(m, s) == [s[0]] + Sub(m, rest);
        DropPrefix(s, 1);
    }
  }

  /** Dropping a non-empty prefix keeps a sub-multiset and shortens. */
  lemma DropPrefix(s: string, k: nat)
    requires 1 <= k <= |s|
    ensures multiset(s) == multiset(s[..k]) + multiset(s[k..])
    ensures multiset(s[k..]) <= multiset(s) && |s[k..]| < |s|
    ensures k == 1 ==> multiset(s) == multiset([s[0]]) + multiset(s[1..])
  {
    assert s == s[..k] + s[k..];
    if k == 1 {
      assert s[..1] == [s[0]];
    }
  }

  lemma DeletesShrinks(m: Matcher)
    requires Sane(m) && Deletes(m)
    ensures Shrinks(m, Length)
  {
    forall s | Found(m, s)
      ensures Length(Sub(m, s)) < Length(s)
    {
      SubDeletes(m, s);
    }
  }

  /** Deleting until the pattern is gone keeps a sub-multiset of the
    * characters. */
  lemma {:induction false} ExhaustDeletes(m: Matcher, s: string)
    requires Sane(m) && Deletes(m)
    ensures Shrinks(m, Length)
    ensures multiset(Exhaust(m, Length, s)) <= multiset(s)
    decreases |s|
  {
    DeletesShrinks(m);
    if Found(m, s) {
      SubDeletes(m, s);
      ExhaustDeletes(m, Sub(m, s));
    }
  }

  /** Every replacement is non-empty and starts like the text it replaces. */
  ghost predicate KeepsHead(m: Matcher)
  {
    forall s :: m(s).Some? ==> s != [] && m(s).value.repl != [] && m(s).value.repl[0] == s[0]
  }

  lemma SubHead(m: Matcher, s: string)
    requires Sane(m) && KeepsHead(m) && s != []
    ensures Sub(m, s) != [] && Sub(m, s)[0] == s[0]
  {
  }
}
