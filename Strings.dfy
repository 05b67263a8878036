/** Python `str` operations used throughout the repository, on `seq<char>`. */
module Strings {
  import opened Wrappers

  /** The characters for which Python's `str.isspace()` holds; the class
    * `\s` of a `str` regular expression matches exactly the same set. */
  predicate IsSpace(c: char)
  {
    c == ' ' || ('\t' <= c <= '\r') || ('\U{1C}' <= c <= '\U{1F}') || c == '\U{85}'
    || c == '\U{A0}' || c == '\U{1680}' || ('\U{2000}' <= c <= '\U{200A}') || c == '\U{2028}'
    || c == '\U{2029}' || c == '\U{202F}' || c == '\U{205F}' || c == '\U{3000}'
  }

  /** `\d`, restricted to ASCII decimal digits. */
  predicate IsDigit(c: char)
  {
    '0' <= c <= '9'
  }

  predicate IsAsciiLetter(c: char)
  {
    'a' <= c <= 'z' || 'A' <= c <= 'Z'
  }

  /** `\w`: letters, digits and `_`, where "letter" covers ASCII, the Latin-1
    * supplement and the Latin extended blocks used by romanised Sanskrit. */
  predicate IsWordChar(c: char)
  {
    IsAsciiLetter(c) || IsDigit(c) || c == '_'
    || c == '\U{AA}' || c == '\U{B2}' || c == '\U{B3}' || c == '\U{B5}' || c == '\U{B9}'
    || c == '\U{BA}' || ('\U{BC}' <= c <= '\U{BE}')
    || ('\U{C0}' <= c <= '\U{D6}') || ('\U{D8}' <= c <= '\U{F6}') || ('\U{F8}' <= c <= '\U{24F}')
    || ('\U{1E00}' <= c <= '\U{1EFF}')
  }

  /** `str.lower()` on the ASCII upper-case letters. */
  function Lower(s: string): (r: string)
    ensures |r| == |s|
    ensures forall i :: 0 <= i < |s| ==> !('A' <= r[i] <= 'Z')
    ensures forall i :: 0 <= i < |s| && !('A' <= s[i] <= 'Z') ==> r[i] == s[i]
    ensures forall i :: 0 <= i < |s| && IsAsciiLetter(s[i]) ==> 'a' <= r[i] <= 'z'
  {
    if s == [] then []
    else [LowerChar(s[0])] + Lower(s[1..])
  }

  /** One character of `str.lower()` on ASCII. */
  function LowerChar(c: char): char
  {
    if 'A' <= c <= 'Z' then (c as int + 32) as char else c
  }

  predicate IsBlank(s: string)
  {
    forall i :: 0 <= i < |s| ==> IsSpace(s[i])
  }

  predicate StartsWith(s: string, prefix: string)
  {
    |prefix| <= |s| && s[..|prefix|] == prefix
  }

  predicate EndsWith(s: string, suffix: string)
  {
    |suffix| <= |s| && s[|s| - |suffix|..] == suffix
  }

  /** `t in s` for strings. */
  predicate Contains(s: string, t: string)
  {
    exists i :: 0 <= i <= |s| - |t| && OccursAt(s, t, i)
  }

  predicate OccursAt(s: string, t: string, i: int)
  {
    0 <= i <= |s| - |t| && s[i..i + |t|] == t
  }

  /** `s.lstrip(chars)`: the longest suffix of `s` that does not start with
    * a character satisfying `drop`. */
  function TrimLeft(s: string, drop: char -> bool): (r: string)
    ensures |r| <= |s| && r == s[|s| - |r|..]
    ensures r == [] || !drop(r[0])
    ensures forall i :: 0 <= i < |s| - |r| ==> drop(s[i])
    decreases |s|
  {
    if |s| > 0 && drop(s[0]) then TrimLeft(s[1..], drop) else s
  }

  /** `s.rstrip(chars)`: the longest prefix of `s` that does not end with a
    * character satisfying `drop`. */
  function TrimRight(s: string, drop: char -> bool): (r: string)
    ensures |r| <= |s| && r == s[..|r|]
    ensures r == [] || !drop(r[|r| - 1])
    ensures forall i :: |r| <= i < |s| ==> drop(s[i])
    decreases |s|
  {
    if |s| > 0 && drop(s[|s| - 1]) then TrimRight(s[..|s| - 1], drop) else s
  }

  function LStrip(s: string): string
  {
    TrimLeft(s, IsSpace)
  }

  function RStrip(s: string): string
  {
    TrimRight(s, IsSpace)
  }

  /** `s.strip()`: empty exactly when `s` is blank, and otherwise a slice of
    * `s` that starts and ends with a non-space character. */
  function Strip(s: string): (r: string)
    ensures r == [] <==> IsBlank(s)
    ensures r != [] ==> !IsSpace(r[0]) && !IsSpace(r[|r| - 1])
    ensures |r| <= |s|
  {
    StripShape(s);
    LStrip(RStrip(s))
  }

  lemma StripShape(s: string)
    ensures var r := LStrip(RStrip(s));
      && (r == [] <==> IsBlank(s))
      && (r != [] ==> !IsSpace(r[0]) && !IsSpace(r[|r| - 1]))
      && |r| <= |s|
  {
    var t := RStrip(s);
    var r := LStrip(t);
    if r == [] {
      assert forall i :: 0 <= i < |t| ==> IsSpace(t[i]);
      forall i | 0 <= i < |s|
        ensures IsSpace(s[i])
      {
        if i < |t| {
          assert t[i] == s[i];
        }
      }
    } else {
      assert r[|r| - 1] == t[|t| - 1];
    }
  }

  /** The index of the first occurrence of `c` in `s`. */
  function Find(s: string, c: char): (r: Option<nat>)
    ensures r.None? <==> c !in s
    ensures r.Some? ==> r.value < |s| && s[r.value] == c && c !in s[..r.value]
  {
    if |s| == 0 then None
    else if s[0] == c then Some(0)
    else
      var r := Find(s[1..], c);
      if r.None? then None
      else
        assert s[1..][..r.value] == s[1..r.value + 1];
        Some(r.value + 1)
  }

  /** The first index at or after `k` holding `c`, or `|s|` when there is none. */
  function NextChar(s: string, k: nat, c: char): (f: nat)
    requires k <= |s|
    ensures k <= f <= |s| && (f < |s| ==> s[f] == c)
    ensures forall t :: k <= t < f ==> s[t] != c
    decreases |s| - k
  {
    if k == |s| || s[k] == c then k else NextChar(s, k + 1, c)
  }

  /** `s.split(c, 1)` when `c in s`: the text before and after the first `c`. */
  function SplitFirst(s: string, c: char): (r: (string, string))
    requires c in s
    ensures s == r.0 + [c] + r.1
    ensures c !in r.0
  {
    var i := Find(s, c).value;
    assert s == s[..i] + [c] + s[i + 1..];
    (s[..i], s[i + 1..])
  }

  /** The split at the first `c` is the only one with no `c` before it. */
  lemma SplitFirstUnique(s: string, c: char, a: string, b: string)
    requires s == a + [c] + b && c !in a
    ensures SplitFirst(s, c) == (a, b)
  {
    var r := SplitFirst(s, c);
    assert forall k :: 0 <= k < |a| ==> s[k] == a[k] && s[k] != c;
    assert forall k :: 0 <= k < |r.0| ==> s[k] == r.0[k] && s[k] != c;
    assert s[|a|] == c && s[|r.0|] == c;
    assert |r.0| == |a|;
    assert r.0 == s[..|a|] == a;
    assert r.1 == s[|a| + 1..] == b;
  }

  /** `s.split(c)` for a one-character separator. */
  function Split(s: string, c: char): (r: seq<string>)
    ensures |r| >= 1
    ensures forall k :: 0 <= k < |r| ==> c !in r[k]
    ensures Join(r, [c]) == s
    decreases |s|
  {
    if c in s then
      var (a, b) := SplitFirst(s, c);
      [a] + Split(b, c)
    else [s]
  }

  /** `sep.join(parts)`. */
  function Join(parts: seq<string>, sep: string): string
  {
    if |parts| == 0 then []
    else if |parts| == 1 then parts[0]
    else parts[0] + sep + Join(parts[1..], sep)
  }

  /** `s.replace(old, new)`: occurrences are replaced left to right, and the
    * scan resumes after each replaced occurrence. */
  function Replace(s: string, pat: string, repl: string): string
    requires pat != []
    decreases |s|
  {
    if |s| < |pat| then s
    else if s[..|pat|] == pat then repl + Replace(s[|pat|..], pat, repl)
    else [s[0]] + Replace(s[1..], pat, repl)
  }

  /** Replacing a character by a string without it leaves no occurrence of it. */
  lemma {:induction false} ReplaceCharRemoves(s: string, c: char, repl: string)
    requires c !in repl
    ensures c !in Replace(s, [c], repl)
    decreases |s|
  {
    if |s| < 1 {
    } else if s[..1] == [c] {
      ReplaceCharRemoves(s[1..], c, repl);
    } else {
      ReplaceCharRemoves(s[1..], c, repl);
      assert s[0] != c by { assert s[..1] == [s[0]]; }
    }
  }

  /** Replacing one character by another works position by position: the
    * length stays and each occurrence of `c`, and nothing else, becomes `d`. */
  lemma {:induction false} ReplaceCharPointwise(s: string, c: char, d: char)
    ensures |Replace(s, [c], [d])| == |s|
    ensures forall i :: 0 <= i < |s| ==> Replace(s, [c], [d])[i] == (if s[i] == c then d else s[i])
    decreases |s|
  {
    if |s| >= 1 {
      ReplaceCharPointwise(s[1..], c, d);
      var rest := Replace(s[1..], [c], [d]);
      var head := if s[0] == c then d else s[0];
      assert s[..1] == [s[0]];
      assert Replace(s, [c], [d]) == [head] + rest;
      forall i | 1 <= i < |s|
        ensures Replace(s, [c], [d])[i] == (if s[i] == c then d else s[i])
      {
        assert s[1..][i - 1] == s[i];
      }
    }
  }

  /** Deleting occurrences never lengthens a string, and deleting one that
    * occurs strictly shortens it. */
  lemma {:induction false} ReplaceByEmptyShrinks(s: string, pat: string)
    requires pat != []
    ensures |Replace(s, pat, [])| <= |s|
    ensures Contains(s, pat) ==> |Replace(s, pat, [])| < |s|
    ensures !Contains(s, pat) ==> Replace(s, pat, []) == s
    decreases |s|
  {
    if |s| < |pat| {
      assert !Contains(s, pat);
    } else if s[..|pat|] == pat {
      ReplaceByEmptyShrinks(s[|pat|..], pat);
      assert OccursAt(s, pat, 0);
    } else {
      ReplaceByEmptyShrinks(s[1..], pat);
      ContainsPastFirst(s, pat);
      assert Replace(s, pat, []) == [s[0]] + Replace(s[1..], pat, []);
    }
  }

  /** Where `pat` does not start `s`, it occurs in `s` exactly when it occurs
    * after the first character. */
  lemma ContainsPastFirst(s: string, pat: string)
    requires pat != [] && |s| >= |pat| && s[..|pat|] != pat
    ensures Contains(s, pat) <==> Contains(s[1..], pat)
  {
    if Contains(s, pat) {
      var i :| 0 <= i <= |s| - |pat| && OccursAt(s, pat, i);
      assert i != 0;
      assert OccursAt(s[1..], pat, i - 1) by {
        assert s[1..][i - 1..i - 1 + |pat|] == s[i..i + |pat|];
      }
    }
    if Contains(s[1..], pat) {
      var i :| 0 <= i <= |s| - 1 - |pat| && OccursAt(s[1..], pat, i);
      assert s[i + 1..i + 1 + |pat|] == s[1..][i..i + |pat|];
      assert OccursAt(s, pat, i + 1);
    }
  }

  /** `re.sub(r"\W+", "_", s)`: every maximal run of non-word characters
    * becomes one `_`. */
  function ReplaceNonWordRuns(s: string): (r: string)
    ensures forall i :: 0 <= i < |r| ==> IsWordChar(r[i])
    ensures |r| <= |s|
    ensures (forall i :: 0 <= i < |s| ==> IsWordChar(s[i])) ==> r == s
    decreases |s|
  {
    if |s| == 0 then []
    else if IsWordChar(s[0]) then [s[0]] + ReplaceNonWordRuns(s[1..])
    else "_" + ReplaceNonWordRuns(DropNonWord(s))
  }

  function DropNonWord(s: string): (r: string)
    ensures |r| <= |s| && r == s[|s| - |r|..]
    ensures r == [] || IsWordChar(r[0])
    ensures |s| > 0 && !IsWordChar(s[0]) ==> |r| < |s|
    decreases |s|
  {
    if |s| > 0 && !IsWordChar(s[0]) then DropNonWord(s[1..]) else s
  }

  predicate AllWord(w: string)
  {
    forall i :: 0 <= i < |w| ==> IsWordChar(w[i])
  }

  predicate AllNonWord(g: string)
  {
    forall i :: 0 <= i < |g| ==> !IsWordChar(g[i])
  }

  /** A whole run of non-word characters is skipped, and no more. */
  lemma {:induction false} DropNonWordRun(g: string, t: string)
    requires AllNonWord(g) && (t == [] || IsWordChar(t[0]))
    ensures DropNonWord(g + t) == t
    decreases |g|
  {
    if g == [] {
      assert g + t == t;
    } else {
      assert (g + t)[0] == g[0];
      assert (g + t)[1..] == g[1..] + t;
      DropNonWordRun(g[1..], t);
    }
  }

  /** `re.sub(r"\W+", "_", s)` collapses each maximal run: word characters
    * `w`, then a non-empty run `g` of non-word characters, then the rest
    * `t` starting at a word character, give `w`, one `_`, and the rest
    * rewritten. With the all-word case (`r == s`) this fixes the result
    * for every input. */
  lemma {:induction false} RunCollapse(w: string, g: string, t: string)
    requires AllWord(w) && g != [] && AllNonWord(g) && (t == [] || IsWordChar(t[0]))
    ensures ReplaceNonWordRuns(w + g + t) == w + "_" + ReplaceNonWordRuns(t)
    decreases |w|
  {
    var s := w + g + t;
    var rt := ReplaceNonWordRuns(t);
    if w == [] {
      assert s == g + t;
      assert ReplaceNonWordRuns(s) == "_" + ReplaceNonWordRuns(DropNonWord(s)) by {
        assert s[0] == g[0];
        assert !IsWordChar(s[0]);
      }
      assert DropNonWord(s) == t by {
        DropNonWordRun(g, t);
      }
    } else {
      var s1 := w[1..] + g + t;
      assert ReplaceNonWordRuns(s) == [w[0]] + ReplaceNonWordRuns(s1) by {
        assert s[0] == w[0] && IsWordChar(w[0]);
        assert s[1..] == s1;
      }
      assert ReplaceNonWordRuns(s1) == w[1..] + "_" + rt by {
        assert AllWord(w[1..]) by {
          forall i | 0 <= i < |w[1..]|
            ensures IsWordChar(w[1..][i])
          {
            assert w[1..][i] == w[i + 1];
          }
        }
        RunCollapse(w[1..], g, t);
      }
      Regroup(w, rt);
    }
  }

  lemma Regroup(w: string, rt: string)
    requires w != []
    ensures [w[0]] + (w[1..] + "_" + rt) == w + "_" + rt
  {
    assert w == [w[0]] + w[1..];
  }

  function DigitChar(d: nat): char
    requires d < 10
  {
    "0123456789"[d]
  }

  function DigitValue(c: char): nat
    requires IsDigit(c)
  {
    c as int - '0' as int
  }

  /** `str(n)` for a natural number: its decimal digits, most significant first. */
  function NatToString(n: nat): (r: string)
    ensures |r| >= 1 && forall i :: 0 <= i < |r| ==> IsDigit(r[i])
    decreases n
  {
    if n < 10 then [DigitChar(n)] else NatToString(n / 10) + [DigitChar(n % 10)]
  }

  /** `str(n)` for any integer. */
  function IntToString(n: int): string
  {
    if n < 0 then "-" + NatToString(-n) else NatToString(n)
  }

  /** The value of a string of decimal digits. */
  function DecimalValue(d: string): nat
    requires forall i :: 0 <= i < |d| ==> IsDigit(d[i])
  {
    if |d| == 0 then 0 else DecimalValue(d[..|d| - 1]) * 10 + DigitValue(d[|d| - 1])
  }

  /** The digits of a Python integer literal body: digits, optionally
    * grouped by single underscores between digits. */
  predicate IsDigitGroupString(d: string)
  {
    |d| >= 1 && IsDigit(d[0]) && IsDigit(d[|d| - 1])
    && (forall i :: 0 <= i < |d| ==> IsDigit(d[i]) || d[i] == '_')
    && NoDoubleUnderscore(d)
  }

  predicate NoDoubleUnderscore(d: string)
  {
    |d| < 2 || (!(d[0] == '_' && d[1] == '_') && NoDoubleUnderscore(d[1..]))
  }

  function DropUnderscores(d: string): (r: string)
    ensures (forall i :: 0 <= i < |d| ==> IsDigit(d[i]) || d[i] == '_') ==>
              forall i :: 0 <= i < |r| ==> IsDigit(r[i])
  {
    if |d| == 0 then [] else (if d[0] == '_' then [] else [d[0]]) + DropUnderscores(d[1..])
  }

  /** `int(s)`: `None` where Python raises ValueError. Surrounding whitespace
    * and one sign are accepted, as are underscores between digits. */
  function ParseInt(s: string): Option<int>
  {
    ParseTrimmed(Strip(s))
  }

  function ParseTrimmed(t: string): Option<int>
  {
    if |t| > 0 && (t[0] == '+' || t[0] == '-') then
      if IsDigitGroupString(t[1..]) then
        var v: int := DecimalValue(DropUnderscores(t[1..]));
        Some(if t[0] == '-' then -v else v)
      else None
    else if IsDigitGroupString(t) then Some(DecimalValue(DropUnderscores(t)))
    else None
  }

  lemma {:induction false} DecimalValueOfNatToString(n: nat)
    ensures DecimalValue(NatToString(n)) == n
    decreases n
  {
    if n >= 10 {
      var d := NatToString(n / 10) + [DigitChar(n % 10)];
      assert d[..|d| - 1] == NatToString(n / 10);
      DecimalValueOfNatToString(n / 10);
    }
  }

  lemma {:induction false} DropUnderscoresOfDigits(d: string)
    requires forall i :: 0 <= i < |d| ==> IsDigit(d[i])
    ensures DropUnderscores(d) == d
    ensures NoDoubleUnderscore(d)
  {
    if |d| > 0 {
      DropUnderscoresOfDigits(d[1..]);
    }
  }

  lemma StripUnpadded(s: string)
    requires s != [] && !IsSpace(s[0]) && !IsSpace(s[|s| - 1])
    ensures Strip(s) == s
  {
    assert RStrip(s) == s;
    assert LStrip(s) == s;
  }

  lemma {:induction false} ParseUnsigned(d: string)
    requires |d| >= 1 && forall i :: 0 <= i < |d| ==> IsDigit(d[i])
    ensures ParseInt(d) == Some(DecimalValue(d) as int)
  {
    assert !IsSpace(d[0]) && !IsSpace(d[|d| - 1]);
    ParseUnpadded(d);
    DropUnderscoresOfDigits(d);
    ParsePlain(d);
  }

  lemma ParsePlain(d: string)
    requires |d| >= 1 && forall i :: 0 <= i < |d| ==> IsDigit(d[i])
    requires DropUnderscores(d) == d && NoDoubleUnderscore(d)
    ensures ParseTrimmed(d) == Some(DecimalValue(d) as int)
  {
    assert IsDigitGroupString(d);
    assert !(d[0] == '+' || d[0] == '-');
  }

  lemma {:induction false} ParseNegative(d: string)
    requires |d| >= 1 && forall i :: 0 <= i < |d| ==> IsDigit(d[i])
    ensures ParseInt("-" + d) == Some(-(DecimalValue(d) as int))
  {
    NegativeUnpadded(d);
    NegativeTrimmed(d);
  }

  lemma NegativeUnpadded(d: string)
    requires |d| >= 1 && forall i :: 0 <= i < |d| ==> IsDigit(d[i])
    ensures ParseInt("-" + d) == ParseTrimmed("-" + d)
  {
    MinusDigits(d);
    ParseUnpadded("-" + d);
  }

  lemma NegativeTrimmed(d: string)
    requires |d| >= 1 && forall i :: 0 <= i < |d| ==> IsDigit(d[i])
    ensures ParseTrimmed("-" + d) == Some(-(DecimalValue(d) as int))
  {
    MinusDigits(d);
    ParseMinus("-" + d, d);
  }

  lemma ParseUnpadded(s: string)
    requires s != [] && !IsSpace(s[0]) && !IsSpace(s[|s| - 1])
    ensures ParseInt(s) == ParseTrimmed(s)
  {
    StripUnpadded(s);
  }

  lemma MinusDigits(d: string)
    requires |d| >= 1 && forall i :: 0 <= i < |d| ==> IsDigit(d[i])
    ensures var s := "-" + d;
            s[0] == '-' && s[1..] == d && !IsSpace(s[0]) && !IsSpace(s[|s| - 1])
            && IsDigitGroupString(d) && DropUnderscores(d) == d
  {
    var s := "-" + d;
    assert IsDigit(d[|d| - 1]);
    assert s[1..] == d;
    assert s[|s| - 1] == s[1..][|d| - 1];
    DropUnderscoresOfDigits(d);
  }

  lemma ParseMinus(t: string, d: string)
    requires |t| > 0 && t[0] == '-' && t[1..] == d && IsDigitGroupString(d)
    requires forall i :: 0 <= i < |d| ==> IsDigit(d[i])
    requires DropUnderscores(d) == d
    ensures ParseTrimmed(t) == Some(-(DecimalValue(d) as int))
  {
  }

  /** `int(str(n)) == n` for every integer. */
  lemma IntRoundTrip(n: int)
    ensures ParseInt(IntToString(n)) == Some(n)
  {
    var a := if n < 0 then -n else n;
    DecimalValueOfNatToString(a);
    if n < 0 {
      ParseNegative(NatToString(a));
    } else {
      ParseUnsigned(NatToString(a));
    }
  }
}
