/** N-gram counting for the validation step: the n-grams of a text, their
  * counts in first-seen order (a `Counter`), and the merge of new counts
  * into the stored per-size tables, re-sorted by descending count. */
module Ngrams {
  import opened Strings

  /** `get_ngrams(content, n)`: the slices of length `n`, one per start. */
  function NgramsOf(content: string, n: nat): (r: seq<string>)
    ensures |r| == if |content| >= n then |content| - n + 1 else 0
    ensures forall i :: 0 <= i < |r| ==> r[i] == content[i..i + n]
  {
    if |content| < n then []
    else seq(|content| - n + 1, i requires 0 <= i < |content| - n + 1 => content[i..i + n])
  }

  /** Glue overlapping n-grams back together: the first character of each
    * but the last, then the last one whole. */
  function Reassemble(gs: seq<string>): string
    requires gs != [] && forall i :: 0 <= i < |gs| ==> gs[i] != []
  {
    if |gs| == 1 then gs[0] else [gs[0][0]] + Reassemble(gs[1..])
  }

  /** The n-grams of a text hold the whole text: gluing them back gives it. */
  lemma {:induction false} NgramsRoundTrip(content: string, n: nat)
    requires 1 <= n <= |content|
    ensures Reassemble(NgramsOf(content, n)) == content
    decreases |content|
  {
    var gs := NgramsOf(content, n);
    if |content| > n {
      var rest := NgramsOf(content[1..], n);
      assert gs[1..] == rest by {
        forall i | 0 <= i < |rest|
          ensures gs[1..][i] == rest[i]
        {
          assert content[1..][i..i + n] == content[i + 1..i + 1 + n];
        }
      }
      NgramsRoundTrip(content[1..], n);
      assert content == [content[0]] + content[1..];
    } else {
      assert gs[0] == content[0..n];
    }
  }

  // ---------------------------------------------------------------------
  // Counters: (key, count) entries in insertion order

  type Counts = seq<(string, nat)>

  /** Keys are distinct, as in a dict. */
  ghost predicate Unique(cs: Counts)
  {
    forall i, j :: 0 <= i < j < |cs| ==> cs[i].0 != cs[j].0
  }

  predicate HasKey(cs: Counts, k: string)
  {
    exists i | 0 <= i < |cs| :: cs[i].0 == k
  }

  /** `d.get(k, 0)`. */
  function Get(cs: Counts, k: string): nat
  {
    if cs == [] then 0 else if cs[0].0 == k then cs[0].1 else Get(cs[1..], k)
  }

  /** The sum of the counts. */
  function Total(cs: Counts): nat
  {
    if cs == [] then 0 else cs[0].1 + Total(cs[1..])
  }

  lemma GetMissing(cs: Counts, k: string)
    requires !HasKey(cs, k)
    ensures Get(cs, k) == 0
  {
    if cs != [] {
      assert !HasKey(cs[1..], k) by {
        forall i | 0 <= i < |cs[1..]|
          ensures cs[1..][i].0 != k
        {
          assert cs[1..][i] == cs[i + 1];
        }
      }
      GetMissing(cs[1..], k);
    }
  }

  lemma UniqueTail(cs: Counts)
    requires Unique(cs) && cs != []
    ensures Unique(cs[1..]) && !HasKey(cs[1..], cs[0].0)
  {
    forall i, j | 0 <= i < j < |cs[1..]|
      ensures cs[1..][i].0 != cs[1..][j].0
    {
      assert cs[1..][i] == cs[i + 1] && cs[1..][j] == cs[j + 1];
    }
  }

  lemma HasKeyCons(e: (string, nat), cs: Counts, k: string)
    ensures HasKey([e] + cs, k) <==> e.0 == k || HasKey(cs, k)
  {
    var s := [e] + cs;
    if HasKey(cs, k) {
      var i :| 0 <= i < |cs| && cs[i].0 == k;
      assert s[i + 1] == cs[i];
    }
    if e.0 == k {
      assert s[0].0 == k;
    }
    if HasKey(s, k) && e.0 != k {
      var i :| 0 <= i < |s| && s[i].0 == k;
      assert i > 0 && cs[i - 1] == s[i];
    }
  }

  lemma UniqueCons(e: (string, nat), cs: Counts)
    requires Unique(cs) && !HasKey(cs, e.0)
    ensures Unique([e] + cs)
  {
    var s := [e] + cs;
    forall i, j | 0 <= i < j < |s|
      ensures s[i].0 != s[j].0
    {
      assert s[j] == cs[j - 1];
      if i > 0 {
        assert s[i] == cs[i - 1];
      }
    }
  }

  /** `d[k] = d.get(k, 0) + c`: the key keeps its place, or is appended. */
  function Add(cs: Counts, k: string, c: nat): (r: Counts)
    ensures |r| == |cs| + (if HasKey(cs, k) then 0 else 1)
  {
    if cs == [] then [(k, c)]
    else
      HasKeyCons(cs[0], cs[1..], k);
      assert cs == [cs[0]] + cs[1..];
      if cs[0].0 == k then [(k, cs[0].1 + c)] + cs[1..] else [cs[0]] + Add(cs[1..], k, c)
  }

  /** Adding keeps keys distinct, adds `c` to the count of `k` alone, and
    * adds `k` to the keys. */
  lemma {:induction false} AddMeaning(cs: Counts, k: string, c: nat)
    ensures Unique(cs) ==> Unique(Add(cs, k, c))
    ensures forall k' :: HasKey(Add(cs, k, c), k') <==> HasKey(cs, k') || k' == k
    ensures forall k' :: Get(Add(cs, k, c), k') == Get(cs, k') + (if k' == k then c else 0)
    ensures Total(Add(cs, k, c)) == Total(cs) + c
    decreases |cs|
  {
    var r := Add(cs, k, c);
    if cs == [] {
      forall k' ensures HasKey(r, k') <==> k' == k {
        HasKeyCons((k, c), [], k');
        assert r == [(k, c)] + [];
      }
    } else {
      assert cs == [cs[0]] + cs[1..];
      assert r == [r[0]] + r[1..];
      if cs[0].0 != k {
        AddMeaning(cs[1..], k, c);
      }
      forall k' ensures HasKey(r, k') <==> HasKey(cs, k') || k' == k {
        HasKeyCons(r[0], r[1..], k');
        HasKeyCons(cs[0], cs[1..], k');
      }
      if Unique(cs) {
        UniqueTail(cs);
        HasKeyCons(r[0], r[1..], k);
        UniqueCons(r[0], r[1..]);
      }
    }
  }

  /** `Counter(xs)`: each element is counted under its first position. */
  function Tally(xs: seq<string>): (r: Counts)
    ensures Unique(r)
    ensures forall k :: Get(r, k) == multiset(xs)[k]
    ensures forall k :: HasKey(r, k) <==> k in xs
    ensures Total(r) == |xs|
  {
    if xs == [] then
      assert forall k :: !HasKey([], k);
      []
    else
      var front := xs[..|xs| - 1];
      assert xs == front + [xs[|xs| - 1]];
      AddMeaning(Tally(front), xs[|xs| - 1], 1);
      Add(Tally(front), xs[|xs| - 1], 1)
  }

  /** `calculate_new_ngram_counts(content, n)`. */
  function NewNgramCounts(content: string, n: nat): Counts
  {
    Tally(NgramsOf(content, n))
  }

  /** The new counts add up to the number of n-grams, and every n-gram of
    * the text is counted as often as it occurs. */
  lemma NewCountsTotal(content: string, n: nat)
    ensures Total(NewNgramCounts(content, n)) == |NgramsOf(content, n)|
    ensures forall k :: Get(NewNgramCounts(content, n), k) == multiset(NgramsOf(content, n))[k]
  {
  }

  // ---------------------------------------------------------------------
  // upsert_ngram_counts

  /** `for ngram, count in new.items(): d[ngram] = d.get(ngram, 0) + count`. */
  function AddAll(d: Counts, more: Counts): (r: Counts)
  {
    if more == [] then d
    else
      var e := more[|more| - 1];
      Add(AddAll(d, more[..|more| - 1]), e.0, e.1)
  }

  lemma UniqueFront(cs: Counts)
    requires Unique(cs) && cs != []
    ensures Unique(cs[..|cs| - 1]) && !HasKey(cs[..|cs| - 1], cs[|cs| - 1].0)
  {
  }

  lemma GetSnoc(cs: Counts, k: string)
    requires Unique(cs) && cs != []
    ensures Get(cs, k) == Get(cs[..|cs| - 1], k) + (if k == cs[|cs| - 1].0 then cs[|cs| - 1].1 else 0)
    ensures HasKey(cs, k) <==> HasKey(cs[..|cs| - 1], k) || k == cs[|cs| - 1].0
    ensures Total(cs) == Total(cs[..|cs| - 1]) + cs[|cs| - 1].1
  {
    var front := cs[..|cs| - 1];
    var e := cs[|cs| - 1];
    UniqueFront(cs);
    if |cs| == 1 {
      assert front == [];
      assert HasKey(cs, k) <==> k == e.0 by {
        HasKeyCons(e, [], k);
        assert cs == [e] + [];
      }
    } else {
      var tail := cs[1..];
      UniqueTail(cs);
      assert tail[..|tail| - 1] == front[1..];
      assert tail[|tail| - 1] == e;
      GetSnoc(tail, k);
      assert front == [cs[0]] + front[1..];
      assert cs == [cs[0]] + tail;
      HasKeyCons(cs[0], tail, k);
      HasKeyCons(cs[0], front[1..], k);
      if cs[0].0 == k {
        assert !HasKey(tail, k);
        GetMissing(tail, k);
        GetMissing(front[1..], k);
      }
    }
  }

  /** Merging adds the counts key by key, keeps the keys of both sides
    * and keeps keys distinct. */
  lemma {:induction false} AddAllMerges(d: Counts, more: Counts)
    requires Unique(more)
    ensures Unique(d) ==> Unique(AddAll(d, more))
    ensures forall k :: Get(AddAll(d, more), k) == Get(d, k) + Get(more, k)
    ensures forall k :: HasKey(AddAll(d, more), k) <==> HasKey(d, k) || HasKey(more, k)
    ensures Total(AddAll(d, more)) == Total(d) + Total(more)
    decreases |more|
  {
    if more != [] {
      var front := more[..|more| - 1];
      UniqueFront(more);
      AddAllMerges(d, front);
      AddMeaning(AddAll(d, front), more[|more| - 1].0, more[|more| - 1].1);
      forall k
        ensures Get(more, k) == Get(front, k) + (if k == more[|more| - 1].0 then more[|more| - 1].1 else 0)
        ensures HasKey(more, k) <==> HasKey(front, k) || k == more[|more| - 1].0
      {
        GetSnoc(more, k);
      }
      GetSnoc(more, more[0].0);
    }
  }

  /** Counts are in descending order. */
  ghost predicate Descending(cs: Counts)
  {
    forall i, j :: 0 <= i < j < |cs| ==> cs[i].1 >= cs[j].1
  }

  /** Place `e` after every entry counting at least as much: ties keep
    * their order, as in Python's stable sort. */
  function Insert(cs: Counts, e: (string, nat)): (r: Counts)
    ensures multiset(r) == multiset(cs) + multiset{e}
    ensures |r| == |cs| + 1
  {
    if cs == [] then [e]
    else if cs[0].1 >= e.1 then
      assert cs == [cs[0]] + cs[1..];
      [cs[0]] + Insert(cs[1..], e)
    else [e] + cs
  }

  /** No entry counts more than `b`. */
  ghost predicate AtMost(cs: Counts, b: nat)
  {
    forall i :: 0 <= i < |cs| ==> cs[i].1 <= b
  }

  lemma DescendingCons(x: (string, nat), cs: Counts)
    requires Descending(cs) && AtMost(cs, x.1)
    ensures Descending([x] + cs)
  {
    var r := [x] + cs;
    forall i, j | 0 <= i < j < |r|
      ensures r[i].1 >= r[j].1
    {
      assert r[j] == cs[j - 1];
      if i > 0 {
        assert r[i] == cs[i - 1];
      }
    }
  }

  lemma DescendingTail(cs: Counts)
    requires Descending(cs) && cs != []
    ensures Descending(cs[1..]) && AtMost(cs[1..], cs[0].1)
  {
  }

  lemma {:induction false} InsertAtMost(cs: Counts, e: (string, nat), b: nat)
    requires AtMost(cs, b) && e.1 <= b
    ensures AtMost(Insert(cs, e), b)
    decreases |cs|
  {
    var r := Insert(cs, e);
    if cs != [] && cs[0].1 >= e.1 {
      InsertAtMost(cs[1..], e, b);
      assert forall j :: 1 <= j < |r| ==> r[j] == Insert(cs[1..], e)[j - 1];
    }
  }

  lemma {:induction false} InsertDescending(cs: Counts, e: (string, nat))
    requires Descending(cs)
    ensures Descending(Insert(cs, e))
    decreases |cs|
  {
    if cs != [] {
      DescendingTail(cs);
      if cs[0].1 >= e.1 {
        InsertDescending(cs[1..], e);
        InsertAtMost(cs[1..], e, cs[0].1);
        DescendingCons(cs[0], Insert(cs[1..], e));
      } else {
        assert AtMost(cs, e.1);
        DescendingCons(e, cs);
      }
    }
  }

  /** Inserting an entry for a new key keeps keys distinct and every
    * other key's count. */
  lemma {:induction false} InsertKeys(cs: Counts, e: (string, nat), k: string)
    requires Unique(cs) && !HasKey(cs, e.0)
    ensures Unique(Insert(cs, e))
    ensures HasKey(Insert(cs, e), k) <==> HasKey(cs, k) || k == e.0
    ensures Get(Insert(cs, e), k) == if k == e.0 then e.1 else Get(cs, k)
    decreases |cs|
  {
    var r := Insert(cs, e);
    if cs == [] {
      HasKeyCons(e, [], k);
      assert r == [e] + [];
    } else {
      assert cs == [cs[0]] + cs[1..];
      HasKeyCons(cs[0], cs[1..], k);
      HasKeyCons(cs[0], cs[1..], e.0);
      UniqueTail(cs);
      if cs[0].1 >= e.1 {
        var t := Insert(cs[1..], e);
        InsertKeys(cs[1..], e, k);
        InsertKeys(cs[1..], e, cs[0].0);
        assert r == [cs[0]] + t;
        HasKeyCons(cs[0], t, k);
        UniqueCons(cs[0], t);
      } else {
        HasKeyCons(e, cs, k);
        UniqueCons(e, cs);
        if k == e.0 {
          GetMissing(cs, k);
        }
      }
    }
  }

  /** `sorted(d.items(), key=lambda x: x[1], reverse=True)`. */
  function SortDesc(cs: Counts): (r: Counts)
    ensures multiset(r) == multiset(cs)
    ensures |r| == |cs|
    ensures Descending(r)
  {
    if cs == [] then []
    else
      var front := cs[..|cs| - 1];
      assert cs == front + [cs[|cs| - 1]];
      InsertDescending(SortDesc(front), cs[|cs| - 1]);
      Insert(SortDesc(front), cs[|cs| - 1])
  }

  /** Sorting a table with distinct keys keeps them distinct and keeps
    * every key's count. */
  lemma {:induction false} SortedSame(cs: Counts, k: string)
    requires Unique(cs)
    ensures Unique(SortDesc(cs))
    ensures Get(SortDesc(cs), k) == Get(cs, k)
    ensures HasKey(SortDesc(cs), k) <==> HasKey(cs, k)
    decreases |cs|
  {
    if cs != [] {
      var front := cs[..|cs| - 1];
      var e := cs[|cs| - 1];
      UniqueFront(cs);
      SortedSame(front, k);
      SortedSame(front, e.0);
      GetSnoc(cs, k);
      if k == e.0 {
        GetMissing(front, k);
      }
      InsertKeys(SortDesc(front), e, k);
    }
  }

  /** The stored table for size `n` after the merge. */
  function Upserted(ngramCounts: map<string, Counts>, newCounts: Counts, n: nat): map<string, Counts>
  {
    var key := NatToString(n);
    var d := if key in ngramCounts then ngramCounts[key] else [];
    ngramCounts[key := SortDesc(AddAll(d, newCounts))]
  }

  /** `upsert_ngram_counts(ngram_counts, new_counts, n)`. */
  method UpsertNgramCounts(ngramCounts: map<string, Counts>, newCounts: Counts, n: nat)
    returns (r: map<string, Counts>)
    ensures r == Upserted(ngramCounts, newCounts, n)
  {
    var key := NatToString(n);
    var d := if key in ngramCounts then ngramCounts[key] else [];
    ghost var d0 := d;
    for i := 0 to |newCounts|
      invariant d == AddAll(d0, newCounts[..i])
    {
      assert newCounts[..i + 1][..i] == newCounts[..i];
      d := Add(d, newCounts[i].0, newCounts[i].1);
    }
    assert newCounts[..|newCounts|] == newCounts;
    r := ngramCounts[key := SortDesc(d)];
  }

  /** After the merge, the table for `n` holds every old and new key once,
    * each with the old count (0 if absent) plus the new count, in
    * descending order of count; the other tables are untouched. */
  lemma UpsertMeaning(ngramCounts: map<string, Counts>, newCounts: Counts, n: nat, k: string)
    requires Unique(newCounts)
    requires NatToString(n) in ngramCounts ==> Unique(ngramCounts[NatToString(n)])
    ensures var key := NatToString(n);
      var prior := if key in ngramCounts then ngramCounts[key] else [];
      var t := Upserted(ngramCounts, newCounts, n)[key];
      && Descending(t)
      && Unique(t)
      && Get(t, k) == Get(prior, k) + Get(newCounts, k)
      && (HasKey(t, k) <==> HasKey(prior, k) || HasKey(newCounts, k))
      && (forall j :: j in ngramCounts && j != key ==> Upserted(ngramCounts, newCounts, n)[j] == ngramCounts[j])
  {
    var key := NatToString(n);
    var prior := if key in ngramCounts then ngramCounts[key] else [];
    var merged := AddAll(prior, newCounts);
    AddAllMerges(prior, newCounts);
    SortedSame(merged, k);
  }
}
