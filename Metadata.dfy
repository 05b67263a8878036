/** The markdown metadata parser: a file of `# Heading` sections becomes a
  * record mapping each heading to its section, normalised to a single line
  * of text or, when every line is a bullet, to the list of bullet items. */
module MarkdownMetadata {
  import opened Wrappers
  import opened Strings

  /** A section's value: joined text, or the items of a bullet list. */
  datatype Field = Text(s: string) | Items(items: seq<string>)

  type Meta = map<string, Field>

  // ---------------------------------------------------------------------
  // Headings: `^# (.+)`

  /** The text `.+` takes: everything up to the first newline. */
  function UpToNewline(s: string): (r: string)
    ensures '\n' !in r
    ensures |r| <= |s| && r == s[..|r|]
    ensures |r| < |s| ==> s[|r|] == '\n'
  {
    match Find(s, '\n')
    case Some(i) => s[..i]
    case None => s
  }

  /** The key a heading line opens (its text after "# ", stripped), or
    * `None` for a line that is not a heading. */
  function Heading(raw: string): (r: Option<string>)
    ensures r.Some? <==> |raw| >= 3 && raw[..2] == "# " && raw[2] != '\n'
  {
    if |raw| >= 3 && raw[..2] == "# " && raw[2] != '\n' then Some(Strip(UpToNewline(raw[2..])))
    else None
  }

  /** `raw.rstrip('\n')`. */
  function Body(raw: string): (r: string)
    ensures |r| <= |raw| && r == raw[..|r|] && (r == [] || r[|r| - 1] != '\n')
  {
    TrimRight(raw, c => c == '\n')
  }

  function Bodies(lines: seq<string>): (r: seq<string>)
    ensures |r| == |lines| && forall k :: 0 <= k < |r| ==> r[k] == Body(lines[k])
  {
    if lines == [] then [] else [Body(lines[0])] + Bodies(lines[1..])
  }

  predicate NoHeading(lines: seq<string>)
  {
    forall k :: 0 <= k < |lines| ==> Heading(lines[k]).None?
  }

  // ---------------------------------------------------------------------
  // _normalise

  /** The section without its leading empty lines. */
  function DropLeading(lines: seq<string>): (r: seq<string>)
    ensures |r| <= |lines| && r == lines[|lines| - |r|..]
    ensures r == [] || r[0] != ""
    ensures forall k :: 0 <= k < |lines| - |r| ==> lines[k] == ""
  {
    if lines != [] && lines[0] == "" then DropLeading(lines[1..]) else lines
  }

  /** The section without its trailing empty lines. */
  function DropTrailing(lines: seq<string>): (r: seq<string>)
    ensures |r| <= |lines| && r == lines[..|r|]
    ensures r == [] || r[|r| - 1] != ""
    ensures forall k :: |r| <= k < |lines| ==> lines[k] == ""
  {
    if lines != [] && lines[|lines| - 1] == "" then DropTrailing(lines[..|lines| - 1]) else lines
  }

  function Trimmed(lines: seq<string>): seq<string>
  {
    DropTrailing(DropLeading(lines))
  }

  /** `^[-*]\s+`. */
  predicate IsBullet(l: string)
  {
    |l| >= 2 && (l[0] == '-' || l[0] == '*') && IsSpace(l[1])
  }

  /** `re.sub(r'^[-*]\s+', '', l)` on a bullet line. */
  function Unbullet(l: string): string
    requires IsBullet(l)
  {
    LStrip(l[1..])
  }

  predicate AllBullets(lines: seq<string>)
  {
    forall k :: 0 <= k < |lines| ==> IsBullet(lines[k])
  }

  function Unbullets(lines: seq<string>): (r: seq<string>)
    requires AllBullets(lines)
    ensures |r| == |lines| && forall k :: 0 <= k < |r| ==> r[k] == Unbullet(lines[k])
  {
    if lines == [] then [] else [Unbullet(lines[0])] + Unbullets(lines[1..])
  }

  /** The value of a section. */
  function Normalised(lines: seq<string>): Field
  {
    var t := Trimmed(lines);
    if t != [] && AllBullets(t) then Items(Unbullets(t)) else Text(Strip(Join(t, " ")))
  }

  /** `_normalise(section_lines)`: pops the empty lines off both ends, then
    * reads the rest as a bullet list or as text. */
  method Normalise(section: seq<string>) returns (v: Field)
    ensures v == Normalised(section)
  {
    var lines := section;
    while lines != [] && lines[0] == ""
      invariant DropLeading(lines) == DropLeading(section)
    {
      lines := lines[1..];
    }
    var lead := lines;
    while lines != [] && lines[|lines| - 1] == ""
      invariant DropTrailing(lines) == DropTrailing(lead)
    {
      lines := lines[..|lines| - 1];
    }
    if lines != [] && AllBullets(lines) {
      v := Items(Unbullets(lines));
    } else {
      v := Text(Strip(Join(lines, " ")));
    }
  }

  lemma {:induction false} JoinBlank(parts: seq<string>)
    ensures IsBlank(Join(parts, " ")) <==> forall k :: 0 <= k < |parts| ==> IsBlank(parts[k])
    decreases |parts|
  {
    if |parts| >= 2 {
      JoinBlank(parts[1..]);
      var rest := Join(parts[1..], " ");
      var j := parts[0] + " " + rest;
      assert Join(parts, " ") == j;
      assert IsBlank(j) <==> IsBlank(parts[0]) && IsBlank(rest) by {
        assert forall i :: 0 <= i < |parts[0]| ==> j[i] == parts[0][i];
        assert forall i :: 0 <= i < |rest| ==> j[|parts[0]| + 1 + i] == rest[i];
      }
      assert forall k :: 1 <= k < |parts| ==> parts[1..][k - 1] == parts[k];
    }
  }

  /** The section trimmed of its empty end lines is a slice of it. */
  lemma TrimmedSlice(lines: seq<string>)
    ensures var t := Trimmed(lines);
      var i := |lines| - |DropLeading(lines)|;
      && i + |t| <= |lines|
      && (forall k :: 0 <= k < |t| ==> t[k] == lines[i + k])
      && (forall k :: 0 <= k < i ==> lines[k] == "")
      && (forall k :: i + |t| <= k < |lines| ==> lines[k] == "")
      && (t == [] || (t[0] != "" && t[|t| - 1] != ""))
  {
    TrimFacts(lines, DropLeading(lines), Trimmed(lines));
  }

  /** The facts behind `TrimmedSlice`, over a leading cut `d` of `lines`
    * and a trailing cut `t` of `d`. */
  lemma TrimFacts(lines: seq<string>, d: seq<string>, t: seq<string>)
    requires |d| <= |lines| && d == lines[|lines| - |d|..]
    requires forall k :: 0 <= k < |lines| - |d| ==> lines[k] == ""
    requires d == [] || d[0] != ""
    requires |t| <= |d| && t == d[..|t|]
    requires forall k :: |t| <= k < |d| ==> d[k] == ""
    requires t == [] || t[|t| - 1] != ""
    ensures var i := |lines| - |d|;
      && i + |t| <= |lines|
      && (forall k :: 0 <= k < |t| ==> t[k] == lines[i + k])
      && (forall k :: 0 <= k < i ==> lines[k] == "")
      && (forall k :: i + |t| <= k < |lines| ==> lines[k] == "")
      && (t == [] || (t[0] != "" && t[|t| - 1] != ""))
  {
    var i := |lines| - |d|;
    forall k | i + |t| <= k < |lines|
      ensures lines[k] == ""
    {
      assert lines[k] == d[k - i];
    }
    if t != [] {
      assert t[0] == d[0];
    }
  }

  /** A section is read as a bullet list exactly when, once the empty end
    * lines are dropped, something is left and every line is a bullet; each
    * item is its line without the marker and the blanks after it. */
  lemma NormalisedItems(lines: seq<string>)
    ensures var t := Trimmed(lines);
      Normalised(lines).Items? <==> t != [] && AllBullets(t)
    ensures var t := Trimmed(lines);
      Normalised(lines).Items? ==>
        var items := Normalised(lines).items;
        && |items| == |t|
        && forall k :: 0 <= k < |t| ==> BulletOf(t[k], items[k])
  {
    var t := Trimmed(lines);
    if t != [] && AllBullets(t) {
      forall k | 0 <= k < |t|
        ensures BulletOf(t[k], Unbullets(t)[k])
      {
        UnbulletShape(t[k]);
      }
    }
  }

  /** `line` is a marker, one or more blanks, then `item`, which does not
    * start with a blank. */
  ghost predicate BulletOf(line: string, item: string)
  {
    var cut := |line| - |item|;
    && cut >= 2 && line[cut..] == item
    && (line[0] == '-' || line[0] == '*')
    && (forall i :: 1 <= i < cut ==> IsSpace(line[i]))
    && (item == [] || !IsSpace(item[0]))
  }

  lemma UnbulletShape(l: string)
    requires IsBullet(l)
    ensures BulletOf(l, Unbullet(l))
  {
    var item := Unbullet(l);
    var cut := |l| - |item|;
    assert l[1..][|l[1..]| - |item|..] == item;
    assert l[cut..] == item;
    assert IsSpace(l[1..][0]);
    assert |item| < |l[1..]|;
    forall i | 1 <= i < cut
      ensures IsSpace(l[i])
    {
      assert l[i] == l[1..][i - 1];
    }
  }

  /** A section gives the empty text exactly when every line is blank. */
  lemma NormalisedEmpty(lines: seq<string>)
    ensures Normalised(lines) == Text("") <==> forall k :: 0 <= k < |lines| ==> IsBlank(lines[k])
  {
    var t := Trimmed(lines);
    assert (forall k :: 0 <= k < |lines| ==> IsBlank(lines[k])) <==> (forall k :: 0 <= k < |t| ==> IsBlank(t[k])) by {
      TrimmedBlank(lines);
    }
    if t != [] && AllBullets(t) {
      assert !IsBlank(t[0]) by {
        assert !IsSpace(t[0][0]);
      }
    } else {
      assert Normalised(lines) == Text(Strip(Join(t, " ")));
      JoinBlank(t);
    }
  }

  lemma TrimmedBlank(lines: seq<string>)
    ensures var t := Trimmed(lines);
      (forall k :: 0 <= k < |lines| ==> IsBlank(lines[k])) <==> (forall k :: 0 <= k < |t| ==> IsBlank(t[k]))
  {
    var t := Trimmed(lines);
    TrimmedSlice(lines);
    var i := |lines| - |DropLeading(lines)|;
    assert forall k :: 0 <= k < |t| ==> t[k] == lines[i + k];
    forall k | 0 <= k < |lines| && (forall j :: 0 <= j < |t| ==> IsBlank(t[j]))
      ensures IsBlank(lines[k])
    {
      if i <= k < i + |t| {
        assert lines[k] == t[k - i];
      } else {
        assert lines[k] == "";
      }
    }
  }

  // ---------------------------------------------------------------------
  // parse_markdown

  /** The loop state: the record so far, the open key and its lines. */
  datatype State = State(meta: Meta, key: Option<string>, buf: seq<string>)

  const Start := State(map[], None, [])

  /** The record with the open section written into it. */
  function Flush(st: State): Meta
  {
    if st.key.Some? then st.meta[st.key.value := Normalised(st.buf)] else st.meta
  }

  /** One line: a heading flushes the open section and opens its own; any
    * other line joins the open section (or the ignored preamble). */
  function Step(st: State, raw: string): State
  {
    match Heading(raw)
    case Some(k) => State(Flush(st), Some(k), [])
    case None => st.(buf := st.buf + [Body(raw)])
  }

  function Run(st: State, lines: seq<string>): State
    decreases |lines|
  {
    if lines == [] then st else Run(Step(st, lines[0]), lines[1..])
  }

  /** `path.name[:-3]`: the name without its last three characters. */
  function Filename(name: string): (r: string)
    ensures |r| == if |name| >= 3 then |name| - 3 else 0
    ensures r == name[..|r|]
  {
    if |name| >= 3 then name[..|name| - 3] else []
  }

  /** The record of a file with lines `lines` and name `name`. */
  function Parsed(lines: seq<string>, name: string): Meta
  {
    Flush(Run(Start, lines))["Filename" := Text(Filename(name))]
  }

  /** `parse_markdown(path)`, over the file's lines. */
  method ParseMarkdown(lines: seq<string>, name: string) returns (meta: Meta)
    ensures meta == Parsed(lines, name)
  {
    meta := map[];
    var key: Option<string> := None;
    var buf: seq<string> := [];
    for i := 0 to |lines|
      invariant Run(State(meta, key, buf), lines[i..]) == Run(Start, lines)
    {
      ghost var st := State(meta, key, buf);
      var raw := lines[i];
      match Heading(raw)
      case Some(k) =>
        if key.Some? {
          var v := Normalise(buf);
          meta := meta[key.value := v];
        }
        key, buf := Some(k), [];
      case None =>
        buf := buf + [Body(raw)];
      assert State(meta, key, buf) == Step(st, raw);
      RunCons(st, lines[i..]);
      assert lines[i..][1..] == lines[i + 1..];
    }
    if key.Some? {
      var v := Normalise(buf);
      meta := meta[key.value := v];
    }
    meta := meta["Filename" := Text(Filename(name))];
  }

  lemma {:induction false} RunAppend(st: State, xs: seq<string>, ys: seq<string>)
    ensures Run(st, xs + ys) == Run(Run(st, xs), ys)
    decreases |xs|
  {
    if xs == [] {
      assert xs + ys == ys;
    } else {
      assert (xs + ys)[0] == xs[0];
      assert (xs + ys)[1..] == xs[1..] + ys;
      RunAppend(Step(st, xs[0]), xs[1..], ys);
    }
  }

  lemma BodiesCons(buf: seq<string>, xs: seq<string>)
    requires xs != []
    ensures buf + Bodies(xs) == (buf + [Body(xs[0])]) + Bodies(xs[1..])
  {
    assert Bodies(xs) == [Body(xs[0])] + Bodies(xs[1..]);
  }

  lemma StepBody(st: State, raw: string)
    requires Heading(raw).None?
    ensures Step(st, raw) == st.(buf := st.buf + [Body(raw)])
  {
  }

  /** Lines without a heading only extend the open section. */
  lemma {:induction false} RunBody(st: State, xs: seq<string>)
    requires NoHeading(xs)
    ensures Run(st, xs) == st.(buf := st.buf + Bodies(xs))
    decreases |xs|
  {
    if xs == [] {
      assert st.buf + Bodies(xs) == st.buf;
    } else {
      var next := st.(buf := st.buf + [Body(xs[0])]);
      StepBody(st, xs[0]);
      assert Run(st, xs) == Run(next, xs[1..]);
      assert NoHeading(xs[1..]) by {
        forall i | 0 <= i < |xs[1..]|
          ensures Heading(xs[1..][i]).None?
        {
          assert xs[1..][i] == xs[i + 1];
        }
      }
      RunBody(next, xs[1..]);
      BodiesCons(st.buf, xs);
    }
  }

  /** Without an open key, the buffered lines never reach the record. */
  lemma {:induction false} NoKeyBuf(m: Meta, b1: seq<string>, b2: seq<string>, xs: seq<string>)
    ensures Flush(Run(State(m, None, b1), xs)) == Flush(Run(State(m, None, b2), xs))
    decreases |xs|
  {
    if xs != [] && Heading(xs[0]).None? {
      NoKeyBuf(m, b1 + [Body(xs[0])], b2 + [Body(xs[0])], xs[1..]);
    }
  }

  /** Lines before the first heading are ignored. */
  lemma PreambleIgnored(pre: seq<string>, rest: seq<string>, name: string)
    requires NoHeading(pre)
    ensures Parsed(pre + rest, name) == Parsed(rest, name)
  {
    RunAppend(Start, pre, rest);
    RunBody(Start, pre);
    assert [] + Bodies(pre) == Bodies(pre);
    assert Run(Start, pre) == State(map[], None, Bodies(pre));
    NoKeyBuf(map[], Bodies(pre), [], rest);
  }

  /** The keys of the record: those already written, the open one, and
    * every heading still to come. */
  lemma {:induction false} RunKeys(st: State, xs: seq<string>, k: string)
    ensures k in Flush(Run(st, xs)) <==>
      k in Flush(st) || exists i :: 0 <= i < |xs| && Heading(xs[i]) == Some(k)
    decreases |xs|
  {
    if xs != [] {
      RunKeys(Step(st, xs[0]), xs[1..], k);
      if exists i :: 0 <= i < |xs[1..]| && Heading(xs[1..][i]) == Some(k) {
        var i :| 0 <= i < |xs[1..]| && Heading(xs[1..][i]) == Some(k);
        assert Heading(xs[i + 1]) == Some(k);
      }
      if exists i :: 0 <= i < |xs| && Heading(xs[i]) == Some(k) {
        var i :| 0 <= i < |xs| && Heading(xs[i]) == Some(k);
        if i > 0 {
          assert Heading(xs[1..][i - 1]) == Some(k);
        }
      }
    }
  }

  /** The record's keys are "Filename" and the stripped text of every
    * heading, and "Filename" is the file name less its last three
    * characters. */
  lemma ParsedKeys(lines: seq<string>, name: string, k: string)
    ensures k in Parsed(lines, name) <==>
      k == "Filename" || exists i :: 0 <= i < |lines| && Heading(lines[i]) == Some(k)
    ensures Parsed(lines, name)["Filename"] == Text(Filename(name))
  {
    RunKeys(Start, lines, k);
  }

  /** Once a key's section is closed, lines with no heading for that key
    * leave its value alone. */
  lemma {:induction false} FlushRunKeeps(st: State, xs: seq<string>, k: string)
    requires k in Flush(st)
    requires forall i :: 0 <= i < |xs| ==> Heading(xs[i]) != Some(k)
    requires st.key == Some(k) ==> xs == [] || Heading(xs[0]).Some?
    ensures k in Flush(Run(st, xs)) && Flush(Run(st, xs))[k] == Flush(st)[k]
    decreases |xs|
  {
    if xs != [] {
      var next := Step(st, xs[0]);
      assert k in Flush(next) && Flush(next)[k] == Flush(st)[k];
      forall i | 0 <= i < |xs[1..]|
        ensures Heading(xs[1..][i]) != Some(k)
      {
        assert xs[1..][i] == xs[i + 1];
      }
      FlushRunKeeps(next, xs[1..], k);
    }
  }

  /** The value of a key is its last section: the lines between its last
    * heading and the next heading (or the end of the file), with empty end
    * lines dropped. Earlier sections with the same heading are overwritten,
    * and the last section of the file is written too. */
  lemma LastSectionWins(a: seq<string>, h: string, b: seq<string>, c: seq<string>, name: string, k: string)
    requires Heading(h) == Some(k) && k != "Filename"
    requires NoHeading(b)
    requires c == [] || Heading(c[0]).Some?
    requires forall i :: 0 <= i < |c| ==> Heading(c[i]) != Some(k)
    ensures k in Parsed(a + [h] + b + c, name)
    ensures Parsed(a + [h] + b + c, name)[k] == Normalised(Bodies(b))
  {
    var st := Run(Start, a + [h] + b);
    SectionOpen(a, h, b, k);
    RunAppend(Start, a + [h] + b, c);
    FlushRunKeeps(st, c, k);
  }

  /** After a heading and lines with no heading, the heading's section is
    * open and holds those lines. */
  lemma SectionOpen(a: seq<string>, h: string, b: seq<string>, k: string)
    requires Heading(h) == Some(k) && NoHeading(b)
    ensures var st := Run(Start, a + [h] + b);
            st.key == Some(k) && st.buf == Bodies(b)
  {
    var st1 := Run(Start, a);
    var st2 := Step(st1, h);
    assert st2.key == Some(k) && st2.buf == [];
    assert Run(Start, a + [h] + b) == Run(st2, b) by {
      RunOne(st1, h);
      RunAppend(Start, a, [h]);
      RunAppend(Start, a + [h], b);
    }
    assert Run(st2, b).key == Some(k) && Run(st2, b).buf == Bodies(b) by {
      RunBody(st2, b);
      assert st2.buf + Bodies(b) == Bodies(b);
    }
  }

  lemma RunCons(st: State, xs: seq<string>)
    requires xs != []
    ensures Run(st, xs) == Run(Step(st, xs[0]), xs[1..])
  {
  }

  lemma RunOne(st: State, x: string)
    ensures Run(st, [x]) == Step(st, x)
  {
    assert [x][1..] == [];
  }
}
