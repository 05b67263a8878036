/** The metadata reader of `TeiHeaderBuilder`: a markdown file of `# Key`
  * headings, each followed by its value lines, becomes a dictionary whose
  * values are a string, a list of bullet items, or a (possibly nested)
  * dictionary of `key: value` lines. */
module TeiHeader {
  import opened Wrappers
  import opened Strings

  /** The three shapes a metadata value takes: `str`, `list` and `dict`. */
  datatype Value = Text(s: string) | Items(items: seq<string>) | Fields(fields: map<string, Value>)

  // -------------------------------------------------------------------
  // parse_lines: indented `key: value` lines to a nested dictionary
  // -------------------------------------------------------------------

  predicate IsPlainSpace(c: char)
  {
    c == ' '
  }

  /** `len(line) - len(line.lstrip(' '))`: the number of leading spaces. */
  function Indent(line: string): (n: nat)
    ensures n <= |line|
    ensures forall k :: 0 <= k < n ==> line[k] == ' '
    ensures n < |line| ==> line[n] != ' '
  {
    |line| - |TrimLeft(line, IsPlainSpace)|
  }

  /** The end of the block of lines from `j` on that are indented deeper
    * than `indent`: the inner `while` loop of `parse_lines`. */
  function NestedEnd(lines: seq<string>, j: nat, indent: nat): (e: nat)
    requires j <= |lines|
    ensures j <= e <= |lines|
    ensures forall k :: j <= k < e ==> Indent(lines[k]) > indent
    ensures e < |lines| ==> Indent(lines[e]) <= indent
    decreases |lines| - j
  {
    if j < |lines| && Indent(lines[j]) > indent then NestedEnd(lines, j + 1, indent) else j
  }

  /** The stripped line with one leading `- ` removed. */
  function Unbullet(line: string): string
  {
    var t := Strip(line);
    if StartsWith(t, "- ") then t[2..] else t
  }

  /** The end of the block nested under line `i`. */
  function Span(lines: seq<string>, i: nat): (j: nat)
    requires i < |lines|
    ensures i + 1 <= j <= |lines|
  {
    NestedEnd(lines, i + 1, Indent(lines[i]))
  }

  /** Where the loop of `parse_lines` goes after line `i`: past the nested
    * block of a `key: value` line, and one line further after the nested
    * block of a line with no `:` (`i = j` followed by `i += 1`). */
  function Next(lines: seq<string>, i: nat): (n: nat)
    requires i < |lines|
    ensures i < n <= |lines| + 1
  {
    var t := Unbullet(lines[i]);
    if t == [] then i + 1 else if ':' in t then Span(lines, i) else Span(lines, i) + 1
  }

  /** `key.strip()` of `key, value = line.split(':', 1)`. */
  function FieldKey(t: string): string
    requires ':' in t
  {
    Strip(SplitFirst(t, ':').0)
  }

  /** `value.strip()` of `key, value = line.split(':', 1)`. */
  function FieldText(t: string): string
    requires ':' in t
  {
    Strip(SplitFirst(t, ':').1)
  }

  /** The value a `key: value` line stores: its nested block as a
    * dictionary, or else its value. */
  function FieldValue(lines: seq<string>, i: nat): Value
    requires i < |lines| && ':' in Unbullet(lines[i])
    decreases |lines|, |lines| + 1 - i, 1
  {
    if Span(lines, i) > i + 1 then Nested(lines, i) else Text(FieldText(Unbullet(lines[i])))
  }

  /** The dictionary after line `i`: a `key: value` line stores its nested
    * block as a dictionary, or else its value; a line with no `:` stores
    * only a nested block. */
  function Put(lines: seq<string>, i: nat, data: map<string, Value>): map<string, Value>
    requires i < |lines|
    decreases |lines|, |lines| + 1 - i, 2
  {
    var t := Unbullet(lines[i]);
    var j := Span(lines, i);
    if t == [] || (':' !in t && j == i + 1) then data
    else if ':' in t then data[FieldKey(t) := FieldValue(lines, i)]
    else data[t := Nested(lines, i)]
  }

  /** The dictionary parsed from the block nested under line `i`. */
  function Nested(lines: seq<string>, i: nat): Value
    requires i < |lines| && Span(lines, i) > i + 1
    decreases |lines|, |lines| + 1 - i, 0
  {
    Fields(FieldsOf(lines[i + 1..Span(lines, i)], Indent(lines[i]) + 2))
  }

  /** What `parse_lines` returns when its loop reaches index `i` holding
    * `data`; a line indented less than `level` ends the dictionary. */
  function FieldsFrom(lines: seq<string>, level: nat, i: nat, data: map<string, Value>): map<string, Value>
    decreases |lines|, |lines| + 1 - i, 3
  {
    if i >= |lines| || Indent(lines[i]) < level then data
    else FieldsFrom(lines, level, Next(lines, i), Put(lines, i, data))
  }

  function FieldsOf(lines: seq<string>, level: nat): map<string, Value>
    decreases |lines|, |lines| + 1, 4
  {
    FieldsFrom(lines, level, 0, map[])
  }

  /** `parse_lines(lines, indent_level)`. */
  method ParseLines(lines: seq<string>, level: nat) returns (data: map<string, Value>)
    ensures data == FieldsOf(lines, level)
    decreases |lines|, 2
  {
    data := map[];
    var i := 0;
    while i < |lines|
      invariant 0 <= i <= |lines| + 1
      invariant FieldsFrom(lines, level, i, data) == FieldsOf(lines, level)
      decreases |lines| + 1 - i
    {
      if Indent(lines[i]) < level {
        FieldsFromStop(lines, level, i, data);
        break;
      }
      FieldsFromStep(lines, level, i, data);
      i, data := ParseItem(lines, i, data);
    }
    if i >= |lines| {
      FieldsFromStop(lines, level, i, data);
    }
  }

  /** One turn of the loop of `parse_lines` on line `i`: its nested block
    * found, the line stored, and the index moved past it. */
  method ParseItem(lines: seq<string>, i: nat, data: map<string, Value>) returns (next: nat, d: map<string, Value>)
    requires i < |lines|
    ensures next == Next(lines, i) && d == Put(lines, i, data)
    decreases |lines|, 1
  {
    var t := Unbullet(lines[i]);
    if t == [] {
      BlankItem(lines, i, data);
      return i + 1, data;
    }
    var j := BlockEnd(lines, i + 1, Indent(lines[i]));
    assert j == Span(lines, i);
    if ':' in t {
      next, d := ParseField(lines, i, j, data);
    } else {
      next, d := ParseKey(lines, i, j, data);
    }
  }

  /** A blank line stores nothing. */
  lemma BlankItem(lines: seq<string>, i: nat, data: map<string, Value>)
    requires i < |lines| && Unbullet(lines[i]) == []
    ensures Next(lines, i) == i + 1 && Put(lines, i, data) == data
  {
  }

  /** A `key: value` line: its nested block as a dictionary, or else its
    * value. */
  method ParseField(lines: seq<string>, i: nat, j: nat, data: map<string, Value>) returns (next: nat, d: map<string, Value>)
    requires i < |lines| && Unbullet(lines[i]) != [] && ':' in Unbullet(lines[i]) && j == Span(lines, i)
    ensures next == Next(lines, i) && d == Put(lines, i, data)
    decreases |lines|, 0
  {
    var t := Unbullet(lines[i]);
    var v: Value;
    if j > i + 1 {
      var nested := ParseLines(lines[i + 1..j], Indent(lines[i]) + 2);
      v := Fields(nested);
    } else {
      v := Text(FieldText(t));
    }
    assert v == FieldValue(lines, i);
    PutFieldCase(lines, i, data);
    d := data[FieldKey(t) := v];
    next := j;
  }

  /** A line with no `:`: only a nested block is stored, and the line
    * after the block is passed over. */
  method ParseKey(lines: seq<string>, i: nat, j: nat, data: map<string, Value>) returns (next: nat, d: map<string, Value>)
    requires i < |lines| && Unbullet(lines[i]) != [] && ':' !in Unbullet(lines[i]) && j == Span(lines, i)
    ensures next == Next(lines, i) && d == Put(lines, i, data)
    decreases |lines|, 0
  {
    PutKeyCase(lines, i, data);
    d := data;
    if j > i + 1 {
      var nested := ParseLines(lines[i + 1..j], Indent(lines[i]) + 2);
      d := data[Unbullet(lines[i]) := Fields(nested)];
    }
    next := j + 1;
  }

  /** The inner `while` of `parse_lines`: past the lines indented deeper
    * than `indent`. */
  method BlockEnd(lines: seq<string>, start: nat, indent: nat) returns (j: nat)
    requires start <= |lines|
    ensures j == NestedEnd(lines, start, indent)
  {
    j := start;
    while j < |lines| && Indent(lines[j]) > indent
      invariant start <= j <= |lines|
      invariant NestedEnd(lines, j, indent) == NestedEnd(lines, start, indent)
      decreases |lines| - j
    {
      j := j + 1;
    }
  }

  /** The end of the loop of `parse_lines`: the lines run out or one is
    * indented less than the level. */
  lemma FieldsFromStop(lines: seq<string>, level: nat, i: nat, data: map<string, Value>)
    requires i >= |lines| || Indent(lines[i]) < level
    ensures FieldsFrom(lines, level, i, data) == data
  {
  }

  /** `Next` and `Put` on a `key: value` line. */
  predicate PutField(lines: seq<string>, i: nat, data: map<string, Value>)
    requires i < |lines| && ':' in Unbullet(lines[i])
  {
    var t := Unbullet(lines[i]);
    var j := Span(lines, i);
    && Next(lines, i) == j
    && Put(lines, i, data) == data[FieldKey(t) := FieldValue(lines, i)]
  }

  predicate PutKey(lines: seq<string>, i: nat, data: map<string, Value>)
    requires i < |lines|
  {
    var t := Unbullet(lines[i]);
    var j := Span(lines, i);
    && Next(lines, i) == j + 1
    && Put(lines, i, data) == if j > i + 1 then data[t := Nested(lines, i)] else data
  }

  lemma PutFieldCase(lines: seq<string>, i: nat, data: map<string, Value>)
    requires i < |lines| && Unbullet(lines[i]) != [] && ':' in Unbullet(lines[i])
    ensures PutField(lines, i, data)
  {
  }

  lemma PutKeyCase(lines: seq<string>, i: nat, data: map<string, Value>)
    requires i < |lines| && Unbullet(lines[i]) != [] && ':' !in Unbullet(lines[i])
    ensures PutKey(lines, i, data)
  {
  }

  predicate AllText(data: map<string, Value>)
  {
    forall key :: key in data ==> data[key].Text?
  }

  predicate Unindented(lines: seq<string>)
  {
    forall k :: 0 <= k < |lines| ==> Indent(lines[k]) == 0
  }

  /** Over lines that carry no indentation no line has a nested block, so
    * every value is a plain string. */
  lemma {:induction false} UnindentedIsFlat(lines: seq<string>, level: nat, i: nat, data: map<string, Value>)
    requires Unindented(lines) && AllText(data)
    ensures AllText(FieldsFrom(lines, level, i, data))
    decreases |lines| + 1 - i
  {
    if i < |lines| && Indent(lines[i]) >= level {
      PutUnindented(lines, i, data);
      UnindentedIsFlat(lines, level, Next(lines, i), Put(lines, i, data));
    }
  }

  lemma PutUnindented(lines: seq<string>, i: nat, data: map<string, Value>)
    requires Unindented(lines) && AllText(data) && i < |lines|
    ensures AllText(Put(lines, i, data))
  {
    var t := Unbullet(lines[i]);
    if t == [] {
      BlankItem(lines, i, data);
    } else if ':' in t {
      PutFieldCase(lines, i, data);
      assert FieldValue(lines, i) == Text(FieldText(t)) by {
        UnindentedSpan(lines, i);
      }
      AllTextUpdate(data, FieldKey(t), FieldText(t));
    } else {
      PutKeyCase(lines, i, data);
      UnindentedSpan(lines, i);
    }
  }

  /** Over unindented lines no line has a nested block. */
  lemma UnindentedSpan(lines: seq<string>, i: nat)
    requires Unindented(lines) && i < |lines|
    ensures Span(lines, i) == i + 1
  {
    assert Indent(lines[i]) == 0;
    if i + 1 < |lines| {
      assert Indent(lines[i + 1]) == 0;
    }
  }

  lemma AllTextUpdate(data: map<string, Value>, key: string, v: string)
    requires AllText(data)
    ensures AllText(data[key := Text(v)])
  {
    var m := data[key := Text(v)];
    forall k | k in m
      ensures m[k].Text?
    {
      if k != key {
        assert m[k] == data[k];
      }
    }
  }

  /** A line without `:` and without a nested block makes `parse_lines`
    * pass over the line that follows it, whatever that line holds. */
  lemma KeyOnlySkipsNext(lines: seq<string>, level: nat, i: nat, data: map<string, Value>)
    requires i + 1 < |lines| && level <= Indent(lines[i])
    requires Unbullet(lines[i]) != [] && ':' !in Unbullet(lines[i])
    requires Indent(lines[i + 1]) <= Indent(lines[i])
    ensures FieldsFrom(lines, level, i, data) == FieldsFrom(lines, level, i + 2, data)
  {
    FieldsFromStep(lines, level, i, data);
    KeyOnlyStep(lines, i, data);
  }

  /** One turn of the loop of `parse_lines`. */
  lemma FieldsFromStep(lines: seq<string>, level: nat, i: nat, data: map<string, Value>)
    requires i < |lines| && level <= Indent(lines[i])
    ensures FieldsFrom(lines, level, i, data) == FieldsFrom(lines, level, Next(lines, i), Put(lines, i, data))
  {
  }

  /** A line without `:` followed by a line no deeper: two lines on, and
    * nothing stored. */
  lemma KeyOnlyStep(lines: seq<string>, i: nat, data: map<string, Value>)
    requires i + 1 < |lines| && Unbullet(lines[i]) != [] && ':' !in Unbullet(lines[i])
    requires Indent(lines[i + 1]) <= Indent(lines[i])
    ensures Next(lines, i) == i + 2 && Put(lines, i, data) == data
  {
    assert Span(lines, i) == i + 1;
  }

  // -------------------------------------------------------------------
  // _process_value: the value lines under one heading
  // -------------------------------------------------------------------

  /** The lines that are not blank, in order. */
  function NonBlank(lines: seq<string>): (r: seq<string>)
    ensures |r| <= |lines|
    ensures forall k :: 0 <= k < |r| ==> !IsBlank(r[k]) && r[k] in lines
    ensures r == [] <==> forall k :: 0 <= k < |lines| ==> IsBlank(lines[k])
    ensures forall k :: 0 <= k < |lines| && !IsBlank(lines[k]) ==> lines[k] in r
  {
    if lines == [] then []
    else
      var rest := NonBlank(lines[1..]);
      assert forall k :: 1 <= k < |lines| ==> lines[k] == lines[1..][k - 1];
      if IsBlank(lines[0]) then rest else [lines[0]] + rest
  }

  /** `line.startswith('- ') and ':' not in line`. */
  predicate IsBulletItem(line: string)
  {
    |line| >= 2 && line[0] == '-' && line[1] == ' ' && ':' !in line
  }

  /** `[line[2:].strip() for line in lines]`. */
  function BulletTexts(lines: seq<string>): (r: seq<string>)
    requires forall k :: 0 <= k < |lines| ==> IsBulletItem(lines[k])
    ensures |r| == |lines|
    ensures forall k :: 0 <= k < |r| ==> IsBulletItem(lines[k]) && r[k] == Strip(lines[k][2..])
  {
    if lines == [] then []
    else
      assert IsBulletItem(lines[0]);
      var rest := BulletTexts(lines[1..]);
      assert forall k :: 1 <= k < |lines| ==> lines[k] == lines[1..][k - 1];
      [Strip(lines[0][2..])] + rest
  }

  /** What `_process_value` returns. */
  function ValueOf(valueLines: seq<string>): Value
  {
    var ls := NonBlank(valueLines);
    if ls == [] then Text("")
    else if forall k :: 0 <= k < |ls| ==> IsBulletItem(ls[k]) then Items(BulletTexts(ls))
    else if exists k :: 0 <= k < |ls| && ':' in ls[k] then Fields(FieldsOf(ls, 0))
    else Text(Join(ls, "\n"))
  }

  /** `_process_value`. */
  method ProcessValue(valueLines: seq<string>) returns (v: Value)
    ensures v == ValueOf(valueLines)
  {
    var ls := NonBlank(valueLines);
    if ls == [] {
      return Text("");
    }
    if forall k :: 0 <= k < |ls| ==> IsBulletItem(ls[k]) {
      return Items(BulletTexts(ls));
    }
    if exists k :: 0 <= k < |ls| && ':' in ls[k] {
      var fields := ParseLines(ls, 0);
      return Fields(fields);
    }
    v := Text(Join(ls, "\n"));
  }

  lemma {:induction false} JoinNonEmpty(parts: seq<string>, sep: string)
    requires parts != [] && parts[0] != []
    ensures Join(parts, sep) != []
  {
  }

  /** The shape of a value follows its lines: the empty string exactly when
    * every line is blank, a list exactly when every non-blank line is a
    * `- ` bullet without `:` (one item per line), a dictionary exactly
    * when some line has a `:` and not every line is such a bullet. */
  lemma ValueShapes(valueLines: seq<string>)
    ensures ValueOf(valueLines) == Text("") <==> forall k :: 0 <= k < |valueLines| ==> IsBlank(valueLines[k])
    ensures ValueOf(valueLines).Items? <==>
              (exists k :: 0 <= k < |valueLines| && !IsBlank(valueLines[k]))
              && forall k :: 0 <= k < |valueLines| && !IsBlank(valueLines[k]) ==> IsBulletItem(valueLines[k])
    ensures ValueOf(valueLines).Items? ==> |ValueOf(valueLines).items| == |NonBlank(valueLines)|
    ensures ValueOf(valueLines).Fields? <==>
              (exists k :: 0 <= k < |valueLines| && !IsBlank(valueLines[k]) && ':' in valueLines[k])
  {
    EmptyValueShape(valueLines);
    ItemsValueShape(valueLines);
    FieldsValueShape(valueLines);
  }

  lemma EmptyValueShape(valueLines: seq<string>)
    ensures ValueOf(valueLines) == Text("") <==> forall k :: 0 <= k < |valueLines| ==> IsBlank(valueLines[k])
  {
    var ls := NonBlank(valueLines);
    if ls != [] && !(forall k :: 0 <= k < |ls| ==> IsBulletItem(ls[k])) && !(exists k :: 0 <= k < |ls| && ':' in ls[k]) {
      assert !IsBlank(ls[0]);
      JoinNonEmpty(ls, "\n");
    }
  }

  lemma ItemsValueShape(valueLines: seq<string>)
    ensures ValueOf(valueLines).Items? <==>
              (exists k :: 0 <= k < |valueLines| && !IsBlank(valueLines[k]))
              && forall k :: 0 <= k < |valueLines| && !IsBlank(valueLines[k]) ==> IsBulletItem(valueLines[k])
    ensures ValueOf(valueLines).Items? ==> |ValueOf(valueLines).items| == |NonBlank(valueLines)|
  {
  }

  lemma FieldsValueShape(valueLines: seq<string>)
    ensures ValueOf(valueLines).Fields? <==>
              (exists k :: 0 <= k < |valueLines| && !IsBlank(valueLines[k]) && ':' in valueLines[k])
  {
    var ls := NonBlank(valueLines);
    if exists k :: 0 <= k < |valueLines| && !IsBlank(valueLines[k]) && ':' in valueLines[k] {
      var k :| 0 <= k < |valueLines| && !IsBlank(valueLines[k]) && ':' in valueLines[k];
      var m :| 0 <= m < |ls| && ls[m] == valueLines[k];
      assert !IsBulletItem(ls[m]);
    }
  }

  // -------------------------------------------------------------------
  // parse_metadata: headings and their sections
  // -------------------------------------------------------------------

  /** The key a line opens: the stripped text after `# ` on a stripped line
    * starting with `# `. It is never empty, so the truth test on the
    * current key always passes once a heading has been seen. */
  function HeadingKey(raw: string): (r: Option<string>)
    ensures r.Some? ==> r.value != []
  {
    var line := Strip(raw);
    if StartsWith(line, "# ") then
      assert |line| >= 3 by {
        assert line[1] == ' ';
        assert !IsSpace(line[|line| - 1]);
      }
      assert !IsSpace(line[2..][|line| - 3]);
      Some(Strip(line[2..]))
    else None
  }

  /** The loop variables of `parse_metadata` next to the dictionary. */
  datatype Section = Section(meta: map<string, Value>, key: Option<string>, buf: seq<string>)

  /** Storing the value of the section read so far, when there is one. */
  function Flush(s: Section): map<string, Value>
  {
    if s.key.Some? && s.key.value != [] then s.meta[s.key.value := ValueOf(s.buf)] else s.meta
  }

  /** One iteration of the loop of `parse_metadata`. */
  function Step(s: Section, raw: string): Section
  {
    var line := Strip(raw);
    if HeadingKey(raw).Some? then Section(Flush(s), HeadingKey(raw), [])
    else if s.key.Some? && s.key.value != [] && line != [] then s.(buf := s.buf + [line])
    else s
  }

  function Scan(s: Section, lines: seq<string>): Section
    decreases |lines|
  {
    if lines == [] then s else Scan(Step(s, lines[0]), lines[1..])
  }

  /** The dictionary after `parse_metadata(lines)`, starting from `meta`. */
  function MetadataOf(meta: map<string, Value>, lines: seq<string>): map<string, Value>
  {
    Flush(Scan(Section(meta, None, []), lines))
  }

  /** The keys of the headings among `lines`. */
  function Headings(lines: seq<string>): set<string>
  {
    if lines == [] then {}
    else (if HeadingKey(lines[0]).Some? then {HeadingKey(lines[0]).value} else {}) + Headings(lines[1..])
  }

  lemma {:induction false} HeadingsMembers(lines: seq<string>, key: string)
    ensures key in Headings(lines) <==> exists k :: 0 <= k < |lines| && HeadingKey(lines[k]) == Some(key)
  {
    if lines != [] {
      HeadingsMembers(lines[1..], key);
      if exists k :: 0 <= k < |lines| - 1 && HeadingKey(lines[1..][k]) == Some(key) {
        var k :| 0 <= k < |lines| - 1 && HeadingKey(lines[1..][k]) == Some(key);
        assert lines[1..][k] == lines[k + 1];
      }
      if exists k :: 0 <= k < |lines| && HeadingKey(lines[k]) == Some(key) {
        var k :| 0 <= k < |lines| && HeadingKey(lines[k]) == Some(key);
        if k > 0 {
          assert lines[1..][k - 1] == lines[k];
        }
      }
    }
  }

  /** The stripped non-empty lines up to the next heading. */
  function Body(lines: seq<string>): seq<string>
  {
    if lines == [] || HeadingKey(lines[0]).Some? then []
    else (if Strip(lines[0]) != [] then [Strip(lines[0])] else []) + Body(lines[1..])
  }

  predicate NoHeading(lines: seq<string>, key: string)
  {
    forall k :: 0 <= k < |lines| ==> HeadingKey(lines[k]) != Some(key)
  }

  lemma NoHeadingTail(lines: seq<string>, key: string)
    requires lines != [] && NoHeading(lines, key)
    ensures HeadingKey(lines[0]) != Some(key) && NoHeading(lines[1..], key)
  {
    forall k | 0 <= k < |lines| - 1
      ensures HeadingKey(lines[1..][k]) != Some(key)
    {
      assert lines[1..][k] == lines[k + 1];
    }
  }

  class TeiHeaderBuilder {
    var metadata: map<string, Value>

    constructor()
      ensures metadata == map[]
    {
      metadata := map[];
    }

    /** `parse_metadata`. */
    method ParseMetadata(lines: seq<string>)
      modifies this
      ensures metadata == MetadataOf(old(metadata), lines)
    {
      var key: Option<string> := None;
      var value: seq<string> := [];
      var i := 0;
      while i < |lines|
        invariant 0 <= i <= |lines|
        invariant Flush(Scan(Section(metadata, key, value), lines[i..])) == MetadataOf(old(metadata), lines)
      {
        ghost var s0 := Section(metadata, key, value);
        var line := Strip(lines[i]);
        if StartsWith(line, "# ") {
          if key.Some? && key.value != [] {
            var v := ProcessValue(value);
            metadata := metadata[key.value := v];
          }
          key := Some(Strip(line[2..]));
          value := [];
        } else if key.Some? && key.value != [] {
          if line != [] {
            value := value + [line];
          }
        }
        assert Section(metadata, key, value) == Step(s0, lines[i]);
        assert lines[i..][1..] == lines[i + 1..];
        i := i + 1;
      }
      if key.Some? && key.value != [] {
        var v := ProcessValue(value);
        metadata := metadata[key.value := v];
      }
    }
  }

  // -------------------------------------------------------------------
  // What parse_metadata promises
  // -------------------------------------------------------------------

  lemma {:induction false} ScanPreamble(s: Section, pre: seq<string>, lines: seq<string>)
    requires s.key == None
    requires forall k :: 0 <= k < |pre| ==> HeadingKey(pre[k]).None?
    ensures Scan(s, pre + lines) == Scan(s, lines)
    decreases |pre|
  {
    if pre == [] {
      assert pre + lines == lines;
    } else {
      assert Step(s, pre[0]) == s;
      assert Scan(s, pre + lines) == Scan(s, pre[1..] + lines) by {
        assert (pre + lines)[0] == pre[0];
        assert (pre + lines)[1..] == pre[1..] + lines;
      }
      assert forall k :: 0 <= k < |pre| - 1 ==> pre[1..][k] == pre[k + 1];
      ScanPreamble(s, pre[1..], lines);
    }
  }

  /** Lines before the first heading are ignored. */
  lemma PreambleIgnored(meta: map<string, Value>, pre: seq<string>, lines: seq<string>)
    requires forall k :: 0 <= k < |pre| ==> HeadingKey(pre[k]).None?
    ensures MetadataOf(meta, pre + lines) == MetadataOf(meta, lines)
  {
    ScanPreamble(Section(meta, None, []), pre, lines);
  }

  lemma {:induction false} ScanKeys(s: Section, lines: seq<string>)
    ensures Flush(Scan(s, lines)).Keys
            == s.meta.Keys + (if s.key.Some? && s.key.value != [] then {s.key.value} else {}) + Headings(lines)
    decreases |lines|
  {
    if lines != [] {
      var s' := Step(s, lines[0]);
      ScanKeys(s', lines[1..]);
      assert Scan(s, lines) == Scan(s', lines[1..]);
    }
  }

  /** The keys afterwards are the keys before and the keys of the headings,
    * a heading being a stripped line that starts with `# `. */
  lemma HeadingsBecomeKeys(meta: map<string, Value>, lines: seq<string>, key: string)
    ensures key in MetadataOf(meta, lines) <==>
              key in meta || exists k :: 0 <= k < |lines| && HeadingKey(lines[k]) == Some(key)
  {
    ScanKeys(Section(meta, None, []), lines);
    HeadingsMembers(lines, key);
  }

  lemma {:induction false} KeepsValue(s: Section, lines: seq<string>, key: string)
    requires key in s.meta && s.key != Some(key) && NoHeading(lines, key)
    ensures key in Flush(Scan(s, lines)) && Flush(Scan(s, lines))[key] == s.meta[key]
    decreases |lines|
  {
    if lines != [] {
      NoHeadingTail(lines, key);
      var s' := Step(s, lines[0]);
      StepKeeps(s, lines[0], key);
      KeepsValue(s', lines[1..], key);
      assert Scan(s, lines) == Scan(s', lines[1..]);
    }
  }

  /** A line that is not a heading for `key` keeps the value stored for
    * it while another section is open. */
  lemma StepKeeps(s: Section, raw: string, key: string)
    requires key in s.meta && s.key != Some(key) && HeadingKey(raw) != Some(key)
    ensures key in Step(s, raw).meta && Step(s, raw).meta[key] == s.meta[key]
    ensures Step(s, raw).key != Some(key)
  {
    if HeadingKey(raw).Some? {
      assert Step(s, raw).meta == Flush(s);
    }
  }

  lemma {:induction false} FillsValue(s: Section, lines: seq<string>, key: string)
    requires s.key == Some(key) && key != [] && NoHeading(lines, key)
    ensures key in Flush(Scan(s, lines)) && Flush(Scan(s, lines))[key] == ValueOf(s.buf + Body(lines))
    decreases |lines|
  {
    if lines == [] {
      assert s.buf + Body(lines) == s.buf;
    } else if HeadingKey(lines[0]).Some? {
      FillsAtHeading(s, lines, key);
    } else {
      NoHeadingTail(lines, key);
      var s' := Step(s, lines[0]);
      BodyStep(s, lines);
      FillsValue(s', lines[1..], key);
      assert Scan(s, lines) == Scan(s', lines[1..]);
    }
  }

  /** The next heading ends the section and stores its value. */
  lemma FillsAtHeading(s: Section, lines: seq<string>, key: string)
    requires s.key == Some(key) && key != [] && NoHeading(lines, key)
    requires lines != [] && HeadingKey(lines[0]).Some?
    ensures key in Flush(Scan(s, lines)) && Flush(Scan(s, lines))[key] == ValueOf(s.buf + Body(lines))
  {
    NoHeadingTail(lines, key);
    var s' := Step(s, lines[0]);
    assert s'.meta == s.meta[key := ValueOf(s.buf)] && s'.key != Some(key);
    KeepsValue(s', lines[1..], key);
    assert Scan(s, lines) == Scan(s', lines[1..]);
    assert s.buf + Body(lines) == s.buf;
  }

  /** A line that is not a heading moves from the body to the buffer. */
  lemma BodyStep(s: Section, lines: seq<string>)
    requires s.key.Some? && s.key.value != []
    requires lines != [] && HeadingKey(lines[0]).None?
    ensures Step(s, lines[0]).key == s.key && Step(s, lines[0]).meta == s.meta
    ensures Step(s, lines[0]).buf + Body(lines[1..]) == s.buf + Body(lines)
  {
    var x := Strip(lines[0]);
    if x != [] {
      assert Body(lines) == [x] + Body(lines[1..]);
      assert (s.buf + [x]) + Body(lines[1..]) == s.buf + ([x] + Body(lines[1..]));
    } else {
      assert Body(lines) == Body(lines[1..]);
    }
  }

  lemma {:induction false} ScanSplit(s: Section, a: seq<string>, b: seq<string>)
    ensures Scan(s, a + b) == Scan(Scan(s, a), b)
    decreases |a|
  {
    if a != [] {
      var s' := Step(s, a[0]);
      assert Scan(s, a + b) == Scan(s', a[1..] + b) by {
        assert (a + b)[0] == a[0];
        assert (a + b)[1..] == a[1..] + b;
      }
      ScanSplit(s', a[1..], b);
    } else {
      assert a + b == b;
    }
  }

  lemma ScanAt(s0: Section, lines: seq<string>, i: nat)
    requires i < |lines|
    ensures Scan(s0, lines) == Scan(Step(Scan(s0, lines[..i]), lines[i]), lines[i + 1..])
  {
    assert lines == lines[..i] + lines[i..];
    ScanSplit(s0, lines[..i], lines[i..]);
    assert lines[i..][0] == lines[i] && lines[i..][1..] == lines[i + 1..];
  }

  lemma StepAtHeading(s: Section, raw: string)
    requires HeadingKey(raw).Some?
    ensures Step(s, raw).key == HeadingKey(raw) && Step(s, raw).buf == []
  {
  }

  /** A repeated heading overwrites the earlier value: the value of a key
    * is read from the section under its last heading, up to the next
    * heading or the end of the input. */
  lemma LastHeadingWins(meta: map<string, Value>, lines: seq<string>, i: nat, key: string)
    requires i < |lines| && HeadingKey(lines[i]) == Some(key)
    requires NoHeading(lines[i + 1..], key)
    ensures key in MetadataOf(meta, lines)
    ensures MetadataOf(meta, lines)[key] == ValueOf(Body(lines[i + 1..]))
  {
    var s0 := Section(meta, None, []);
    var s := Step(Scan(s0, lines[..i]), lines[i]);
    ScanAt(s0, lines, i);
    StepAtHeading(Scan(s0, lines[..i]), lines[i]);
    FillsValue(s, lines[i + 1..], key);
    assert s.buf + Body(lines[i + 1..]) == Body(lines[i + 1..]);
  }

  /** A value with no dictionary nested inside a dictionary. */
  predicate Shallow(v: Value)
  {
    v.Fields? ==> AllText(v.fields)
  }

  predicate AllShallow(meta: map<string, Value>)
  {
    forall key :: key in meta ==> Shallow(meta[key])
  }

  lemma ValueOfUnindented(valueLines: seq<string>)
    requires Unindented(valueLines)
    ensures Shallow(ValueOf(valueLines))
  {
    var ls := NonBlank(valueLines);
    forall k | 0 <= k < |ls|
      ensures Indent(ls[k]) == 0
    {
      var m :| 0 <= m < |valueLines| && valueLines[m] == ls[k];
    }
    UnindentedIsFlat(ls, 0, 0, map[]);
  }

  lemma {:induction false} ScanShallow(s: Section, lines: seq<string>)
    requires AllShallow(s.meta) && Unindented(s.buf)
    ensures AllShallow(Flush(Scan(s, lines)))
    decreases |lines|
  {
    if lines == [] {
      ValueOfUnindented(s.buf);
    } else {
      StepShallow(s, lines[0]);
      ScanShallow(Step(s, lines[0]), lines[1..]);
    }
  }

  lemma FlushShallow(s: Section)
    requires AllShallow(s.meta) && Shallow(ValueOf(s.buf))
    ensures AllShallow(Flush(s))
  {
    if s.key.Some? && s.key.value != [] {
      var m := s.meta[s.key.value := ValueOf(s.buf)];
      forall key | key in m
        ensures Shallow(m[key])
      {
        if key != s.key.value {
          assert m[key] == s.meta[key];
        }
      }
    }
  }

  lemma StepShallow(s: Section, raw: string)
    requires AllShallow(s.meta) && Unindented(s.buf)
    ensures AllShallow(Step(s, raw).meta) && Unindented(Step(s, raw).buf)
  {
    var x := Strip(raw);
    if HeadingKey(raw).Some? {
      ValueOfUnindented(s.buf);
      FlushShallow(s);
      assert Step(s, raw) == Section(Flush(s), HeadingKey(raw), []);
    } else if s.key.Some? && s.key.value != [] && x != [] {
      assert Step(s, raw) == s.(buf := s.buf + [x]);
      AppendUnindented(s.buf, x);
    } else {
      assert Step(s, raw) == s;
    }
  }

  lemma AppendUnindented(buf: seq<string>, x: string)
    requires Unindented(buf) && x != [] && x[0] != ' '
    ensures Unindented(buf + [x])
  {
    assert Indent(x) == 0;
    forall k | 0 <= k < |buf| + 1
      ensures Indent((buf + [x])[k]) == 0
    {
      if k < |buf| {
        assert (buf + [x])[k] == buf[k];
      } else {
        assert (buf + [x])[k] == x;
      }
    }
  }

  /** Every value line is stripped before it is stored, so `parse_lines`
    * never sees indentation: a dictionary value read from the metadata
    * holds only strings, never a nested dictionary. */
  lemma MetadataIsShallow(meta: map<string, Value>, lines: seq<string>)
    requires AllShallow(meta)
    ensures AllShallow(MetadataOf(meta, lines))
  {
    ScanShallow(Section(meta, None, []), lines);
  }
}
