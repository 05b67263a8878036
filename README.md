# hansel-data transforms, modelled in Dafny

hansel-data turns lightly marked plaintext transcriptions of Sanskrit texts into TEI-like XML trees. It renders those trees as HTML fragments, and it validates and cleans the plaintext on the way. This project models the parts that hold the logic:

- the line-driven TEI builder (`TeiTextBuilder`);
- its header parser;
- the post-processing tree rewrites;
- the text logic of the HTML renderer;
- the validators and string cleaners;
- the markdown-metadata and CSV normalisers;
- four earlier builder iterations.

Each is modelled in the form the Python takes, and properties of the model are proved.

Modules, one per source file or concern:

| module | models |
|---|---|
| `Wrappers` | `Option`, `Result` and `Outcome` (pass or a named Python exception) |
| `Strings` | the Python `str` operations the code uses: `strip` and its kin, `split`, `replace`, `int()`, `str(n)`, `\w`, `\d`, `\s` |
| `XmlTree` | lxml trees as an arena of elements with tag, attributes, `text`, `tail`, children and parent. Handles stay valid when nodes are detached, moved or added |
| `TeiBuilderPatterns`, `InlineMarkers`, `TeiBuilder`, `TeiHeader` | utils/transforms/xml/tei_builder.py: `make_xml_id`, the line regexes, the inline-marker scanner, `TeiTextBuilder` and `TeiHeaderBuilder.parse_metadata` |
| `TeiUtils` | utils/transforms/tei_utils.py: `make_xml_id` and the three `post_process` rewrites |
| `HtmlRender` | utils/transforms/html/convert_xml_to_html.py: `append_text`, `get_plain_text_recursive`, `process_children`, `process_lg_content`, the verse-number relocation and the PDF offsets |
| `Validate` | utils/validation/validate.py: `validate_structure` |
| `Rewrite`, `ValidationUtils`, `Ngrams` | validation/utils.py: regex substitution to a fixed point, bracket and removable clean-up, `keep_keepables`, `clean_up_whitespace`, n-gram counts |
| `ProcessHyphens` | utils/transforms/process_hyphens.py |
| `MarkdownMetadata` | utils/transforms/metadata/jsonify_metadata.py. utils/transforms/consolidate_metadata.py is the same algorithm line for line, so the same model covers it |
| `MdSections` | utils/transforms/metadata/convert_md_to_html.py: `filter_md_sections` |
| `CompareFails` | utils/validation/xml/oxygen_comparison/compare_fail_csvs.py: the `norm_*` normalisers, `load_counts` and the onlyA/onlyB/both partition |
| `EarlyPatterns`, `TeiBuilderEarly` | utils/transforms/tei_builder.py, and the regexes it shares with the other early builders |
| `TeiBuilderBk` | utils/transforms/xml/tei_builder_bk.py |
| `PlaintextToXml` | utils/transforms/convert_plaintext_to_xml.py: `build_tei` |
| `PlaintextToXmlOld` | utils/transforms/convert_plaintext_to_xml_old.py: `build_tei` |

## How the model is organised

- **Regexes.** Each regex the code uses is a hand-written scanner or predicate. Python's `$` without MULTILINE also matches before one final newline, and the model follows that. Each scanner comes with lemmas that it finds exactly what the pattern matches.
- **Exceptions.** Where Python raises (an attribute of `None`, a failed `chr`, a `ValueError` the code does not catch), the model returns an explicit error outcome carrying the exception's name. It never adds a precondition instead.
- **Classes.** Code that updates an object's fields or a function's local variables step by step is a Dafny class with those fields. In `PlaintextToXml.Converter`, `PlaintextToXmlOld.OldConverter`, `TeiBuilderBk.BkBuilder` and `TeiBuilderEarly.EarlyBuilder`, each method is proved to leave the state exactly as a pure step function of the old state says. The properties are then proved about those functions. `TeiBuilder.TeiTextBuilder.Build` and `TeiHeader.TeiHeaderBuilder.ParseMetadata` are proved equal to the functions `Run` and `MetadataOf`. `HtmlRender.HtmlConverter` is the exception: its methods have relational contracts. They say what the output and the correction list gain, and they say that nothing written before is changed. They do not give the new state as a function.
- **Lines as input.** Files are read and split into lines outside the model. The builders take the list of lines.
- **Python as written.** Where the code differs from its comments or docstrings, the model follows the code. For example, the caesura test in utils/transforms/convert_plaintext_to_xml.py:167 looks for a tab that line 135 has already stripped. The `[label]` regex in utils/transforms/xml/tei_builder_bk.py:54 lets `\s*` swallow the tab, so its inline-verse branch never runs. The docstring examples of utils/transforms/tei_utils.py:22-28 do not match its code, and the model follows the code.

## Model

| member | source | states |
|---|---|---|
| Strings.Strip | utils/transforms/xml/tei_builder.py:52 | `str.strip()`: empty exactly for a blank string, otherwise a slice starting and ending with a non-space |
| Strings.SplitFirst | utils/transforms/xml/tei_builder.py:54 | `split(",", 1)`: the string is the part before, the separator and the part after, and the part before has no separator |
| Strings.SplitFirstUnique | utils/transforms/xml/tei_builder.py:54 | that split is the only one whose first part has no separator |
| Strings.ReplaceCharPointwise | utils/transforms/xml/tei_builder.py:56-57 | replacing one character by another keeps the length and changes exactly the occurrences of that character |
| Strings.ReplaceNonWordRuns | utils/transforms/xml/tei_builder.py:59 | `re.sub(r"\W+", "_", s)` yields only word characters, is no longer than `s`, and leaves an all-word string unchanged |
| Strings.RunCollapse | utils/transforms/xml/tei_builder.py:59 | a word part, one maximal non-word run and a rest starting with a word character become the word part, one `_` and the rest's rewrite |
| Strings.IntRoundTrip | utils/transforms/xml/tei_builder.py:501 | `int(str(n)) == n` for every integer |
| Strings.ParseUnsigned | utils/transforms/xml/tei_builder.py:501 | `int` of a digit string is its decimal value |
| Strings.ReplaceByEmptyShrinks | validation/utils.py:34 | deleting a pattern never lengthens a string, strictly shortens it when it occurs, and leaves it unchanged otherwise |
| Strings.Lower | utils/transforms/xml/tei_builder.py:544 | `lower()` keeps the length, leaves no upper-case ASCII letter and changes nothing else |
| XmlTree.Empty | utils/transforms/xml/tei_builder.py:71 | the empty arena is well formed |
| XmlTree.NewElement | utils/transforms/xml/tei_builder.py:286 | `etree.Element` makes a new element that has no parent and no children. Existing elements and links are unchanged, and the tree stays well formed |
| XmlTree.SubElement | utils/transforms/xml/tei_builder.py:208 | `etree.SubElement` makes a new element and adds it as the parent's last child. Nothing else changes |
| XmlTree.Without | utils/transforms/xml/tei_builder.py:486 | removes exactly one child from a child list and keeps the list duplicate-free |
| XmlTree.Detach | utils/transforms/xml/tei_builder.py:486 | `parent.remove(c)` takes the element out of its parent's child list and clears its parent link. Nothing else changes, and an element with no parent is left as it is |
| XmlTree.Attach | utils/transforms/tei_utils.py:59 | inserting a detached element at position k of a parent's children keeps the tree well formed |
| XmlTree.AppendChild | utils/transforms/xml/tei_builder.py:624 | `parent.append(c)` moves the element from its old place to the end of the parent's children. Its old parent loses it and every other child list is unchanged |
| XmlTree.InsertChild | utils/transforms/tei_utils.py:59 | `parent.insert(k, c)` puts the element at position k of the parent's children |
| XmlTree.IndexOf | utils/transforms/tei_utils.py:59 | `parent.index(c)` returns the first position holding the element |
| XmlTree.AddNext | utils/transforms/xml/tei_builder.py:369 | after `sink.addnext(e)`, e is the sink's next sibling and has the sink's parent. Child lists of unrelated parents are unchanged |
| XmlTree.SetText | utils/transforms/xml/tei_builder.py:243 | assigning `text` changes that element's text and nothing else |
| XmlTree.SetTail | utils/transforms/xml/tei_builder.py:241 | assigning `tail` changes that element's tail and nothing else |
| XmlTree.SetAttr | utils/transforms/xml/tei_builder.py:628 | `el.set(key, value)` changes that one attribute and nothing else |
| XmlTree.NextSibling | utils/transforms/tei_utils.py:49 | `getnext()` returns only an element that has the same parent |
| XmlTree.PrevSibling | utils/transforms/tei_utils.py:69 | `getprevious()` returns only an element that has the same parent |
| XmlTree.Descendants | utils/transforms/tei_utils.py:48 | `.//tag` XPath searches visit only elements that are in the arena |
| XmlTree.FilterTag | utils/transforms/xml/tei_builder.py:490 | keeps exactly the elements whose tag is in the set |
| XmlTree.FilterTagOrder | utils/transforms/xml/tei_builder.py:490 | what is kept is a subsequence of the input, so document order is preserved |
| XmlTree.FilterTagLast | utils/transforms/xml/tei_builder.py:490 | the last element kept is XPath's `[last()]`: it has one of the tags, and no later element of the input does |
| XmlTree.FilterTagEmpty | utils/transforms/xml/tei_builder.py:490-491 | nothing is kept exactly when no element of the input has one of the tags |
| TeiBuilderPatterns.MatchSection | utils/transforms/xml/tei_builder.py:24 | a section line is `{` + a non-empty label without `}` + `}` + trailing whitespace, and the label is returned |
| TeiBuilderPatterns.SectionComplete | utils/transforms/xml/tei_builder.py:24 | every line of that shape is recognised, with exactly its label |
| TeiBuilderPatterns.MatchPage | utils/transforms/xml/tei_builder.py:27 | a line (minus one final newline) is `<digits>` exactly when a page number is returned, and the number is those digits |
| TeiBuilderPatterns.MatchPageLine | utils/transforms/xml/tei_builder.py:28 | a returned page and line are non-empty digit strings and the line is `<page,line>` |
| TeiBuilderPatterns.PageFormsExclusive | utils/transforms/xml/tei_builder.py:27-28 | no line is both a `<page,line>` and a `<page>` line |
| TeiBuilderPatterns.MatchNote | utils/transforms/xml/tei_builder.py:29 | a note is the whole line, starts with `<`, ends with `>` and has no `>` or newline inside |
| TeiBuilderPatterns.PageIsNote | utils/transforms/xml/tei_builder.py:139-152 | every page line is also a note line, so the page branches must be (and are) tried first |
| TeiBuilderPatterns.BracketedLabel | utils/transforms/xml/tei_builder.py:25 | the first `]` closes the lazily matched label, which holds no `]` |
| TeiBuilderPatterns.MatchLocation | utils/transforms/xml/tei_builder.py:25 | the label is non-empty, holds no `]`, the line starts with `[label]`, and the rest is what follows the label's tabs, without newline |
| TeiBuilderPatterns.MatchPendingHead | utils/transforms/xml/tei_builder.py:40-41 | the head group is a prefix of the line that ends in `|` and holds no newline |
| TeiBuilderPatterns.DigitRunEnd | utils/transforms/xml/tei_builder.py:26 | the greedy `[0-9]+` run: all digits up to the returned end, and no digit after it |
| TeiBuilderPatterns.LetterRunEnd | utils/transforms/xml/tei_builder.py:26 | the greedy letter run: all letters up to the end, no letter after it |
| TeiBuilderPatterns.SkipSpace | utils/transforms/xml/tei_builder.py:26 | the greedy `\s*`: all whitespace up to the end, no whitespace at it |
| TeiBuilderPatterns.MatchVerseNumber | utils/transforms/xml/tei_builder.py:26 | a match gives a number starting with a digit and an optional segment of 1 to 4 letters |
| TeiBuilderPatterns.NumberEndShape | utils/transforms/xml/tei_builder.py:26 | the greedy `(?:[.,][0-9]+)*` extension of a verse number is still a verse number |
| TeiBuilderPatterns.ParseVerseLabel | utils/transforms/xml/tei_builder.py:532-544 | a label the pattern rejects is all base (stripped) with no segment; a segment is 1 to 4 lower-case letters |
| TeiBuilderPatterns.ParseVerseLabelBase | utils/transforms/xml/tei_builder.py:540-544 | when the pattern matches, the base is a verse number: digit runs joined by single `.` or `,`, nothing around it |
| TeiBuilderPatterns.ParseVerseLabelJoined | utils/transforms/xml/tei_builder.py:536 | "1.1ab" gives ("1.1", "ab") |
| TeiBuilderPatterns.ParseVerseLabelSpaced | utils/transforms/xml/tei_builder.py:537 | "1.1 cd" gives ("1.1", "cd") |
| TeiBuilderPatterns.ParseVerseLabelBare | utils/transforms/xml/tei_builder.py:538 | "2.3" gives ("2.3", no segment) |
| TeiBuilderPatterns.NextBar | utils/transforms/xml/tei_builder.py:30 | the first `|` at or after the index, with none before it |
| TeiBuilderPatterns.VerseMarkerAt | utils/transforms/xml/tei_builder.py:30 | a `|| text ||` match spans at least six characters and stays in the string |
| TeiBuilderPatterns.BackBoundaryAt | utils/transforms/xml/tei_builder.py:35 | a bare `||` boundary is exactly two characters long |
| TeiBuilderPatterns.VerseEndAt | utils/transforms/xml/tei_builder.py:39 | every verse end starts with `||` and ends within the string |
| TeiBuilderPatterns.VerseEnds | utils/transforms/xml/tei_builder.py:306-307 | `finditer`: each found end is a verse end at its start, and the matches are in order and do not overlap |
| TeiBuilderPatterns.VerseEndsLeftmost | utils/transforms/xml/tei_builder.py:306-307 | if a verse end starts at or after the scan start, the scan finds one, no later than it |
| TeiBuilderPatterns.EndingBarClosesLine | utils/transforms/xml/tei_builder.py:36 | a text that ends in `|` closes its line |
| TeiBuilderPatterns.RemoveEolHyphen | utils/transforms/xml/tei_builder.py:411 | without a final hyphen the text is unchanged; with one, the result is a strict prefix and equals the right-stripped text minus its hyphen |
| TeiBuilderPatterns.MakeXmlId | utils/transforms/xml/tei_builder.py:47-60 | the id is never empty and has no `.`; it starts with `p` exactly for a page-line label and with `v` otherwise, followed only by word characters |
| TeiBuilderPatterns.PageLineValue | utils/transforms/xml/tei_builder.py:52-58 | a page-line label gives `p` + stripped page + `_l` + stripped line, with every `.` made `_` |
| TeiBuilderPatterns.PageLineIdValue | utils/transforms/xml/tei_builder.py:56-58 | the `replace(".", "_")` of both parts equals the position-wise dot-to-underscore map |
| TeiBuilderPatterns.VerseIdRun | utils/transforms/xml/tei_builder.py:59-60 | any other label gives `v` + the stripped label with its first run of non-word characters made one `_` |
| TeiBuilderPatterns.PageLineExample | utils/transforms/xml/tei_builder.py:49 | "12,3.4" gives "p12_l3_4" |
| TeiBuilderPatterns.VerseExample | utils/transforms/xml/tei_builder.py:50 | "1.2" gives "v1_2" |
| TeiBuilderPatterns.EmptyExample | utils/transforms/xml/tei_builder.py:60 | the empty label gives "v" |
| InlineMarkers.PageAt | utils/transforms/xml/tei_builder.py:38 | a mid-line page marker `<digits>` or `<digits,digits>` at the position, with non-empty digit groups |
| InlineMarkers.ChoiceAt | utils/transforms/xml/tei_builder.py:31 | a choice `≤sic≥«corr»` at the position: sic has no `≥`, corr no `»` |
| InlineMarkers.EnclosedAt | utils/transforms/xml/tei_builder.py:32-34 | a del, supplied or unclear match: the opening character, text without the closing one, the closing one |
| InlineMarkers.MatchAt | utils/transforms/xml/tei_builder.py:376-382 | each marker pattern's match at a position is of that kind and stays within the content |
| InlineMarkers.ChoiceOutlastsDel | utils/transforms/xml/tei_builder.py:389-396 | wherever a choice matches, a del matches at the same start and ends earlier, so sorting by (start, -end) puts the choice first |
| InlineMarkers.FindAll | utils/transforms/xml/tei_builder.py:385-387 | `finditer`: each match is the pattern's match at its start, in order and without overlap |
| InlineMarkers.AllMatches | utils/transforms/xml/tei_builder.py:384-387 | all matches of the five patterns lie within the content |
| InlineMarkers.SortByKey | utils/transforms/xml/tei_builder.py:389 | the sort is a permutation ordered by (start, longest first) |
| InlineMarkers.Insert | utils/transforms/xml/tei_builder.py:389 | insertion adds exactly one element and keeps the order |
| InlineMarkers.GreedyNonOverlapping | utils/transforms/xml/tei_builder.py:391-396 | kept matches start at or after the last end, come from the input, and do not overlap |
| InlineMarkers.GreedyKeepsLongest | utils/transforms/xml/tei_builder.py:389-396 | at equal start the kept match is the longest, so `≤x≥«y»` is one choice, never a del plus a supplied |
| InlineMarkers.SelectMarkers | utils/transforms/xml/tei_builder.py:391-396 | the filter loop keeps exactly the greedy selection: non-overlapping, in increasing order, drawn from the input |
| InlineMarkers.Selected | utils/transforms/xml/tei_builder.py:384-396 | the selected matches are within the content and pairwise non-overlapping in increasing order |
| InlineMarkers.TextConserved | utils/transforms/xml/tei_builder.py:398-412 | the gaps between the kept matches, the matches and the rest put back together give the content: every character outside a match is passed on once, in order |
| TeiUtils.Underscored | utils/transforms/tei_utils.py:29 | once the label is stripped and its dots are replaced, it contains no `.` |
| TeiUtils.StripKeepsOut | utils/transforms/tei_utils.py:29 | stripping never adds a character that was not already in the string |
| TeiUtils.PageLineXmlId | utils/transforms/tei_utils.py:30-33 | a page-and-line label gives an id that starts with `p` and contains no `.` |
| TeiUtils.NoDotId | utils/transforms/tei_utils.py:33 | an id put together from parts without a `.` contains no `.` |
| TeiUtils.MakeXmlId | utils/transforms/tei_utils.py:18-34 | the id is never empty and never contains `.`. It starts with `p` exactly when the label has non-blank page and line parts around a comma, and with `v` otherwise. A `v` id is `v` followed by the label with each run of non-word characters replaced by one `_`, so every character after the `v` is a word character |
| TeiUtils.VerseXmlId | utils/transforms/tei_utils.py:34 | the verse id is `v` followed only by word characters |
| TeiUtils.PageLineId | utils/transforms/tei_utils.py:31-33 | a page-and-line id is `p` + the stripped page + `_l` + the stripped line |
| TeiUtils.ReplaceNoOccurrence | utils/transforms/tei_utils.py:33 | `line.replace('.', '_')` leaves a line unchanged once its dots have already been replaced |
| TeiUtils.Tagged | utils/transforms/tei_utils.py:48 | `.//lb` and `.//pb` return only elements of the arena that carry that tag |
| TeiUtils.DropLb | utils/transforms/tei_utils.py:49-51 | an `lb` is detached exactly when its next sibling is a `pb`. Otherwise the tree is unchanged |
| TeiUtils.DropLbs | utils/transforms/tei_utils.py:48-51 | the loop keeps the tree well formed and never removes an element from the arena |
| TeiUtils.RemoveLbBeforePb | utils/transforms/tei_utils.py:47-51 | the loop gives the tree defined by DropLbs over the `lb` list taken before the loop starts |
| TeiUtils.DropLbsKeepsOthers | utils/transforms/tei_utils.py:47-51 | an element that is not one of the listed `lb`s keeps its parent |
| TeiUtils.PbsStay | utils/transforms/tei_utils.py:47-51 | no `pb` is moved by the lb clean-up |
| TeiUtils.LbRunKeepsFirst | utils/transforms/tei_utils.py:48-51 | in `lb lb pb`, only the second `lb` is removed. The first `lb`'s next sibling becomes the `pb`, but it survives because the milestone list was taken before the loop |
| TeiUtils.IndexOfUnique | utils/transforms/tei_utils.py:59 | `index` finds the only position of an element in a duplicate-free child list |
| TeiUtils.WithoutSplit | utils/transforms/tei_utils.py:58 | `remove` cuts the child list around the element's position |
| TeiUtils.HoistPb | utils/transforms/tei_utils.py:56-59 | if a `pb` is the last child of a `p`, it is moved to just after that `p`, and the `p` is its next sibling's left neighbour. A `p` with no parent is the error case, where Python raises on `None.insert`. In every other case the tree is unchanged |
| TeiUtils.HoistPbs | utils/transforms/tei_utils.py:55-59 | the loop keeps the tree well formed and never removes an element from the arena |
| TeiUtils.MoveTrailingPb | utils/transforms/tei_utils.py:54-59 | the loop gives HoistPbs over the `pb` list taken before the loop starts |
| TeiUtils.HoistKeepsPbs | utils/transforms/tei_utils.py:54-59 | no element gains or loses a parent. Elements that are not listed `pb`s keep their parent |
| TeiUtils.HoistSparesOtherParents | utils/transforms/tei_utils.py:57 | an element whose parent is not a `p` is never moved |
| TeiUtils.Unhyphen | utils/transforms/tei_utils.py:76 | dropping the trailing hyphen gives the text without its final `-` |
| TeiUtils.Candidate | utils/transforms/tei_utils.py:69-72 | the candidate is the previous sibling, or the one before it when the previous sibling is a `caesura` |
| TeiUtils.HyphenSite | utils/transforms/tei_utils.py:74-90 | the text chosen for the fix is, in order of preference: the candidate's tail, the candidate's text, or the parent's text. The chosen text always ends in `-` |
| TeiUtils.FixHyphen | utils/transforms/tei_utils.py:67-90 | fixing one milestone changes only text, tails and attributes. The tree's shape and every tag are unchanged |
| TeiUtils.FixHyphens | utils/transforms/tei_utils.py:68-90 | the loop over the milestones changes neither the tree's shape nor any tag |
| TeiUtils.HyphensJoined | utils/transforms/tei_utils.py:62-90 | the hyphen pass over `lb` and then `pb` leaves the tree's shape unchanged |
| TeiUtils.FixHyphenJoin | utils/transforms/tei_utils.py:62-90 | the loops give exactly HyphensJoined |
| TeiUtils.FixEach | utils/transforms/tei_utils.py:68-90 | the inner loop gives exactly FixHyphens over the milestone list taken before it starts |
| TeiUtils.CharsUpdate | utils/transforms/tei_utils.py:76 | replacing one element changes the total character count by that element's difference |
| TeiUtils.FixHyphenRemovesOne | utils/transforms/tei_utils.py:74-90 | a fix removes exactly one character, and the milestone gets `break="no"`. When no site is found, nothing changes |
| TeiUtils.FixHyphenMarks | utils/transforms/tei_utils.py:77 | the milestone gets `break="no"` exactly when a hyphen is removed |
| TeiUtils.CutChars | utils/transforms/tei_utils.py:76 | dropping one character from a text or tail lowers the character count by one |
| TeiUtils.MarkChars | utils/transforms/tei_utils.py:77 | setting an attribute leaves the character count unchanged |
| TeiUtils.FixHyphensBound | utils/transforms/tei_utils.py:67-90 | the pass removes at most one character per milestone and never adds characters |
| TeiUtils.ParentTextFallback | utils/transforms/tei_utils.py:86-90 | the parent's text is used only when the candidate's tail and text do not end in `-` |
| TeiUtils.PostProcessed | utils/transforms/tei_utils.py:93-97 | the three clean-ups, in order, keep the tree well formed and keep the arena's size |
| TeiUtils.PostProcess | utils/transforms/tei_utils.py:93-97 | the method computes exactly PostProcessed |
| TeiBuilder.WithTree | utils/transforms/xml/tei_builder.py:66-106 | if the tree only grows and no buffered `lg` gets a parent, the builder's invariant still holds |
| TeiBuilder.Init | utils/transforms/xml/tei_builder.py:109-116 | a new builder has the tree `TEI/text/body`. The current div is `body`, the verse-group buffer is empty and the line counter is 0 |
| TeiBuilder.EmitLb | utils/transforms/xml/tei_builder.py:202-210 | `_emit_lb` increments the line counter and appends an `lb` as the container's last child. Its `n` is the new count, and it has `break="no"` exactly when the raw line is non-empty and ends in a hyphen. The new `lb` becomes the last emitted `lb` |
| TeiBuilder.FinalizePhysicalLine | utils/transforms/xml/tei_builder.py:212-214 | only the previous-line-hyphen flag changes. It is set to whether the raw line ends in a hyphen |
| TeiBuilder.Append | utils/transforms/xml/tei_builder.py:216-243 | `_append` changes only text and tails. The state and the tree's shape are unchanged |
| TeiBuilder.AppendRouting | utils/transforms/xml/tei_builder.py:216-243 | non-empty text goes either to the sink's tail, after a join space, or to the text of the current `l` (or else `p`) when there is no sink. Empty text, or text with no place to go, changes nothing |
| TeiBuilder.JoinSpaceOnlyAfterBreaks | utils/transforms/xml/tei_builder.py:235-238 | the join prefix is one space exactly when the sink is an `lb` or `pb` and the previous line did not end in a hyphen. Otherwise it is empty |
| TeiBuilder.AddInlineElement | utils/transforms/xml/tei_builder.py:360-371 | the inline element becomes the new sink. The only error is `addnext` on a sink that has no parent, which lxml rejects |
| TeiBuilder.SinkAt | utils/transforms/xml/tei_builder.py:371 | only the sink changes |
| TeiBuilder.AddInlineKeepsKids | utils/transforms/xml/tei_builder.py:360-369 | child lists other than the one receiving the element are unchanged |
| TeiBuilder.AddInlinePlacement | utils/transforms/xml/tei_builder.py:364-369 | with a sink, the element becomes the sink's next sibling. With no sink, it is appended to the current `l`, or else to the current `p` |
| TeiBuilder.ChoiceElement | utils/transforms/xml/tei_builder.py:337-342 | a detached `choice` holding `sic` then `corr`, each with its text |
| TeiBuilder.NewTextElement | utils/transforms/xml/tei_builder.py:345-357 | a detached element with the given tag and text |
| TeiBuilder.EmitInline | utils/transforms/xml/tei_builder.py:337-358 | emitting `del`, `supplied`, `unclear` or `choice` makes the new element the sink |
| TeiBuilder.EmitInlineShape | utils/transforms/xml/tei_builder.py:345-358 | `del`, `supplied` and `unclear` elements get the marker's inner text |
| TeiBuilder.EmitChoiceShape | utils/transforms/xml/tei_builder.py:337-342 | `choice` gets `sic` and `corr` with the marker's two parts |
| TeiBuilder.GetContainer | utils/transforms/xml/tei_builder.py:457-466 | the container is the first that is open of `l`, `lg` and `p`, or else the current div |
| TeiBuilder.LastVerseOrParagraph | utils/transforms/xml/tei_builder.py:490-492 | the fallback `pb` container is the last `l` or `p` among the current div's descendants in document order, as XPath's `[last()]` over `.//l` and `.//p` gives. There is none exactly when the div has no `l` or `p` descendant |
| TeiBuilder.TakeLastLb | utils/transforms/xml/tei_builder.py:474-486 | replacing the last `lb` leaves the state unchanged and keeps every element |
| TeiBuilder.EmitPb | utils/transforms/xml/tei_builder.py:468-505 | emitting a `pb` keeps the builder's invariant |
| TeiBuilder.EmitPbFails | utils/transforms/xml/tei_builder.py:478 | `_emit_pb` raises exactly when the last `lb`'s parent has no parent, because `None.tag` is an AttributeError |
| TeiBuilder.EmitPbReplacesLb | utils/transforms/xml/tei_builder.py:468-505 | the new `pb` has `n` = page and becomes the sink. It has `break="no"` exactly when it replaces an attached `lb` that had `break="no"`, and that `lb` is removed. The explicit page and the line counter are updated |
| TeiBuilder.TakeLastLbDetaches | utils/transforms/xml/tei_builder.py:474-486 | an attached last `lb` is detached, and its `break="no"` is reported |
| TeiBuilder.PageLineCountsOn | utils/transforms/xml/tei_builder.py:499-501 | after `<p,n>`, the next `lb` is numbered n |
| TeiBuilder.EmitMilestone | utils/transforms/xml/tei_builder.py:507-510 | a `milestone` with `n` = label is appended to the current container. The state is unchanged |
| TeiBuilder.CloseP | utils/transforms/xml/tei_builder.py:590-597 | the current `p` is closed. It is removed from the tree exactly when it has no text and no children; otherwise the tree is unchanged |
| TeiBuilder.AppendAll | utils/transforms/xml/tei_builder.py:623-624 | appending the buffered `lg`s one by one keeps the tree well formed |
| TeiBuilder.AppendDetached | utils/transforms/xml/tei_builder.py:624 | appending an element that has no parent adds it at the end |
| TeiBuilder.AppendAllKids | utils/transforms/xml/tei_builder.py:623-624 | the group's children gain the buffer, in order |
| TeiBuilder.AppendAllOtherKids | utils/transforms/xml/tei_builder.py:623-624 | no other child list changes |
| TeiBuilder.AppendAllUp | utils/transforms/xml/tei_builder.py:623-624 | exactly the buffered `lg`s get the group as their parent |
| TeiBuilder.PendingDetached | utils/transforms/xml/tei_builder.py:606-611 | the `lg`s waiting to be flushed are distinct, are `lg` elements, and have no parent |
| TeiBuilder.Flushed | utils/transforms/xml/tei_builder.py:606-632 | the state after a flush satisfies the builder's invariant |
| TeiBuilder.WrapGroups | utils/transforms/xml/tei_builder.py:616-624 | making a group keeps the tree well formed and only extends it |
| TeiBuilder.PlaceSingle | utils/transforms/xml/tei_builder.py:625-630 | placing a single `lg` keeps the tree well formed |
| TeiBuilder.FlushVerseGroupBuffer | utils/transforms/xml/tei_builder.py:606-632 | a flush empties the buffer, and in prose mode it closes the current `lg` |
| TeiBuilder.FlushFailsOnMissingLocation | utils/transforms/xml/tei_builder.py:613-630 | a flush fails exactly when `lg`s are pending but no location label or id is set, which lxml rejects as a `None` attribute value. An empty buffer changes nothing but the state |
| TeiBuilder.FlushPlacesSingle | utils/transforms/xml/tei_builder.py:625-630 | a single pending `lg` gets the location's `xml:id` and `n` and becomes the div's last child |
| TeiBuilder.WrapGroupsShape | utils/transforms/xml/tei_builder.py:616-624 | a group `lg` with `type=group`, `n` and `xml:id` is appended to the div, and its children are exactly the buffer, in order |
| TeiBuilder.FlushWrapsGroups | utils/transforms/xml/tei_builder.py:616-624 | two or more pending `lg`s are wrapped in a new group `lg` under the current div |
| TeiBuilder.CloseLg | utils/transforms/xml/tei_builder.py:599-604 | after a flush, no `lg` is open and the buffer is empty |
| TeiBuilder.CloseAll | utils/transforms/xml/tei_builder.py:448-450 | flushing and then closing the `p` and the `lg` leaves neither open |
| TeiBuilder.StartDiv | utils/transforms/xml/tei_builder.py:451-455 | a new empty `div` with `n` = label under `body` becomes the current div. The location is cleared |
| TeiBuilder.OpenDiv | utils/transforms/xml/tei_builder.py:446-455 | `_open_div` keeps the builder's invariant |
| TeiBuilder.OpenDivStartsSection | utils/transforms/xml/tei_builder.py:446-455 | after `{label}`, the current div is a new empty div under `body`. No `p` or `lg` is open, the buffer is empty and the location is cleared |
| TeiBuilder.StartParagraph | utils/transforms/xml/tei_builder.py:517-530 | a new `p` with `xml:id` = make_xml_id(label) and `n` = label is added under the current div. The location is set, the sink is cleared and the hyphen flag is reset |
| TeiBuilder.OpenLocation | utils/transforms/xml/tei_builder.py:512-530 | `_open_location` keeps the builder's invariant |
| TeiBuilder.OpenLocationOpensP | utils/transforms/xml/tei_builder.py:512-530 | after `[label]` in prose mode, a `p` carrying the label's id is open under the same div |
| TeiBuilder.StartLg | utils/transforms/xml/tei_builder.py:563-581 | a new empty `lg` with `n` = base and `xml:id` = `v` + the base with non-word characters replaced. In verse-only mode it goes under the current div; otherwise it has no parent yet |
| TeiBuilder.SwitchLg | utils/transforms/xml/tei_builder.py:558-581 | opening a new `lg` sets the label and keeps the div, the pending head and the sink |
| TeiBuilder.OpenOrSwitchLg | utils/transforms/xml/tei_builder.py:546-581 | the returned `lg` is the current one and the label is recorded |
| TeiBuilder.SameBaseKeepsLg | utils/transforms/xml/tei_builder.py:554-556 | a label whose base matches the open `lg` only updates the label |
| TeiBuilder.NewBaseOpensLg | utils/transforms/xml/tei_builder.py:562-581 | a new base opens a fresh empty `lg` with the base as `n`, after closing and flushing the old one |
| TeiBuilder.AppendChildText | utils/transforms/xml/tei_builder.py:583-588 | blank text adds nothing. Otherwise a child with the stripped text is appended as the parent's last child |
| TeiBuilder.SubElementOf | utils/transforms/xml/tei_builder.py:430 | `SubElement(None, …)` raises. Otherwise a new child is added |
| TeiBuilder.EmitMarker | utils/transforms/xml/tei_builder.py:399-408 | each handled marker makes its element the sink and leaves the open blocks alone |
| TeiBuilder.RouteMarkers | utils/transforms/xml/tei_builder.py:398-408 | the text pieces appended between the markers are exactly the gaps between the kept matches |
| TeiBuilder.VerseTexts | utils/transforms/xml/tei_builder.py:398-412 | in verse mode, the appended texts are the gaps followed by the post text |
| TeiBuilder.ProseTextsExtendVerse | utils/transforms/xml/tei_builder.py:414-416 | prose mode appends one extra space unless the content ends in a hyphen |
| TeiBuilder.OrderedFromStart | utils/transforms/xml/tei_builder.py:391-396 | the kept matches are in order and do not overlap |
| TeiBuilder.AppendedTextsConserveContent | utils/transforms/xml/tei_builder.py:398-410 | the gaps interleaved with the kept matches give back the content |
| TeiBuilder.PostTextDropsOnlyHyphen | utils/transforms/xml/tei_builder.py:410-411 | the post text loses only a trailing hyphen and the whitespace after it |
| TeiBuilder.FinishProse | utils/transforms/xml/tei_builder.py:414-423 | prose mode without a `p` raises. In line-by-line mode an `lb` in the `p` becomes the sink. Otherwise the sink is cleared when the `p` has no children |
| TeiBuilder.ProseSink | utils/transforms/xml/tei_builder.py:418-423 | the sink after a prose line, in both modes |
| TeiBuilder.FinishVerse | utils/transforms/xml/tei_builder.py:425-444 | the result is whether a verse end closes the post text, and the `l` is closed exactly when a line end does. Adding a caesura or an `lb` with no `l` is an error |
| TeiBuilder.VerseSink | utils/transforms/xml/tei_builder.py:429-439 | a `caesura` is added to the `l` exactly when the content is non-empty and does not close the line. The sink is the `lb` in line-by-line mode, and the caesura otherwise |
| TeiBuilder.AddCaesura | utils/transforms/xml/tei_builder.py:429-433 | an added caesura becomes the sink; when none is wanted, nothing changes |
| TeiBuilder.VerseLb | utils/transforms/xml/tei_builder.py:435-439 | in line-by-line mode an `lb` in the `l` becomes the sink. Otherwise the sink is cleared when there is no caesura |
| TeiBuilder.RouteContent | utils/transforms/xml/tei_builder.py:376-412 | the texts appended by the routing are the verse-mode texts |
| TeiBuilder.ProcessContent | utils/transforms/xml/tei_builder.py:373-444 | the texts appended are exactly AppendedTexts for the mode. Prose mode leaves the `l` and the caesura alone |
| TeiBuilder.VerseEnding | utils/transforms/xml/tei_builder.py:425-444 | the verse-mode result and caesura, described in terms of the whole content |
| TeiBuilder.ProseEnding | utils/transforms/xml/tei_builder.py:418-420 | a prose line in line-by-line mode ends with an `lb` in the `p` as the sink |
| TeiBuilder.StartL | utils/transforms/xml/tei_builder.py:250-255 | a new `l` with the segment's attributes becomes the `lg`'s last child and clears the sink |
| TeiBuilder.HandleVerseOnlyLine | utils/transforms/xml/tei_builder.py:245-257 | `_handle_verse_only_line` keeps the builder's invariant |
| TeiBuilder.VerseOnlyLineJoinsBase | utils/transforms/xml/tei_builder.py:247-248 | the line goes to the `lg` of its label's base, in the same div |
| TeiBuilder.BufferLg | utils/transforms/xml/tei_builder.py:266-270 | the open `lg` is buffered (outside verse-only mode) and closed |
| TeiBuilder.TakePendingHead | utils/transforms/xml/tei_builder.py:274-276 | the pending head moves into the `lg` as its last child |
| TeiBuilder.VerseOnlyTabLine | utils/transforms/xml/tei_builder.py:272-283 | the location label used is the current one, or `v` when it is unset or empty |
| TeiBuilder.EmptyLocLabelIsV | utils/transforms/xml/tei_builder.py:273 | with an empty location label, the `lg` is opened for `v` |
| TeiBuilder.HeadsThenL | utils/transforms/xml/tei_builder.py:274-281 | after the heads, an `l` is open and no head is pending |
| TeiBuilder.EnsureLg | utils/transforms/xml/tei_builder.py:285-293 | with no `lg` open, a detached `lg` is made. A non-blank pre-tab text is used up as its head |
| TeiBuilder.NewLg | utils/transforms/xml/tei_builder.py:285-293 | the new detached `lg` becomes current and no head is pending |
| TeiBuilder.FreshLg | utils/transforms/xml/tei_builder.py:286-289 | the new `lg` is newer than every buffered one |
| TeiBuilder.EnsureL | utils/transforms/xml/tei_builder.py:295-299 | afterwards an `l` is open in the same `lg` |
| TeiBuilder.BackStart | utils/transforms/xml/tei_builder.py:305-311 | the split point after the last verse end. It is absent exactly when the text has no verse end |
| TeiBuilder.PlaceBack | utils/transforms/xml/tei_builder.py:317 | a `back` with the stripped text is added to the `lg` |
| TeiBuilder.MoveSinkIntoBack | utils/transforms/xml/tei_builder.py:318-325 | moving the milestone into `back` keeps every element and the `back`'s own place |
| TeiBuilder.VerseTail | utils/transforms/xml/tei_builder.py:301-331 | the rest of a grouped verse line keeps the builder's invariant |
| TeiBuilder.HandleVerseLine | utils/transforms/xml/tei_builder.py:259-331 | `_handle_verse_line` keeps the builder's invariant |
| TeiBuilder.VerseLineStart | utils/transforms/xml/tei_builder.py:261-270 | the `p` is closed and the line is split at the first tab, with the head right-stripped. A non-blank head buffers and closes the open `lg` |
| TeiBuilder.GroupedVerse | utils/transforms/xml/tei_builder.py:285-331 | the prose-mode verse path keeps the builder's invariant |
| TeiBuilder.Classify | utils/transforms/xml/tei_builder.py:125-199 | blank lines are recognised exactly. Verse lines contain a tab, and prose lines are non-blank and have no tab |
| TeiBuilder.PendingHead | utils/transforms/xml/tei_builder.py:174-184 | a detached `head` with the stripped text becomes the pending head, after the `p` is closed |
| TeiBuilder.Section | utils/transforms/xml/tei_builder.py:134-137 | a section line is `_open_div` followed by clearing the sink |
| TeiBuilder.ProseLineStep | utils/transforms/xml/tei_builder.py:192-199 | prose without an open `p` raises the end-of-handler exception |
| TeiBuilder.NoteStep | utils/transforms/xml/tei_builder.py:150-154 | a structure note keeps the builder's invariant |
| TeiBuilder.LocationStep | utils/transforms/xml/tei_builder.py:159-169 | a location line keeps the builder's invariant |
| TeiBuilder.VerseStep | utils/transforms/xml/tei_builder.py:187-190 | a verse line keeps the builder's invariant |
| TeiBuilder.HandleLine | utils/transforms/xml/tei_builder.py:125-199 | `_handle_line` keeps the builder's invariant |
| TeiBuilder.HandleKind | utils/transforms/xml/tei_builder.py:130-199 | each line kind's handler keeps the builder's invariant |
| TeiBuilder.HandleLines | utils/transforms/xml/tei_builder.py:119-120 | handling the lines in order keeps the builder's invariant, and the first error stops the build |
| TeiBuilder.HandleLinesStep | utils/transforms/xml/tei_builder.py:119-120 | one step of the line loop |
| TeiBuilder.HandleLinesAt | utils/transforms/xml/tei_builder.py:119-120 | the loop's state after i lines determines the rest of the build |
| TeiBuilder.RunUnfold | utils/transforms/xml/tei_builder.py:118-122 | a build is the line loop followed by one flush |
| TeiBuilder.Run | utils/transforms/xml/tei_builder.py:118-122 | `build` keeps the builder's invariant |
| TeiBuilder.BlankLineNoOp | utils/transforms/xml/tei_builder.py:126-127 | a blank line changes nothing |
| TeiBuilder.ProseNeedsParagraph | utils/transforms/xml/tei_builder.py:193-199 | a prose line with no open `p` raises |
| TeiBuilder.SectionLineOpensDiv | utils/transforms/xml/tei_builder.py:134-137 | after `{label}`, a new empty div with `n` = label is current and the sink is cleared |
| TeiBuilder.PageLineSetsPage | utils/transforms/xml/tei_builder.py:140-147 | a page line sets the explicit page and the line counter |
| TeiBuilder.LocationLineOpensP | utils/transforms/xml/tei_builder.py:163-169 | outside verse-only mode, a location line opens a `p` that carries the label and its id |
| TeiBuilder.PendingHeadWaits | utils/transforms/xml/tei_builder.py:174-184 | the pending head stays detached with its stripped text, and no `p` is open |
| TeiBuilder.ProseLineAppends | utils/transforms/xml/tei_builder.py:193-196 | a prose line appends the prose-mode texts, keeps the `p`, and records whether it ends in a hyphen |
| TeiBuilder.NoteLineAddsMilestone | utils/transforms/xml/tei_builder.py:150-154 | a note line adds a `milestone` with `n` = note to the container and records the hyphen flag |
| TeiBuilder.RunFlushes | utils/transforms/xml/tei_builder.py:121 | after `build`, nothing is left in the buffer, and in prose mode no `lg` is open |
| TeiBuilder.VerseOnlyNeverBuffers | utils/transforms/xml/tei_builder.py:266-268 | in verse-only mode, the buffer stays empty |
| TeiBuilder.HandleAll | utils/transforms/xml/tei_builder.py:119-120 | the `for raw in lines` loop gives exactly HandleLines |
| TeiBuilder.RunAll | utils/transforms/xml/tei_builder.py:118-122 | the loop followed by a flush gives exactly Run |
| TeiBuilder.TeiTextBuilder.constructor | utils/transforms/xml/tei_builder.py:109-116 | the object's state is Init for the two mode flags |
| TeiBuilder.TeiTextBuilder.Build | utils/transforms/xml/tei_builder.py:118-122 | the object's tree and state become Run's result. An error becomes the raised exception |
| TeiHeader.Indent | utils/transforms/xml/tei_builder.py:679 | the indent is the length of the run of leading spaces |
| TeiHeader.NestedEnd | utils/transforms/xml/tei_builder.py:691-693 | the nested block is the longest run of lines indented deeper than the item |
| TeiHeader.Span | utils/transforms/xml/tei_builder.py:689-693 | an item and its nested block cover at least one line |
| TeiHeader.Next | utils/transforms/xml/tei_builder.py:698-709 | the `parse_lines` loop always advances past the current line |
| TeiHeader.ParseLines | utils/transforms/xml/tei_builder.py:674-710 | the `while i < len(lines)` loop builds exactly the map FieldsOf |
| TeiHeader.ParseItem | utils/transforms/xml/tei_builder.py:678-709 | one iteration advances to Next and adds the item given by Put |
| TeiHeader.BlankItem | utils/transforms/xml/tei_builder.py:699-709 | a line that is empty once unbulleted adds nothing and moves on one line |
| TeiHeader.ParseField | utils/transforms/xml/tei_builder.py:685-698 | a `key: value` line stores its nested block parsed at `indent + 2` if it has one, and the stripped value otherwise |
| TeiHeader.ParseKey | utils/transforms/xml/tei_builder.py:699-708 | a key-only line stores only a nested block |
| TeiHeader.BlockEnd | utils/transforms/xml/tei_builder.py:691-693 | the inner loop stops at the block's end |
| TeiHeader.FieldsFromStop | utils/transforms/xml/tei_builder.py:680-681 | a line indented less than the level ends the block |
| TeiHeader.PutFieldCase | utils/transforms/xml/tei_builder.py:685-698 | what a `key: value` item stores |
| TeiHeader.PutKeyCase | utils/transforms/xml/tei_builder.py:699-708 | what a key-only item stores |
| TeiHeader.UnindentedIsFlat | utils/transforms/xml/tei_builder.py:674-710 | with no indented lines, every value is a string |
| TeiHeader.PutUnindented | utils/transforms/xml/tei_builder.py:685-708 | one unindented item stores a string, if anything |
| TeiHeader.UnindentedSpan | utils/transforms/xml/tei_builder.py:691 | an unindented line has no nested block |
| TeiHeader.KeyOnlySkipsNext | utils/transforms/xml/tei_builder.py:698-709 | a key-only line with no nested block also skips the following line: `i = j` and then `i += 1` |
| TeiHeader.FieldsFromStep | utils/transforms/xml/tei_builder.py:677-709 | one step of the loop |
| TeiHeader.KeyOnlyStep | utils/transforms/xml/tei_builder.py:699-709 | a key-only line with no block moves on by two lines and stores nothing |
| TeiHeader.NonBlank | utils/transforms/xml/tei_builder.py:668 | keeps exactly the non-blank lines |
| TeiHeader.BulletTexts | utils/transforms/xml/tei_builder.py:672 | each bullet item's text with `- ` dropped and stripped |
| TeiHeader.ProcessValue | utils/transforms/xml/tei_builder.py:667-714 | `_process_value` gives exactly ValueOf |
| TeiHeader.JoinNonEmpty | utils/transforms/xml/tei_builder.py:714 | joining a non-empty list of non-empty lines gives non-empty text |
| TeiHeader.ValueShapes | utils/transforms/xml/tei_builder.py:667-714 | the value is `""` exactly when every line is blank. It is a list exactly when every non-blank line is a `- ` item without a colon, with one entry per line. It is a dictionary exactly when some line has a colon and the lines are not such a list |
| TeiHeader.HeadingKey | utils/transforms/xml/tei_builder.py:656-659 | a `# ` line gives its stripped key |
| TeiHeader.HeadingsMembers | utils/transforms/xml/tei_builder.py:656 | the headings are exactly the keys of the `# ` lines |
| TeiHeader.TeiHeaderBuilder.constructor | utils/transforms/xml/tei_builder.py:638 | the metadata starts empty |
| TeiHeader.TeiHeaderBuilder.ParseMetadata | utils/transforms/xml/tei_builder.py:651-665 | `parse_metadata` sets the metadata to MetadataOf the old metadata and the lines |
| TeiHeader.ScanPreamble | utils/transforms/xml/tei_builder.py:661 | lines before the first heading are ignored |
| TeiHeader.PreambleIgnored | utils/transforms/xml/tei_builder.py:661 | the metadata does not depend on a preamble without headings |
| TeiHeader.ScanKeys | utils/transforms/xml/tei_builder.py:651-665 | the keys afterwards are the old keys, the open key and every heading |
| TeiHeader.HeadingsBecomeKeys | utils/transforms/xml/tei_builder.py:651-665 | a key is in the metadata exactly when it was there before or it heads a section |
| TeiHeader.KeepsValue | utils/transforms/xml/tei_builder.py:651-665 | a key that no heading names keeps its old value |
| TeiHeader.FillsValue | utils/transforms/xml/tei_builder.py:657-665 | the open key gets the processed value of its body lines |
| TeiHeader.FillsAtHeading | utils/transforms/xml/tei_builder.py:657-665 | the same, starting at a heading |
| TeiHeader.BodyStep | utils/transforms/xml/tei_builder.py:661-663 | a body line is stripped and buffered unless it is blank |
| TeiHeader.ScanSplit | utils/transforms/xml/tei_builder.py:654 | scanning a concatenation is scanning each part in turn |
| TeiHeader.ScanAt | utils/transforms/xml/tei_builder.py:654 | the state at line i determines the rest of the scan |
| TeiHeader.StepAtHeading | utils/transforms/xml/tei_builder.py:656-660 | a heading opens its key with an empty buffer |
| TeiHeader.LastHeadingWins | utils/transforms/xml/tei_builder.py:651-665 | the value of a key is the processed body of its last heading |
| TeiHeader.ValueOfUnindented | utils/transforms/xml/tei_builder.py:667-714 | stripped lines give no nested dictionary |
| TeiHeader.ScanShallow | utils/transforms/xml/tei_builder.py:655-665 | because every buffered line is stripped, no stored value is nested |
| TeiHeader.FlushShallow | utils/transforms/xml/tei_builder.py:657-658 | storing a section keeps every value shallow |
| TeiHeader.StepShallow | utils/transforms/xml/tei_builder.py:655-663 | one line keeps the buffer unindented and the values shallow |
| TeiHeader.AppendUnindented | utils/transforms/xml/tei_builder.py:663 | appending a stripped line keeps the buffer unindented |
| TeiHeader.MetadataIsShallow | utils/transforms/xml/tei_builder.py:655-714 | `parse_metadata` never stores a nested dictionary, because it strips every line before `parse_lines` sees its indent |
| HtmlRender.FindChild | utils/transforms/html/convert_xml_to_html.py:85 | `find(tag)` returns the first child with that tag, or nothing when no child has it |
| HtmlRender.PlainTextWithin | utils/transforms/html/convert_xml_to_html.py:65-96 | the plain text is never longer than the full `itertext`. Without `del` or `choice` the two are equal |
| HtmlRender.PlainKidsWithin | utils/transforms/html/convert_xml_to_html.py:83-95 | the same, for the children up to k |
| HtmlRender.IterKidsHas | utils/transforms/html/convert_xml_to_html.py:176 | the text of one child is part of the text of the children |
| HtmlRender.IterKidsGrow | utils/transforms/html/convert_xml_to_html.py:176 | more children give at least as much text |
| HtmlRender.ChoiceEdits | utils/transforms/html/convert_xml_to_html.py:172-189 | a `choice` records one correction plus those inside `sic` and `corr` |
| HtmlRender.EditsNone | utils/transforms/html/convert_xml_to_html.py:98-215 | a subtree with no `choice`, `del` or `supplied` records no correction |
| HtmlRender.EditsUpToNone | utils/transforms/html/convert_xml_to_html.py:118-214 | the same, for the children up to k |
| HtmlRender.GrowsTrans | utils/transforms/html/convert_xml_to_html.py:98-215 | the rendered tree only grows, step after step |
| HtmlRender.SetSink | utils/transforms/html/convert_xml_to_html.py:59-63 | writing the append point changes only that text or tail |
| HtmlRender.AttachLast | utils/transforms/html/convert_xml_to_html.py:53 | `element.append(label)` adds the label as the last child |
| HtmlRender.Fresh | utils/transforms/html/convert_xml_to_html.py:48-49 | the handles of the newly made `br` elements, in order |
| HtmlRender.WithSpace | utils/transforms/html/convert_xml_to_html.py:127-133 | a space is added exactly when the text does not already end in one |
| HtmlRender.Tags | utils/transforms/html/convert_xml_to_html.py:239-258 | the tag sequence of an element's children |
| HtmlRender.TagsAdd | utils/transforms/html/convert_xml_to_html.py:242 | adding a child appends its tag |
| HtmlRender.TagsKept | utils/transforms/html/convert_xml_to_html.py:250 | a node whose child list is unchanged keeps its tag list |
| HtmlRender.GrowsIsBelow | utils/transforms/html/convert_xml_to_html.py:228-258 | growth under one node stays below that node |
| HtmlRender.GrowsBelowTrans | utils/transforms/html/convert_xml_to_html.py:239-258 | the same, step after step |
| HtmlRender.GrowsAround | utils/transforms/html/convert_xml_to_html.py:239-258 | growth below a freshly made child, after growth under h, is growth under h |
| HtmlRender.LgSnoc | utils/transforms/html/convert_xml_to_html.py:239-258 | the `lg` children are handled one at a time, left to right |
| HtmlRender.LgShapeSize | utils/transforms/html/convert_xml_to_html.py:239-258 | the rendered `lg` has at least one child per `l` and at most one per child |
| HtmlRender.HtmlConverter.constructor | utils/transforms/html/convert_xml_to_html.py:10-25 | a new converter starts on page `""`, line `"1"`, with no pending label or breaks and no corrections |
| HtmlRender.HtmlConverter.AppendText | utils/transforms/html/convert_xml_to_html.py:28-63 | `append_text` in rich mode first writes the pending breaks and label, when the text is not blank, and may strip the text. The text then goes to the last child's tail, or else to the element's text. Empty text changes nothing |
| HtmlRender.HtmlConverter.Flush | utils/transforms/html/convert_xml_to_html.py:47-54 | the pending `br`s and then the label are appended, and nothing is left pending |
| HtmlRender.HtmlConverter.WriteSink | utils/transforms/html/convert_xml_to_html.py:59-63 | the text is appended to the last child's tail, or else to the element's text |
| HtmlRender.HtmlConverter.AddBreaks | utils/transforms/html/convert_xml_to_html.py:48-50 | one `br` with class `lb-br rich-text` for each pending break |
| HtmlRender.HtmlConverter.JoinAtBreak | utils/transforms/html/convert_xml_to_html.py:120-133 | `break="no"` adds a hyphen span. Otherwise a space is made sure of before the break |
| HtmlRender.HtmlConverter.SpaceBefore | utils/transforms/html/convert_xml_to_html.py:122-133 | the last tail, or the element's text, ends in a space afterwards |
| HtmlRender.HtmlConverter.NewLabel | utils/transforms/html/convert_xml_to_html.py:146-148 | the new detached label becomes the pending label |
| HtmlRender.HtmlConverter.LineBreak | utils/transforms/html/convert_xml_to_html.py:119-148 | an `lb` sets the current line to its `n` when that is non-empty. It adds a pending break unless it is inside an `lg` and not after a caesura. Its label is `(p.PAGE, l.N)`. A missing `n` is the error case, where lxml rejects a `None` attribute |
| HtmlRender.HtmlConverter.PageBreak | utils/transforms/html/convert_xml_to_html.py:149-171 | a `pb` sets the page to its `n` and the line to `1`. It adds a pending break outside an `lg`, and its label is an `a` with the page |
| HtmlRender.HtmlConverter.Record | utils/transforms/html/convert_xml_to_html.py:178-183 | a correction entry for the current place is recorded unless only plain output is made |
| HtmlRender.HtmlConverter.Child | utils/transforms/html/convert_xml_to_html.py:173 | `SubElement` adds a new last child and leaves the place unchanged |
| HtmlRender.HtmlConverter.Half | utils/transforms/html/convert_xml_to_html.py:184-189 | one half of a correction is an `i` carrying its attributes, with the part's corrections recorded |
| HtmlRender.HtmlConverter.Halves | utils/transforms/html/convert_xml_to_html.py:184-206 | the two halves record the corrections of both parts |
| HtmlRender.HtmlConverter.CorrectionSpan | utils/transforms/html/convert_xml_to_html.py:173-206 | a `span.correction` is added and the entry is recorded first |
| HtmlRender.HtmlConverter.Choice | utils/transforms/html/convert_xml_to_html.py:172-189 | a `choice` records `(sic text, corr text)` at the current place and renders both halves |
| HtmlRender.HtmlConverter.Edit | utils/transforms/html/convert_xml_to_html.py:190-206 | a `del` records its text as the sic, and a `supplied` records it as the corr |
| HtmlRender.HtmlConverter.Unclear | utils/transforms/html/convert_xml_to_html.py:207-209 | an `unclear` becomes a `span.unclear` holding its rendered children |
| HtmlRender.HtmlConverter.ProcessChild | utils/transforms/html/convert_xml_to_html.py:118-214 | one child adds exactly its own corrections |
| HtmlRender.HtmlConverter.RenderChild | utils/transforms/html/convert_xml_to_html.py:119-211 | dispatch by tag, with each child's corrections counted |
| HtmlRender.HtmlConverter.ProcessChildren | utils/transforms/html/convert_xml_to_html.py:98-215 | plain mode appends exactly the plain text and records nothing. Rich mode records exactly one correction per edit in the subtree |
| HtmlRender.HtmlConverter.ProcessLg | utils/transforms/html/convert_xml_to_html.py:216-263 | an `lg` becomes a `div` with the mode's class and style, and its children's tags follow the `lg` children |
| HtmlRender.HtmlConverter.LgKids | utils/transforms/html/convert_xml_to_html.py:239-258 | the loop over the `lg` children gives exactly LgShape |
| HtmlRender.HtmlConverter.LgChild | utils/transforms/html/convert_xml_to_html.py:240-258 | one `lg` child adds the tag that LgStep predicts |
| HtmlRender.HtmlConverter.LgHead | utils/transforms/html/convert_xml_to_html.py:240-243 | a `head` with text becomes a `p.lg-head` |
| HtmlRender.HtmlConverter.LgBack | utils/transforms/html/convert_xml_to_html.py:247-254 | a `back` renders into the last child, or into a new `p` when there is none |
| HtmlRender.HtmlConverter.LgPart | utils/transforms/html/convert_xml_to_html.py:242-257 | one new child of the `lg` div |
| HtmlRender.HtmlConverter.LgInto | utils/transforms/html/convert_xml_to_html.py:250 | rendering into an existing child keeps the div's tag list |
| HtmlRender.TrailStart | utils/transforms/html/convert_xml_to_html.py:417-420 | the trailing breaks are the longest run of `lb`/`pb` at the end whose tails are blank |
| HtmlRender.LastL | utils/transforms/html/convert_xml_to_html.py:413 | the last `l` child of the `lg` |
| HtmlRender.Marked | utils/transforms/html/convert_xml_to_html.py:425-427 | the text gets ` VERSE ||` appended |
| HtmlRender.MarkVerseEnd | utils/transforms/html/convert_xml_to_html.py:415-430 | the verse number goes after the last child that is not a trailing break, or into the text when there is none. Every other child is unchanged |
| HtmlRender.TakeTrailing | utils/transforms/html/convert_xml_to_html.py:416-422 | the `while` loop splits off exactly the trailing breaks |
| HtmlRender.TrailStartDrop | utils/transforms/html/convert_xml_to_html.py:416-422 | the children before the trailing breaks have no trailing breaks of their own |
| HtmlRender.ParseOffsets | utils/transforms/html/convert_xml_to_html.py:355-366 | the loop over the list items gives exactly Offsets |
| HtmlRender.PdfOffsets | utils/transforms/html/convert_xml_to_html.py:352-371 | the offsets are never empty, and `[[1, 1]]` when there is no field |
| HtmlRender.OffsetsMeaning | utils/transforms/html/convert_xml_to_html.py:356-366 | the offsets are exactly the items that parse, and there are no more of them than items |
| HtmlRender.SplitTwo | utils/transforms/html/convert_xml_to_html.py:359-361 | splitting at a separator that occurs once gives two parts |
| HtmlRender.SplitFirstAt | utils/transforms/html/convert_xml_to_html.py:359-361 | where the first separator splits |
| HtmlRender.NoArrow | utils/transforms/html/convert_xml_to_html.py:364 | an integer printed as text contains no separator and no padding |
| HtmlRender.OffsetRoundTrip | utils/transforms/html/convert_xml_to_html.py:357-364 | `"a→b"` and `"a,b"` parse back to `(a, b)` |
| EarlyPatterns.CommaParts | utils/transforms/tei_builder.py:14-17 | a label has page and line parts exactly when a comma remains after stripping. They are the stripped pieces around the first comma |
| EarlyPatterns.MakeXmlId | utils/transforms/tei_builder.py:8-24 | the id is never empty and contains no `.`. It starts with `p` exactly for a label with non-blank page and line parts. Any other label gives `v` followed by the stripped label with each run of non-word characters made one `_`, so word characters only |
| EarlyPatterns.PageLineEarlyId | utils/transforms/tei_builder.py:18-21 | `p{page}_{line}` with the dots made `_` (no `l`, unlike the later builder) contains no `.` |
| EarlyPatterns.PageLineXmlId | utils/transforms/tei_builder.py:16-21 | for an unpadded dot-free page and line, `"page,line"` gives `p{page}_{line}` |
| EarlyPatterns.FindAt | utils/transforms/tei_builder.py:17 | `split(",", 1)` cuts at the first occurrence of the separator |
| EarlyPatterns.PlainXmlId | utils/transforms/tei_builder.py:22-24 | an unpadded label made only of word characters gives `v` + label |
| EarlyPatterns.ImplicitId | utils/transforms/tei_builder.py:96 | `make_xml_id("implicit")` is `vimplicit` |
| EarlyPatterns.ImplicitNotPageLine | utils/transforms/tei_builder.py:16 | `implicit` has no comma |
| EarlyPatterns.ImplicitWordChars | utils/transforms/tei_builder.py:23 | every character of `implicit` is a word character |
| EarlyPatterns.StripIdentity | utils/transforms/tei_builder.py:14 | an unpadded label is left unchanged by stripping |
| EarlyPatterns.ReplaceAbsent | utils/transforms/tei_builder.py:19-20 | replacing `.` in a string that has none changes nothing |
| EarlyPatterns.Chr | utils/transforms/tei_builder.py:131 | `chr(n)` is the character with code n. It fails exactly for surrogates and codes past U+10FFFF, where Python raises ValueError |
| EarlyPatterns.LetterPair | utils/transforms/tei_builder.py:130-131 | the k-th segment label is the two characters with codes `97 + 2k` and `98 + 2k`, with no upper limit; it exists for every k below 27599 |
| EarlyPatterns.LetterPairInjective | utils/transforms/tei_builder.py:130-134 | different indices give different segment labels |
| EarlyPatterns.LetterPairPastZ | utils/transforms/tei_builder.py:130-131 | the labels run `ab`…`yz` and then go on past `z` to `{\|` |
| EarlyPatterns.Bracketed | utils/transforms/tei_builder.py:93 | `^<([^>]+)>` and its bracket variants: a match exactly when the line opens with the bracket and a non-empty run up to the first closing bracket follows |
| EarlyPatterns.BracketedComplete | utils/transforms/tei_builder.py:93 | a bracketed prefix is always found with its inner text |
| EarlyPatterns.MatchBracedNumber | utils/transforms/tei_builder.py:56 | `^\{(\d+)\}$` matches exactly a whole line `{digits}`, allowing one final newline |
| EarlyPatterns.MatchBracedLine | utils/transforms/xml/tei_builder_bk.py:49 | `^\{([^}]+)\}$` matches exactly a whole line `{label}` with no `}` inside |
| EarlyPatterns.RestAfterSpace | utils/transforms/tei_builder.py:73 | `\s*(.*)$`: the rest after leading whitespace, with one final newline dropped, when it has no other newline |
| EarlyPatterns.NoTabStart | utils/transforms/tei_builder.py:73 | text left after `\s*` never starts with a tab |
| EarlyPatterns.MatchParaLine | utils/transforms/tei_builder.py:73 | `^\[([^\]]+?)\]\s*(.*)$` gives the bracketed label and content that never starts with whitespace, and so never with a tab |
| EarlyPatterns.BarAtEnd | utils/transforms/tei_builder.py:138 | a line ending in `\|` passes both bar tests |
| EarlyPatterns.BarTestsDiffer | utils/transforms/convert_plaintext_to_xml.py:25 | `\\|\s*$` allows trailing spaces and `(\\|+)$` does not: `x\| ` passes one and not the other |
| EarlyPatterns.Escape | utils/transforms/convert_plaintext_to_xml.py:156 | `html.escape(s, quote=False)` leaves no `<` or `>` and never shortens the text |
| EarlyPatterns.UnescapeStep | utils/transforms/convert_plaintext_to_xml.py:156 | each escaped character unescapes back to itself |
| EarlyPatterns.UnescapeAmp | utils/transforms/convert_plaintext_to_xml.py:156 | `&amp;` unescapes to `&` |
| EarlyPatterns.UnescapeLt | utils/transforms/convert_plaintext_to_xml.py:156 | `&lt;` unescapes to `<` |
| EarlyPatterns.UnescapeGt | utils/transforms/convert_plaintext_to_xml.py:156 | `&gt;` unescapes to `>` |
| EarlyPatterns.EscapeRoundTrip | utils/transforms/convert_plaintext_to_xml.py:156 | unescaping the escaped text gives the text back |
| TeiBuilderEarly.VerseOf | utils/transforms/tei_builder.py:113-114 | a line is a verse line exactly when it starts with a tab. Its text is the line without its leading tabs |
| TeiBuilderEarly.PlanOf | utils/transforms/tei_builder.py:47-144 | branches are tried in source order. `{digits}` opens a div. Otherwise `[label] text` opens a paragraph with the stripped label. Otherwise a leading `<page>` adds a page break, and the rest, left-stripped, is never a verse. A tab-initial line is a verse |
| TeiBuilderEarly.VerseLine | utils/transforms/tei_builder.py:112-114 | a tab followed by text is planned as a verse with that text |
| TeiBuilderEarly.TabAfterPageIgnored | utils/transforms/tei_builder.py:108-113 | after `<n>`, `lstrip()` also removes the tab, so the verse branch is never taken on that line |
| TeiBuilderEarly.Start | utils/transforms/tei_builder.py:27-40 | the tree starts as `TEI/body`. The current div is `body`, nothing else is open, the verse index is 0 and the line-break counter is 1 |
| TeiBuilderEarly.EarlyBuilder.constructor | utils/transforms/tei_builder.py:27-40 | the fields start as `Start` says, and `verse_only` is stored |
| TeiBuilderEarly.EarlyBuilder.Build | utils/transforms/tei_builder.py:42-45 | the fields end as `BuildRun` says: each line's step in order, stopping at the first exception |
| TeiBuilderEarly.BuildGrows | utils/transforms/tei_builder.py:42-45 | a whole build only adds to the tree. Every earlier element keeps its tag, attributes, text and parent, and child lists only gain children at the end |
| TeiBuilderEarly.EarlyBuilder.HandleLine | utils/transforms/tei_builder.py:47-144 | one line changes the fields exactly as `LineStep` says, which is the step of the branch `PlanOf` picks |
| TeiBuilderEarly.EarlyBuilder.Apply | utils/transforms/tei_builder.py:55-144 | applying a plan is exactly `PlanStep`: a div step, a paragraph step with the label's id and `n`, a page break followed by the rest of the line, a verse step, or no change for a line that matches nothing |
| TeiBuilderEarly.PlanGrows | utils/transforms/tei_builder.py:55-144 | no branch edits an element that already exists |
| TeiBuilderEarly.EarlyBuilder.OpenDiv | utils/transforms/tei_builder.py:56-70 | the fields change exactly as `DivStep` says |
| TeiBuilderEarly.DivStepAdds | utils/transforms/tei_builder.py:56-70 | `{n}` appends a new `div` with `xml:id=f{n}` and `n` as the last child of `body`. It becomes the current div, with no `p`, `lg` or `l` open. Only `body`'s children change |
| TeiBuilderEarly.EarlyBuilder.OpenPara | utils/transforms/tei_builder.py:73-90 | the fields change exactly as `ParaStep` says |
| TeiBuilderEarly.ParaStepAdds | utils/transforms/tei_builder.py:73-90 | `[label] text` appends a new `p` as the last child of the current div. Its text is the content when there is content. It becomes the current `p`, and `lg` and `l` are closed. The verse index is kept |
| TeiBuilderEarly.EarlyBuilder.EnsurePara | utils/transforms/tei_builder.py:95-102 | the fields change exactly as `ImplicitStep` says |
| TeiBuilderEarly.ImplicitStepAdds | utils/transforms/tei_builder.py:95-102 | with a `p` open nothing changes. Otherwise a new `p` with `xml:id=vimplicit` and the given `n` is appended to the current div and becomes current |
| TeiBuilderEarly.ImplicitStepFrame | utils/transforms/tei_builder.py:95-102 | the implicit paragraph changes no child list but the current div's |
| TeiBuilderEarly.EarlyBuilder.PageBreak | utils/transforms/tei_builder.py:93-106 | the fields change exactly as `PbStep` says |
| TeiBuilderEarly.PbStepAdds | utils/transforms/tei_builder.py:93-106 | a new `pb` with the stripped page is the newest element and the last child of the current `p`. That `p` is a new `n="vimplicit"` one in the current div when none was open. The verse index becomes 0, and `lg` and `l` stay |
| TeiBuilderEarly.PbStepFrame | utils/transforms/tei_builder.py:93-106 | only the child lists of the current div and of the paragraph change |
| TeiBuilderEarly.EarlyBuilder.OpenGroup | utils/transforms/tei_builder.py:115-128 | the fields change exactly as `GroupStep` says |
| TeiBuilderEarly.GroupStepAdds | utils/transforms/tei_builder.py:115-128 | the paragraph is opened as an implicit one with `n="implicit"` if needed. With no `lg` open, a new `lg` is appended to that paragraph and the verse index becomes 0. An open `lg` is kept |
| TeiBuilderEarly.GroupStepFrame | utils/transforms/tei_builder.py:126-128 | opening the group changes no child list but the paragraph's |
| TeiBuilderEarly.EarlyBuilder.NewLine | utils/transforms/tei_builder.py:133-139 | the fields change exactly as `LStep` says |
| TeiBuilderEarly.LStepAdds | utils/transforms/tei_builder.py:133-139 | a new `l` labelled with the segment is appended to the current `lg` and holds the verse text. It contains a `caesura` unless the text ends in bars, and it becomes the current `l`. Nothing else in the state moves |
| TeiBuilderEarly.LStepFrame | utils/transforms/tei_builder.py:133-139 | adding the `l` changes no child list but the group's |
| TeiBuilderEarly.EarlyBuilder.Verse | utils/transforms/tei_builder.py:112-140 | the fields and the outcome are exactly `VerseStep` |
| TeiBuilderEarly.VerseLabels | utils/transforms/tei_builder.py:126-132 | with k the verse index, or 0 for a new `lg`, a verse line raises `ValueError` exactly when `chr` cannot make letter pair k. Otherwise the index becomes k + 1, in the same `lg` when one was open |
| TeiBuilderEarly.VerseAddsL | utils/transforms/tei_builder.py:130-136 | a verse line that does not raise creates a new `l`, after every existing element, with `n` = letter pair k and the verse text |
| TeiBuilderEarly.VerseLIsLastInGroup | utils/transforms/tei_builder.py:134 | that `l` is appended to the children of the current `lg` and has it as parent |
| TeiBuilderEarly.VerseOpensImplicit | utils/transforms/tei_builder.py:116-123 | with no `p` open, a verse line first appends an implicit `p` (`n="implicit"`) to the current div, and that `p` becomes current |
| TeiBuilderEarly.VerseOpensGroup | utils/transforms/tei_builder.py:126-128 | with no `lg` open, a verse line opens a new `lg` inside the paragraph, made right after the paragraph step |
| TeiBuilderEarly.VersesConsecutive | utils/transforms/tei_builder.py:126-132 | two verse lines in a row go to the same `lg`, and the verse index moves on by one for each |
| TeiBuilderEarly.PageBreakRestartsPairs | utils/transforms/tei_builder.py:104-106 | after a page break inside an open `lg`, the next verse line is labelled `ab` in that same `lg` |
| TeiBuilderEarly.VerseGrows | utils/transforms/tei_builder.py:112-140 | a verse line edits no existing element |
| TeiBuilderBk.DigitRun | utils/transforms/xml/tei_builder_bk.py:120 | the longest run of digits starting at i |
| TeiBuilderBk.DelimAt | utils/transforms/xml/tei_builder_bk.py:120 | the delimiter `<\d+>` or `\t` that starts at i, or none |
| TeiBuilderBk.SplitLine | utils/transforms/xml/tei_builder_bk.py:120 | `re.split(r'(<\d+>\|\t)', line)` alternates text with no delimiter and delimiters, and joining the parts gives the line back |
| TeiBuilderBk.SplitFromShape | utils/transforms/xml/tei_builder_bk.py:120 | the same, from any scan position |
| TeiBuilderBk.SplitEnd | utils/transforms/xml/tei_builder_bk.py:120 | the last text part |
| TeiBuilderBk.SplitAtDelim | utils/transforms/xml/tei_builder_bk.py:120 | a delimiter keeps the alternating shape |
| TeiBuilderBk.JoinAtDelim | utils/transforms/xml/tei_builder_bk.py:120 | a delimiter keeps the concatenation |
| TeiBuilderBk.ShapeCons | utils/transforms/xml/tei_builder_bk.py:120 | one text part and one delimiter in front keep the alternating shape |
| TeiBuilderBk.JoinPair | utils/transforms/xml/tei_builder_bk.py:120 | joining with one text part and one delimiter in front |
| TeiBuilderBk.TextPart | utils/transforms/xml/tei_builder_bk.py:120 | the text between delimiters contains no delimiter |
| TeiBuilderBk.DelimInSlice | utils/transforms/xml/tei_builder_bk.py:120 | a delimiter in a slice is one in the line |
| TeiBuilderBk.DigitRunSlice | utils/transforms/xml/tei_builder_bk.py:120 | a digit run in a slice is the same run in the line |
| TeiBuilderBk.DelimPart | utils/transforms/xml/tei_builder_bk.py:120 | the part cut at a delimiter is a delimiter |
| TeiBuilderBk.PbMatch | utils/transforms/xml/tei_builder_bk.py:129 | `<(\d+)>` gives the digits of a leading page marker |
| TeiBuilderBk.PbMatchComplete | utils/transforms/xml/tei_builder_bk.py:129 | every `<digits>` part matches with its digits |
| TeiBuilderBk.DigitRunExact | utils/transforms/xml/tei_builder_bk.py:129 | a run of exactly k digits is measured as k |
| TeiBuilderBk.Tokens | utils/transforms/xml/tei_builder_bk.py:115-146 | the tokens `_scan_line` yields render back to the line, and each is of the right kind |
| TeiBuilderBk.NoDelimNoTab | utils/transforms/xml/tei_builder_bk.py:135 | a text part is never `\t` |
| TeiBuilderBk.TextNotDelim | utils/transforms/xml/tei_builder_bk.py:129-144 | a text part is prose, never a page or verse marker |
| TeiBuilderBk.DelimKinds | utils/transforms/xml/tei_builder_bk.py:129-138 | a delimiter part is either a tab or a page marker |
| TeiBuilderBk.RenderFrom | utils/transforms/xml/tei_builder_bk.py:121-146 | the tokens from part i render to the rest of the line |
| TeiBuilderBk.RenderCons | utils/transforms/xml/tei_builder_bk.py:121-146 | rendering is token by token |
| TeiBuilderBk.TokensFromOk | utils/transforms/xml/tei_builder_bk.py:121-146 | every token from part i is of the right kind |
| TeiBuilderBk.HeadOk | utils/transforms/xml/tei_builder_bk.py:121-146 | the first token from a non-empty part is of the right kind |
| TeiBuilderBk.OkCons | utils/transforms/xml/tei_builder_bk.py:121-146 | well-formed tokens stay well formed with one more in front |
| TeiBuilderBk.TokensAt | utils/transforms/xml/tei_builder_bk.py:122-146 | the scan skips empty parts, yields a page marker as `pb`, pairs a tab with the next part as a verse (empty at the end), and yields anything else as prose |
| TeiBuilderBk.Start | utils/transforms/xml/tei_builder_bk.py:27-40 | the initial tree is `TEI/body` with nothing open, verse index 0 and lb counter 1 |
| TeiBuilderBk.ImplicitStep | utils/transforms/xml/tei_builder_bk.py:159-166 | `_open_implicit_p` appends `p` with `xml:id` and `n` equal to `vimplicit` to the current div. It becomes the current `p` and nothing else changes |
| TeiBuilderBk.ParentStep | utils/transforms/xml/tei_builder_bk.py:93 | `current_p or _open_implicit_p()`: a `p` with children is reused. A missing `p`, or one without children (which lxml treats as false), gets an implicit `p` |
| TeiBuilderBk.PbStep | utils/transforms/xml/tei_builder_bk.py:92-96 | a `pb` with `n` is appended to the `p`, the verse index resets to 0, and the last token is not prose |
| TeiBuilderBk.ProseStep | utils/transforms/xml/tei_builder_bk.py:101-107 | prose is added to the tail of the current `p` (after ParentStep), and the last token is prose |
| TeiBuilderBk.Appended | utils/transforms/xml/tei_builder_bk.py:104-107 | `tail = text` when there is no tail, and `tail += text` otherwise |
| TeiBuilderBk.VerseOpenStep | utils/transforms/xml/tei_builder_bk.py:173-180 | a `p` and an `lg` are open afterwards. A new `lg` resets the verse index |
| TeiBuilderBk.VerseLineStep | utils/transforms/xml/tei_builder_bk.py:182-196 | the next letter pair labels a new `l`, and it fails with ValueError exactly when `chr` would |
| TeiBuilderBk.VerseLine | utils/transforms/xml/tei_builder_bk.py:187-193 | an `l` with `n` and text is added to the `lg`, with a `caesura` unless the text ends in bars |
| TeiBuilderBk.VerseStep | utils/transforms/xml/tei_builder_bk.py:168-196 | a verse opens or continues an `lg` and adds the next labelled `l` |
| TeiBuilderBk.TokenStep | utils/transforms/xml/tei_builder_bk.py:91-107 | one token is processed, and only a verse can fail |
| TeiBuilderBk.Run | utils/transforms/xml/tei_builder_bk.py:91-107 | the tokens in order. Afterwards the last token's kind says whether the last thing was prose |
| TeiBuilderBk.EndStep | utils/transforms/xml/tei_builder_bk.py:109-113 | after prose, an `lb` numbered with the counter is added and the counter goes up. Before any token has ever set the flag, Python raises AttributeError |
| TeiBuilderBk.DivStep | utils/transforms/xml/tei_builder_bk.py:148-157 | `{label}` appends a `div` under `body` and closes `p` and `lg` |
| TeiBuilderBk.ParaStep | utils/transforms/xml/tei_builder_bk.py:54-88 | `[label] text` appends a `p` to the current div with the content as text, closes the `lg` and resets the verse index |
| TeiBuilderBk.LineStep | utils/transforms/xml/tei_builder_bk.py:47-113 | one line keeps the tree well formed and only extends it |
| TeiBuilderBk.BuildRun | utils/transforms/xml/tei_builder_bk.py:42-45 | the lines in order, stopping at the first exception |
| TeiBuilderBk.BkBuilder.constructor | utils/transforms/xml/tei_builder_bk.py:27-40 | the object's state is Start |
| TeiBuilderBk.BkBuilder.Build | utils/transforms/xml/tei_builder_bk.py:42-45 | the loop over the lines gives exactly BuildRun |
| TeiBuilderBk.BkBuilder.HandleLine | utils/transforms/xml/tei_builder_bk.py:47-113 | `_handle_line` gives exactly LineStep |
| TeiBuilderBk.BkBuilder.ScanLine | utils/transforms/xml/tei_builder_bk.py:91-107 | the token loop gives exactly Run over the tokens |
| TeiBuilderBk.BkBuilder.EmitPb | utils/transforms/xml/tei_builder_bk.py:92-96 | exactly PbStep |
| TeiBuilderBk.BkBuilder.EmitProse | utils/transforms/xml/tei_builder_bk.py:101-107 | exactly ProseStep |
| TeiBuilderBk.BkBuilder.EmitVerse | utils/transforms/xml/tei_builder_bk.py:168-196 | exactly VerseStep |
| TeiBuilderBk.BkBuilder.AddVerseLine | utils/transforms/xml/tei_builder_bk.py:182-196 | exactly VerseLineStep |
| TeiBuilderBk.BkBuilder.OpenVerseGroup | utils/transforms/xml/tei_builder_bk.py:173-180 | exactly VerseOpenStep |
| TeiBuilderBk.BkBuilder.OpenImplicitP | utils/transforms/xml/tei_builder_bk.py:159-166 | exactly ImplicitStep |
| TeiBuilderBk.BkBuilder.CurrentPOrImplicit | utils/transforms/xml/tei_builder_bk.py:93 | exactly ParentStep |
| TeiBuilderBk.BkBuilder.EndLine | utils/transforms/xml/tei_builder_bk.py:109-113 | exactly EndStep |
| TeiBuilderBk.BkBuilder.AddLb | utils/transforms/xml/tei_builder_bk.py:110-113 | exactly the `lb` part of EndStep |
| TeiBuilderBk.BkBuilder.OpenDiv | utils/transforms/xml/tei_builder_bk.py:148-157 | exactly DivStep |
| TeiBuilderBk.BkBuilder.OpenPara | utils/transforms/xml/tei_builder_bk.py:59-67 | exactly ParaStep |
| TeiBuilderBk.ScanPbCase | utils/transforms/xml/tei_builder_bk.py:129-132 | the scan over a page marker |
| TeiBuilderBk.ScanVerseCase | utils/transforms/xml/tei_builder_bk.py:135-140 | the scan over a tab and its verse text |
| TeiBuilderBk.ScanProseCase | utils/transforms/xml/tei_builder_bk.py:143-146 | the scan over a prose part |
| TeiBuilderBk.BuildCons | utils/transforms/xml/tei_builder_bk.py:43-44 | one step of the build loop |
| TeiBuilderBk.RunCons | utils/transforms/xml/tei_builder_bk.py:91 | one step of the token loop |
| TeiBuilderBk.LbCounterStep | utils/transforms/xml/tei_builder_bk.py:109-113 | a line raises the lb counter by at most one, and only when it ends in prose |
| TeiBuilderBk.LbNumbersDistinct | utils/transforms/xml/tei_builder_bk.py:112 | different counters give different `n` values |
| TeiBuilderBk.RenderNonEmpty | utils/transforms/xml/tei_builder_bk.py:115-146 | a non-empty token list never renders to the empty line |
| TeiBuilderBk.EmptyLineBeforeAnyToken | utils/transforms/xml/tei_builder_bk.py:110 | an empty line before any token raises AttributeError, because `_last_was_prose` is never set |
| TeiBuilderBk.EmptyLineAfterProse | utils/transforms/xml/tei_builder_bk.py:109-113 | an empty line after prose adds one more `lb` |
| TeiBuilderBk.EmptyLineNoTokens | utils/transforms/xml/tei_builder_bk.py:49-120 | an empty line matches no marker and has no tokens |
| TeiBuilderBk.EmptyParagraphReplaced | utils/transforms/xml/tei_builder_bk.py:93 | a `p` without children is treated as false, so a `pb` goes into a new implicit `p` |
| TeiBuilderBk.PageBreakRestartsLabels | utils/transforms/xml/tei_builder_bk.py:96-185 | after a page break in an open `lg`, the next verse is labelled `ab` again in the same `lg` |
| TeiBuilderBk.TwoVersesInNewGroup | utils/transforms/xml/tei_builder_bk.py:178-185 | two verses in a new `lg` are labelled `ab` and `cd` |
| TeiBuilderBk.FirstVerse | utils/transforms/xml/tei_builder_bk.py:178-185 | the first verse of a new `lg` is `ab` |
| TeiBuilderBk.FirstPair | utils/transforms/xml/tei_builder_bk.py:184 | pair 0 is `ab` |
| TeiBuilderBk.SecondVerse | utils/transforms/xml/tei_builder_bk.py:182-188 | the second verse is `cd`, in the same `lg` |
| TeiBuilderBk.SecondPair | utils/transforms/xml/tei_builder_bk.py:184 | pair 1 is `cd` |
| PlaintextToXml.TrimRightAppend | utils/transforms/convert_plaintext_to_xml.py:78 | `rstrip` removes exactly the trailing run of stripped characters |
| PlaintextToXml.TrimLeftPrepend | utils/transforms/convert_plaintext_to_xml.py:88 | `lstrip` removes exactly the leading run of stripped characters |
| PlaintextToXml.TrailingBars | utils/transforms/convert_plaintext_to_xml.py:24 | `\|\|\s*$` found: the line is the text before, `\|\|`, and only white space after |
| PlaintextToXml.TrailingBarsComplete | utils/transforms/convert_plaintext_to_xml.py:24 | every such line is found, at that split |
| PlaintextToXml.Number | utils/transforms/convert_plaintext_to_xml.py:24 | `(\d+)\s*` before the closing bars: a maximal non-empty digit run followed only by white space |
| PlaintextToXml.NumberComplete | utils/transforms/convert_plaintext_to_xml.py:24 | every such split is found |
| PlaintextToXml.BarNum | utils/transforms/convert_plaintext_to_xml.py:24 | `_RE_BAR_NUM` matches: the line splits into text, `\|\|`, white space, digits, white space, `\|\|`, white space |
| PlaintextToXml.BarNumComplete | utils/transforms/convert_plaintext_to_xml.py:24 | every line of that shape matches, with the same pieces |
| PlaintextToXml.SingleBar | utils/transforms/convert_plaintext_to_xml.py:146-148 | the single-bar test is tried only when the numbered one fails, and needs a trailing `\|` |
| PlaintextToXml.NumberedLineEndsInBar | utils/transforms/convert_plaintext_to_xml.py:147-148 | a numbered line also ends in a bar, but counts as numbered, not single |
| PlaintextToXml.SplitVerseLabel | utils/transforms/convert_plaintext_to_xml.py:96-97 | `^([0-9.]+)([a-z]*)$` splits the label into its number and letters. When it does not match, the label is all number and the letters are empty |
| PlaintextToXml.SplitVerseLabelComplete | utils/transforms/convert_plaintext_to_xml.py:96-97 | a number followed by lower-case letters splits at that point |
| PlaintextToXml.DivPrefix | utils/transforms/convert_plaintext_to_xml.py:81-88 | `^\{([^}]+)\}`: without a match the line is unchanged. With one, the rest is left-stripped |
| PlaintextToXml.LabelPrefix | utils/transforms/convert_plaintext_to_xml.py:93-108 | `^\[([^]]+)\]`: without a match the line is unchanged. With one, a single leading tab is dropped, or else the rest is left-stripped |
| PlaintextToXml.PbPrefix | utils/transforms/convert_plaintext_to_xml.py:116-121 | `^<([^>]+)>`: without a match the line is unchanged. With one, the rest is left-stripped |
| PlaintextToXml.ParseLine | utils/transforms/convert_plaintext_to_xml.py:77-126 | the div, label and page markers of a line in turn, and its text, which is never blank |
| PlaintextToXml.DivLineParse | utils/transforms/convert_plaintext_to_xml.py:81-90 | a `{label}` line has the stripped label as its div, and nothing else |
| PlaintextToXml.EmptyRest | utils/transforms/convert_plaintext_to_xml.py:89-126 | nothing is found in an empty rest |
| PlaintextToXml.Start | utils/transforms/convert_plaintext_to_xml.py:32-43 | `TEI` and `body`, the body as container and text parent, nothing open, and the lb counter at 2 |
| PlaintextToXml.ParaAttrs | utils/transforms/convert_plaintext_to_xml.py:53 | a `p` has exactly `xml:id` and `n` |
| PlaintextToXml.ImplicitXmlId | utils/transforms/convert_plaintext_to_xml.py:53-62 | the implicit paragraph's id is `vimplicit` |
| PlaintextToXml.ImplicitNotPageLine | utils/transforms/convert_plaintext_to_xml.py:62 | `implicit` is not a page label |
| PlaintextToXml.ImplicitWordRun | utils/transforms/convert_plaintext_to_xml.py:62 | `implicit` has no non-word characters to replace |
| PlaintextToXml.ImplicitUnderscored | utils/transforms/convert_plaintext_to_xml.py:62 | `implicit` has no spaces or dots |
| PlaintextToXml.LgAttrs | utils/transforms/convert_plaintext_to_xml.py:63-65 | an `lg` has `n` exactly in verse-only mode with a non-empty verse number |
| PlaintextToXml.LAttrs | utils/transforms/convert_plaintext_to_xml.py:72-73 | an `l` has `n` exactly in verse-only mode with non-empty segment letters |
| PlaintextToXml.NewParagraph | utils/transforms/convert_plaintext_to_xml.py:46-55 | `_open_paragraph` without the verse-only cascade: a new `p` in the container that becomes the text parent, with the group and line closed and the verse number set only in verse-only mode |
| PlaintextToXml.OpenParagraphStep | utils/transforms/convert_plaintext_to_xml.py:46-57 | `_open_paragraph`: the same, and in verse-only mode it goes on to open an `lg` and an `l` |
| PlaintextToXml.AddLg | utils/transforms/convert_plaintext_to_xml.py:63-65 | a new `lg` in the current `p` becomes the current group |
| PlaintextToXml.AddL | utils/transforms/convert_plaintext_to_xml.py:72-74 | a new `l` in the current `lg` becomes the current line and the text parent |
| PlaintextToXml.OpenLgStep | utils/transforms/convert_plaintext_to_xml.py:59-66 | `_open_lg`: afterwards a `p`, an `lg` and an `l` are open, and the `l` is the text parent |
| PlaintextToXml.OpenNewLStep | utils/transforms/convert_plaintext_to_xml.py:68-74 | `_open_new_l`: the same, and with a group open it only adds the `l` |
| PlaintextToXml.TextSet | utils/transforms/convert_plaintext_to_xml.py:157-158 | `text = escaped` sets the text and changes nothing else |
| PlaintextToXml.LastTailAppended | utils/transforms/convert_plaintext_to_xml.py:160-162 | appending to the last child's tail adds the text at the end of OwnText |
| PlaintextToXml.AppendText | utils/transforms/convert_plaintext_to_xml.py:157-164 | with no text the element's text becomes the escaped line. Otherwise it goes at the end, into the last child's tail or the text |
| PlaintextToXml.WriteLine | utils/transforms/convert_plaintext_to_xml.py:156-172 | the text is written, then a `caesura` if wanted, then `lb` with the counter as `n`. Earlier elements keep their attributes |
| PlaintextToXml.DivStep | utils/transforms/convert_plaintext_to_xml.py:81-87 | a `div` with the label as `xml:id` goes under `body` and becomes the container and text parent, with nothing else open |
| PlaintextToXml.LabelStep | utils/transforms/convert_plaintext_to_xml.py:93-105 | outside verse-only mode the label opens a paragraph. In verse-only mode the letters are stored. Letters starting with `a`, or no open `p`, open a paragraph named by the number. Otherwise only the `l` is closed |
| PlaintextToXml.PbStep | utils/transforms/convert_plaintext_to_xml.py:116-120 | a `pb` goes into the text parent, and the lb counter returns to 2 |
| PlaintextToXml.ContentOpen | utils/transforms/convert_plaintext_to_xml.py:129-143 | the line is placed: in verse-only mode into an open `l`. A tabbed line in prose mode loses its leading tabs and goes into a group. Any other line goes into the `p` |
| PlaintextToXml.VersePlaced | utils/transforms/convert_plaintext_to_xml.py:129-131 | an `l` is opened unless one is already open |
| PlaintextToXml.TabPlaced | utils/transforms/convert_plaintext_to_xml.py:133-139 | a tabbed line loses all its leading tabs and goes into a group |
| PlaintextToXml.ProsePlaced | utils/transforms/convert_plaintext_to_xml.py:140-143 | an untabbed line goes into the current or an implicit `p` |
| PlaintextToXml.CloseL | utils/transforms/convert_plaintext_to_xml.py:174-176 | the `l` is closed and the text parent falls back to the group, or the paragraph |
| PlaintextToXml.BarsOf | utils/transforms/convert_plaintext_to_xml.py:146-148 | the numbered match, and the single-bar match only when the numbered one fails |
| PlaintextToXml.GroupNumbered | utils/transforms/convert_plaintext_to_xml.py:149-150 | outside verse-only mode, a numbered line sets the group's `n` to its number and changes nothing else |
| PlaintextToXml.Written | utils/transforms/convert_plaintext_to_xml.py:156-172 | the line and its `lb` are written into the text parent and the counter goes up by one |
| PlaintextToXml.Emit | utils/transforms/convert_plaintext_to_xml.py:146-176 | numbering, writing and closing: the counter goes up by one. The line is closed exactly when Closes holds |
| PlaintextToXml.EmitWritesLb | utils/transforms/convert_plaintext_to_xml.py:156-172 | Emit writes the line with a caesura exactly when wanted, and an `lb` under the text parent |
| PlaintextToXml.ContentStep | utils/transforms/convert_plaintext_to_xml.py:128-176 | a non-blank line only extends the tree and keeps the invariant |
| PlaintextToXml.Finish | utils/transforms/convert_plaintext_to_xml.py:146-176 | `current_lg.set` with no group open raises AttributeError and leaves the state as placed |
| PlaintextToXml.TextStep | utils/transforms/convert_plaintext_to_xml.py:125-126 | a blank rest is skipped |
| PlaintextToXml.AfterLabelStep | utils/transforms/convert_plaintext_to_xml.py:115-126 | from the page-break test on, the tree only grows |
| PlaintextToXml.AfterDivStep | utils/transforms/convert_plaintext_to_xml.py:92-126 | from the label test on, the tree only grows |
| PlaintextToXml.LineStep | utils/transforms/convert_plaintext_to_xml.py:77-176 | one line keeps the invariant and only extends the tree |
| PlaintextToXml.BuildRun | utils/transforms/convert_plaintext_to_xml.py:77-178 | the lines in order, stopping at an exception |
| PlaintextToXml.BuildCons | utils/transforms/convert_plaintext_to_xml.py:77 | one step of the loop over the lines |
| PlaintextToXml.Markers | utils/transforms/convert_plaintext_to_xml.py:80-123 | the markers applied in turn keep the invariant |
| PlaintextToXml.LineStages | utils/transforms/convert_plaintext_to_xml.py:80-126 | a line is its markers and then its text. The early `continue`s skip only what would be skipped anyway, and a `pb` resets the counter |
| PlaintextToXml.FinishWrites | utils/transforms/convert_plaintext_to_xml.py:146-172 | a raise leaves the state unchanged. Otherwise the counter goes up by one and the line is written |
| PlaintextToXml.ContentWrites | utils/transforms/convert_plaintext_to_xml.py:128-172 | the same for a whole non-blank line after it is placed |
| PlaintextToXml.TextLb | utils/transforms/convert_plaintext_to_xml.py:125-172 | a blank rest writes no `lb`. A written line ends in `lb` numbered with the old counter. A raise leaves the counter unchanged |
| PlaintextToXml.LbNumbering | utils/transforms/convert_plaintext_to_xml.py:116-172 | per line: the `lb` numbers run from 2 after a page break, and from the previous counter otherwise |
| PlaintextToXml.DivLineClears | utils/transforms/convert_plaintext_to_xml.py:81-90 | a `{label}` line alone opens the div and passes |
| PlaintextToXml.VerseModeKeepsGroup | utils/transforms/convert_plaintext_to_xml.py:129-176 | in verse-only mode no line raises, and a `p` with a group stays open |
| PlaintextToXml.MarkersKeepGroup | utils/transforms/convert_plaintext_to_xml.py:80-123 | in verse-only mode the markers keep a group open |
| PlaintextToXml.TextKeepsGroup | utils/transforms/convert_plaintext_to_xml.py:125-176 | in verse-only mode the text never raises and keeps a group open |
| PlaintextToXml.NextSegmentNewLine | utils/transforms/convert_plaintext_to_xml.py:99-131 | a continuing segment label (letters not starting with `a`) opens a new `l` with those letters in the same `lg` |
| PlaintextToXml.VerseCascade | utils/transforms/convert_plaintext_to_xml.py:46-74 | in verse-only mode with nothing open, `_open_new_l` builds `p(implicit)` holding an `lg` with one `l` and a second `lg` with two `l`s. The last `l` is current |
| PlaintextToXml.ProseImplicitGroup | utils/transforms/convert_plaintext_to_xml.py:59-74 | in prose mode with nothing open, `_open_lg` builds an implicit `p` holding an `lg` with one empty `l` |
| PlaintextToXml.TabLineJoinsParagraph | utils/transforms/convert_plaintext_to_xml.py:133-137 | a tabbed line in an open `p` without a group opens an `lg` in that `p` and an `l` in it, and its leading tabs are dropped |
| PlaintextToXml.BarsClose | utils/transforms/convert_plaintext_to_xml.py:146-176 | in prose mode a numbered line raises exactly when no group is open. Otherwise it numbers the group and closes the `l`. In verse-only mode a numbered line closes nothing. A single bar closes the `l`. A line without bars leaves it open |
| PlaintextToXml.ProseNumberNeedsGroup | utils/transforms/convert_plaintext_to_xml.py:149-150 | a numbered prose line raises exactly when no `p` or no `lg` is open |
| PlaintextToXml.NoCaesuraOutsideVerseOnly | utils/transforms/convert_plaintext_to_xml.py:167-168 | in prose mode no `caesura` is written. The tab test runs after the tabs have been stripped, so it never holds |
| PlaintextToXml.VerseCaesura | utils/transforms/convert_plaintext_to_xml.py:167-168 | in verse-only mode a `caesura` precedes the `lb` exactly when the line has no bars |
| PlaintextToXml.Converter.constructor | utils/transforms/convert_plaintext_to_xml.py:32-43 | the state is Start |
| PlaintextToXml.Converter.OpenParagraph | utils/transforms/convert_plaintext_to_xml.py:46-57 | exactly OpenParagraphStep |
| PlaintextToXml.Converter.OpenLg | utils/transforms/convert_plaintext_to_xml.py:59-66 | exactly OpenLgStep |
| PlaintextToXml.Converter.OpenNewL | utils/transforms/convert_plaintext_to_xml.py:68-74 | exactly OpenNewLStep |
| PlaintextToXml.Converter.OpenDiv | utils/transforms/convert_plaintext_to_xml.py:81-87 | exactly DivStep |
| PlaintextToXml.Converter.ApplyLabel | utils/transforms/convert_plaintext_to_xml.py:93-105 | exactly LabelStep |
| PlaintextToXml.Converter.AddPb | utils/transforms/convert_plaintext_to_xml.py:116-120 | exactly PbStep |
| PlaintextToXml.Converter.Place | utils/transforms/convert_plaintext_to_xml.py:129-143 | exactly ContentOpen |
| PlaintextToXml.Converter.WriteText | utils/transforms/convert_plaintext_to_xml.py:156-164 | exactly AppendText on the text parent |
| PlaintextToXml.Converter.AddContent | utils/transforms/convert_plaintext_to_xml.py:128-176 | exactly ContentStep |
| PlaintextToXml.Converter.EmitLine | utils/transforms/convert_plaintext_to_xml.py:146-176 | exactly Emit |
| PlaintextToXml.Converter.NumberGroup | utils/transforms/convert_plaintext_to_xml.py:149-150 | exactly GroupNumbered |
| PlaintextToXml.Converter.CloseLine | utils/transforms/convert_plaintext_to_xml.py:174-176 | exactly CloseL |
| PlaintextToXml.Converter.Write | utils/transforms/convert_plaintext_to_xml.py:156-172 | exactly Written |
| PlaintextToXml.Converter.HandleLine | utils/transforms/convert_plaintext_to_xml.py:78-176 | exactly LineStep |
| PlaintextToXml.Converter.HandleAfterDiv | utils/transforms/convert_plaintext_to_xml.py:92-176 | exactly AfterDivStep |
| PlaintextToXml.Converter.HandleAfterLabel | utils/transforms/convert_plaintext_to_xml.py:115-176 | exactly AfterLabelStep |
| PlaintextToXml.Converter.Build | utils/transforms/convert_plaintext_to_xml.py:77-178 | exactly BuildRun |
| PlaintextToXml.BuildTei | utils/transforms/convert_plaintext_to_xml.py:29-178 | `build_tei` returns the tree BuildRun builds from Start, and reports its outcome |
| Rewrite.Sub | validation/utils.py:50 | `re.sub` leaves a string with no match unchanged |
| Rewrite.SubAtMatch | validation/utils.py:50 | `re.sub` at a match emits the replacement and goes on after the match |
| Rewrite.FindAll | validation/utils.py:27 | `re.findall` is empty exactly when the pattern occurs nowhere, and every hit is non-empty |
| Rewrite.Exhaust | validation/utils.py:49-50 | substituting while the pattern is found ends with no match left, and does nothing when there is none |
| Rewrite.SubDeletes | validation/utils.py:50 | a deleting substitution only removes characters (sub-multiset) and strictly shortens a string it matches |
| Rewrite.ExhaustDeletes | validation/utils.py:49-50 | repeating a deleting substitution terminates and only removes characters |
| Rewrite.FirstHitOccurs | validation/utils.py:27-34 | the first hit of `findall` occurs in the content, so deleting it shortens the content |
| ValidationUtils.DeleteAll | validation/utils.py:30-34 | deleting the hits in turn never lengthens the content, and strictly shortens it when the first hit occurs |
| ValidationUtils.RemoveGroups | validation/utils.py:19-35 | the result holds no match of the pattern, is no longer than the input, and content without a match comes back unchanged with no errors |
| ValidationUtils.RemoveBracketGroups | validation/utils.py:19-35 | the while loop returns exactly `RemoveGroups`: the content after the last round and the errors of all rounds in order |
| ValidationUtils.RemoveGroupsNext | validation/utils.py:26-34 | one round deletes the hits, appends their reports and strictly shortens the content, so the loop terminates |
| ValidationUtils.DeleteRound | validation/utils.py:30-34 | the inner for loop deletes every hit and appends one report per offending hit |
| ValidationUtils.ReportsMeaning | validation/utils.py:32-33 | no error exactly when no hit contains `[`, `]`, `{` or `}`, and every error is the nesting message for such a hit |
| ValidationUtils.EnclosedAt | validation/utils.py:41-44 | a removable group is the opening bracket, no stop character, then the closing bracket; a rejected opening bracket has a stop character before every closing bracket |
| ValidationUtils.EnclosedDeletes | validation/utils.py:41-50 | each removable pattern only deletes |
| ValidationUtils.RemovablesDelete | validation/utils.py:40-45 | the four patterns, in the source's order, each delete and shrink the content |
| ValidationUtils.Removed | validation/utils.py:48-50 | right after a pattern's loop that pattern has no match, and the text is a sub-multiset of the input |
| ValidationUtils.RemoveRemovables | validation/utils.py:38-52 | the nested loops compute `Removed(content, 4)` |
| ValidationUtils.RemovedShorter | validation/utils.py:38-52 | the output is never longer than the input |
| ValidationUtils.KeepAt | validation/utils.py:57 | a lazy `〈(.*?)〉` match is `〈`, its inner text without `〉` or newline, `〉`; a rejected `〈` has a newline before every `〉` |
| ValidationUtils.KeepKeepablesCounts | validation/utils.py:55-60 | every character other than the angle brackets keeps its count, and each match removes one `〈` and one `〉`; text without a match is unchanged |
| ValidationUtils.SpacedNewlineAt | validation/utils.py:67 | ` *(\n+) *` matches exactly where a newline follows the leading spaces, and keeps only the newlines |
| ValidationUtils.CleanUpWhitespace | validation/utils.py:63-78 | the for loop applies the six substitutions in order: `Cleaned(content, 6)` |
| ValidationUtils.CleanedShape | validation/utils.py:63-78 | the output has no leading or trailing whitespace, no two adjacent spaces or tabs, no run of three newlines and no space next to a newline |
| ValidationUtils.StepsSpaced | validation/utils.py:66-69 | after the first four substitutions the five spacing properties hold |
| ValidationUtils.CollapseSingle | validation/utils.py:66-69 | collapsing runs to one character leaves no two adjacent ones |
| ValidationUtils.CollapseDouble | validation/utils.py:68 | collapsing newline runs to two leaves no three in a row |
| ValidationUtils.SpacedNewlineClears | validation/utils.py:67 | after the second substitution no space touches a newline |
| PlaintextToXmlOld.LetterPairsComprehension | utils/transforms/convert_plaintext_to_xml_old.py:28 | the thirteen pairs are the letters at `a + 2i` and `a + 2i + 1` |
| PlaintextToXmlOld.NextLetters | utils/transforms/convert_plaintext_to_xml_old.py:63-69 | `_next_letters` returns the pair at the index, wrapping to the first once all thirteen are used, and the index after it |
| PlaintextToXmlOld.IndexAfter | utils/transforms/convert_plaintext_to_xml_old.py:63-69 | the index after k calls stays within the thirteen pairs |
| PlaintextToXmlOld.ModStep | utils/transforms/convert_plaintext_to_xml_old.py:65-68 | one more call moves one step around the thirteen pairs |
| PlaintextToXmlOld.LettersCycle | utils/transforms/convert_plaintext_to_xml_old.py:63-69 | the k-th call after a reset returns pair k mod 13, so the letters cycle back to `ab` |
| PlaintextToXmlOld.Skip | utils/transforms/convert_plaintext_to_xml_old.py:26 | a run of one character class is skipped to its end |
| PlaintextToXmlOld.BarAt | utils/transforms/convert_plaintext_to_xml_old.py:26 | a match of `\|\|\s*([0-9.]+)\s*=\s*(\d+)\s*\|\|\u2022?` at k starts with two bars and ends within the line |
| PlaintextToXmlOld.FirstBar | utils/transforms/convert_plaintext_to_xml_old.py:136 | `_RE_BAR_NUM.search` gives the leftmost position with a match and that match's end. No earlier position matches, and with no result nothing matches |
| PlaintextToXmlOld.SkipRun | utils/transforms/convert_plaintext_to_xml_old.py:26 | skipping a run of n characters of the class moves exactly n |
| PlaintextToXmlOld.SkipTo | utils/transforms/convert_plaintext_to_xml_old.py:26 | skipping stops at the first character outside the class |
| PlaintextToXmlOld.BarAtRuns | utils/transforms/convert_plaintext_to_xml_old.py:26 | the match is read off where the pattern's runs end, with the optional bullet |
| PlaintextToXmlOld.MilestoneHead | utils/transforms/convert_plaintext_to_xml_old.py:26 | the opening bars, the verse number and the equals sign are read in order |
| PlaintextToXmlOld.MilestoneTail | utils/transforms/convert_plaintext_to_xml_old.py:26 | the line number and the closing bars are read in order |
| PlaintextToXmlOld.BarAtComplete | utils/transforms/convert_plaintext_to_xml_old.py:26 | every milestone `\|\| 1.2 = 3 \|\|` is found where its bars stand, and the match ends after the bars and an optional bullet |
| PlaintextToXmlOld.FirstBarFinds | utils/transforms/convert_plaintext_to_xml_old.py:136 | the search finds a milestone at or before any milestone in the line |
| PlaintextToXmlOld.InvExtends | utils/transforms/convert_plaintext_to_xml_old.py:36-42 | the kinds of the open elements survive any growth of the tree |
| PlaintextToXmlOld.Start | utils/transforms/convert_plaintext_to_xml_old.py:33-42 | `TEI` and `body`, the body as container, nothing open, letters at the start and the lb counter at 2 |
| PlaintextToXmlOld.OpenParagraphStep | utils/transforms/convert_plaintext_to_xml_old.py:45-53 | `_open_paragraph`: a `p` with `xml:id` and `n` in the container. The group and line are closed and the letters start again |
| PlaintextToXmlOld.AddLg | utils/transforms/convert_plaintext_to_xml_old.py:59-60 | a bare `lg` in the paragraph, and the letters start again |
| PlaintextToXmlOld.AddL | utils/transforms/convert_plaintext_to_xml_old.py:75 | an `l` in the group numbered with the next letter pair |
| PlaintextToXmlOld.OpenLgStep | utils/transforms/convert_plaintext_to_xml_old.py:55-61 | `_open_lg`: an implicit paragraph if none is open, then a group and its first line, which is always `ab` |
| PlaintextToXmlOld.OpenNewLStep | utils/transforms/convert_plaintext_to_xml_old.py:71-75 | `_open_new_l`: a line in the open group. Without a group it opens one (whose first line `_open_lg` already made) and then a second line |
| PlaintextToXmlOld.NewLineLetters | utils/transforms/convert_plaintext_to_xml_old.py:63-75 | a new line in an open group takes the next pair, `ab`, `cd`, … and wraps after `yz` |
| PlaintextToXmlOld.AppendTextOld | utils/transforms/convert_plaintext_to_xml_old.py:77-84 | `_append_text`: the escaped text is added to the node's `.text` whatever children it has. An empty text changes nothing |
| PlaintextToXmlOld.AppendAfter | utils/transforms/convert_plaintext_to_xml_old.py:87-91 | `_append_after`: the escaped text is added to the tail. An empty text changes nothing |
| PlaintextToXmlOld.EscapeAppend | utils/transforms/convert_plaintext_to_xml_old.py:80 | escaping distributes over concatenation |
| PlaintextToXmlOld.AppendReadsBack | utils/transforms/convert_plaintext_to_xml_old.py:77-84 | text appended piece by piece reads back whole after unescaping |
| PlaintextToXmlOld.PreSplit | utils/transforms/convert_plaintext_to_xml_old.py:124-128 | a line with a tab not at its start is cut at the first tab. The part before, right-stripped, is prose, and the rest is tab plus the left-stripped remainder |
| PlaintextToXmlOld.BarSplit | utils/transforms/convert_plaintext_to_xml_old.py:135-139 | a milestone match that ends before the end of the line cuts it there, and the left-stripped rest is prose after it. The result says whether there was a match |
| PlaintextToXmlOld.AnalyseShape | utils/transforms/convert_plaintext_to_xml_old.py:124-141 | prose before a tab makes the rest verse. A line with no tab has no prose before. Only a milestone leaves prose after |
| PlaintextToXmlOld.OpensChain | utils/transforms/convert_plaintext_to_xml_old.py:55-75 | opening elements in two stages is opening them |
| PlaintextToXmlOld.GrowsOpens | utils/transforms/convert_plaintext_to_xml_old.py:55-75 | appending `p`, `lg` or `l` elements is opening them |
| PlaintextToXmlOld.PreProseStep | utils/transforms/convert_plaintext_to_xml_old.py:129-132 | prose before the tab ends the paragraph's `.text`, with an implicit paragraph if none is open. No prose means no change |
| PlaintextToXmlOld.VersePlace | utils/transforms/convert_plaintext_to_xml_old.py:142-149 | a verse line opens a group with its `ab` line when none is open, or else a line with the next pair. An open line is kept |
| PlaintextToXmlOld.ProsePlace | utils/transforms/convert_plaintext_to_xml_old.py:150-158 | a prose line goes after the paragraph's last child, or into the paragraph when it has none |
| PlaintextToXmlOld.Place | utils/transforms/convert_plaintext_to_xml_old.py:141-158 | verse goes into the open `l`. Prose leaves the group and line as they are |
| PlaintextToXmlOld.PutText | utils/transforms/convert_plaintext_to_xml_old.py:161-164 | the text goes through `_append_after` or `_append_text` |
| PlaintextToXmlOld.PutAt | utils/transforms/convert_plaintext_to_xml_old.py:161-164 | writing the text touches only its target |
| PlaintextToXmlOld.LbParent | utils/transforms/convert_plaintext_to_xml_old.py:174-177 | the `lb` goes in the paragraph after a milestone or for prose, and in the `l` otherwise |
| PlaintextToXmlOld.WriteStep | utils/transforms/convert_plaintext_to_xml_old.py:161-180 | the text, a `caesura` if wanted, and then the `lb` numbered with the counter, which goes up by one |
| PlaintextToXmlOld.Marks | utils/transforms/convert_plaintext_to_xml_old.py:167-179 | a `caesura` in the target if wanted, then the `lb` as the last child of its parent |
| PlaintextToXmlOld.CloseStep | utils/transforms/convert_plaintext_to_xml_old.py:182-188 | a milestone closes the line and the group and hands on the group it closed. A single bar closes only the line |
| PlaintextToXmlOld.PostStep | utils/transforms/convert_plaintext_to_xml_old.py:191-198 | prose after a milestone goes after the closed group, or else after the paragraph's last child, or else into the paragraph |
| PlaintextToXmlOld.PostTarget | utils/transforms/convert_plaintext_to_xml_old.py:191-198 | the element that prose after a milestone is written to exists |
| PlaintextToXmlOld.PostAt | utils/transforms/convert_plaintext_to_xml_old.py:191-198 | writing that prose changes only its target's text or tail |
| PlaintextToXmlOld.ContentStep | utils/transforms/convert_plaintext_to_xml_old.py:123-198 | a non-blank line only extends the tree |
| PlaintextToXmlOld.Content | utils/transforms/convert_plaintext_to_xml_old.py:141-198 | the stages of an analysed line only extend the tree |
| PlaintextToXmlOld.Placed | utils/transforms/convert_plaintext_to_xml_old.py:129-158 | the prose before the tab, then the placement. Verse ends in the open `l` |
| PlaintextToXmlOld.Finish | utils/transforms/convert_plaintext_to_xml_old.py:160-198 | the placed line is written, closed and followed by its prose, and the counter goes up by one |
| PlaintextToXmlOld.LabelPrefixOld | utils/transforms/convert_plaintext_to_xml_old.py:105-107 | `^\[([^]]+)\]`: without a match the line is unchanged |
| PlaintextToXmlOld.DivStep | utils/transforms/convert_plaintext_to_xml_old.py:98-101 | a `div` with the stripped label as `xml:id` goes under `body` and becomes the container. Paragraph, group and line are cleared |
| PlaintextToXmlOld.PbStep | utils/transforms/convert_plaintext_to_xml_old.py:111-115 | a `pb` goes in the paragraph, an implicit one if none is open, and the counter returns to 2 |
| PlaintextToXmlOld.TextStep | utils/transforms/convert_plaintext_to_xml_old.py:120-121 | a blank rest is skipped |
| PlaintextToXmlOld.AfterLabelStep | utils/transforms/convert_plaintext_to_xml_old.py:111-121 | from the page-break test on, the tree only grows |
| PlaintextToXmlOld.AfterDivStep | utils/transforms/convert_plaintext_to_xml_old.py:105-121 | from the paragraph test on, the tree only grows |
| PlaintextToXmlOld.LineStep | utils/transforms/convert_plaintext_to_xml_old.py:94-198 | one line keeps the invariant and only extends the tree |
| PlaintextToXmlOld.BuildRun | utils/transforms/convert_plaintext_to_xml_old.py:94-200 | the lines in order |
| PlaintextToXmlOld.EmptyRestOld | utils/transforms/convert_plaintext_to_xml_old.py:102-121 | an empty rest has no more markers and is blank, so each early `continue` acts like carrying on with nothing |
| PlaintextToXmlOld.AppendEnds | utils/transforms/convert_plaintext_to_xml_old.py:91 | appended text ends the result |
| PlaintextToXmlOld.FinishSize | utils/transforms/convert_plaintext_to_xml_old.py:167-179 | a line adds two elements with a caesura and one without |
| PlaintextToXmlOld.FinishKeeps | utils/transforms/convert_plaintext_to_xml_old.py:191-198 | prose after a milestone changes no tag or attribute of what the line wrote |
| PlaintextToXmlOld.FinishLast | utils/transforms/convert_plaintext_to_xml_old.py:191-198 | nor of the last element written |
| PlaintextToXmlOld.FinishLbElem | utils/transforms/convert_plaintext_to_xml_old.py:179 | the last element is the line's `lb` |
| PlaintextToXmlOld.FinishLbNumber | utils/transforms/convert_plaintext_to_xml_old.py:179 | the `lb` is numbered with the counter before the line |
| PlaintextToXmlOld.FinishLbParent | utils/transforms/convert_plaintext_to_xml_old.py:174-179 | the `lb` is in a `p` after a milestone or for prose, and in the `l` otherwise |
| PlaintextToXmlOld.FinishCaesura | utils/transforms/convert_plaintext_to_xml_old.py:167-168 | when the caesura test holds, a `caesura` comes just before the `lb` |
| PlaintextToXmlOld.FinishPostGroup | utils/transforms/convert_plaintext_to_xml_old.py:192-193 | prose after a milestone ends the tail of the group it closed |
| PlaintextToXmlOld.FinishPostLb | utils/transforms/convert_plaintext_to_xml_old.py:194-196 | with no group open, prose after a milestone is the tail of the line's `lb` |
| PlaintextToXmlOld.FinishCloses | utils/transforms/convert_plaintext_to_xml_old.py:182-188 | a milestone closes the line and the group. A single bar on a verse line closes only the line. Otherwise both stay open |
| PlaintextToXmlOld.ContentLb | utils/transforms/convert_plaintext_to_xml_old.py:179-180 | a content line ends with its `lb` and the counter goes up by one |
| PlaintextToXmlOld.ContentLbNumber | utils/transforms/convert_plaintext_to_xml_old.py:179 | the `lb` is numbered with the counter before the line |
| PlaintextToXmlOld.ContentLbParent | utils/transforms/convert_plaintext_to_xml_old.py:174-179 | the `lb` is in a `p` after a milestone or for prose, and in an `l` otherwise |
| PlaintextToXmlOld.ContentCaesura | utils/transforms/convert_plaintext_to_xml_old.py:167-168 | when the caesura test holds, the line adds a `caesura` just before its `lb` |
| PlaintextToXmlOld.ContentNoCaesura | utils/transforms/convert_plaintext_to_xml_old.py:167-168 | otherwise it adds none |
| PlaintextToXmlOld.NoCaesuraAdded | utils/transforms/convert_plaintext_to_xml_old.py:167-179 | opening elements and then an `lb` adds no `caesura` |
| PlaintextToXmlOld.ContentCloses | utils/transforms/convert_plaintext_to_xml_old.py:182-188 | the closing rules for a whole analysed line |
| PlaintextToXmlOld.ContentPostProse | utils/transforms/convert_plaintext_to_xml_old.py:191-198 | prose after a milestone ends the tail of the closed group, or with no group it is the `lb`'s tail |
| PlaintextToXmlOld.PlacedLetters | utils/transforms/convert_plaintext_to_xml_old.py:142-148 | a new group's first line is `ab`. A new line in an open group takes the next pair. An open line goes on |
| PlaintextToXmlOld.PlacedPreProse | utils/transforms/convert_plaintext_to_xml_old.py:129-132 | prose before the tab ends the paragraph's text once the line is placed |
| PlaintextToXmlOld.FinishKeepsParagraph | utils/transforms/convert_plaintext_to_xml_old.py:160-198 | the rest of a verse line leaves the paragraph alone |
| PlaintextToXmlOld.ContentPreProse | utils/transforms/convert_plaintext_to_xml_old.py:129-198 | prose before the tab ends the paragraph's text once the line is written |
| PlaintextToXmlOld.LinePreProse | utils/transforms/convert_plaintext_to_xml_old.py:124-198 | the same for a line as it is taken apart |
| PlaintextToXmlOld.LineCounter | utils/transforms/convert_plaintext_to_xml_old.py:111-180 | a page break sets the counter back to 2, and a line with content then raises it by one |
| PlaintextToXmlOld.AfterLabelCounter | utils/transforms/convert_plaintext_to_xml_old.py:111-180 | the same from the page-break test on |
| PlaintextToXmlOld.BuildCons | utils/transforms/convert_plaintext_to_xml_old.py:94 | one step of the loop over the lines |
| PlaintextToXmlOld.OldConverter.constructor | utils/transforms/convert_plaintext_to_xml_old.py:33-42 | the state is Start |
| PlaintextToXmlOld.OldConverter.OpenParagraph | utils/transforms/convert_plaintext_to_xml_old.py:45-53 | exactly OpenParagraphStep |
| PlaintextToXmlOld.OldConverter.OpenLg | utils/transforms/convert_plaintext_to_xml_old.py:55-61 | exactly OpenLgStep |
| PlaintextToXmlOld.OldConverter.NextLetterPair | utils/transforms/convert_plaintext_to_xml_old.py:63-69 | exactly NextLetters, and nothing else changes |
| PlaintextToXmlOld.OldConverter.OpenNewL | utils/transforms/convert_plaintext_to_xml_old.py:71-75 | exactly OpenNewLStep |
| PlaintextToXmlOld.OldConverter.AppendText | utils/transforms/convert_plaintext_to_xml_old.py:77-84 | exactly AppendTextOld |
| PlaintextToXmlOld.OldConverter.AppendAfterOld | utils/transforms/convert_plaintext_to_xml_old.py:87-91 | exactly AppendAfter |
| PlaintextToXmlOld.OldConverter.OpenDiv | utils/transforms/convert_plaintext_to_xml_old.py:98-101 | exactly DivStep |
| PlaintextToXmlOld.OldConverter.AddPb | utils/transforms/convert_plaintext_to_xml_old.py:111-115 | exactly PbStep |
| PlaintextToXmlOld.OldConverter.PreProse | utils/transforms/convert_plaintext_to_xml_old.py:129-132 | exactly PreProseStep |
| PlaintextToXmlOld.OldConverter.PlaceLine | utils/transforms/convert_plaintext_to_xml_old.py:141-158 | exactly Place |
| PlaintextToXmlOld.OldConverter.PutLine | utils/transforms/convert_plaintext_to_xml_old.py:161-164 | exactly PutText |
| PlaintextToXmlOld.OldConverter.AddMarks | utils/transforms/convert_plaintext_to_xml_old.py:167-180 | exactly Marks, with the counter moved on |
| PlaintextToXmlOld.OldConverter.WriteLine | utils/transforms/convert_plaintext_to_xml_old.py:161-180 | exactly WriteStep |
| PlaintextToXmlOld.OldConverter.CloseLine | utils/transforms/convert_plaintext_to_xml_old.py:182-188 | exactly CloseStep |
| PlaintextToXmlOld.OldConverter.AppendPost | utils/transforms/convert_plaintext_to_xml_old.py:191-198 | exactly PostStep |
| PlaintextToXmlOld.OldConverter.AddContent | utils/transforms/convert_plaintext_to_xml_old.py:123-198 | exactly ContentStep |
| PlaintextToXmlOld.OldConverter.HandleLine | utils/transforms/convert_plaintext_to_xml_old.py:95-198 | exactly LineStep |
| PlaintextToXmlOld.OldConverter.HandleAfterDiv | utils/transforms/convert_plaintext_to_xml_old.py:105-198 | exactly AfterDivStep |
| PlaintextToXmlOld.OldConverter.HandleAfterLabel | utils/transforms/convert_plaintext_to_xml_old.py:111-198 | exactly AfterLabelStep |
| PlaintextToXmlOld.OldConverter.Build | utils/transforms/convert_plaintext_to_xml_old.py:94-200 | exactly BuildRun |
| PlaintextToXmlOld.BuildTei | utils/transforms/convert_plaintext_to_xml_old.py:32-200 | `build_tei` returns the tree BuildRun builds from Start |
| Ngrams.NgramsOf | validation/utils.py:81-82 | `get_ngrams` gives max(0, len-n+1) strings, the i-th being `content[i:i+n]` |
| Ngrams.NgramsRoundTrip | validation/utils.py:81-82 | the first n-gram followed by the last character of each later one rebuilds the content |
| Ngrams.Tally | validation/utils.py:87 | `Counter`: one entry per distinct string, each counted by its multiplicity, counts summing to the list length |
| Ngrams.NewCountsTotal | validation/utils.py:85-87 | the counts of `calculate_new_ngram_counts` are the n-gram multiplicities and sum to `len(get_ngrams(content, n))` |
| Ngrams.AddMeaning | validation/utils.py:105-108 | one `+=` or insert adds the count to that key only, keeps keys unique, and adds it to the total |
| Ngrams.AddAllMerges | validation/utils.py:104-108 | after the loop each count is old (0 if absent) plus new, the keys are the union, the total is the sum |
| Ngrams.Insert | validation/utils.py:111 | inserting an entry adds exactly that entry |
| Ngrams.InsertDescending | validation/utils.py:111 | inserting into a descending list keeps it descending |
| Ngrams.SortDesc | validation/utils.py:111 | `sorted(..., key=count, reverse=True)` is a permutation in descending count order |
| Ngrams.SortedSame | validation/utils.py:111 | sorting keeps every key's count and the key set |
| Ngrams.UpsertNgramCounts | validation/utils.py:99-113 | the method computes `Upserted`: the table for `str(n)` replaced by the merged, sorted counts |
| Ngrams.UpsertMeaning | validation/utils.py:99-113 | the new table for `str(n)` is descending with unique keys, each count is old plus new over the union of keys, and the other tables are unchanged |
| Validate.LazyAt | utils/validation/validate.py:60-63 | a non-greedy group match starts at the opening bracket and exists exactly when a closing bracket follows somewhere, newlines included |
| Validate.LazySane | utils/validation/validate.py:60-63 | every group match spans at least two characters of the text |
| Validate.FoundIffPaired | utils/validation/validate.py:60-63 | the pattern is found exactly when some opening bracket has a closing bracket after it |
| Validate.NoGroupsIff | utils/validation/validate.py:60-63 | `findall` returns no group exactly when no opening bracket is followed by a closing one |
| Validate.GroupsShape | utils/validation/validate.py:60-63 | each group is an opening bracket, text without the closing bracket, then the closing bracket (first closing bracket wins) |
| Validate.Nesting | utils/validation/validate.py:67-86 | at most one nesting error per group |
| Validate.Blanks | utils/validation/validate.py:106-114 | at most one emptiness error per group |
| Validate.CheckNesting | utils/validation/validate.py:67-86 | the loop reports exactly `Nesting`, and it offended exactly when it reported something |
| Validate.CheckBlanks | utils/validation/validate.py:106-114 | the loop reports exactly `Blanks`, and it offended exactly when it reported something |
| Validate.CheckExistence | utils/validation/validate.py:97-103 | the missing-`[...]` and missing-`{...}` errors, in that order, and it offended exactly when it reported one |
| Validate.ValidateStructure | utils/validation/validate.py:19-116 | the errors and warnings are those of the checks in the source's order, and `valid` is false exactly when there is an error; round-bracket warnings never change `valid` |
| Validate.NestingMeaning | utils/validation/validate.py:67-86 | no nesting error exactly when no group's inner text holds a forbidden bracket, and each error names such a group |
| Validate.BlanksMeaning | utils/validation/validate.py:106-114 | no emptiness error exactly when no group's inner text is blank, and each error names a blank group |
| Validate.ValidIff | utils/validation/validate.py:53-116 | the content is valid exactly when some `[...]` and some `{...}` exist, none is blank, and no group holds a bracket forbidden for its kind |
| ProcessHyphens.Marker | utils/transforms/process_hyphens.py:10 | `<\d+>` at the front: at least three characters, `<`, digits, `>` |
| ProcessHyphens.HyphenMarkerTab | utils/transforms/process_hyphens.py:10 | rewrite 1 (`-\n<n>\n\t` to `<n>`) matches within the text |
| ProcessHyphens.TabContinuation | utils/transforms/process_hyphens.py:11 | rewrite 2 (a non-break character, `\n\t`) matches within the text |
| ProcessHyphens.HyphenTab | utils/transforms/process_hyphens.py:12 | rewrite 3 (`-\n\t` deleted) matches within the text |
| ProcessHyphens.HyphenMarkerLine | utils/transforms/process_hyphens.py:13 | rewrite 4 (`-\n<n>\n` before a character) matches within the text |
| ProcessHyphens.SoftBreak | utils/transforms/process_hyphens.py:14 | rewrite 5 (a single newline between two lines made a space) matches within the text |
| ProcessHyphens.HyphenBreak | utils/transforms/process_hyphens.py:15 | rewrite 6 (`-\n` deleted) matches within the text |
| ProcessHyphens.MarkerSpace | utils/transforms/process_hyphens.py:16 | rewrite 7 (a space inserted before `<n> `) matches within the text |
| ProcessHyphens.NewlineRulesFewer | utils/transforms/process_hyphens.py:10-15 | each of the first six rewrites removes at least one newline per match |
| ProcessHyphens.MarkerSpaceNoNewline | utils/transforms/process_hyphens.py:16 | the seventh rewrite adds no newline |
| ProcessHyphens.MarkerSpaceGaps | utils/transforms/process_hyphens.py:16 | the seventh rewrite strictly reduces the number of characters glued to a following `<`, so its loop terminates |
| ProcessHyphens.RulesTerminate | utils/transforms/process_hyphens.py:19-21 | every `while re.search` loop terminates, measured by newlines (rules 1-6) or glued markers (rule 7) |
| ProcessHyphens.ProcessHyphensAndNewlines | utils/transforms/process_hyphens.py:4-23 | the nested loops run the seven rewrites in order, each to its fixpoint: `Stage(content, 7)` |
| ProcessHyphens.StageNewlines | utils/transforms/process_hyphens.py:19-21 | no stage increases the number of newlines |
| ProcessHyphens.ProcessedShape | utils/transforms/process_hyphens.py:15-21 | the output has no `-\n`, no character other than space or newline directly before `<n> `, and no more newlines than the input |
| ProcessHyphens.MarkerSpaceNoBreak | utils/transforms/process_hyphens.py:16 | the seventh rewrite cannot create a `-\n` |
| ProcessHyphens.HyphenBreakFound | utils/transforms/process_hyphens.py:15 | rewrite 6 is found exactly when the text holds a `-\n` |
| ProcessHyphens.HyphenTabJoins | utils/transforms/process_hyphens.py:11-12 | `-\n\t` is not taken by rewrite 2 and is deleted outright by rewrite 3 |
| MarkdownMetadata.Heading | utils/transforms/metadata/jsonify_metadata.py:21 | `^# (.+)` matches exactly a line starting with `# ` followed by a character other than newline |
| MarkdownMetadata.Body | utils/transforms/metadata/jsonify_metadata.py:44 | `raw.rstrip('\n')` is a prefix of the line that does not end in a newline |
| MarkdownMetadata.DropLeading | utils/transforms/consolidate_metadata.py:22-23 | popping leading `''` leaves a suffix that does not start with `''`, and everything dropped was `''` |
| MarkdownMetadata.DropTrailing | utils/transforms/consolidate_metadata.py:24-25 | popping trailing `''` leaves a prefix that does not end with `''`, and everything dropped was `''` |
| MarkdownMetadata.TrimmedSlice | utils/transforms/metadata/jsonify_metadata.py:24-27 | the trimmed section is a contiguous slice of the input, only exactly-empty lines are removed around it, and it neither starts nor ends with one |
| MarkdownMetadata.Unbullets | utils/transforms/metadata/jsonify_metadata.py:30 | the marker is removed from every line, position by position |
| MarkdownMetadata.Normalise | utils/transforms/metadata/jsonify_metadata.py:23-32 | the in-place pops and the return compute `Normalised(section)` |
| MarkdownMetadata.NormalisedItems | utils/transforms/metadata/jsonify_metadata.py:29-30 | the result is a list exactly when the trimmed section is non-empty and all bullet lines, and then item k is line k without its marker |
| MarkdownMetadata.UnbulletShape | utils/transforms/consolidate_metadata.py:27-28 | a bullet line is its marker, whitespace and the item, and the item does not start with whitespace |
| MarkdownMetadata.NormalisedEmpty | utils/transforms/metadata/jsonify_metadata.py:29-32 | the result is `""` exactly when every line of the section is blank |
| MarkdownMetadata.JoinBlank | utils/transforms/metadata/jsonify_metadata.py:32 | the space-joined lines are blank exactly when every line is blank |
| MarkdownMetadata.Filename | utils/transforms/metadata/jsonify_metadata.py:49 | `name[:-3]`: the name minus its last three characters, or empty for a shorter name |
| MarkdownMetadata.ParseMarkdown | utils/transforms/metadata/jsonify_metadata.py:34-50 | the for loop over `meta`, `key` and `buf` computes `Parsed(lines, name)` |
| MarkdownMetadata.RunAppend | utils/transforms/metadata/jsonify_metadata.py:37-44 | the line loop over two parts is the loop over the first, continued over the second |
| MarkdownMetadata.RunBody | utils/transforms/metadata/jsonify_metadata.py:43-44 | lines without a heading only extend the buffer with their bodies |
| MarkdownMetadata.PreambleIgnored | utils/transforms/metadata/jsonify_metadata.py:36-44 | lines before the first heading do not change the result |
| MarkdownMetadata.ParsedKeys | utils/transforms/metadata/jsonify_metadata.py:37-49 | the keys are "Filename" and the headings of the input, and "Filename" is the name minus its last three characters |
| MarkdownMetadata.LastSectionWins | utils/transforms/metadata/jsonify_metadata.py:39-46 | a heading's value is the normalised body of its last section, also when it is the final section flushed at the end |
| MarkdownMetadata.SectionOpen | utils/transforms/metadata/jsonify_metadata.py:39-44 | after a heading and its body lines the current key is that heading and the buffer its bodies |
| MdSections.NextHeading | utils/transforms/metadata/convert_md_to_html.py:71 | the next position that starts a `# ` heading line at column 0, with none in between |
| MdSections.SectionsFrom | utils/transforms/metadata/convert_md_to_html.py:71 | the sections of `re.split` from a heading: each title is non-empty and on one line, and each body is empty or starts with the newline ending the heading |
| MdSections.Keyed | utils/transforms/metadata/convert_md_to_html.py:80-82 | each section paired with its stripped title and its body, in order |
| MdSections.RenderHead | utils/transforms/metadata/convert_md_to_html.py:71 | the first section rebuilt as `# ` + title + body is exactly the text up to the next heading |
| MdSections.SectionsRoundTrip | utils/transforms/metadata/convert_md_to_html.py:71 | rebuilding all sections from a heading gives back the rest of the text |
| MdSections.SplitRoundTrip | utils/transforms/metadata/convert_md_to_html.py:71 | preamble plus rebuilt sections is the input: the split loses nothing |
| MdSections.PreambleHasNoHeading | utils/transforms/metadata/convert_md_to_html.py:71 | only lines starting with `# ` at column 0 are headings, and the preamble holds none |
| MdSections.FilterMdSections | utils/transforms/metadata/convert_md_to_html.py:63-88 | the loop over the parts returns `Filtered(md, allowed)` |
| MdSections.KeptStep | utils/transforms/metadata/convert_md_to_html.py:84-86 | one iteration appends a chunk exactly when the stripped title is allowed |
| MdSections.FilterKeepsAllowed | utils/transforms/metadata/convert_md_to_html.py:80-86 | a chunk is kept exactly when it is `# ` + stripped title + body of a section whose stripped title is allowed |
| MdSections.KeptNone | utils/transforms/metadata/convert_md_to_html.py:84 | with nothing allowed no section is kept |
| MdSections.FilterNothingAllowed | utils/transforms/metadata/convert_md_to_html.py:71-88 | with empty `allowed_fields` the output is the preamble if it has non-whitespace, else "" |
| MdSections.KeptAll | utils/transforms/metadata/convert_md_to_html.py:84-88 | when every section is allowed and its title needs no stripping, the kept chunks concatenate to all sections |
| MdSections.FilterAllKeepsAll | utils/transforms/metadata/convert_md_to_html.py:63-88 | with a non-blank preamble and every (unpadded) title allowed, the output is the input, in order |
| CompareFails.MapChar | utils/validation/xml/oxygen_comparison/compare_fail_csvs.py:37 | one character mapped to another, position by position, length kept |
| CompareFails.ReplaceOneChar | utils/validation/xml/oxygen_comparison/compare_fail_csvs.py:37 | `s.replace(k, v)` for single characters is that position-wise map |
| CompareFails.ReplaceShorter | utils/validation/xml/oxygen_comparison/compare_fail_csvs.py:42-44 | replacing by something no longer never lengthens the string |
| CompareFails.ReplaceAbsent | utils/validation/xml/oxygen_comparison/compare_fail_csvs.py:42-44 | replacing an absent pattern changes nothing |
| CompareFails.LastPart | utils/validation/xml/oxygen_comparison/compare_fail_csvs.py:13 | `split("/")[-1]` holds no `/` |
| CompareFails.LastPartSuffix | utils/validation/xml/oxygen_comparison/compare_fail_csvs.py:13 | the last component is a suffix of the string, preceded by a `/` unless it is the whole string |
| CompareFails.NormFile | utils/validation/xml/oxygen_comparison/compare_fail_csvs.py:10-15 | the result holds no `/` or `\`, and `None` gives "" |
| CompareFails.NormFileComponent | utils/validation/xml/oxygen_comparison/compare_fail_csvs.py:10-15 | the result is the last path component of the stripped name, with `\` counted as `/`, and `.xml.svrl.xml` rewritten to `.svrl.xml` |
| CompareFails.Upper | utils/validation/xml/oxygen_comparison/compare_fail_csvs.py:18 | `.upper()` keeps the length and leaves no lower-case ASCII letter |
| CompareFails.NormStatus | utils/validation/xml/oxygen_comparison/compare_fail_csvs.py:17-29 | the status is never empty |
| CompareFails.NormStatusOrder | utils/validation/xml/oxygen_comparison/compare_fail_csvs.py:17-29 | RNG tokens give "RNG FAIL", then SCH tokens "SCH FAIL", then the message heuristics "SCH FAIL", else the upper-cased status; a missing status gives one of the two FAIL values |
| CompareFails.Quote | utils/validation/xml/oxygen_comparison/compare_fail_csvs.py:31-34 | a mapped character is never a curly quote, and whitespace stays whitespace |
| CompareFails.QuoteMapAll | utils/validation/xml/oxygen_comparison/compare_fail_csvs.py:36-37 | applying the five replacements in order maps a character as `Quote` does |
| CompareFails.NormQuotes | utils/validation/xml/oxygen_comparison/compare_fail_csvs.py:35-38 | the loop keeps the length and maps each character through the quote map |
| CompareFails.Quoted | utils/validation/xml/oxygen_comparison/compare_fail_csvs.py:35-38 | the quote map applied at every position, length kept |
| CompareFails.NormRegexTokensMeaning | utils/validation/xml/oxygen_comparison/compare_fail_csvs.py:40-45 | the rewrite never lengthens the message and leaves one without a doubled backslash unchanged |
| CompareFails.NormRegexTokensEnds | utils/validation/xml/oxygen_comparison/compare_fail_csvs.py:40-45 | a message without surrounding whitespace keeps that property |
| CompareFails.CollapseBlanks | utils/validation/xml/oxygen_comparison/compare_fail_csvs.py:51 | `re.sub(r"\s+", " ")` leaves no two adjacent whitespace characters, never lengthens, and keeps whether the ends are whitespace |
| CompareFails.AfterGapMeaning | utils/validation/xml/oxygen_comparison/compare_fail_csvs.py:53 | the `\s*:\s*` part spans whitespace, a colon and whitespace, and stops at a non-space |
| CompareFails.DropNoiseDrops | utils/validation/xml/oxygen_comparison/compare_fail_csvs.py:53 | what is dropped is one error/fatal/warning prefix (any case) with its colon gap, and the rest does not start with whitespace |
| CompareFails.DropNoiseKeeps | utils/validation/xml/oxygen_comparison/compare_fail_csvs.py:53 | the message is unchanged exactly when no prefix of it is such a noise prefix |
| CompareFails.NormMsgShape | utils/validation/xml/oxygen_comparison/compare_fail_csvs.py:47-54 | the normalised message has no leading or trailing whitespace and no two adjacent whitespace characters |
| CompareFails.RowKey | utils/validation/xml/oxygen_comparison/compare_fail_csvs.py:61-67 | a counted row has a non-empty file, status and message |
| CompareFails.LoadCounts | utils/validation/xml/oxygen_comparison/compare_fail_csvs.py:56-68 | the loop over the rows computes `Counts(rows, RowKey)` |
| CompareFails.CountsStep | utils/validation/xml/oxygen_comparison/compare_fail_csvs.py:65-67 | one row adds 1 to its key, or is skipped when its file or message is empty |
| CompareFails.CountsMeaning | utils/validation/xml/oxygen_comparison/compare_fail_csvs.py:56-68 | each count is the number of rows with that key, and the keys are exactly those of the counted rows |
| CompareFails.CountedKeys | utils/validation/xml/oxygen_comparison/compare_fail_csvs.py:65-66 | every counted key has a non-empty file and message |
| CompareFails.StrLessTotal | utils/validation/xml/oxygen_comparison/compare_fail_csvs.py:74-76 | Python's string order is total |
| CompareFails.StrLessTransitive | utils/validation/xml/oxygen_comparison/compare_fail_csvs.py:74-76 | Python's string order is transitive |
| CompareFails.KeyLessTransitive | utils/validation/xml/oxygen_comparison/compare_fail_csvs.py:74-76 | the tuple order used by `sorted` is transitive |
| CompareFails.KeyLessTotal | utils/validation/xml/oxygen_comparison/compare_fail_csvs.py:74-76 | the tuple order is total |
| CompareFails.SortedOf | utils/validation/xml/oxygen_comparison/compare_fail_csvs.py:74-76 | `sorted(set)` has exactly the set's elements, once each |
| CompareFails.SortedOfAscending | utils/validation/xml/oxygen_comparison/compare_fail_csvs.py:74-76 | and is strictly ascending |
| CompareFails.PartitionMeaning | utils/validation/xml/oxygen_comparison/compare_fail_csvs.py:73-76 | onlyA, onlyB and both are sorted, hold the keys only in A, only in B and in both, and together cover A ∪ B |
| Strings.TrimLeft | utils/transforms/convert_plaintext_to_xml.py:88 | `lstrip`: the result is a suffix, does not start with a stripped character, and everything removed was one |
| Strings.TrimRight | utils/transforms/convert_plaintext_to_xml.py:78 | `rstrip`: the result is a prefix, does not end with a stripped character, and everything removed was one |
| Strings.Find | utils/transforms/metadata/jsonify_metadata.py:21 | the first position of the character, or none exactly when it does not occur |
| Strings.Split | utils/validation/xml/oxygen_comparison/compare_fail_csvs.py:13 | `str.split(c)`: at least one part, no part holds the separator, and joining the parts with it gives the string back |
| Strings.NatToString | utils/transforms/convert_plaintext_to_xml.py:171 | `str(n)` of a natural number is a non-empty digit string |
| Strings.DecimalValueOfNatToString | utils/transforms/convert_plaintext_to_xml.py:171 | reading `str(n)` back as a decimal gives n |
| Strings.ParseNegative | utils/transforms/xml/tei_builder.py:501 | `int("-" + digits)` is minus their decimal value |
| TeiBuilderPatterns.PageLineId | utils/transforms/xml/tei_builder.py:56-58 | a page-line id starts with `p` and holds no `.` |
| TeiBuilderPatterns.VerseId | utils/transforms/xml/tei_builder.py:59-60 | a verse id starts with `v`, holds no `.`, and is otherwise only word characters |
| TeiBuilderPatterns.DotsToUnderscores | utils/transforms/xml/tei_builder.py:56-57 | `replace(".", "_")` keeps the length |
| InlineMarkers.Gaps | utils/transforms/xml/tei_builder.py:398-412 | one text before each selected marker |
| CompareFails.HasLeast | utils/validation/xml/oxygen_comparison/compare_fail_csvs.py:74-76 | every non-empty set of keys has a least key under the sort order |
| CompareFails.Least | utils/validation/xml/oxygen_comparison/compare_fail_csvs.py:74-76 | the least key of a non-empty set is in it and below every other key |
| MarkdownMetadata.UpToNewline | utils/transforms/metadata/jsonify_metadata.py:21 | `.+` takes the longest prefix without a newline, stopping at a newline |
| MarkdownMetadata.Bodies | utils/transforms/metadata/jsonify_metadata.py:44 | the body of every line, in order |
| MarkdownMetadata.NoKeyBuf | utils/transforms/metadata/jsonify_metadata.py:36-44 | lines buffered before the first heading never reach the record |
| MarkdownMetadata.RunKeys | utils/transforms/metadata/jsonify_metadata.py:37-49 | the record's keys are exactly those already written, the open one, and every heading still to come |
| MarkdownMetadata.FlushRunKeeps | utils/transforms/metadata/jsonify_metadata.py:39-46 | once a key's section is closed, lines with no heading for it leave its value alone |
| MdSections.KeptHas | utils/transforms/metadata/convert_md_to_html.py:84-86 | every allowed section is kept |
| MdSections.KeptOnly | utils/transforms/metadata/convert_md_to_html.py:84-86 | every kept chunk comes from an allowed section |
| Ngrams.Add | validation/utils.py:105-108 | `d[k] = d.get(k, 0) + c` adds an entry exactly when the key is new |
| Ngrams.InsertKeys | validation/utils.py:111 | inserting an entry for a new key keeps keys distinct and every other key's count |
| ProcessHyphens.Rules | utils/transforms/process_hyphens.py:10-16 | the seven rewrites, in order |
| ProcessHyphens.RuleNoMore | utils/transforms/process_hyphens.py:10-16 | no rewrite adds a newline |
| ProcessHyphens.NoBreakConcat | utils/transforms/process_hyphens.py:15 | joining two strings with no `-` followed by a newline makes one only at the join |
| ProcessHyphens.ExhaustNoBreak | utils/transforms/process_hyphens.py:16-21 | repeating the marker-space rewrite to a fixed point never creates a hyphen break |
| ProcessHyphens.ExhaustNewlines | utils/transforms/process_hyphens.py:19-21 | repeating a rewrite that adds no newline to a fixed point adds no newline |
| Rewrite.SubCount | validation/utils.py:50 | a rewrite whose replacements never add a character never adds it overall, and one whose replacements drop it drops one whenever the pattern occurs |
| ValidationUtils.Reports | validation/utils.py:32-33 | at most one message per hit |
| ValidationUtils.Removables | validation/utils.py:40-45 | the four removable patterns, in the order they are applied |
| ValidationUtils.SubNoAdj | validation/utils.py:66-69 | a safe rewrite never creates an x directly followed by a y |
| ValidationUtils.CollapseSafe | validation/utils.py:66-69 | collapsing a run of c into one or two c cannot create any other adjacent pair |
| ValidationUtils.SpacedNewlineStep | validation/utils.py:67 | step 2 keeps tabs single and removes spaces next to newlines |
| ValidationUtils.NewlineRunsStep | validation/utils.py:68 | step 3 caps newline runs at two and keeps the earlier properties |
| ValidationUtils.SpaceRunsStep | validation/utils.py:69 | step 4 makes spaces single and keeps the earlier properties |
| ValidationUtils.SpaceRunsKeepNoTriple | validation/utils.py:69 | collapsing spaces never makes three newlines meet |
| ValidationUtils.SpaceRunsSecond | validation/utils.py:69 | collapsing spaces creates no leading pair of newlines |
| ValidationUtils.StripSpaced | validation/utils.py:70-71 | stripping both ends keeps the spacing properties |
| XmlTree.Preorder | utils/transforms/tei_utils.py:48 | document order: every element listed is in the tree |

## Left out

- Strings.IsDigit: only ASCII `0`-`9`. Python's `\d` and `int()` also accept other Unicode decimal digits, so `<१२>` is a page marker in Python but not in the model.
- Strings.IsWordChar: ASCII letters, digits, `_` and the Latin letters up to U+024F and U+1E00-U+1EFF (the IAST range). Python's `\w` also accepts every other Unicode letter and digit, so `make_xml_id("अ")` is `vअ` in Python but `v_` in the model.
- Strings.Lower: ASCII case mapping only. Python's `lower()` also maps non-ASCII capitals.
- CompareFails.Upper: ASCII case mapping only. Python's `upper()` also maps other letters and can change the length (`"ß".upper()` is `"SS"`).
- CompareFails.DropNoise: `re.I` is modelled as ASCII case folding. Unicode case folding is not modelled.
- EarlyPatterns.LetterPair: lxml refuses U+FFFE and U+FFFF in attribute values with `ValueError`, but the model gives a pair for them. The model fails only for a surrogate, which lxml refuses, and for a code point past U+10FFFF, where `chr` raises.
- Characters that are not allowed in XML: lxml raises `ValueError` when text or an attribute holds a control character. The model's trees accept any string.
- File and console I/O: `read_text`, `write_text`, argparse and the CLI entry points are not modelled. The builders take a list of lines, and `str.splitlines` is not modelled, so its extra separators (`\r`, `\x0b`, `\x1c`, U+2028, …) are not either.
- Serialisation: `etree.tostring`, `serialize`, pretty printing and the `xml` namespace map are not modelled. `xml:id` is an attribute named `xml:id`.
- `TeiHeaderBuilder.populate_template_lxml`: XPath over a template, licence file reads, date parsing and a stray `breakpoint()`. It is I/O and template glue.
- `validate_content`, `load_ngram_counts`, `save_ngram_counts` and `calculate_standardized_residuals`: file I/O and floating-point residuals.
- `HtmlConverter.convert_xml_to_html` output: the file, markdown-library, JSON and template output. Only the text logic listed in the table is modelled.
- The old renderer utils/transforms/xml/convert_xml_to_html.py: it relies on `etree.tostring(method="text")`.
- utils/transforms/xml/tei_utils.py is not part of this model. It imports a class its sibling module does not define, and its `post_process` is a stub.
- utils/transforms/xml/tei_builder_regexes.py is not part of this model. It holds constants only, and the builder uses its own patterns.
- The regeneration, zip, version and serialisation scripts (utils/transforms/xml/conversion_utils.py, convert_markdown_to_xml.py, convert_plaintext_to_xml.py, the `regenerate*`, `generate_all*`, `zip_*` and `update_version` scripts) are not part of this model. They are subprocess and filesystem glue.
- The JavaScript files and the oxygen_comparison scripts that run I/O at module level (make_reports_to_csv.py, oxygen_logs_to_csv_blocks.py, compare_fail_csvs.py:70-71 and 78-112) are not part of this model.
- TeiBuilder.TeiTextBuilder.Build: the builder is proved over values, and `Build` writes the result into the object's fields at the end. After an exception its contract states only the raised exception. The method leaves the fields as they were, whereas Python leaves the partly built tree behind. The in-place update is therefore modelled once per run, not once per line.
- Ngrams.SortDesc: a permutation in descending order. It does not state that equal counts keep their insertion order (Python's sort is stable). The `Counter` is a list of pairs in insertion order, and the in-place update of the dictionary is a new value.
- XmlTree.Preorder: document order is computed with a fuel bound equal to the number of elements. That bound is enough for any tree in the arena, but it is not a proof that every element is reached.
- Idempotence of `post_process` and global text conservation are not stated, because the code does not have them. `_remove_lb_before_pb` walks a precomputed list, so `lb lb pb` keeps the first `lb`. An lxml tail also leaves with its removed node.
