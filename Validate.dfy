/** The bracket-structure validator of the text pipeline: document
  * identifiers `[...]`, group identifiers `{...}`, notes `<...>` and
  * round-bracket asides `(...)` are located with non-greedy patterns and
  * checked for nesting, existence and emptiness. */
module Validate {
  import opened Wrappers
  import opened Strings
  import opened Rewrite

  /** `o.*?c` with DOTALL, tried at the start of `t`: an opening bracket and
    * everything up to the first closing bracket after it. */
  function LazyAt(t: string, o: char, c: char): (r: Option<Hit>)
    ensures r.Some? ==> 2 <= r.value.len <= |t| && r.value.repl == []
    ensures r.Some? <==> |t| >= 1 && t[0] == o && c in t[1..]
  {
    if |t| >= 1 && t[0] == o then
      match Find(t[1..], c)
      case Some(k) => Some(Hit(k + 2, []))
      case None => None
    else None
  }

  function Lazy(o: char, c: char): Matcher
  {
    t => LazyAt(t, o, c)
  }

  lemma LazySane(o: char, c: char)
    ensures Sane(Lazy(o, c))
  {
    forall t | Lazy(o, c)(t).Some?
      ensures 1 <= Lazy(o, c)(t).value.len <= |t|
    {
      assert Lazy(o, c)(t) == LazyAt(t, o, c);
    }
  }

  /** `re.findall(r'o.*?c', content, re.DOTALL)`. */
  function Groups(content: string, o: char, c: char): seq<string>
  {
    LazySane(o, c);
    FindAll(Lazy(o, c), content)
  }

  /** `g[1:-1]`. */
  function Inner(g: string): string
  {
    if |g| < 2 then [] else g[1..|g| - 1]
  }

  /** `any(c in inner for c in cs)`. */
  predicate HasAny(t: string, cs: string)
  {
    exists i | 0 <= i < |t| :: t[i] in cs
  }

  /** Some `o` occurs before some `c`. */
  ghost predicate Paired(s: string, o: char, c: char)
  {
    exists i, j :: 0 <= i < j < |s| && s[i] == o && s[j] == c
  }

  /** A found group runs from an opening to the first closing bracket. */
  ghost predicate GroupShape(g: string, o: char, c: char)
  {
    |g| >= 2 && g[0] == o && g[|g| - 1] == c && c !in Inner(g)
  }

  const SquareMsg := "Invalid brackets {}, <> found within document identifier: "
  const CurlyMsg := "Invalid brackets [], <> found within group identifier: "
  const AngleMsg := "Invalid brackets [], {} found within note: "
  const RoundMsg := "Round brackets contain brackets: "
  const NoSquares := "No document identifier ([...]) found."
  const NoCurlies := "No group identifier ({...}) found."
  const EmptySquareMsg := "Empty document identifier found: "
  const EmptyCurlyMsg := "Empty document group identifier found: "

  /** One message `msg + g` per group `g` whose inner text holds one of `bad`. */
  function Nesting(gs: seq<string>, bad: string, msg: string): (r: seq<string>)
    ensures |r| <= |gs|
  {
    if gs == [] then []
    else
      var g := gs[|gs| - 1];
      Nesting(gs[..|gs| - 1], bad, msg) + (if HasAny(Inner(g), bad) then [msg + g] else [])
  }

  /** One message `msg + g` per group `g` whose inner text is blank. */
  function Blanks(gs: seq<string>, msg: string): (r: seq<string>)
    ensures |r| <= |gs|
  {
    if gs == [] then []
    else
      var g := gs[|gs| - 1];
      Blanks(gs[..|gs| - 1], msg) + (if IsBlank(Inner(g)) then [msg + g] else [])
  }

  function Squares(s: string): seq<string> { Groups(s, '[', ']') }
  function Curlies(s: string): seq<string> { Groups(s, '{', '}') }
  function Angles(s: string): seq<string> { Groups(s, '<', '>') }
  function Rounds(s: string): seq<string> { Groups(s, '(', ')') }

  /** The error list, in the order the checks report them, for the given
    * document identifiers, group identifiers and notes. */
  function Report(squares: seq<string>, curlies: seq<string>, angles: seq<string>): seq<string>
  {
    Nesting(squares, "{}<>", SquareMsg)
    + Nesting(curlies, "[]<>", CurlyMsg)
    + Nesting(angles, "[]{}", AngleMsg)
    + Missing(squares, curlies)
    + Blanks(squares, EmptySquareMsg)
    + Blanks(curlies, EmptyCurlyMsg)
  }

  /** The existence errors. */
  function Missing(squares: seq<string>, curlies: seq<string>): seq<string>
  {
    (if squares == [] then [NoSquares] else []) + (if curlies == [] then [NoCurlies] else [])
  }

  function Errors(s: string): seq<string>
  {
    Report(Squares(s), Curlies(s), Angles(s))
  }

  /** The warning list: round groups only. */
  function Warnings(s: string): seq<string>
  {
    Nesting(Rounds(s), "()[]{}<>", RoundMsg)
  }

  /** One loop of the nesting checks: `offended` tells whether any message
    * was added. */
  method CheckNesting(gs: seq<string>, bad: string, msg: string) returns (offended: bool, errs: seq<string>)
    ensures errs == Nesting(gs, bad, msg)
    ensures offended <==> errs != []
  {
    offended := false;
    errs := [];
    for i := 0 to |gs|
      invariant errs == Nesting(gs[..i], bad, msg)
      invariant offended <==> errs != []
    {
      assert gs[..i + 1][..i] == gs[..i];
      if HasAny(Inner(gs[i]), bad) {
        offended := true;
        errs := errs + [msg + gs[i]];
      }
    }
    assert gs[..|gs|] == gs;
  }

  /** One loop of the emptiness checks. */
  method CheckBlanks(gs: seq<string>, msg: string) returns (offended: bool, errs: seq<string>)
    ensures errs == Blanks(gs, msg)
    ensures offended <==> errs != []
  {
    offended := false;
    errs := [];
    for i := 0 to |gs|
      invariant errs == Blanks(gs[..i], msg)
      invariant offended <==> errs != []
    {
      assert gs[..i + 1][..i] == gs[..i];
      if IsBlank(Inner(gs[i])) {
        offended := true;
        errs := errs + [msg + gs[i]];
      }
    }
    assert gs[..|gs|] == gs;
  }

  /** The existence checks. */
  method CheckExistence(squares: seq<string>, curlies: seq<string>) returns (offended: bool, errs: seq<string>)
    ensures errs == Missing(squares, curlies)
    ensures offended <==> errs != []
  {
    offended := false;
    errs := [];
    if squares == [] {
      offended := true;
      errs := errs + [NoSquares];
    }
    if curlies == [] {
      offended := true;
      errs := errs + [NoCurlies];
    }
  }

  /** `validate_structure(structured_content)`. */
  method ValidateStructure(content: string) returns (valid: bool, errors: seq<string>, warnings: seq<string>)
    ensures errors == Errors(content)
    ensures warnings == Warnings(content)
    ensures valid <==> errors == []
  {
    var squares := Squares(content);
    var curlies := Curlies(content);
    var angles := Angles(content);
    var rounds := Rounds(content);

    var bad1, e1 := CheckNesting(squares, "{}<>", SquareMsg);
    var bad2, e2 := CheckNesting(curlies, "[]<>", CurlyMsg);
    var bad3, e3 := CheckNesting(angles, "[]{}", AngleMsg);
    var _, w := CheckNesting(rounds, "()[]{}<>", RoundMsg);
    valid := !(bad1 || bad2 || bad3);
    warnings := w;

    var bad6, missing := CheckExistence(squares, curlies);
    valid := valid && !bad6;

    var bad4, e4 := CheckBlanks(squares, EmptySquareMsg);
    var bad5, e5 := CheckBlanks(curlies, EmptyCurlyMsg);
    valid := valid && !bad4 && !bad5;
    errors := e1 + e2 + e3 + missing + e4 + e5;
    assert errors == Report(squares, curlies, angles);
  }

  // ---------------------------------------------------------------------
  // What the messages mean

  /** A nesting message is reported exactly when some group offends, and
    * every message names an offending group. */
  lemma {:induction false} NestingMeaning(gs: seq<string>, bad: string, msg: string)
    ensures Nesting(gs, bad, msg) == [] <==> forall k :: 0 <= k < |gs| ==> !HasAny(Inner(gs[k]), bad)
    ensures forall e :: e in Nesting(gs, bad, msg) ==>
              exists k :: 0 <= k < |gs| && HasAny(Inner(gs[k]), bad) && e == msg + gs[k]
    decreases |gs|
  {
    if gs != [] {
      var front := gs[..|gs| - 1];
      NestingMeaning(front, bad, msg);
      assert forall k :: 0 <= k < |front| ==> front[k] == gs[k];
    }
  }

  /** An emptiness message is reported exactly when some group is blank. */
  lemma {:induction false} BlanksMeaning(gs: seq<string>, msg: string)
    ensures Blanks(gs, msg) == [] <==> forall k :: 0 <= k < |gs| ==> !IsBlank(Inner(gs[k]))
    ensures forall e :: e in Blanks(gs, msg) ==>
              exists k :: 0 <= k < |gs| && IsBlank(Inner(gs[k])) && e == msg + gs[k]
    decreases |gs|
  {
    if gs != [] {
      var front := gs[..|gs| - 1];
      BlanksMeaning(front, msg);
      assert forall k :: 0 <= k < |front| ==> front[k] == gs[k];
    }
  }

  /** The content is valid exactly when there is a document identifier and
    * a group identifier, no identifier or note holds a foreign bracket, and
    * no identifier is blank; round groups play no part. */
  lemma ValidIff(s: string)
    ensures Errors(s) == [] <==>
              Squares(s) != [] && Curlies(s) != []
              && (forall k :: 0 <= k < |Squares(s)| ==> !HasAny(Inner(Squares(s)[k]), "{}<>") && !IsBlank(Inner(Squares(s)[k])))
              && (forall k :: 0 <= k < |Curlies(s)| ==> !HasAny(Inner(Curlies(s)[k]), "[]<>") && !IsBlank(Inner(Curlies(s)[k])))
              && (forall k :: 0 <= k < |Angles(s)| ==> !HasAny(Inner(Angles(s)[k]), "[]{}"))
  {
    NestingMeaning(Squares(s), "{}<>", SquareMsg);
    NestingMeaning(Curlies(s), "[]<>", CurlyMsg);
    NestingMeaning(Angles(s), "[]{}", AngleMsg);
    BlanksMeaning(Squares(s), EmptySquareMsg);
    BlanksMeaning(Curlies(s), EmptyCurlyMsg);
  }

  // ---------------------------------------------------------------------
  // What the non-greedy patterns find

  lemma {:induction false} PairedStep(s: string, o: char, c: char)
    requires s != []
    ensures Paired(s, o, c) <==> (s[0] == o && c in s[1..]) || Paired(s[1..], o, c)
  {
    if Paired(s, o, c) {
      var i, j :| 0 <= i < j < |s| && s[i] == o && s[j] == c;
      if i == 0 {
        assert s[1..][j - 1] == c;
      } else {
        assert s[1..][i - 1] == o && s[1..][j - 1] == c;
      }
    }
    if s[0] == o && c in s[1..] {
      var j :| 0 <= j < |s[1..]| && s[1..][j] == c;
      assert s[j + 1] == c;
    }
    if Paired(s[1..], o, c) {
      var i, j :| 0 <= i < j < |s[1..]| && s[1..][i] == o && s[1..][j] == c;
      assert s[i + 1] == o && s[j + 1] == c;
    }
  }

  /** A group is found exactly when an opening bracket occurs somewhere
    * before a closing one: "no `[...]`" means no `[` has a `]` after it. */
  lemma {:induction false} FoundIffPaired(s: string, o: char, c: char)
    ensures Sane(Lazy(o, c))
    ensures Found(Lazy(o, c), s) <==> Paired(s, o, c)
    decreases |s|
  {
    LazySane(o, c);
    if s != [] {
      FoundIffPaired(s[1..], o, c);
      PairedStep(s, o, c);
      assert Lazy(o, c)(s) == LazyAt(s, o, c);
    }
  }

  lemma NoGroupsIff(s: string, o: char, c: char)
    ensures Groups(s, o, c) == [] <==> !Paired(s, o, c)
  {
    FoundIffPaired(s, o, c);
  }

  lemma {:induction false} LazyShape(t: string, o: char, c: char)
    requires LazyAt(t, o, c).Some?
    ensures GroupShape(t[..LazyAt(t, o, c).value.len], o, c)
  {
    var k := Find(t[1..], c).value;
    var g := t[..k + 2];
    assert g[1..|g| - 1] == t[1..][..k];
    assert g[|g| - 1] == t[1..][k];
  }

  /** Every found group starts with its opening bracket, ends with its
    * closing bracket and holds no closing bracket in between. */
  lemma {:induction false} GroupsShape(s: string, o: char, c: char)
    ensures forall k :: 0 <= k < |Groups(s, o, c)| ==> GroupShape(Groups(s, o, c)[k], o, c)
    decreases |s|
  {
    LazySane(o, c);
    if s != [] {
      assert Lazy(o, c)(s) == LazyAt(s, o, c);
      match LazyAt(s, o, c)
      case Some(h) =>
        LazyShape(s, o, c);
        GroupsShape(s[h.len..], o, c);
        assert Groups(s, o, c) == [s[..h.len]] + Groups(s[h.len..], o, c);
      case None =>
        GroupsShape(s[1..], o, c);
        assert Groups(s, o, c) == Groups(s[1..], o, c);
    }
  }
}
