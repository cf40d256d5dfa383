/**
 * The read-only Cypher guard run on generated queries: a query is refused
 * when it is blank, when one of the injection patterns occurs in it (case
 * ignored), or when it shows signs of string interpolation. It also lists
 * the `$name` parameters a query refers to.
 *
 * Regular expressions are modelled by their matches at one index. Each
 * pattern's `\s*` / `\s+` / `\w+` runs are followed by a character the run
 * cannot contain, so the greedy run chosen here is the only one that can
 * lead to a match and backtracking adds nothing.
 */
module CypherGuard {
  import opened Wrappers
  import opened Text

  /** How a pattern matches, with its literal parts in upper case. */
  datatype Shape =
    | AfterSemicolon(word: string)               // `;\s*WORD`
    | SpaceSeparated(head: string, tail: string) // `HEAD\s+TAIL`
    | Literal(text: string)                      // a fixed text

  /** One of `_INJECTION_PATTERNS`: its source text (quoted in the error) and its shape. */
  datatype Pattern = Pattern(source: string, shape: Shape)

  const InjectionPatterns: seq<Pattern> := [
    Pattern(";\\s*DROP", AfterSemicolon("DROP")),
    Pattern(";\\s*DELETE", AfterSemicolon("DELETE")),
    Pattern(";\\s*DETACH", AfterSemicolon("DETACH")),
    Pattern("CALL\\s+\\{", SpaceSeparated("CALL", "{")),
    Pattern("LOAD\\s+CSV", SpaceSeparated("LOAD", "CSV")),
    Pattern("apoc\\.export", Literal("APOC.EXPORT")),
    Pattern("apoc\\.load", Literal("APOC.LOAD"))
  ]

  const EmptyMessage := "Cypher query is empty"
  const UnsafePrefix := "Potentially unsafe Cypher pattern detected: "
  const InterpolationMessage := "String interpolation detected \U{2014} use $param syntax instead"

  /** `t` (upper case) occurs at `i`, letters compared without case. */
  predicate CaselessAt(c: string, i: nat, t: string)
  {
    i + |t| <= |c| && Upper(c[i..i + |t|]) == t
  }

  predicate MatchesAt(c: string, sh: Shape, i: nat)
  {
    match sh
    case AfterSemicolon(w) => i < |c| && c[i] == ';' && CaselessAt(c, SkipSpaces(c, i + 1), w)
    case SpaceSeparated(h, t) =>
      CaselessAt(c, i, h) && SkipSpaces(c, i + |h|) > i + |h| && CaselessAt(c, SkipSpaces(c, i + |h|), t)
    case Literal(t) => CaselessAt(c, i, t)
  }

  /** `pattern.search(c)` from index `from`. */
  function Search(c: string, sh: Shape, from: nat): bool
    decreases |c| - from
  {
    if from > |c| then false
    else MatchesAt(c, sh, from) || Search(c, sh, from + 1)
  }

  /** Some index holds a match. */
  ghost predicate Occurs(c: string, sh: Shape)
  {
    exists i: nat :: i <= |c| && MatchesAt(c, sh, i)
  }

  lemma {:induction false} SearchIffOccurs(c: string, sh: Shape, from: nat)
    ensures Search(c, sh, from) <==> exists i: nat :: from <= i <= |c| && MatchesAt(c, sh, i)
    decreases |c| - from
  {
    if from <= |c| {
      SearchIffOccurs(c, sh, from + 1);
      if exists i: nat :: from <= i <= |c| && MatchesAt(c, sh, i) {
        var i: nat :| from <= i <= |c| && MatchesAt(c, sh, i);
        assert i == from || from + 1 <= i;
      }
    }
  }

  /** The first pattern, in list order, that occurs in `c`. */
  function FirstPattern(c: string, ps: seq<Pattern>): (r: Option<Pattern>)
    ensures r.Some? ==> r.value in ps && Search(c, r.value.shape, 0)
    ensures r.None? <==> forall k :: 0 <= k < |ps| ==> !Search(c, ps[k].shape, 0)
  {
    if |ps| == 0 then None
    else if Search(c, ps[0].shape, 0) then Some(ps[0])
    else FirstPattern(c, ps[1..])
  }

  /** `\$\{.+?\}` at `i`: a `}` after at least one character, all on the same line. */
  predicate DollarBraceAt(c: string, i: nat)
  {
    i + 2 <= |c| && c[i] == '$' && c[i + 1] == '{'
    && var k := FindChar(c, '}', i + 3);
       k >= 0 && k < LineEnd(c, i + 2)
  }

  /** `"\s*\+\s*\w+\s*\+\s*"` at `i`. */
  predicate ConcatAt(c: string, i: nat)
  {
    if i >= |c| || c[i] != '"' then false
    else
      var a := SkipSpaces(c, i + 1);
      if a >= |c| || c[a] != '+' then false
      else
        var b := SkipSpaces(c, a + 1);
        var w := SkipWord(c, b);
        if w == b then false
        else
          var d := SkipSpaces(c, w);
          if d >= |c| || c[d] != '+' then false
          else
            var e := SkipSpaces(c, d + 1);
            e < |c| && c[e] == '"'
  }

  function SearchInterpolation(c: string, from: nat): bool
    decreases |c| - from
  {
    if from >= |c| then false
    else DollarBraceAt(c, from) || ConcatAt(c, from) || SearchInterpolation(c, from + 1)
  }

  /** The lazy `.+?` accepts exactly the `}` that are preceded, after `${`, by a newline-free text. */
  lemma DollarBraceMeaning(c: string, i: nat)
    requires i + 2 <= |c| && c[i] == '$' && c[i + 1] == '{'
    ensures DollarBraceAt(c, i) <==>
      exists k :: i + 3 <= k < |c| && c[k] == '}' && forall j :: i + 2 <= j < k ==> c[j] != '\n'
  {
    var e := LineEnd(c, i + 2);
    var k := FindChar(c, '}', i + 3);
    if exists k' :: i + 3 <= k' < |c| && c[k'] == '}' && forall j :: i + 2 <= j < k' ==> c[j] != '\n' {
      var k' :| i + 3 <= k' < |c| && c[k'] == '}' && forall j :: i + 2 <= j < k' ==> c[j] != '\n';
      assert k >= 0 && k <= k';
    }
    if DollarBraceAt(c, i) {
      assert forall j :: i + 2 <= j < k ==> c[j] != '\n';
    }
  }

  /** `assert_valid`: the error it raises, or `None` when it returns normally. */
  function AssertValid(c: string): (r: Option<string>)
    ensures r == Some(EmptyMessage) <==> IsBlank(c)
    ensures r.Some? && !IsBlank(c) && FirstPattern(c, InjectionPatterns).Some? ==>
      r.value == UnsafePrefix + FirstPattern(c, InjectionPatterns).value.source
    ensures r == Some(InterpolationMessage) <==>
      !IsBlank(c) && FirstPattern(c, InjectionPatterns).None? && SearchInterpolation(c, 0)
  {
    if IsBlank(c) then Some(EmptyMessage)
    else
      match FirstPattern(c, InjectionPatterns)
      case Some(p) =>
        assert (UnsafePrefix + p.source)[0] == UnsafePrefix[0] == 'P';
        Some(UnsafePrefix + p.source)
      case None =>
        if SearchInterpolation(c, 0) then Some(InterpolationMessage) else None
  }

  /** `validate`: true exactly when `assert_valid` raises nothing. */
  function Validate(c: string): (r: bool)
    ensures r <==> AssertValid(c).None?
    ensures r <==> && !IsBlank(c)
                   && (forall k :: 0 <= k < |InjectionPatterns| ==> !Search(c, InjectionPatterns[k].shape, 0))
                   && !SearchInterpolation(c, 0)
  {
    AssertValid(c).None?
  }

  /** A `;` followed, after optional whitespace, by DROP, DELETE or DETACH in any case is refused. */
  lemma SemicolonWriteRefused(c: string, i: nat, w: string)
    requires w in {"DROP", "DELETE", "DETACH"}
    requires MatchesAt(c, AfterSemicolon(w), i)
    ensures !Validate(c)
  {
    var k := if w == "DROP" then 0 else if w == "DELETE" then 1 else 2;
    assert InjectionPatterns[k].shape == AfterSemicolon(w);
    SearchIffOccurs(c, AfterSemicolon(w), 0);
  }

  /** A query free of `;`, `{`, `$`, `"` and of the words LOAD and APOC cannot be refused except as blank. */
  lemma NoSpecialsAccepted(c: string)
    requires !IsBlank(c)
    requires ';' !in c && '{' !in c && '$' !in c && '"' !in c
    requires forall i: nat :: !CaselessAt(c, i, "LOAD") && !CaselessAt(c, i, "APOC")
    ensures Validate(c)
  {
    forall k | 0 <= k < |InjectionPatterns|
      ensures !Search(c, InjectionPatterns[k].shape, 0)
    {
      var sh := InjectionPatterns[k].shape;
      SearchIffOccurs(c, sh, 0);
      forall i: nat | i <= |c| ensures !MatchesAt(c, sh, i) {
        if k < 3 {
          assert !MatchesAt(c, sh, i) by { if i < |c| { assert c[i] in c; } }
        } else if k == 3 {
          if CaselessAt(c, i, "CALL") && CaselessAt(c, SkipSpaces(c, i + 4), "{") {
            CaselessBrace(c, SkipSpaces(c, i + 4));
          }
        } else if k == 4 {
          if CaselessAt(c, i, "LOAD") {
            assert false;
          }
        } else {
          if CaselessAt(c, i, sh.text) {
            assert sh.text[..4] == "APOC";
            CaselessPrefix(c, i, sh.text, 4);
          }
        }
      }
    }
    NoInterpolation(c, 0);
  }

  /** A write without a leading `;` is not caught: "MATCH (n) DELETE n" passes. */
  lemma UnprefixedDeleteAccepted()
    ensures Validate("MATCH (n)" + " DELETE n")
  {
    var c := "MATCH (n)" + " DELETE n";
    ExampleHasNoSpecials(c);
    NoSpecialsAccepted(c);
  }

  lemma ExampleHasNoSpecials(c: string)
    requires c == "MATCH (n) DELETE n"
    ensures !IsBlank(c) && ';' !in c && '{' !in c && '$' !in c && '"' !in c
    ensures forall i: nat :: !CaselessAt(c, i, "LOAD") && !CaselessAt(c, i, "APOC")
  {
    ExampleLetters(c);
    NoLoadNorApoc(c);
  }

  lemma ExampleLetters(c: string)
    requires c == "MATCH (n) DELETE n"
    ensures !IsBlank(c) && ';' !in c && '{' !in c && '$' !in c && '"' !in c
    ensures 'O' !in c && 'o' !in c && 'P' !in c && 'p' !in c
  {
    assert !IsSpace(c[0]);
  }

  /** Without an `o` there is no `LOAD`, and without a `p` no `APOC`, in any case. */
  lemma NoLoadNorApoc(c: string)
    requires 'O' !in c && 'o' !in c && 'P' !in c && 'p' !in c
    ensures forall i: nat :: !CaselessAt(c, i, "LOAD") && !CaselessAt(c, i, "APOC")
  {
    forall i: nat ensures !CaselessAt(c, i, "LOAD") && !CaselessAt(c, i, "APOC") {
      if i + 4 <= |c| {
        assert c[i + 1] in c;
        CaselessFirstTwo(c, i, "LOAD");
        CaselessFirstTwo(c, i, "APOC");
      }
    }
  }

  /** A caseless match fixes the upper case of the first two characters. */
  lemma CaselessFirstTwo(c: string, i: nat, t: string)
    requires 2 <= |t| && i + |t| <= |c|
    ensures CaselessAt(c, i, t) ==> UpperChar(c[i]) == t[0] && UpperChar(c[i + 1]) == t[1]
  {
    assert Upper(c[i..i + |t|])[0] == UpperChar(c[i]);
    assert Upper(c[i..i + |t|])[1] == UpperChar(c[i + 1]);
  }

  lemma CaselessBrace(c: string, j: nat)
    requires CaselessAt(c, j, "{")
    ensures c[j] == '{' && c[j] in c
  {
    assert Upper(c[j..j + 1])[0] == UpperChar(c[j]);
  }

  lemma CaselessPrefix(c: string, i: nat, t: string, n: nat)
    requires CaselessAt(c, i, t) && n <= |t|
    ensures CaselessAt(c, i, t[..n])
  {
    assert Upper(c[i..i + n]) == Upper(c[i..i + |t|])[..n];
  }

  lemma {:induction false} NoInterpolation(c: string, from: nat)
    requires '$' !in c && '"' !in c
    ensures !SearchInterpolation(c, from)
    decreases |c| - from
  {
    if from < |c| {
      assert c[from] in c;
      NoInterpolation(c, from + 1);
    }
  }

  // ---------------------------------------------------------------------------
  // Parameters
  // ---------------------------------------------------------------------------

  /** `$` followed by a word character at `i`. */
  predicate ParamAt(c: string, i: nat)
  {
    i + 1 < |c| && c[i] == '$' && IsWordChar(c[i + 1])
  }

  /** `re.findall(r'\$(\w+)', c)` from `from`: scanning resumes after each match. */
  function FindParams(c: string, from: nat): (r: seq<string>)
    ensures forall k :: 0 <= k < |r| ==> r[k] != "" && AllWordChars(r[k])
    decreases |c| - from
  {
    if from >= |c| then []
    else if ParamAt(c, from) then
      var e := SkipWord(c, from + 1);
      [c[from + 1..e]] + FindParams(c, e)
    else FindParams(c, from + 1)
  }

  /** `extract_parameters`. */
  function ExtractParameters(c: string): (r: seq<string>)
  {
    FindParams(c, 0)
  }

  /** Reference definition: the word run after every `$` that starts one, looking at each index. */
  function ParamsFrom(c: string, from: nat): seq<string>
    decreases |c| - from
  {
    if from >= |c| then []
    else (if ParamAt(c, from) then [c[from + 1..SkipWord(c, from + 1)]] else []) + ParamsFrom(c, from + 1)
  }

  lemma {:induction false} ParamsSkipWord(c: string, a: nat, b: nat)
    requires a <= b <= |c|
    requires forall k :: a <= k < b ==> IsWordChar(c[k])
    ensures ParamsFrom(c, a) == ParamsFrom(c, b)
    decreases b - a
  {
    if a < b {
      assert !ParamAt(c, a);
      ParamsSkipWord(c, a + 1, b);
    }
  }

  /**
   * Jumping over a matched run loses nothing: a word run holds no `$`, so
   * `findall` returns every parameter reference, in order.
   */
  lemma {:induction false} FindParamsComplete(c: string, from: nat)
    ensures FindParams(c, from) == ParamsFrom(c, from)
    decreases |c| - from
  {
    if from < |c| {
      if ParamAt(c, from) {
        var e := SkipWord(c, from + 1);
        FindParamsComplete(c, e);
        ParamsSkipWord(c, from + 1, e);
      } else {
        FindParamsComplete(c, from + 1);
      }
    }
  }

  /** Each name returned is a whole word run that follows a `$` in the query. */
  lemma {:induction false} ParamsFromSound(c: string, from: nat, p: string)
    requires p in ParamsFrom(c, from)
    ensures exists i: nat :: from <= i && ParamAt(c, i) && p == c[i + 1..SkipWord(c, i + 1)]
    decreases |c| - from
  {
    if from < |c| {
      if ParamAt(c, from) && p == c[from + 1..SkipWord(c, from + 1)] {
      } else {
        ParamsFromSound(c, from + 1, p);
      }
    }
  }

  /** And every `$name` reference in the query is returned. */
  lemma {:induction false} ParamsFromComplete(c: string, from: nat, i: nat)
    requires from <= i && ParamAt(c, i)
    ensures c[i + 1..SkipWord(c, i + 1)] in ParamsFrom(c, from)
    decreases i - from
  {
    if from < i {
      ParamsFromComplete(c, from + 1, i);
    }
  }

  /** `extract_parameters` returns exactly the word runs that follow a `$`. */
  lemma ExtractParametersMeaning(c: string, p: string)
    ensures p in ExtractParameters(c) <==> exists i: nat :: ParamAt(c, i) && p == c[i + 1..SkipWord(c, i + 1)]
  {
    FindParamsComplete(c, 0);
    if p in ParamsFrom(c, 0) {
      ParamsFromSound(c, 0, p);
    }
    if exists i: nat :: ParamAt(c, i) && p == c[i + 1..SkipWord(c, i + 1)] {
      var i: nat :| ParamAt(c, i) && p == c[i + 1..SkipWord(c, i + 1)];
      ParamsFromComplete(c, 0, i);
    }
  }
}
