/**
 * The Cypher manual parser (data/scripts/parse_cypher_docs.py): sections
 * by heading, clause pages, function pages with their details tables, and
 * the flat list of code examples. Reading the files and writing JSONL are
 * left to the caller; every operation here takes the page text.
 */
module CypherDocs {
  import opened Wrappers
  import opened Text
  import opened AsciiDoc

  // ---------------------------------------------------------------------------
  // parse_sections
  // ---------------------------------------------------------------------------

  datatype Section = Section(heading: string, content: string)

  /** The end of the run of `c` starting at `i`. */
  function RunEnd(t: string, c: char, i: nat): (r: nat)
    requires i <= |t|
    ensures i <= r <= |t| && (r == |t| || t[r] != c)
    ensures forall k :: i <= k < r ==> t[k] == c
    decreases |t| - i
  {
    if i == |t| || t[i] != c then i else RunEnd(t, c, i + 1)
  }

  /**
   * `re.match(r'^(={2,4})\s+(.+)', line)`, group 2 stripped. The `=` run
   * must be two to four long (a longer run leaves `=` where `\s` is needed),
   * and at least one character must follow the first whitespace.
   */
  function HeadingOf(line: string): (r: Option<string>)
    ensures r.Some? ==> StartsWith(line, "==") && (r.value == [] || Trimmed(r.value))
    ensures r.Some? ==> !StartsWith(line, "=====")
  {
    var n := RunEnd(line, '=', 0);
    if 2 <= n <= 4 && n + 2 <= |line| && IsSpace(line[n]) then
      HeadingShape(line, n);
      StripShape(line[n..]);
      Some(Strip(line[n..]))
    else None
  }

  lemma HeadingShape(line: string, n: nat)
    requires n == RunEnd(line, '=', 0) && 2 <= n <= 4 && n < |line| && IsSpace(line[n])
    ensures StartsWith(line, "==") && !StartsWith(line, "=====")
  {
    assert line[..2] == "==" by { assert line[0] == '=' && line[1] == '='; }
    if |line| >= 5 {
      assert line[..5][n] != '=';
    }
  }

  /** `== ` followed by a trimmed text opens a section named by that text. */
  lemma SecondLevel(h: string)
    requires Trimmed(h)
    ensures HeadingOf("== " + h) == Some(h)
  {
    var line := "== " + h;
    assert RunEnd(line, '=', 0) == 2 by {
      assert line[0] == '=' && line[1] == '=' && line[2] == ' ';
    }
    assert line[2..] == [' '] + h;
    assert LStrip(line[2..]) == LStrip(h);
    StripOfUnpadded(h);
  }

  /** A single `=` (a title) and a run of five or more open no section. */
  lemma NotALevel(line: string)
    requires (|line| >= 2 && line[0] == '=' && line[1] != '=') || StartsWith(line, "=====")
    ensures HeadingOf(line).None?
  {
    if StartsWith(line, "=====") {
      assert forall k :: 0 <= k < 5 ==> line[k] == line[..5][k];
    }
  }

  /** The loop's state: the sections so far, the open heading ("" for none) and its lines. */
  datatype Acc = Acc(sections: seq<Section>, heading: string, content: seq<string>)

  const Start := Acc([], "", [])

  /** `if current_heading: sections.append(...)`: the open section, when it has a heading. */
  function Flushed(a: Acc): (r: seq<Section>)
    ensures |r| <= 1 && (r != [] <==> a.heading != "")
    ensures r != [] ==> r[0].heading == a.heading && (r[0].content == [] || Trimmed(r[0].content))
  {
    if a.heading != "" then
      var c := Strip(Join(a.content, "\n"));
      StripShape(Join(a.content, "\n"));
      [Section(a.heading, c)]
    else []
  }

  /** One turn of the loop over the lines. */
  function Feed(a: Acc, line: string): Acc
  {
    match HeadingOf(line)
    case Some(h) => Acc(a.sections + Flushed(a), h, [])
    case None => a.(content := a.content + [line])
  }

  /** Every recorded section has a heading and a stripped content. */
  predicate WellFormed(ss: seq<Section>)
  {
    forall k :: 0 <= k < |ss| ==> ss[k].heading != "" && (ss[k].content == [] || Trimmed(ss[k].content))
  }

  function FeedFrom(a: Acc, lines: seq<string>): (r: Acc)
    ensures WellFormed(a.sections) ==> WellFormed(r.sections)
    decreases |lines|
  {
    if |lines| == 0 then a
    else Feed(FeedFrom(a, lines[..|lines| - 1]), lines[|lines| - 1])
  }

  lemma FeedFromStep(lines: seq<string>, i: nat)
    requires i < |lines|
    ensures FeedFrom(Start, lines[..i + 1]) == Feed(FeedFrom(Start, lines[..i]), lines[i])
  {
    assert lines[..i + 1][..i] == lines[..i];
  }

  /** `parse_sections(text)`. */
  function Sections(text: string): (r: seq<Section>)
    ensures WellFormed(r)
  {
    var a := FeedFrom(Start, Split(text, '\n'));
    a.sections + Flushed(a)
  }

  /** The loop of `parse_sections`, with its final flush. */
  method ParseSections(text: string) returns (sections: seq<Section>)
    ensures sections == Sections(text)
  {
    var lines := Split(text, '\n');
    sections := [];
    var currentHeading := "";
    var currentContent: seq<string> := [];
    var i := 0;
    while i < |lines|
      invariant 0 <= i <= |lines|
      invariant Acc(sections, currentHeading, currentContent) == FeedFrom(Start, lines[..i])
    {
      FeedFromStep(lines, i);
      var line := lines[i];
      var headingMatch := HeadingOf(line);
      if headingMatch.Some? {
        if currentHeading != "" {
          sections := sections + [Section(currentHeading, Strip(Join(currentContent, "\n")))];
        }
        currentHeading := headingMatch.value;
        currentContent := [];
      } else {
        currentContent := currentContent + [line];
      }
      i := i + 1;
    }
    assert lines[..i] == lines;
    if currentHeading != "" {
      sections := sections + [Section(currentHeading, Strip(Join(currentContent, "\n")))];
    }
  }

  /** The headings of a list of sections. */
  function Headings(ss: seq<Section>): (r: seq<string>)
    ensures |r| == |ss|
    decreases |ss|
  {
    if |ss| == 0 then [] else Headings(ss[..|ss| - 1]) + [ss[|ss| - 1].heading]
  }

  lemma HeadingsAppend(xs: seq<Section>, ys: seq<Section>)
    requires |ys| <= 1
    ensures Headings(xs + ys) == Headings(xs) + Headings(ys)
  {
    if |ys| == 1 {
      assert (xs + ys)[..|xs|] == xs;
      assert Headings(ys) == [ys[0].heading] by { assert ys[..0] == []; }
    } else {
      assert xs + ys == xs;
    }
  }

  /** The non-empty heading texts of the heading lines, in order. */
  function HeadingLines(lines: seq<string>): seq<string>
    decreases |lines|
  {
    if |lines| == 0 then []
    else
      var init := HeadingLines(lines[..|lines| - 1]);
      match HeadingOf(lines[|lines| - 1])
      case Some(h) => if h != "" then init + [h] else init
      case None => init
  }

  lemma {:induction false} FeedHeadings(lines: seq<string>)
    ensures var a := FeedFrom(Start, lines);
      Headings(a.sections) + (if a.heading != "" then [a.heading] else []) == HeadingLines(lines)
    decreases |lines|
  {
    if |lines| > 0 {
      var init := lines[..|lines| - 1];
      FeedHeadings(init);
      var a := FeedFrom(Start, init);
      var line := lines[|lines| - 1];
      match HeadingOf(line)
      case Some(h) =>
        HeadingsAppend(a.sections, Flushed(a));
        if a.heading != "" {
          assert Headings(Flushed(a)) == [a.heading] by { assert Flushed(a)[..0] == []; }
        }
      case None =>
    }
  }

  /**
   * A section is recorded for exactly the heading lines whose text is not
   * blank, in order: lines before the first heading, and the lines under a
   * blank heading, belong to no section.
   */
  lemma SectionsFollowHeadings(text: string)
    ensures Headings(Sections(text)) == HeadingLines(Split(text, '\n'))
  {
    var a := FeedFrom(Start, Split(text, '\n'));
    FeedHeadings(Split(text, '\n'));
    HeadingsAppend(a.sections, Flushed(a));
    if a.heading != "" {
      assert Headings(Flushed(a)) == [a.heading] by { assert Flushed(a)[..0] == []; }
    }
  }

  lemma {:induction false} FeedFromAppend(a: Acc, xs: seq<string>, ys: seq<string>)
    ensures FeedFrom(a, xs + ys) == FeedFrom(FeedFrom(a, xs), ys)
    decreases |ys|
  {
    if |ys| == 0 {
      assert xs + ys == xs;
    } else {
      assert (xs + ys)[..|xs + ys| - 1] == xs + ys[..|ys| - 1];
      FeedFromAppend(a, xs, ys[..|ys| - 1]);
    }
  }

  /** Lines that open no section are gathered into the open one. */
  lemma {:induction false} FeedPlain(a: Acc, lines: seq<string>)
    requires forall k :: 0 <= k < |lines| ==> HeadingOf(lines[k]).None?
    ensures FeedFrom(a, lines) == a.(content := a.content + lines)
    decreases |lines|
  {
    if |lines| > 0 {
      FeedPlain(a, lines[..|lines| - 1]);
      assert a.content + lines[..|lines| - 1] + [lines[|lines| - 1]] == a.content + lines;
    } else {
      assert a.content + lines == a.content;
    }
  }

  /**
   * A page with a preamble and one `==` heading gives one section: its
   * heading and the stripped text beneath it; the preamble is dropped.
   */
  lemma OneSection(pre: string, h: string, body: string)
    requires Trimmed(h) && '\n' !in h
    requires forall k :: 0 <= k < |Split(pre, '\n')| ==> HeadingOf(Split(pre, '\n')[k]).None?
    requires forall k :: 0 <= k < |Split(body, '\n')| ==> HeadingOf(Split(body, '\n')[k]).None?
    ensures Sections(pre + "\n== " + h + "\n" + body) == [Section(h, Strip(body))]
  {
    var text := pre + "\n== " + h + "\n" + body;
    SplitOneSection(pre, h, body);
    FeedOneSection(Split(pre, '\n'), h, Split(body, '\n'));
    var a := FeedFrom(Start, Split(text, '\n'));
    assert a == Acc([], h, Split(body, '\n'));
    JoinSplit(body, '\n');
    assert Flushed(a) == [Section(h, Strip(body))];
  }

  lemma SplitOneSection(pre: string, h: string, body: string)
    requires '\n' !in h
    ensures Split(pre + "\n== " + h + "\n" + body, '\n') == Split(pre, '\n') + ([("== " + h)] + Split(body, '\n'))
  {
    var line := "== " + h;
    var text := pre + "\n== " + h + "\n" + body;
    assert text == pre + ['\n'] + (line + ['\n'] + body);
    SplitAppend(pre, line + ['\n'] + body, '\n');
    SplitAppend(line, body, '\n');
    assert FindChar(line, '\n', 0) == -1;
    assert Split(line, '\n') == [line];
  }

  lemma FeedOneSection(P: seq<string>, h: string, B: seq<string>)
    requires Trimmed(h)
    requires forall k :: 0 <= k < |P| ==> HeadingOf(P[k]).None?
    requires forall k :: 0 <= k < |B| ==> HeadingOf(B[k]).None?
    ensures FeedFrom(Start, P + ([("== " + h)] + B)) == Acc([], h, B)
  {
    FeedPreamble(P, [("== " + h)] + B);
    FeedHeadingBody(P, h, B);
  }

  /** Lines before the first heading are only gathered. */
  lemma FeedPreamble(P: seq<string>, rest: seq<string>)
    requires forall k :: 0 <= k < |P| ==> HeadingOf(P[k]).None?
    ensures FeedFrom(Start, P + rest) == FeedFrom(Acc([], "", P), rest)
  {
    FeedFromAppend(Start, P, rest);
    FeedPlain(Start, P);
    assert [] + P == P;
  }

  /** A heading line drops what was gathered and opens its own section. */
  lemma FeedHeadingBody(P: seq<string>, h: string, B: seq<string>)
    requires Trimmed(h)
    requires forall k :: 0 <= k < |B| ==> HeadingOf(B[k]).None?
    ensures FeedFrom(Acc([], "", P), [("== " + h)] + B) == Acc([], h, B)
  {
    var line := "== " + h;
    var a1 := Acc([], "", P);
    FeedFromAppend(a1, [line], B);
    FeedSingle(a1, line);
    SecondLevel(h);
    assert Feed(a1, line) == Acc([], h, []);
    FeedPlain(Acc([], h, []), B);
    assert [] + B == B;
  }

  lemma FeedSingle(a: Acc, line: string)
    ensures FeedFrom(a, [line]) == Feed(a, line)
  {
    assert [line][..0] == [];
  }

  // ---------------------------------------------------------------------------
  // Clause pages
  // ---------------------------------------------------------------------------

  datatype Clause = Clause(name: string, description: string, syntaxExamples: seq<string>,
                           sections: seq<Section>, sourceFile: string, authorityLevel: int)

  /** The markup a clause description may not start with (tested on the raw line). */
  const ClauseSkip: seq<string> := ["=", "[", ":", "include", "image"]

  /** The first line starting with `= ` that has two lines after it, or -1. */
  function TitleLine(lines: seq<string>, from: nat): (i: int)
    ensures i == -1 || (from <= i && i + 2 < |lines| && StartsWith(lines[i], "= "))
    ensures forall k :: from <= k && k + 2 < |lines| && (i == -1 || k < i) ==> !StartsWith(lines[k], "= ")
    decreases |lines| - from
  {
    if from + 2 >= |lines| then -1
    else if StartsWith(lines[from], "= ") then from
    else TitleLine(lines, from + 1)
  }

  function Min(a: int, b: int): int { if a <= b then a else b }

  /**
   * The fallback description of a clause page: the first meaningful line
   * among the four after the title line, "" without one.
   */
  function FallbackDescription(lines: seq<string>): string
  {
    var i := TitleLine(lines, 0);
    if i < 0 then "" else FirstMeaningful(lines[i + 1..Min(i + 5, |lines|)], ClauseSkip, OnRaw)
  }

  /** The two nested loops of the fallback, each stopping at its first hit. */
  method ClauseFallback(lines: seq<string>) returns (description: string)
    ensures description == FallbackDescription(lines)
  {
    description := "";
    var i := 0;
    while i < |lines|
      invariant 0 <= i <= |lines|
      invariant forall k :: 0 <= k < i && k + 2 < |lines| ==> !StartsWith(lines[k], "= ")
    {
      if StartsWith(lines[i], "= ") && i + 2 < |lines| {
        assert TitleLine(lines, 0) == i;
        description := FindMeaningful(lines[i + 1..Min(i + 5, |lines|)], ClauseSkip, OnRaw);
        return;
      }
      i := i + 1;
    }
    assert TitleLine(lines, 0) == -1;
  }

  /** The description attribute, else the fallback. */
  function ClauseDescription(text: string): (r: string)
    ensures Description(text) != "" ==> r == Description(text)
    ensures Description(text) == "" ==> r == FallbackDescription(Split(text, '\n'))
  {
    var d := Description(text);
    if d != "" then d else FallbackDescription(Split(text, '\n'))
  }

  /**
   * `parse_clause_file` on the page text: no clause without a `= ` title;
   * otherwise the title without backticks, the description, and at most
   * 10 examples and 20 sections, each the first of the page's.
   */
  function ParseClause(text: string, sourceFile: string): (r: Option<Clause>)
    ensures r.None? <==> Title(text).None?
    ensures r.Some? ==> var c := r.value;
      && '`' !in c.name && '\n' !in c.name && |c.name| <= |Title(text).value|
      && c.syntaxExamples == Take(CodeBlocks(text), 10) && |c.syntaxExamples| <= 10
      && (forall k :: 0 <= k < |c.syntaxExamples| ==> Trimmed(c.syntaxExamples[k]))
      && c.sections == Take(Sections(text), 20) && |c.sections| <= 20 && WellFormed(c.sections)
      && c.description == ClauseDescription(text) && c.sourceFile == sourceFile && c.authorityLevel == 1
  {
    match Title(text)
    case None => None
    case Some(title) =>
      var name := RemoveChar(title, '`');
      RemoveKeepsOut(title, '`', '\n');
      Some(Clause(name, ClauseDescription(text), Take(CodeBlocks(text), 10), Take(Sections(text), 20), sourceFile, 1))
  }

  /** Removing one character brings in no other. */
  lemma {:induction false} RemoveKeepsOut(s: string, a: char, c: char)
    requires c !in s
    ensures c !in RemoveChar(s, a)
    decreases |s|
  {
    if |s| > 0 {
      assert c !in s[1..] by { assert forall k :: 0 <= k < |s| - 1 ==> s[1..][k] == s[k + 1]; }
      RemoveKeepsOut(s[1..], a, c);
    }
  }

  /** `parse_clause_file`, running the section and fallback loops. */
  method ParseClauseFile(text: string, sourceFile: string) returns (r: Option<Clause>)
    ensures r == ParseClause(text, sourceFile)
  {
    var nameMatch := Title(text);
    if nameMatch.None? {
      return None;
    }
    var name := RemoveChar(nameMatch.value, '`');
    var description := Description(text);
    if description == "" {
      description := ClauseFallback(Split(text, '\n'));
    }
    var examples := CodeBlocks(text);
    var sections := ParseSections(text);
    r := Some(Clause(name, description, Take(examples, 10), Take(sections, 20), sourceFile, 1));
  }

  // ---------------------------------------------------------------------------
  // Function pages
  // ---------------------------------------------------------------------------

  datatype CypherFunction = CypherFunction(name: string, category: string, description: string, signature: string,
                                           returnType: string, examples: seq<string>, sourceFile: string,
                                           authorityLevel: int)

  /** The markup a function's fallback description may not start with (tested on the stripped line). */
  const FunctionSkip: seq<string> := ["[", ":", "=", "include", "image", "|", "----", ".", "//"]

  /**
   * `raw_name.split('(')[0].strip()` with `raw_name = line.strip().replace('`', '')`;
   * the first piece of a split is the text before the first separator.
   */
  function FunctionName(line: string): (r: string)
    ensures '(' !in r && '`' !in r
    ensures r == [] || Trimmed(r)
  {
    var raw := RemoveChar(Strip(line), '`');
    var i := FindChar(raw, '(', 0);
    var head := if i < 0 then raw else raw[..i];
    assert forall k :: 0 <= k < |head| ==> head[k] == raw[k];
    StripKeepsOut(head, '(');
    StripKeepsOut(head, '`');
    StripShape(head);
    Strip(head)
  }

  /** The headings the parser skips: spaced names that neither end with `)` nor hold a `.`. */
  predicate NotAFunction(name: string)
  {
    ' ' in name && !EndsWith(name, ")") && '.' !in name
  }

  /** A name the parser keeps: non-empty, under 80 characters and not an example heading. */
  predicate Kept(name: string)
  {
    name != "" && |name| < 80 && !StartsWith(name, "Example")
  }

  /** `s.rstrip('.')`. */
  function RStripDots(s: string): (r: string)
    ensures |r| <= |s| && r == s[..|r|] && (r == [] || r[|r| - 1] != '.')
    ensures forall k :: |r| <= k < |s| ==> s[k] == '.'
    decreases |s|
  {
    if |s| > 0 && s[|s| - 1] == '.' then RStripDots(s[..|s| - 1]) else s
  }

  /** A details-table cell, "" when the page has none. */
  function Cell(t: string, pat: Pattern): string
  {
    match SearchFrom(t, 0, pat)
    case Some(v) => v
    case None => ""
  }

  /** The description of one function: the table cell without its final dots, else the first meaningful line. */
  function FunctionDescription(section: string): (r: string)
    ensures RStripDots(Cell(section, TableDescription)) != "" ==> r == RStripDots(Cell(section, TableDescription))
    ensures RStripDots(Cell(section, TableDescription)) == "" ==>
      r == FirstMeaningful(Split(section, '\n')[1..], FunctionSkip, OnStripped)
  {
    var desc := RStripDots(Cell(section, TableDescription));
    if desc != "" then desc else FirstMeaningful(Split(section, '\n')[1..], FunctionSkip, OnStripped)
  }

  /**
   * One `==` section of a function page. `'\n'.join(section.split('\n'))` is
   * the section itself (`Text.JoinSplit`), so the searches run on `section`.
   */
  function ParseFunctionSection(section: string, category: string, sourceFile: string): (r: Option<CypherFunction>)
    ensures var name := FunctionName(Split(section, '\n')[0]);
      r.Some? <==> !NotAFunction(name) && Kept(name)
    ensures r.Some? ==> var f := r.value;
      && f.name == FunctionName(Split(section, '\n')[0]) && '(' !in f.name && '`' !in f.name && Trimmed(f.name)
      && f.category == category && f.sourceFile == sourceFile && f.authorityLevel == 1
      && f.description == FunctionDescription(section)
      && f.signature == Cell(section, TableSyntax) && f.returnType == Cell(section, TableReturns)
      && f.examples == Take(CodeBlocks(section), 5) && |f.examples| <= 5
  {
    var lines := Split(section, '\n');
    var name := FunctionName(lines[0]);
    if NotAFunction(name) || !Kept(name) then None
    else
      Some(CypherFunction(name, category, FunctionDescription(section), Cell(section, TableSyntax),
                          Cell(section, TableReturns), Take(CodeBlocks(section), 5), sourceFile, 1))
  }

  /** The functions of the sections, in order. */
  function FunctionsOf(sections: seq<string>, category: string, sourceFile: string): (r: seq<CypherFunction>)
    ensures |r| <= |sections|
    ensures forall k :: 0 <= k < |r| ==> r[k].category == category && Kept(r[k].name) && !NotAFunction(r[k].name)
    decreases |sections|
  {
    if |sections| == 0 then []
    else
      var init := FunctionsOf(sections[..|sections| - 1], category, sourceFile);
      var o := ParseFunctionSection(sections[|sections| - 1], category, sourceFile);
      if o.None? then init
      else
        KeptAppend(init, o.value, category);
        init + [o.value]
  }

  /** Appending a kept function of the category keeps every function kept. */
  lemma KeptAppend(fs: seq<CypherFunction>, f: CypherFunction, category: string)
    requires forall k :: 0 <= k < |fs| ==> fs[k].category == category && Kept(fs[k].name) && !NotAFunction(fs[k].name)
    requires f.category == category && Kept(f.name) && !NotAFunction(f.name)
    ensures forall k :: 0 <= k < |fs + [f]| ==>
      (fs + [f])[k].category == category && Kept((fs + [f])[k].name) && !NotAFunction((fs + [f])[k].name)
  {
  }

  /** `parse_function_file`: the sections after the preamble of the split at `==` headings. */
  function ParseFunctions(text: string, category: string, sourceFile: string): seq<CypherFunction>
  {
    FunctionsOf(SplitAt(text, H2)[1..], category, sourceFile)
  }

  method ParseFunctionFile(text: string, category: string, sourceFile: string) returns (functions: seq<CypherFunction>)
    ensures functions == ParseFunctions(text, category, sourceFile)
  {
    var funcSections := SplitAt(text, H2)[1..];
    functions := [];
    var i := 0;
    while i < |funcSections|
      invariant 0 <= i <= |funcSections|
      invariant functions == FunctionsOf(funcSections[..i], category, sourceFile)
    {
      var f := ParseFunctionSection(funcSections[i], category, sourceFile);
      FunctionsOfStep(funcSections, i, category, sourceFile);
      if f.Some? {
        functions := functions + [f.value];
      }
      i := i + 1;
    }
    assert funcSections[..i] == funcSections;
  }

  lemma FunctionsOfStep(sections: seq<string>, i: int, category: string, sourceFile: string)
    requires 0 <= i < |sections|
    ensures var f := ParseFunctionSection(sections[i], category, sourceFile);
      FunctionsOf(sections[..i + 1], category, sourceFile)
      == FunctionsOf(sections[..i], category, sourceFile) + (if f.Some? then [f.value] else [])
  {
    assert sections[..i + 1][..i] == sections[..i];
  }

  // ---------------------------------------------------------------------------
  // collect_all_examples
  // ---------------------------------------------------------------------------

  datatype Example = Example(cypher: string, description: string, context: string, category: string,
                             sourceFile: string, authorityLevel: int)

  function OfClause(c: Clause): (r: seq<Example>)
    ensures |r| == |c.syntaxExamples|
  {
    seq(|c.syntaxExamples|, k requires 0 <= k < |c.syntaxExamples| =>
      Example(c.syntaxExamples[k], c.description, c.name, "clause", c.sourceFile, 1))
  }

  function OfFunction(f: CypherFunction): (r: seq<Example>)
    ensures |r| == |f.examples|
  {
    seq(|f.examples|, k requires 0 <= k < |f.examples| =>
      Example(f.examples[k], f.description, f.name, "function", f.sourceFile, 1))
  }

  function ClauseExamples(cs: seq<Clause>): seq<Example>
    decreases |cs|
  {
    if |cs| == 0 then [] else ClauseExamples(cs[..|cs| - 1]) + OfClause(cs[|cs| - 1])
  }

  function FunctionExamples(fs: seq<CypherFunction>): seq<Example>
    decreases |fs|
  {
    if |fs| == 0 then [] else FunctionExamples(fs[..|fs| - 1]) + OfFunction(fs[|fs| - 1])
  }

  /** `collect_all_examples`: the clause examples, then the function examples. */
  function AllExamples(cs: seq<Clause>, fs: seq<CypherFunction>): seq<Example>
  {
    ClauseExamples(cs) + FunctionExamples(fs)
  }

  method CollectAllExamples(cs: seq<Clause>, fs: seq<CypherFunction>) returns (examples: seq<Example>)
    ensures examples == AllExamples(cs, fs)
  {
    examples := [];
    var i := 0;
    while i < |cs|
      invariant 0 <= i <= |cs|
      invariant examples == ClauseExamples(cs[..i])
    {
      assert cs[..i + 1][..i] == cs[..i];
      var clause := cs[i];
      var j := 0;
      while j < |clause.syntaxExamples|
        invariant 0 <= j <= |clause.syntaxExamples|
        invariant examples == ClauseExamples(cs[..i]) + OfClause(clause)[..j]
      {
        assert OfClause(clause)[..j + 1] == OfClause(clause)[..j] + [OfClause(clause)[j]];
        examples := examples + [Example(clause.syntaxExamples[j], clause.description, clause.name, "clause",
                                        clause.sourceFile, 1)];
        j := j + 1;
      }
      assert OfClause(clause)[..j] == OfClause(clause);
      i := i + 1;
    }
    assert cs[..i] == cs;
    var fromClauses := examples;
    i := 0;
    while i < |fs|
      invariant 0 <= i <= |fs|
      invariant examples == fromClauses + FunctionExamples(fs[..i])
    {
      assert fs[..i + 1][..i] == fs[..i];
      var func := fs[i];
      var j := 0;
      while j < |func.examples|
        invariant 0 <= j <= |func.examples|
        invariant examples == fromClauses + FunctionExamples(fs[..i]) + OfFunction(func)[..j]
      {
        assert OfFunction(func)[..j + 1] == OfFunction(func)[..j] + [OfFunction(func)[j]];
        examples := examples + [Example(func.examples[j], func.description, func.name, "function",
                                        func.sourceFile, 1)];
        j := j + 1;
      }
      assert OfFunction(func)[..j] == OfFunction(func);
      i := i + 1;
    }
    assert fs[..i] == fs;
  }

  function ClauseExampleCount(cs: seq<Clause>): nat
    decreases |cs|
  {
    if |cs| == 0 then 0 else ClauseExampleCount(cs[..|cs| - 1]) + |cs[|cs| - 1].syntaxExamples|
  }

  function FunctionExampleCount(fs: seq<CypherFunction>): nat
    decreases |fs|
  {
    if |fs| == 0 then 0 else FunctionExampleCount(fs[..|fs| - 1]) + |fs[|fs| - 1].examples|
  }

  /** Each clause example becomes one entry naming its clause. */
  lemma {:induction false} ClauseExamplesShape(cs: seq<Clause>)
    ensures |ClauseExamples(cs)| == ClauseExampleCount(cs)
    ensures forall e :: e in ClauseExamples(cs) ==>
      e.category == "clause" && exists c :: c in cs && e.context == c.name && e.cypher in c.syntaxExamples
    decreases |cs|
  {
    if |cs| > 0 {
      var init := cs[..|cs| - 1];
      var c := cs[|cs| - 1];
      ClauseExamplesShape(init);
      forall e | e in ClauseExamples(cs)
        ensures e.category == "clause" && exists c :: c in cs && e.context == c.name && e.cypher in c.syntaxExamples
      {
        if e in ClauseExamples(init) {
          var c0 :| c0 in init && e.context == c0.name && e.cypher in c0.syntaxExamples;
          assert c0 in cs;
        } else {
          var k :| 0 <= k < |OfClause(c)| && OfClause(c)[k] == e;
          assert c in cs && e.cypher == c.syntaxExamples[k];
        }
      }
    }
  }

  /** Each function example becomes one entry naming its function. */
  lemma {:induction false} FunctionExamplesShape(fs: seq<CypherFunction>)
    ensures |FunctionExamples(fs)| == FunctionExampleCount(fs)
    ensures forall e :: e in FunctionExamples(fs) ==>
      e.category == "function" && exists f :: f in fs && e.context == f.name && e.cypher in f.examples
    decreases |fs|
  {
    if |fs| > 0 {
      var init := fs[..|fs| - 1];
      var f := fs[|fs| - 1];
      FunctionExamplesShape(init);
      forall e | e in FunctionExamples(fs)
        ensures e.category == "function" && exists f :: f in fs && e.context == f.name && e.cypher in f.examples
      {
        if e in FunctionExamples(init) {
          var f0 :| f0 in init && e.context == f0.name && e.cypher in f0.examples;
          assert f0 in fs;
        } else {
          var k :| 0 <= k < |OfFunction(f)| && OfFunction(f)[k] == e;
          assert f in fs && e.cypher == f.examples[k];
        }
      }
    }
  }

  /**
   * The collected list has one entry per example: first the clause ones,
   * then the function ones, each naming where it came from.
   */
  lemma AllExamplesShape(cs: seq<Clause>, fs: seq<CypherFunction>)
    ensures |AllExamples(cs, fs)| == ClauseExampleCount(cs) + FunctionExampleCount(fs)
    ensures forall k :: 0 <= k < ClauseExampleCount(cs) ==> AllExamples(cs, fs)[k].category == "clause"
    ensures forall k :: ClauseExampleCount(cs) <= k < |AllExamples(cs, fs)| ==> AllExamples(cs, fs)[k].category == "function"
  {
    ClauseExamplesShape(cs);
    FunctionExamplesShape(fs);
    var all := AllExamples(cs, fs);
    var n := ClauseExampleCount(cs);
    forall k | 0 <= k < n ensures all[k].category == "clause" {
      assert all[k] == ClauseExamples(cs)[k];
      assert all[k] in ClauseExamples(cs);
    }
    forall k | n <= k < |all| ensures all[k].category == "function" {
      assert all[k] == FunctionExamples(fs)[k - n];
      assert all[k] in FunctionExamples(fs);
    }
  }
}
