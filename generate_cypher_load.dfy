/**
 * The Cypher load script of the expert graph
 * (data/scripts/generate_cypher_load.py): one statement per line, built
 * from the parsed documentation records with every value written inside a
 * single-quoted literal through `esc`. Reading the JSONL files and writing
 * the script file are outside the model.
 */
module GenerateCypherLoad {
  import opened Wrappers
  import opened Text
  import opened Seqs
  import opened CypherLiteral
  import CypherDocs
  import ModelingDocs

  // ---------------------------------------------------------------------------
  // esc
  // ---------------------------------------------------------------------------

  /** `esc`: backslashes doubled, quotes escaped, newlines turned to spaces, CR dropped. */
  function Esc(s: string): string
  {
    ConcatMap(s, EscChar)
  }

  /** What `esc` writes for one character. */
  function EscChar(c: char): string
  {
    if c == '\\' then "\\\\"
    else if c == '\'' then "\\'"
    else if c == '\n' then " "
    else if c == '\r' then ""
    else [c]
  }

  /** What a character of the value reads back as from the literal. */
  function Lossy(c: char): string
  {
    if c == '\n' then " " else if c == '\r' then "" else [c]
  }

  /** `esc` as written: the empty text, else four `replace` calls in a row. */
  lemma EscAsWritten(s: string)
    ensures Esc(s) == if s == "" then ""
      else ReplaceWith(ReplaceWith(ReplaceWith(ReplaceWith(s, '\\', "\\\\"), '\'', "\\'"), '\n', " "), '\r', "")
  {
    if s != "" {
      var r1 := Replacer('\\', "\\\\");
      var r2 := Replacer('\'', "\\'");
      var r3 := Replacer('\n', " ");
      var r4 := Replacer('\r', "");
      var h2 := c => ConcatMap(r1(c), r2);
      var h3 := c => ConcatMap(h2(c), r3);
      ConcatMapCompose(s, r1, r2, h2);
      ConcatMapCompose(s, h2, r3, h3);
      forall c | c in s ensures EscChar(c) == ConcatMap(h3(c), r4) {
        EscCharChain(c);
      }
      ConcatMapCompose(s, h3, r4, EscChar);
    }
  }

  lemma EscCharChain(c: char)
    ensures EscChar(c) == ConcatMap(ConcatMap(ConcatMap(Replacer('\\', "\\\\")(c), Replacer('\'', "\\'")),
                                              Replacer('\n', " ")), Replacer('\r', ""))
  {
    var r1 := Replacer('\\', "\\\\");
    var r2 := Replacer('\'', "\\'");
    var r3 := Replacer('\n', " ");
    var r4 := Replacer('\r', "");
    if c == '\\' {
      assert r1(c) == ['\\', '\\'];
      assert ConcatMap(['\\', '\\'], r2) == ['\\', '\\'];
      assert ConcatMap(['\\', '\\'], r3) == ['\\', '\\'];
      assert ConcatMap(['\\', '\\'], r4) == ['\\', '\\'];
    } else if c == '\'' {
      assert ConcatMap([c], r2) == ['\\', '\''];
      assert ConcatMap(['\\', '\''], r3) == ['\\', '\''];
      assert ConcatMap(['\\', '\''], r4) == ['\\', '\''];
    } else {
      assert ConcatMap([c], r2) == [c];
      assert ConcatMap([c], r3) == Lossy(c) || c == '\r';
    }
  }

  lemma EscCharTokens(c: char)
    ensures TokenFor(EscChar(c), Lossy(c))
  {
  }

  /**
   * The escaped value cannot end its literal early: read back, it is the
   * value with each newline turned to a space and each CR dropped.
   */
  lemma EscReadsBack(s: string)
    ensures Unescape(Esc(s)) == Some(ConcatMap(s, Lossy))
  {
    forall c | c in s ensures TokenFor(EscChar(c), Lossy(c)) {
      EscCharTokens(c);
    }
    UnescapeConcatMap(s, EscChar, Lossy);
  }

  /** Every quote of an escaped value follows a backslash. */
  lemma EscQuotesEscaped(s: string)
    ensures var t := Esc(s); forall i :: 0 <= i < |t| && t[i] == '\'' ==> 0 < i && t[i - 1] == '\\'
  {
    EscReadsBack(s);
    DecodableQuotes(Esc(s));
  }

  /** An escaped value holds no line break, so each statement stays on its line. */
  lemma EscOneLine(s: string)
    ensures '\n' !in Esc(s) && '\r' !in Esc(s)
  {
    ConcatMapAvoids(s, EscChar, '\n');
    ConcatMapAvoids(s, EscChar, '\r');
  }

  /**
   * `esc` is not one-to-one: a value and the same value with a space in
   * place of a newline, or with a CR more, escape alike, so the pattern and
   * practice loops, which compare escaped names, keep only the first of them.
   */
  lemma EscMerges(a: string, b: string)
    ensures Esc(a + "\n" + b) == Esc(a + " " + b)
    ensures Esc(a + "\r" + b) == Esc(a + b)
  {
    EscAround(a, '\n', b);
    EscAround(a, ' ', b);
    EscAround(a, '\r', b);
    ConcatMapAppend(a, b, EscChar);
  }

  lemma EscAround(a: string, c: char, b: string)
    ensures Esc(a + [c] + b) == Esc(a) + EscChar(c) + Esc(b)
  {
    ConcatMapAppend(a + [c], b, EscChar);
    ConcatMapAppend(a, [c], EscChar);
    assert ConcatMap([c], EscChar) == EscChar(c) + ConcatMap([c][1..], EscChar);
  }

  // ---------------------------------------------------------------------------
  // statements
  // ---------------------------------------------------------------------------

  /** An f-string: its literal pieces and fields, in order. */
  function Concat(parts: seq<string>): string
    decreases |parts|
  {
    if |parts| == 0 then "" else parts[0] + Concat(parts[1..])
  }

  lemma {:induction false} ConcatAvoids(parts: seq<string>, x: char)
    requires forall k :: 0 <= k < |parts| ==> x !in parts[k]
    ensures x !in Concat(parts)
    decreases |parts|
  {
    if |parts| > 0 {
      ConcatAvoids(parts[1..], x);
    }
  }

  /** `CREATE CONSTRAINT IF NOT EXISTS FOR (v:lbl) REQUIRE v.key IS UNIQUE;` */
  function ConstraintLine(v: string, lbl: string, key: string): string
  {
    "CREATE CONSTRAINT IF NOT EXISTS " + "FOR (" + v + ":" + lbl + ") " + "REQUIRE " + v + "." + key + " IS UNIQUE;"
  }

  /** The uniqueness constraints, one per node label the script merges on. */
  const Constraints: seq<string> := [
    ConstraintLine("c", "CypherClause", "name"),
    ConstraintLine("f", "CypherFunction", "name"),
    ConstraintLine("p", "ModelingPattern", "name"),
    ConstraintLine("b", "BestPractice", "title"),
    ConstraintLine("s", "Source", "path"),
    ConstraintLine("cat", "FunctionCategory", "name"),
    ConstraintLine("cat", "PracticeCategory", "name"),
    ConstraintLine("i", "Industry", "name")
  ]

  const Industries: seq<string> := [
    "Financial Services", "Healthcare", "Cybersecurity",
    "Supply Chain", "Compliance", "E-commerce",
    "HR & Workforce", "Media & Content", "IT Operations",
    "Government", "Life Sciences", "Telecommunications"
  ]

  const ExampleCap := 200
  const DescriptionCap := 300
  const ExampleDescriptionCap := 200

  /** The pieces of the clause statement, its fields already escaped. */
  function ClauseParts(name: string, desc: string, src: string, count: string): seq<string>
  {
    ["MERGE (c:CypherClause {name: '", name, "'}) ",
     "SET c.description = '", desc, "', c.source_file = '", src, "', ",
     "c.authority_level = 1, ", "c.example_count = ", count, ";"]
  }

  function FunctionParts(name: string, desc: string, sig: string, ret: string, count: string): seq<string>
  {
    ["MERGE (f:CypherFunction {name: '", name, "'}) ",
     "SET f.description = '", desc, "', f.signature = '", sig, "', ",
     "f.returns = '", ret, "', ", "f.authority_level = 1, ", "f.example_count = ", count, ";"]
  }

  /** `MERGE (:lbl {name: 'cat'});` */
  function CategoryParts(lbl: string, cat: string): seq<string>
  {
    ["MERGE (:", lbl, " {name: '", cat, "'});"]
  }

  /** `MATCH (v:nodeLbl {key: 'value'}) MATCH (cat:catLbl {name: 'cat'}) MERGE (v)-[:BELONGS_TO]->(cat);` */
  function LinkParts(v: string, nodeLbl: string, key: string, value: string, catLbl: string, cat: string): seq<string>
  {
    ["MATCH (", v, ":", nodeLbl, " {", key, ": '", value, "'}) ",
     "MATCH (cat:", catLbl, " {name: '", cat, "'}) ",
     "MERGE (", v, ")-[:BELONGS_TO]->(cat);"]
  }

  function ExampleParts(cypher: string, desc: string, ctx: string, cat: string): seq<string>
  {
    ["CREATE (:CypherExample {cypher: '", cypher, "', ",
     "description: '", desc, "', context: '", ctx, "', ",
     "category: '", cat, "', authority_level: 1});"]
  }

  function PatternParts(name: string, desc: string): seq<string>
  {
    ["MERGE (:ModelingPattern {name: '", name, "', ", "description: '", desc, "', ", "authority_level: 1});"]
  }

  function PracticeParts(title: string, desc: string): seq<string>
  {
    ["MERGE (bp:BestPractice {title: '", title, "'}) ",
     "SET bp.description = '", desc, "', bp.authority_level = 1;"]
  }

  function IndustryLine(name: string): string
  {
    "MERGE (:Industry {name: '" + name + "'});"
  }

  function ClauseLine(c: CypherDocs.Clause): string
  {
    Concat(ClauseParts(Esc(c.name), Esc(c.description), Esc(c.sourceFile), NatToString(|c.syntaxExamples|)))
  }

  /** The three statements of a function: the node, its category, the link. */
  function FunctionLines(f: CypherDocs.CypherFunction): seq<string>
  {
    var name := Esc(f.name);
    var cat := Esc(f.category);
    [ Concat(FunctionParts(name, Esc(f.description), Esc(f.signature), Esc(f.returnType), NatToString(|f.examples|))),
      Concat(CategoryParts("FunctionCategory", cat)),
      Concat(LinkParts("f", "CypherFunction", "name", name, "FunctionCategory", cat)) ]
  }

  /** An example statement; the description is cut to 200 before escaping. */
  function ExampleLine(e: CypherDocs.Example): string
  {
    Concat(ExampleParts(Esc(e.cypher), Esc(Take(e.description, ExampleDescriptionCap)), Esc(e.context), Esc(e.category)))
  }

  /** A pattern statement; the description is cut to 300 before escaping. */
  function PatternLine(p: ModelingDocs.ModelingPattern): string
  {
    Concat(PatternParts(Esc(p.name), Esc(Take(p.description, DescriptionCap))))
  }

  /** The three statements of a practice, the description cut to 300 before escaping: the node, its category, the link. */
  function PracticeLines(b: ModelingDocs.BestPractice): seq<string>
  {
    var title := Esc(b.title);
    var cat := Esc(b.category);
    [ Concat(PracticeParts(title, Esc(Take(b.description, DescriptionCap)))),
      Concat(CategoryParts("PracticeCategory", cat)),
      Concat(LinkParts("bp", "BestPractice", "title", title, "PracticeCategory", cat)) ]
  }

  function ExampleCypher(e: CypherDocs.Example): string { e.cypher }
  function EscName(p: ModelingDocs.ModelingPattern): string { Esc(p.name) }
  function EscTitle(b: ModelingDocs.BestPractice): string { Esc(b.title) }
  function HasEscTitle(b: ModelingDocs.BestPractice): bool { Esc(b.title) != "" }

  /** The statements of the script, in the order `main` appends them. */
  function Script(clauses: seq<CypherDocs.Clause>, functions: seq<CypherDocs.CypherFunction>,
                  examples: seq<CypherDocs.Example>, patterns: seq<ModelingDocs.ModelingPattern>,
                  practices: seq<ModelingDocs.BestPractice>): seq<string>
  {
    Constraints
    + MapSeq(clauses, ClauseLine)
    + Flatten(MapSeq(functions, FunctionLines))
    + MapSeq(Take(DedupBy(examples, ExampleCypher, AdmitAll), ExampleCap), ExampleLine)
    + MapSeq(DedupBy(patterns, EscName, AdmitAll), PatternLine)
    + Flatten(MapSeq(DedupBy(practices, EscTitle, HasEscTitle), PracticeLines))
    + MapSeq(Industries, IndustryLine)
  }

  /** `main` without the files: the lines, and the text written, `"\n".join(lines)`. */
  method GenerateScript(clauses: seq<CypherDocs.Clause>, functions: seq<CypherDocs.CypherFunction>,
                        examples: seq<CypherDocs.Example>, patterns: seq<ModelingDocs.ModelingPattern>,
                        practices: seq<ModelingDocs.BestPractice>)
    returns (lines: seq<string>, output: string)
    ensures lines == Script(clauses, functions, examples, patterns, practices)
    ensures output == Join(lines, "\n")
  {
    var clauseLines := MapAll(clauses, ClauseLine);
    var functionLines := FlatMapAll(functions, FunctionLines);
    var exampleLines, exCount := DedupMapCapped(examples, ExampleCypher, ExampleLine, ExampleCap);
    var patternLines := DedupMap(patterns, EscName, AdmitAll, PatternLine);
    var practiceGroups := DedupMap(practices, EscTitle, HasEscTitle, PracticeLines);
    var industryLines := MapAll(Industries, IndustryLine);
    lines := Constraints + clauseLines + functionLines + exampleLines + patternLines + Flatten(practiceGroups)
             + industryLines;
    output := Join(lines, "\n");
  }

  /**
   * How many statements the script holds: 8 constraints, one per clause,
   * three per function, one per distinct example query up to 200, one per
   * distinct escaped pattern name, three per distinct non-empty escaped
   * practice title, and 12 industries.
   */
  lemma ScriptLength(clauses: seq<CypherDocs.Clause>, functions: seq<CypherDocs.CypherFunction>,
                     examples: seq<CypherDocs.Example>, patterns: seq<ModelingDocs.ModelingPattern>,
                     practices: seq<ModelingDocs.BestPractice>)
    ensures var nex := |KeysOf(examples, ExampleCypher, AdmitAll)|;
      |Script(clauses, functions, examples, patterns, practices)|
      == 8 + |clauses| + 3 * |functions| + (if nex < ExampleCap then nex else ExampleCap)
         + |KeysOf(patterns, EscName, AdmitAll)| + 3 * |KeysOf(practices, EscTitle, HasEscTitle)| + 12
  {
    DedupByCount(examples, ExampleCypher, AdmitAll);
    DedupByCount(patterns, EscName, AdmitAll);
    DedupByCount(practices, EscTitle, HasEscTitle);
    FlattenMapLength(functions, FunctionLines, 3);
    FlattenMapLength(DedupBy(practices, EscTitle, HasEscTitle), PracticeLines, 3);
  }

  /** No statement of `ls` holds a newline. */
  predicate OneLineEach(ls: seq<string>)
  {
    forall l :: l in ls ==> '\n' !in l
  }

  /** Every statement is one line. */
  lemma ScriptOneLine(clauses: seq<CypherDocs.Clause>, functions: seq<CypherDocs.CypherFunction>,
                      examples: seq<CypherDocs.Example>, patterns: seq<ModelingDocs.ModelingPattern>,
                      practices: seq<ModelingDocs.BestPractice>)
    ensures OneLineEach(Script(clauses, functions, examples, patterns, practices))
  {
    var a := Constraints;
    var b := MapSeq(clauses, ClauseLine);
    var c := Flatten(MapSeq(functions, FunctionLines));
    var d := MapSeq(Take(DedupBy(examples, ExampleCypher, AdmitAll), ExampleCap), ExampleLine);
    var e := MapSeq(DedupBy(patterns, EscName, AdmitAll), PatternLine);
    var f := Flatten(MapSeq(DedupBy(practices, EscTitle, HasEscTitle), PracticeLines));
    var g := MapSeq(Industries, IndustryLine);
    ConstraintsOneLine();
    ClausesOneLine(clauses);
    FunctionsOneLine(functions);
    ExamplesOneLine(Take(DedupBy(examples, ExampleCypher, AdmitAll), ExampleCap));
    PatternsOneLine(DedupBy(patterns, EscName, AdmitAll));
    PracticesOneLine(DedupBy(practices, EscTitle, HasEscTitle));
    IndustryNamesOneLine();
    IndustriesOneLine(Industries);
    OneLineEachAppend(a, b);
    OneLineEachAppend(a + b, c);
    OneLineEachAppend(a + b + c, d);
    OneLineEachAppend(a + b + c + d, e);
    OneLineEachAppend(a + b + c + d + e, f);
    OneLineEachAppend(a + b + c + d + e + f, g);
  }

  lemma OneLineEachAppend(a: seq<string>, b: seq<string>)
    requires OneLineEach(a) && OneLineEach(b)
    ensures OneLineEach(a + b)
  {
  }

  lemma ClausesOneLine(clauses: seq<CypherDocs.Clause>)
    ensures OneLineEach(MapSeq(clauses, ClauseLine))
  {
    forall l | l in MapSeq(clauses, ClauseLine) ensures '\n' !in l {
      var k :| 0 <= k < |clauses| && l == ClauseLine(clauses[k]);
      ClauseOneLine(clauses[k]);
    }
  }

  lemma FunctionsOneLine(functions: seq<CypherDocs.CypherFunction>)
    ensures OneLineEach(Flatten(MapSeq(functions, FunctionLines)))
  {
    forall l | l in Flatten(MapSeq(functions, FunctionLines)) ensures '\n' !in l {
      FlattenMapItem(functions, FunctionLines, l);
      var k :| 0 <= k < |functions| && l in FunctionLines(functions[k]);
      FunctionOneLine(functions[k]);
    }
  }

  lemma ExamplesOneLine(ex: seq<CypherDocs.Example>)
    ensures OneLineEach(MapSeq(ex, ExampleLine))
  {
    forall l | l in MapSeq(ex, ExampleLine) ensures '\n' !in l {
      var k :| 0 <= k < |ex| && l == ExampleLine(ex[k]);
      ExampleOneLine(ex[k]);
    }
  }

  lemma PatternsOneLine(pa: seq<ModelingDocs.ModelingPattern>)
    ensures OneLineEach(MapSeq(pa, PatternLine))
  {
    forall l | l in MapSeq(pa, PatternLine) ensures '\n' !in l {
      var k :| 0 <= k < |pa| && l == PatternLine(pa[k]);
      PatternOneLine(pa[k]);
    }
  }

  lemma PracticesOneLine(pr: seq<ModelingDocs.BestPractice>)
    ensures OneLineEach(Flatten(MapSeq(pr, PracticeLines)))
  {
    forall l | l in Flatten(MapSeq(pr, PracticeLines)) ensures '\n' !in l {
      FlattenMapItem(pr, PracticeLines, l);
      var k :| 0 <= k < |pr| && l in PracticeLines(pr[k]);
      PracticeOneLine(pr[k]);
    }
  }

  lemma IndustriesOneLine(names: seq<string>)
    requires OneLineEach(names)
    ensures OneLineEach(MapSeq(names, IndustryLine))
  {
    forall l | l in MapSeq(names, IndustryLine) ensures '\n' !in l {
      var k :| 0 <= k < |names| && l == IndustryLine(names[k]);
      assert names[k] in names;
    }
  }

  lemma IndustryNamesOneLine()
    ensures OneLineEach(Industries)
  {
  }

  lemma ConstraintsOneLine()
    ensures OneLineEach(Constraints)
  {
    ConstraintOneLine("c", "CypherClause", "name");
    ConstraintOneLine("f", "CypherFunction", "name");
    ConstraintOneLine("p", "ModelingPattern", "name");
    ConstraintOneLine("b", "BestPractice", "title");
    ConstraintOneLine("s", "Source", "path");
    ConstraintOneLine("cat", "FunctionCategory", "name");
    ConstraintOneLine("cat", "PracticeCategory", "name");
    ConstraintOneLine("i", "Industry", "name");
  }

  lemma ConstraintOneLine(v: string, lbl: string, key: string)
    requires '\n' !in v && '\n' !in lbl && '\n' !in key
    ensures '\n' !in ConstraintLine(v, lbl, key)
  {
  }

  lemma FunctionNodeOneLine(name: string, desc: string, sig: string, ret: string, count: string)
    requires '\n' !in name && '\n' !in desc && '\n' !in sig && '\n' !in ret && '\n' !in count
    ensures '\n' !in Concat(FunctionParts(name, desc, sig, ret, count))
  {
    ConcatAvoids(FunctionParts(name, desc, sig, ret, count), '\n');
  }

  lemma PracticeNodeOneLine(title: string, desc: string)
    requires '\n' !in title && '\n' !in desc
    ensures '\n' !in Concat(PracticeParts(title, desc))
  {
    ConcatAvoids(PracticeParts(title, desc), '\n');
  }

  lemma CategoryOneLine(lbl: string, cat: string)
    requires '\n' !in lbl && '\n' !in cat
    ensures '\n' !in Concat(CategoryParts(lbl, cat))
  {
    ConcatAvoids(CategoryParts(lbl, cat), '\n');
  }

  lemma LinkOneLine(v: string, nodeLbl: string, key: string, value: string, catLbl: string, cat: string)
    requires '\n' !in v && '\n' !in nodeLbl && '\n' !in key && '\n' !in value && '\n' !in catLbl && '\n' !in cat
    ensures '\n' !in Concat(LinkParts(v, nodeLbl, key, value, catLbl, cat))
  {
    ConcatAvoids(LinkParts(v, nodeLbl, key, value, catLbl, cat), '\n');
  }

  lemma DigitsOneLine(n: nat)
    ensures '\n' !in NatToString(n)
  {
    var r := NatToString(n);
    forall i | 0 <= i < |r| ensures r[i] != '\n' {
      assert IsDigit(r[i]);
    }
  }

  lemma ClauseOneLine(c: CypherDocs.Clause)
    ensures '\n' !in ClauseLine(c)
  {
    EscOneLine(c.name);
    EscOneLine(c.description);
    EscOneLine(c.sourceFile);
    DigitsOneLine(|c.syntaxExamples|);
    ConcatAvoids(ClauseParts(Esc(c.name), Esc(c.description), Esc(c.sourceFile), NatToString(|c.syntaxExamples|)), '\n');
  }

  lemma FunctionOneLine(f: CypherDocs.CypherFunction)
    ensures OneLineEach(FunctionLines(f))
  {
    var name := Esc(f.name);
    var cat := Esc(f.category);
    EscOneLine(f.name);
    EscOneLine(f.category);
    EscOneLine(f.description);
    EscOneLine(f.signature);
    EscOneLine(f.returnType);
    DigitsOneLine(|f.examples|);
    FunctionNodeOneLine(name, Esc(f.description), Esc(f.signature), Esc(f.returnType), NatToString(|f.examples|));
    CategoryOneLine("FunctionCategory", cat);
    LinkOneLine("f", "CypherFunction", "name", name, "FunctionCategory", cat);
  }

  lemma ExampleOneLine(e: CypherDocs.Example)
    ensures '\n' !in ExampleLine(e)
  {
    EscOneLine(e.cypher);
    EscOneLine(Take(e.description, ExampleDescriptionCap));
    EscOneLine(e.context);
    EscOneLine(e.category);
    ConcatAvoids(ExampleParts(Esc(e.cypher), Esc(Take(e.description, ExampleDescriptionCap)), Esc(e.context), Esc(e.category)), '\n');
  }

  lemma PatternOneLine(p: ModelingDocs.ModelingPattern)
    ensures '\n' !in PatternLine(p)
  {
    EscOneLine(p.name);
    EscOneLine(Take(p.description, DescriptionCap));
    ConcatAvoids(PatternParts(Esc(p.name), Esc(Take(p.description, DescriptionCap))), '\n');
  }

  lemma PracticeOneLine(b: ModelingDocs.BestPractice)
    ensures OneLineEach(PracticeLines(b))
  {
    var title := Esc(b.title);
    var cat := Esc(b.category);
    EscOneLine(b.title);
    EscOneLine(b.category);
    EscOneLine(Take(b.description, DescriptionCap));
    PracticeNodeOneLine(title, Esc(Take(b.description, DescriptionCap)));
    CategoryOneLine("PracticeCategory", cat);
    LinkOneLine("bp", "BestPractice", "title", title, "PracticeCategory", cat);
  }

  /** Splitting the written text at newlines gives back the statements. */
  lemma OutputSplits(clauses: seq<CypherDocs.Clause>, functions: seq<CypherDocs.CypherFunction>,
                     examples: seq<CypherDocs.Example>, patterns: seq<ModelingDocs.ModelingPattern>,
                     practices: seq<ModelingDocs.BestPractice>)
    ensures var lines := Script(clauses, functions, examples, patterns, practices);
      Split(Join(lines, "\n"), '\n') == lines
  {
    var lines := Script(clauses, functions, examples, patterns, practices);
    ScriptOneLine(clauses, functions, examples, patterns, practices);
    assert |lines| >= 8;
    assert forall k :: 0 <= k < |lines| ==> '\n' !in lines[k] by {
      forall k | 0 <= k < |lines| ensures '\n' !in lines[k] {
        assert lines[k] in lines;
      }
    }
    assert "\n" == ['\n'];
    SplitJoin(lines, '\n');
  }

  /** Emitted pattern names are distinct once escaped, and so are practice titles, which are never empty. */
  lemma ScriptNamesDistinct(patterns: seq<ModelingDocs.ModelingPattern>, practices: seq<ModelingDocs.BestPractice>)
    ensures var pa := DedupBy(patterns, EscName, AdmitAll);
      forall i, j :: 0 <= i < j < |pa| ==> Esc(pa[i].name) != Esc(pa[j].name)
    ensures var pr := DedupBy(practices, EscTitle, HasEscTitle);
      && (forall i :: 0 <= i < |pr| ==> Esc(pr[i].title) != "")
      && (forall i, j :: 0 <= i < j < |pr| ==> Esc(pr[i].title) != Esc(pr[j].title))
  {
    DedupByProperties(patterns, EscName, AdmitAll);
    DedupByProperties(practices, EscTitle, HasEscTitle);
  }
}
