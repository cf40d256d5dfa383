/**
 * The loader that feeds Cypher to `cypher-shell` inside the demo container
 * (data/scripts/load_via_docker.py). `run_cypher` is a subprocess call: the
 * model returns, in order, the scripts `main` hands to it, and leaves the
 * process, its exit code and what it prints out.
 */
module LoadViaDocker {
  import opened Wrappers
  import opened Text
  import opened Seqs
  import opened CypherLiteral
  import CypherDocs
  import ModelingDocs
  import GenerateEmbeddings

  // ---------------------------------------------------------------------------
  // escape
  // ---------------------------------------------------------------------------

  /** `escape`: backslashes doubled, quotes escaped, newlines written as `\n`. */
  function Escape(s: string): string
  {
    ConcatMap(s, EscapeChar)
  }

  /** What `escape` writes for one character. */
  function EscapeChar(c: char): string
  {
    if c == '\\' then "\\\\"
    else if c == '\'' then "\\'"
    else if c == '\n' then "\\n"
    else [c]
  }

  /** `escape` as written: the empty text, else three `replace` calls in a row. */
  lemma EscapeAsWritten(s: string)
    ensures Escape(s) == if s == "" then ""
      else ReplaceWith(ReplaceWith(ReplaceWith(s, '\\', "\\\\"), '\'', "\\'"), '\n', "\\n")
  {
    if s != "" {
      var r1 := Replacer('\\', "\\\\");
      var r2 := Replacer('\'', "\\'");
      var r3 := Replacer('\n', "\\n");
      var h2 := c => ConcatMap(r1(c), r2);
      ConcatMapCompose(s, r1, r2, h2);
      forall c | c in s ensures EscapeChar(c) == ConcatMap(h2(c), r3) {
        EscapeCharChain(c);
      }
      ConcatMapCompose(s, h2, r3, EscapeChar);
    }
  }

  lemma EscapeCharChain(c: char)
    ensures EscapeChar(c) == ConcatMap(ConcatMap(Replacer('\\', "\\\\")(c), Replacer('\'', "\\'")),
                                       Replacer('\n', "\\n"))
  {
    var r2 := Replacer('\'', "\\'");
    var r3 := Replacer('\n', "\\n");
    if c == '\\' {
      assert ConcatMap(['\\', '\\'], r2) == ['\\', '\\'];
      assert ConcatMap(['\\', '\\'], r3) == ['\\', '\\'];
    } else if c == '\'' {
      assert ConcatMap([c], r2) == ['\\', '\''];
      assert ConcatMap(['\\', '\''], r3) == ['\\', '\''];
    } else {
      assert ConcatMap([c], r2) == [c];
    }
  }

  /** Read back from its literal, an escaped value is the value itself. */
  lemma EscapeRoundTrip(s: string)
    ensures Unescape(Escape(s)) == Some(s)
  {
    UnescapeConcatMap(s, EscapeChar, Keep);
    ConcatMapKeep(s);
  }

  /** An escaped value holds no raw newline, and every quote in it follows a backslash. */
  lemma EscapeSafe(s: string)
    ensures '\n' !in Escape(s)
    ensures var t := Escape(s); forall i :: 0 <= i < |t| && t[i] == '\'' ==> 0 < i && t[i - 1] == '\\'
  {
    ConcatMapAvoids(s, EscapeChar, '\n');
    EscapeRoundTrip(s);
    DecodableQuotes(Escape(s));
  }

  /** Different values escape differently, and only the empty value escapes to the empty text. */
  lemma EscapeInjective(a: string, b: string)
    ensures Escape(a) == Escape(b) <==> a == b
    ensures Escape(a) == "" <==> a == ""
  {
    EscapeRoundTrip(a);
    EscapeRoundTrip(b);
    EscapeRoundTrip("");
  }

  // ---------------------------------------------------------------------------
  // the scripts handed to cypher-shell
  // ---------------------------------------------------------------------------

  function Spaces(n: nat): (r: string)
    ensures |r| == n && forall i :: 0 <= i < n ==> r[i] == ' '
  {
    seq(n, _ => ' ')
  }

  /** A triple-quoted script: each line on a new line after `indent`, then a last line of `closing` spaces. */
  function Block(ls: seq<string>, indent: nat, closing: nat): string
    decreases |ls|
  {
    if |ls| == 0 then "\n" + Spaces(closing)
    else "\n" + Spaces(indent) + ls[0] + Block(ls[1..], indent, closing)
  }

  const ConstraintsScript := Block([
    "CREATE CONSTRAINT IF NOT EXISTS FOR (c:CypherClause) REQUIRE c.name IS UNIQUE;",
    "CREATE CONSTRAINT IF NOT EXISTS FOR (f:CypherFunction) REQUIRE f.name IS UNIQUE;",
    "CREATE CONSTRAINT IF NOT EXISTS FOR (p:ModelingPattern) REQUIRE p.name IS UNIQUE;",
    "CREATE CONSTRAINT IF NOT EXISTS FOR (b:BestPractice) REQUIRE b.title IS UNIQUE;",
    "CREATE CONSTRAINT IF NOT EXISTS FOR (s:Source) REQUIRE s.path IS UNIQUE;",
    "CREATE CONSTRAINT IF NOT EXISTS FOR (cat:FunctionCategory) REQUIRE cat.name IS UNIQUE;",
    "CREATE CONSTRAINT IF NOT EXISTS FOR (cat:PracticeCategory) REQUIRE cat.name IS UNIQUE;",
    "CREATE CONSTRAINT IF NOT EXISTS FOR (i:Industry) REQUIRE i.name IS UNIQUE;"], 8, 4)

  const IndustriesScript := Block([
    "FOREACH (name IN ['Financial Services', 'Healthcare', 'Cybersecurity',",
    "    'Supply Chain', 'Compliance', 'E-commerce', 'HR & Workforce',",
    "    'Media & Content', 'IT Operations', 'Government',",
    "    'Life Sciences', 'Telecommunications'] |",
    "    MERGE (:Industry {name: name})",
    ");"], 8, 4)

  const LabelStatsScript := Block([
    "MATCH (n) RETURN labels(n)[0] AS label, count(n) AS count ORDER BY count DESC;"], 8, 4)

  const RelationshipStatsScript := Block([
    "MATCH ()-[r]->() RETURN type(r) AS type, count(r) AS count ORDER BY count DESC;"], 8, 4)

  /** The clause script: the clause node, its source node and the link between them. */
  function ClauseScript(c: CypherDocs.Clause): string
  {
    var name := Escape(c.name);
    var desc := Escape(c.description);
    var src := Escape(c.sourceFile);
    Block([
      "MERGE (clause:CypherClause {name: '" + name + "'})",
      "SET clause.description = '" + desc + "',",
      "    clause.source_file = '" + src + "',",
      "    clause.authority_level = 1,",
      "    clause.example_count = " + NatToString(|c.syntaxExamples|) + ";",
      "MERGE (src:Source {path: '" + src + "'})",
      "SET src.type = 'official_docs', src.authority_level = 1;",
      "MATCH (clause:CypherClause {name: '" + name + "'})",
      "MATCH (src:Source {path: '" + src + "'})",
      "MERGE (clause)-[:SOURCED_FROM]->(src);"], 12, 8)
  }

  /** The function script: the function node, its category and the link. */
  function FunctionScript(f: CypherDocs.CypherFunction): string
  {
    var name := Escape(f.name);
    var cat := Escape(f.category);
    Block([
      "MERGE (func:CypherFunction {name: '" + name + "'})",
      "SET func.description = '" + Escape(f.description) + "',",
      "    func.signature = '" + Escape(f.signature) + "',",
      "    func.returns = '" + Escape(f.returnType) + "',",
      "    func.source_file = '" + Escape(f.sourceFile) + "',",
      "    func.authority_level = 1,",
      "    func.example_count = " + NatToString(|f.examples|) + ";",
      "MERGE (cat:FunctionCategory {name: '" + cat + "'});",
      "MATCH (func:CypherFunction {name: '" + name + "'})",
      "MATCH (cat:FunctionCategory {name: '" + cat + "'})",
      "MERGE (func)-[:BELONGS_TO]->(cat);"], 12, 8)
  }

  /** The example script; the description is not cut. */
  function ExampleScript(e: CypherDocs.Example): string
  {
    Block([
      "CREATE (ex:CypherExample {",
      "    cypher: '" + Escape(e.cypher) + "',",
      "    description: '" + Escape(e.description) + "',",
      "    context: '" + Escape(e.context) + "',",
      "    category: '" + Escape(e.category) + "',",
      "    authority_level: 1",
      "});"], 16, 12)
  }

  /** The pattern script; the description is not cut. */
  function PatternScript(p: ModelingDocs.ModelingPattern): string
  {
    Block([
      "MERGE (pat:ModelingPattern {name: '" + Escape(p.name) + "'})",
      "SET pat.description = '" + Escape(p.description) + "',",
      "    pat.source_file = '" + Escape(p.sourceFile) + "',",
      "    pat.authority_level = 1;"], 12, 8)
  }

  /** The practice script, the description cut to 400 before escaping: the node, its category, the link. */
  function PracticeScript(b: ModelingDocs.BestPractice): string
  {
    var title := Escape(b.title);
    var cat := Escape(b.category);
    Block([
      "MERGE (bp:BestPractice {title: '" + title + "'})",
      "SET bp.description = '" + Escape(Take(b.description, PracticeDescriptionCap)) + "',",
      "    bp.authority_level = " + IntToString(b.authorityLevel) + ";",
      "MERGE (cat:PracticeCategory {name: '" + cat + "'});",
      "MATCH (bp:BestPractice {title: '" + title + "'})",
      "MATCH (cat:PracticeCategory {name: '" + cat + "'})",
      "MERGE (bp)-[:BELONGS_TO]->(cat);"], 12, 8)
  }

  const BatchSize := 20
  const PracticeDescriptionCap := 400

  function ExampleCypher(e: CypherDocs.Example): string { e.cypher }
  function EscapedName(p: ModelingDocs.ModelingPattern): string { Escape(p.name) }
  function EscapedTitle(b: ModelingDocs.BestPractice): string { Escape(b.title) }
  function HasEscapedTitle(b: ModelingDocs.BestPractice): bool { Escape(b.title) != "" }

  /** The examples loaded: the first of each distinct query. */
  function UniqueExamples(examples: seq<CypherDocs.Example>): seq<CypherDocs.Example>
  {
    DedupBy(examples, ExampleCypher, AdmitAll)
  }

  /** Every script `main` hands to `run_cypher`, in order. */
  function Calls(clauses: seq<CypherDocs.Clause>, functions: seq<CypherDocs.CypherFunction>,
                 examples: seq<CypherDocs.Example>, patterns: seq<ModelingDocs.ModelingPattern>,
                 practices: seq<ModelingDocs.BestPractice>): seq<string>
  {
    [ConstraintsScript]
    + MapSeq(clauses, ClauseScript)
    + MapSeq(functions, FunctionScript)
    + MapSeq(UniqueExamples(examples), ExampleScript)
    + MapSeq(DedupBy(patterns, EscapedName, AdmitAll), PatternScript)
    + MapSeq(DedupBy(practices, EscapedTitle, HasEscapedTitle), PracticeScript)
    + [IndustriesScript, LabelStatsScript, RelationshipStatsScript]
  }

  /** The de-duplication loop of step 4: `unique` keeps the first example of each query. */
  method UniqueLoop(examples: seq<CypherDocs.Example>) returns (unique: seq<CypherDocs.Example>)
    ensures unique == UniqueExamples(examples)
  {
    var seen: set<string> := {};
    unique := [];
    var i := 0;
    while i < |examples|
      invariant 0 <= i <= |examples|
      invariant seen == KeysOf(examples[..i], ExampleCypher, AdmitAll)
      invariant unique == DedupBy(examples[..i], ExampleCypher, AdmitAll)
    {
      var ex := examples[i];
      assert examples[..i + 1] == examples[..i] + [ex];
      assert examples[..i + 1][..i] == examples[..i];
      KeysOfSnoc(examples[..i], ex, ExampleCypher, AdmitAll);
      if ex.cypher !in seen {
        seen := seen + {ex.cypher};
        unique := unique + [ex];
      }
      i := i + 1;
    }
    assert examples[..i] == examples;
  }

  /**
   * The batch loop of step 4: `range(0, len(unique), 20)` and an inner loop
   * over `unique[i:i + 20]`, one script per example (`ExampleScript`, passed
   * in as `script`); `loaded` counts them.
   */
  method BatchLoop<T>(unique: seq<T>, script: T -> string) returns (calls: seq<string>, batches: seq<seq<T>>, loaded: nat)
    ensures batches == Chunks(unique, BatchSize)
    ensures calls == MapSeq(unique, script)
    ensures loaded == |unique|
  {
    calls := [];
    batches := [];
    loaded := 0;
    var i := 0;
    while i < |unique|
      invariant 0 <= i <= |unique|
      invariant batches + Chunks(unique[i..], BatchSize) == Chunks(unique, BatchSize)
      invariant calls == MapSeq(unique[..i], script)
      invariant loaded == i
      decreases |unique| - i
    {
      var end := if i + BatchSize <= |unique| then i + BatchSize else |unique|;
      var batch := unique[i..end];
      var k := i;
      while k < end
        invariant i <= k <= end
        invariant calls == MapSeq(unique[..k], script)
        invariant loaded == k
      {
        MapSeqSnoc(unique, k, script);
        calls := calls + [script(unique[k])];
        loaded := loaded + 1;
        k := k + 1;
      }
      BatchStep(unique, i, end);
      SnocAssoc(batches, batch, Chunks(unique[end..], BatchSize));
      batches := batches + [batch];
      i := end;
    }
    assert unique[i..] == [];
    assert unique[..i] == unique;
  }

  lemma SnocAssoc<T>(xs: seq<T>, x: T, ys: seq<T>)
    ensures (xs + [x]) + ys == xs + ([x] + ys)
  {
  }

  /** Taking the next batch off the front of what is left. */
  lemma BatchStep<T>(unique: seq<T>, i: nat, end: nat)
    requires i < |unique|
    requires end == if i + BatchSize <= |unique| then i + BatchSize else |unique|
    ensures Chunks(unique[i..], BatchSize) == [unique[i..end]] + Chunks(unique[end..], BatchSize)
  {
    var rest := unique[i..];
    if |rest| <= BatchSize {
      assert end == |unique|;
      assert rest == unique[i..end];
      assert unique[end..] == [];
    } else {
      assert rest[..BatchSize] == unique[i..end];
      assert rest[BatchSize..] == unique[end..];
    }
  }

  /**
   * `main` without the process: every script handed to `run_cypher`, the
   * example batches, and the counts it prints for examples, patterns and
   * practices.
   */
  method LoadAll(clauses: seq<CypherDocs.Clause>, functions: seq<CypherDocs.CypherFunction>,
                 examples: seq<CypherDocs.Example>, patterns: seq<ModelingDocs.ModelingPattern>,
                 practices: seq<ModelingDocs.BestPractice>)
    returns (calls: seq<string>, batches: seq<seq<CypherDocs.Example>>, loaded: nat, patternCount: nat, practiceCount: nat)
    ensures calls == Calls(clauses, functions, examples, patterns, practices)
    ensures batches == Chunks(UniqueExamples(examples), BatchSize)
    ensures loaded == |UniqueExamples(examples)|
    ensures patternCount == |DedupBy(patterns, EscapedName, AdmitAll)|
    ensures practiceCount == |DedupBy(practices, EscapedTitle, HasEscapedTitle)|
  {
    var clauseCalls := MapAll(clauses, ClauseScript);
    var functionCalls := MapAll(functions, FunctionScript);
    var unique := UniqueLoop(examples);
    var exampleCalls;
    exampleCalls, batches, loaded := BatchLoop(unique, ExampleScript);
    var patternCalls := DedupMap(patterns, EscapedName, AdmitAll, PatternScript);
    var practiceCalls := DedupMap(practices, EscapedTitle, HasEscapedTitle, PracticeScript);
    patternCount := |patternCalls|;
    practiceCount := |practiceCalls|;
    calls := [ConstraintsScript] + clauseCalls + functionCalls + exampleCalls + patternCalls + practiceCalls
             + [IndustriesScript, LabelStatsScript, RelationshipStatsScript];
  }

  /** The batches hold every unique example once, in order, at most 20 to a batch, only the last short. */
  lemma BatchesCover(examples: seq<CypherDocs.Example>)
    ensures var b := Chunks(UniqueExamples(examples), BatchSize);
      && Flatten(b) == UniqueExamples(examples)
      && (forall k :: 0 <= k < |b| ==> 0 < |b[k]| <= BatchSize)
      && (forall k :: 0 <= k < |b| - 1 ==> |b[k]| == BatchSize)
  {
    ChunksCover(UniqueExamples(examples), BatchSize);
  }

  /**
   * Because `escape` is one-to-one, skipping seen escaped names is skipping
   * seen names: the patterns and titled practices loaded are the ones the
   * embedding generator writes documents for.
   */
  lemma SameAsRawDedup(patterns: seq<ModelingDocs.ModelingPattern>, practices: seq<ModelingDocs.BestPractice>)
    ensures DedupBy(patterns, EscapedName, AdmitAll)
         == DedupBy(patterns, GenerateEmbeddings.PatternName, AdmitAll)
    ensures DedupBy(practices, EscapedTitle, HasEscapedTitle)
         == DedupBy(practices, GenerateEmbeddings.PracticeTitle, GenerateEmbeddings.HasTitle)
  {
    forall x: ModelingDocs.ModelingPattern, y: ModelingDocs.ModelingPattern
      ensures EscapedName(x) == EscapedName(y) <==> GenerateEmbeddings.PatternName(x) == GenerateEmbeddings.PatternName(y)
    {
      EscapeInjective(x.name, y.name);
    }
    forall x: ModelingDocs.BestPractice, y: ModelingDocs.BestPractice
      ensures EscapedTitle(x) == EscapedTitle(y) <==> GenerateEmbeddings.PracticeTitle(x) == GenerateEmbeddings.PracticeTitle(y)
    {
      EscapeInjective(x.title, y.title);
    }
    forall x: ModelingDocs.BestPractice
      ensures HasEscapedTitle(x) == GenerateEmbeddings.HasTitle(x)
    {
      EscapeInjective(x.title, x.title);
    }
    DedupBySameKeys(patterns, EscapedName, AdmitAll, GenerateEmbeddings.PatternName, AdmitAll);
    DedupBySameKeys(practices, EscapedTitle, HasEscapedTitle, GenerateEmbeddings.PracticeTitle, GenerateEmbeddings.HasTitle);
  }

  /**
   * How many scripts `main` runs: constraints, one per clause and function,
   * one per distinct example query, one per distinct pattern name, one per
   * distinct non-empty practice title, the industries and two statistics.
   */
  lemma CallsCount(clauses: seq<CypherDocs.Clause>, functions: seq<CypherDocs.CypherFunction>,
                   examples: seq<CypherDocs.Example>, patterns: seq<ModelingDocs.ModelingPattern>,
                   practices: seq<ModelingDocs.BestPractice>)
    ensures |Calls(clauses, functions, examples, patterns, practices)|
         == 4 + |clauses| + |functions| + |KeysOf(examples, ExampleCypher, AdmitAll)|
            + |KeysOf(patterns, GenerateEmbeddings.PatternName, AdmitAll)|
            + |KeysOf(practices, GenerateEmbeddings.PracticeTitle, GenerateEmbeddings.HasTitle)|
  {
    SameAsRawDedup(patterns, practices);
    DedupByCount(examples, ExampleCypher, AdmitAll);
    DedupByCount(patterns, GenerateEmbeddings.PatternName, AdmitAll);
    DedupByCount(practices, GenerateEmbeddings.PracticeTitle, GenerateEmbeddings.HasTitle);
  }
}
