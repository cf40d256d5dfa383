/**
 * The documents embedded for the expert graph
 * (data/scripts/generate_embeddings.py): one text per clause, function,
 * distinct example, distinct pattern and distinct titled practice, in that
 * order, and the metadata rows numbered by position. The JSONL files read
 * are the records of the two documentation parsers; the sentence encoder
 * and the file writes are outside the model.
 */
module GenerateEmbeddings {
  import opened Text
  import opened Seqs
  import opened Wrappers
  import CypherDocs
  import ModelingDocs
  import LoadEmbeddings

  /** The keys of a metadata row besides `text`, by document type. */
  datatype DocMeta =
    | ClauseMeta(name: string, source: string)
    | FunctionMeta(name: string, category: string, source: string)
    | ExampleMeta(category: string, context: string)
    | PatternMeta(name: string)
    | PracticeMeta(name: string, category: string)

  datatype Doc = Doc(text: string, meta: DocMeta)

  /** The `type` key of a row. */
  function TypeName(m: DocMeta): string
  {
    match m
    case ClauseMeta(_, _) => "cypher_clause"
    case FunctionMeta(_, _, _) => "cypher_function"
    case ExampleMeta(_, _) => "cypher_example"
    case PatternMeta(_) => "modeling_pattern"
    case PracticeMeta(_, _) => "best_practice"
  }

  const TextCap := 500

  function ClauseDoc(c: CypherDocs.Clause): Doc
  {
    Doc(c.name + ": " + c.description, ClauseMeta(c.name, c.sourceFile))
  }

  function FunctionDoc(f: CypherDocs.CypherFunction): Doc
  {
    var text := f.name + ": " + f.description;
    Doc(if f.signature != "" then text + " Signature: " + f.signature else text,
        FunctionMeta(f.name, f.category, f.sourceFile))
  }

  /** The text the loader searches: the description, the ` Cypher: ` marker and the query, cut to 500. */
  function ExampleDoc(e: CypherDocs.Example): Doc
  {
    Doc(Take(e.description + LoadEmbeddings.Marker + e.cypher, TextCap), ExampleMeta(e.category, e.context))
  }

  function PatternDoc(p: ModelingDocs.ModelingPattern): Doc
  {
    Doc(Take(p.name + ": " + p.description, TextCap), PatternMeta(p.name))
  }

  function PracticeDoc(b: ModelingDocs.BestPractice): Doc
  {
    Doc(Take(b.title + ": " + b.description, TextCap), PracticeMeta(b.title, b.category))
  }

  function ExampleCypher(e: CypherDocs.Example): string { e.cypher }
  function PatternName(p: ModelingDocs.ModelingPattern): string { p.name }
  function PracticeTitle(b: ModelingDocs.BestPractice): string { b.title }
  function HasTitle(b: ModelingDocs.BestPractice): bool { b.title != "" }

  /** What `build_documents` returns. */
  function Documents(clauses: seq<CypherDocs.Clause>, functions: seq<CypherDocs.CypherFunction>,
                     examples: seq<CypherDocs.Example>, patterns: seq<ModelingDocs.ModelingPattern>,
                     practices: seq<ModelingDocs.BestPractice>): seq<Doc>
  {
    MapSeq(clauses, ClauseDoc) + MapSeq(functions, FunctionDoc)
    + MapSeq(DedupBy(examples, ExampleCypher, AdmitAll), ExampleDoc)
    + MapSeq(DedupBy(patterns, PatternName, AdmitAll), PatternDoc)
    + MapSeq(DedupBy(practices, PracticeTitle, HasTitle), PracticeDoc)
  }

  /** `build_documents`: two plain loops, then three loops with their `seen` sets. */
  method BuildDocuments(clauses: seq<CypherDocs.Clause>, functions: seq<CypherDocs.CypherFunction>,
                        examples: seq<CypherDocs.Example>, patterns: seq<ModelingDocs.ModelingPattern>,
                        practices: seq<ModelingDocs.BestPractice>)
    returns (docs: seq<Doc>)
    ensures docs == Documents(clauses, functions, examples, patterns, practices)
  {
    var clauseDocs: seq<Doc> := [];
    var i := 0;
    while i < |clauses|
      invariant 0 <= i <= |clauses|
      invariant clauseDocs == MapSeq(clauses[..i], ClauseDoc)
    {
      assert clauses[..i + 1][..i] == clauses[..i];
      clauseDocs := clauseDocs + [ClauseDoc(clauses[i])];
      i := i + 1;
    }
    assert clauses[..i] == clauses;
    var functionDocs: seq<Doc> := [];
    i := 0;
    while i < |functions|
      invariant 0 <= i <= |functions|
      invariant functionDocs == MapSeq(functions[..i], FunctionDoc)
    {
      assert functions[..i + 1][..i] == functions[..i];
      functionDocs := functionDocs + [FunctionDoc(functions[i])];
      i := i + 1;
    }
    assert functions[..i] == functions;
    var exampleDocs := DedupMap(examples, ExampleCypher, AdmitAll, ExampleDoc);
    var patternDocs := DedupMap(patterns, PatternName, AdmitAll, PatternDoc);
    var practiceDocs := DedupMap(practices, PracticeTitle, HasTitle, PracticeDoc);
    docs := clauseDocs + functionDocs + exampleDocs + patternDocs + practiceDocs;
  }

  /**
   * The documents come in five runs: every clause, every function, one per
   * distinct example query, one per distinct pattern name and one per
   * distinct non-empty practice title; only the last three are cut to 500.
   */
  lemma DocumentsShape(clauses: seq<CypherDocs.Clause>, functions: seq<CypherDocs.CypherFunction>,
                       examples: seq<CypherDocs.Example>, patterns: seq<ModelingDocs.ModelingPattern>,
                       practices: seq<ModelingDocs.BestPractice>)
    ensures var d := Documents(clauses, functions, examples, patterns, practices);
      var a := |clauses|;
      var b := a + |functions|;
      var c := b + |KeysOf(examples, ExampleCypher, AdmitAll)|;
      var e := c + |KeysOf(patterns, PatternName, AdmitAll)|;
      && |d| == e + |KeysOf(practices, PracticeTitle, HasTitle)|
      && (forall k :: 0 <= k < a ==> d[k].meta.ClauseMeta?)
      && (forall k :: a <= k < b ==> d[k].meta.FunctionMeta?)
      && (forall k :: b <= k < c ==> d[k].meta.ExampleMeta? && |d[k].text| <= TextCap)
      && (forall k :: c <= k < e ==> d[k].meta.PatternMeta? && |d[k].text| <= TextCap)
      && (forall k :: e <= k < |d| ==> d[k].meta.PracticeMeta? && d[k].meta.name != "" && |d[k].text| <= TextCap)
  {
    var ex := DedupBy(examples, ExampleCypher, AdmitAll);
    var pa := DedupBy(patterns, PatternName, AdmitAll);
    var pr := DedupBy(practices, PracticeTitle, HasTitle);
    DedupByCount(examples, ExampleCypher, AdmitAll);
    DedupByCount(patterns, PatternName, AdmitAll);
    DedupByCount(practices, PracticeTitle, HasTitle);
    DedupByProperties(practices, PracticeTitle, HasTitle);
  }

  /** Pattern documents name distinct patterns, and so do practice documents. */
  lemma DocumentNamesDistinct(patterns: seq<ModelingDocs.ModelingPattern>, practices: seq<ModelingDocs.BestPractice>)
    ensures var d := MapSeq(DedupBy(patterns, PatternName, AdmitAll), PatternDoc);
      forall i, j :: 0 <= i < j < |d| ==> d[i].meta.name != d[j].meta.name
    ensures var d := MapSeq(DedupBy(practices, PracticeTitle, HasTitle), PracticeDoc);
      forall i, j :: 0 <= i < j < |d| ==> d[i].meta.name != d[j].meta.name
  {
    DedupByProperties(patterns, PatternName, AdmitAll);
    DedupByProperties(practices, PracticeTitle, HasTitle);
  }

  /** The first occurrence of `m` in `pre + m + rest` is the one written there, when `pre` does not bring an earlier one. */
  lemma FirstOccurrence(pre: string, m: string, rest: string)
    requires forall p :: 0 <= p < |pre| ==> !OccursAt(pre + m, m, p)
    ensures IndexOf(pre + m + rest, m, 0) == |pre|
  {
    var t := pre + m + rest;
    var u := pre + m;
    assert t == u + rest;
    assert t[|pre|..|pre| + |m|] == m;
    forall p | 0 <= p < |pre| ensures !OccursAt(t, m, p) {
      assert p + |m| <= |u|;
      assert t[p..p + |m|] == u[p..p + |m|];
      assert !OccursAt(u, m, p);
    }
    assert OccursAt(t, m, |pre|);
    var r := IndexOf(t, m, 0);
    assert r != -1 && !(r < |pre|) && !(|pre| < r);
  }

  /**
   * The loader finds an example again: the key it reads from an example
   * document is the example's normalised query, when the text was not cut
   * and the description does not itself hold the marker.
   */
  lemma ExampleKeyRoundTrip(e: CypherDocs.Example)
    requires |e.description| + |LoadEmbeddings.Marker| + |e.cypher| <= TextCap
    requires forall p :: 0 <= p < |e.description| ==>
      !OccursAt(e.description + LoadEmbeddings.Marker, LoadEmbeddings.Marker, p)
    ensures LoadEmbeddings.MarkerKey(ExampleDoc(e).text) == Some(LoadEmbeddings.NormalizeWs(e.cypher))
  {
    var m := LoadEmbeddings.Marker;
    var t := e.description + m + e.cypher;
    assert ExampleDoc(e).text == t;
    FirstOccurrence(e.description, m, e.cypher);
    assert t[|e.description| + |m|..] == e.cypher;
  }

  /** A row of `embeddings_meta.jsonl`: the document and its `embedding_index`. */
  datatype MetaRow = MetaRow(doc: Doc, embeddingIndex: nat)

  /** The numbering loop of `main`: each document gets its position. */
  method NumberDocuments(docs: seq<Doc>) returns (rows: seq<MetaRow>)
    ensures |rows| == |docs|
    ensures forall i :: 0 <= i < |docs| ==> rows[i] == MetaRow(docs[i], i)
  {
    rows := [];
    var i := 0;
    while i < |docs|
      invariant 0 <= i <= |docs| && |rows| == i
      invariant forall k :: 0 <= k < i ==> rows[k] == MetaRow(docs[k], k)
    {
      rows := rows + [MetaRow(docs[i], i)];
      i := i + 1;
    }
  }
}
