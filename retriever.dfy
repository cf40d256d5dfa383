/**
 * The graph retriever: the discovered schema and its prompt text, property
 * cleaning, the conversion of query records into nodes, edges and rows, the
 * text context handed to the LLM, and the choice between the vector and the
 * text-to-Cypher strategies with its retry loop.
 *
 * The database, the embedding model and the LLM are parameters: each query
 * or call is a function from its arguments to the rows or the reply.
 */
module Retriever {
  import opened Wrappers
  import opened Text
  import opened Seqs
  import opened PyValue
  import Fences
  import CypherGuard

  // ---------------------------------------------------------------------------
  // Dictionaries with non-Value values
  // ---------------------------------------------------------------------------

  /** `d.get(k)` on a dict given as its entries in insertion order. */
  function Lookup<V>(d: seq<(string, V)>, k: string): (r: Option<V>)
    ensures r.None? <==> forall i :: 0 <= i < |d| ==> d[i].0 != k
    ensures r.Some? ==> exists i :: 0 <= i < |d| && d[i] == (k, r.value)
    decreases |d|
  {
    if |d| == 0 then None
    else if d[0].0 == k then Some(d[0].1)
    else
      var r := Lookup(d[1..], k);
      assert forall i :: 0 < i < |d| ==> d[i] == d[1..][i - 1];
      r
  }

  /** `d[k] = v`: an existing key keeps its place, a new one goes last. */
  function Put<V>(d: seq<(string, V)>, k: string, v: V): seq<(string, V)>
    decreases |d|
  {
    if |d| == 0 then [(k, v)]
    else if d[0].0 == k then [(k, v)] + d[1..]
    else [d[0]] + Put(d[1..], k, v)
  }

  /** After `d[k] = v`, `k` maps to `v`, every other key keeps its value, and only a new key lengthens the dict. */
  lemma {:induction false} PutMeaning<V>(d: seq<(string, V)>, k: string, v: V, j: string)
    ensures Lookup(Put(d, k, v), k) == Some(v)
    ensures j != k ==> Lookup(Put(d, k, v), j) == Lookup(d, j)
    ensures Lookup(d, k).Some? ==> |Put(d, k, v)| == |d|
    ensures Lookup(d, k).None? ==> Put(d, k, v) == d + [(k, v)]
    decreases |d|
  {
    if |d| > 0 && d[0].0 != k {
      PutMeaning(d[1..], k, v, j);
      assert d == [d[0]] + d[1..];
    }
  }

  /** `Get` and `Lookup` agree on property dicts. */
  lemma {:induction false} GetIsLookup(d: Dict, k: string)
    ensures Get(d, k) == Lookup(d, k)
    decreases |d|
  {
    if |d| > 0 && d[0].0 != k {
      GetIsLookup(d[1..], k);
    }
  }

  // ---------------------------------------------------------------------------
  // GraphSchema and its prompt
  // ---------------------------------------------------------------------------

  datatype IndexInfo = IndexInfo(name: string, kind: string, labels: string, properties: string)

  /** `GraphSchema`: dicts are kept as their entries in insertion order. */
  datatype GraphSchema = GraphSchema(
    labels: seq<string>,
    relationshipTypes: seq<string>,
    relationshipPatterns: seq<string>,
    propertyKeys: seq<(string, seq<string>)>,
    sampleValues: seq<(string, seq<(string, seq<string>)>)>,
    indexes: seq<IndexInfo>,
    nodeCount: int,
    hasVectorIndex: bool,
    vectorIndexName: string)

  const SchemaHeader := "Neo4j Graph Schema:"
  const PatternsHeader := "  Relationship patterns (how nodes connect):"

  function LabelsLine(labels: seq<string>): string { "  Node labels: " + Join(labels, ", ") }
  function PatternLine(pattern: string): string { "    " + pattern }
  function PropertyLine(lbl: string, props: seq<string>): string { "  :" + lbl + " properties: " + Join(props, ", ") }
  function SampleLine(prop: string, vals: seq<string>): string { "    sample " + prop + ": " + ReprStrings(vals) }
  function TotalLine(n: int): string { "  Total nodes: " + IntToString(n) }

  /**
   * A sample line stays one line of the prompt: `repr` escapes any line break
   * inside the sampled values.
   */
  lemma SampleLineOneLine(prop: string, vals: seq<string>)
    requires '\n' !in prop
    ensures '\n' !in SampleLine(prop, vals)
  {
    ReprStringsOneLine(vals);
  }

  function PatternLines(patterns: seq<string>): (r: seq<string>)
    ensures |r| == |patterns|
    decreases |patterns|
  {
    if |patterns| == 0 then []
    else PatternLines(patterns[..|patterns| - 1]) + [PatternLine(patterns[|patterns| - 1])]
  }

  function SampleLines(samples: seq<(string, seq<string>)>): (r: seq<string>)
    ensures |r| == |samples|
    decreases |samples|
  {
    if |samples| == 0 then []
    else
      var last := samples[|samples| - 1];
      SampleLines(samples[..|samples| - 1]) + [SampleLine(last.0, last.1)]
  }

  /** One label's property line and, when the label has samples, its sample lines. */
  function LabelLines(lbl: string, props: seq<string>, sampleValues: seq<(string, seq<(string, seq<string>)>)>): seq<string>
  {
    [PropertyLine(lbl, props)]
    + match Lookup(sampleValues, lbl)
      case None => []
      case Some(samples) => SampleLines(samples)
  }

  function PropertyBlocks(keys: seq<(string, seq<string>)>, sampleValues: seq<(string, seq<(string, seq<string>)>)>): seq<string>
    decreases |keys|
  {
    if |keys| == 0 then []
    else
      var last := keys[|keys| - 1];
      PropertyBlocks(keys[..|keys| - 1], sampleValues) + LabelLines(last.0, last.1, sampleValues)
  }

  function PromptHead(s: GraphSchema): seq<string>
  {
    [SchemaHeader, LabelsLine(s.labels), PatternsHeader]
  }

  function PromptLines(s: GraphSchema): seq<string>
  {
    PromptHead(s) + PatternLines(s.relationshipPatterns)
    + PropertyBlocks(s.propertyKeys, s.sampleValues) + [TotalLine(s.nodeCount)]
  }

  /** `GraphSchema.to_prompt`. */
  method ToPrompt(s: GraphSchema) returns (r: string)
    ensures r == Join(PromptLines(s), "\n")
  {
    var patternLines := PatternBlock(s.relationshipPatterns);
    var propertyLines := PropertyBlock(s.propertyKeys, s.sampleValues);
    r := Join(PromptHead(s) + patternLines + propertyLines + [TotalLine(s.nodeCount)], "\n");
  }

  /** The pattern loop of `to_prompt`. */
  method PatternBlock(pats: seq<string>) returns (lines: seq<string>)
    ensures lines == PatternLines(pats)
  {
    lines := [];
    var i := 0;
    while i < |pats|
      invariant 0 <= i <= |pats|
      invariant lines == PatternLines(pats[..i])
    {
      lines := lines + [PatternLine(pats[i])];
      assert pats[..i + 1][..i] == pats[..i];
      i := i + 1;
    }
    assert pats[..i] == pats;
  }

  /** The label loop of `to_prompt`. */
  method PropertyBlock(keys: seq<(string, seq<string>)>, sampleValues: seq<(string, seq<(string, seq<string>)>)>)
    returns (lines: seq<string>)
    ensures lines == PropertyBlocks(keys, sampleValues)
  {
    lines := [];
    var k := 0;
    while k < |keys|
      invariant 0 <= k <= |keys|
      invariant lines == PropertyBlocks(keys[..k], sampleValues)
    {
      var block := LabelBlock(keys[k].0, keys[k].1, sampleValues);
      lines := lines + block;
      assert keys[..k + 1][..k] == keys[..k];
      k := k + 1;
    }
    assert keys[..k] == keys;
  }

  /** The lines one label contributes, built as the inner loop of `to_prompt` builds them. */
  method LabelBlock(lbl: string, props: seq<string>, sampleValues: seq<(string, seq<(string, seq<string>)>)>)
    returns (lines: seq<string>)
    ensures lines == LabelLines(lbl, props, sampleValues)
  {
    lines := [PropertyLine(lbl, props)];
    var found := Lookup(sampleValues, lbl);
    if found.Some? {
      var samples := found.value;
      var j := 0;
      while j < |samples|
        invariant 0 <= j <= |samples|
        invariant lines == [PropertyLine(lbl, props)] + SampleLines(samples[..j])
      {
        lines := lines + [SampleLine(samples[j].0, samples[j].1)];
        assert samples[..j + 1][..j] == samples[..j];
        j := j + 1;
      }
      assert samples[..j] == samples;
    }
  }

  lemma {:induction false} PatternLinesHold(patterns: seq<string>, i: nat)
    requires i < |patterns|
    ensures PatternLines(patterns)[i] == PatternLine(patterns[i])
    decreases |patterns|
  {
    if i < |patterns| - 1 {
      PatternLinesHold(patterns[..|patterns| - 1], i);
    }
  }

  lemma {:induction false} PropertyBlocksHold(keys: seq<(string, seq<string>)>, sv: seq<(string, seq<(string, seq<string>)>)>, i: nat)
    requires i < |keys|
    ensures PropertyLine(keys[i].0, keys[i].1) in PropertyBlocks(keys, sv)
    decreases |keys|
  {
    var init := keys[..|keys| - 1];
    var last := keys[|keys| - 1];
    if i < |keys| - 1 {
      PropertyBlocksHold(init, sv, i);
      assert keys[i] == init[i];
    } else {
      assert LabelLines(last.0, last.1, sv)[0] == PropertyLine(last.0, last.1);
    }
  }

  /**
   * The prompt opens with the header, the label list and the pattern header,
   * lists every pattern in order right after, holds a property line for
   * every label with properties, and closes with the node count.
   */
  lemma PromptMeaning(s: GraphSchema)
    ensures var lines := PromptLines(s);
      && lines[0] == SchemaHeader
      && lines[1] == LabelsLine(s.labels)
      && lines[2] == PatternsHeader
      && (forall i :: 0 <= i < |s.relationshipPatterns| ==> lines[3 + i] == PatternLine(s.relationshipPatterns[i]))
      && (forall i :: 0 <= i < |s.propertyKeys| ==> PropertyLine(s.propertyKeys[i].0, s.propertyKeys[i].1) in lines)
      && lines[|lines| - 1] == TotalLine(s.nodeCount)
  {
    var head := PromptHead(s);
    var pats := PatternLines(s.relationshipPatterns);
    var blocks := PropertyBlocks(s.propertyKeys, s.sampleValues);
    var total := [TotalLine(s.nodeCount)];
    var lines := head + pats + blocks + total;
    assert |head| == 3;
    forall i | 0 <= i < |s.relationshipPatterns|
      ensures lines[3 + i] == PatternLine(s.relationshipPatterns[i])
    {
      PatternLinesHold(s.relationshipPatterns, i);
      assert lines[3 + i] == pats[i];
    }
    forall i | 0 <= i < |s.propertyKeys|
      ensures PropertyLine(s.propertyKeys[i].0, s.propertyKeys[i].1) in lines
    {
      PropertyBlocksHold(s.propertyKeys, s.sampleValues, i);
      assert PropertyLine(s.propertyKeys[i].0, s.propertyKeys[i].1) in head + pats + blocks;
    }
    assert lines[0] == head[0] && lines[1] == head[1] && lines[2] == head[2];
    assert lines[|lines| - 1] == total[0];
  }

  // ---------------------------------------------------------------------------
  // _clean_props
  // ---------------------------------------------------------------------------

  /** A property survives unless it is a list of 50 or more items. */
  predicate KeepProp(v: Value)
  {
    !v.List? || |v.items| < 50
  }

  function KeepEntry(e: (string, Value)): bool { KeepProp(e.1) }

  /** `_clean_props`. */
  function CleanProps(props: Dict): Dict
  {
    Filter(props, KeepEntry)
  }

  /** An entry is kept, unchanged, exactly when its value is not a long list. */
  lemma CleanPropsMeaning(props: Dict, e: (string, Value))
    ensures e in CleanProps(props) <==> e in props && KeepProp(e.1)
    ensures |CleanProps(props)| <= |props|
  {
    if e in props && KeepProp(e.1) {
      FilterKeeps(props, KeepEntry, e);
    }
  }

  // ---------------------------------------------------------------------------
  // Query results and _serialize_context
  // ---------------------------------------------------------------------------

  /**
   * The subgraph dict a strategy produces: its "nodes" and "edges", and the
   * "records" rows of the Cypher path (none on the vector path).
   */
  datatype Retrieved = Retrieved(graph: Subgraph, records: seq<Dict>)

  const NoRetrieved := Retrieved(Subgraph([], []), [])
  const NoResults := "No results found."

  /** `v["_labels"][0] if v["_labels"] else "Node"`, shown; `None` where indexing raises. */
  function FirstLabel(v: Value): Option<string>
  {
    if !Truthy(v) then Some("Node")
    else match v
      case List(items) => Some(Show(items[0]))
      case Str(s) => Some([s[0]])
      case _ => None
  }

  function IsPublicEntry(e: (string, Value)): bool { !StartsWith(e.0, "_") }

  /** One `key=value` part of a row line; a node dict and an edge dict have their own forms. */
  function PartOf(k: string, v: Value): Option<string>
  {
    if v.Obj? && Get(v.fields, "_labels").Some? then
      match FirstLabel(Get(v.fields, "_labels").value)
      case None => None
      case Some(lbl) => Some(lbl + ": " + Repr(Obj(Filter(v.fields, IsPublicEntry))))
    else if v.Obj? && Get(v.fields, "type").Some? then
      Some("-[:" + Show(Get(v.fields, "type").value) + "]->")
    else Some(k + "=" + Show(v))
  }

  function RowParts(row: Dict): Option<seq<string>>
    decreases |row|
  {
    if |row| == 0 then Some([])
    else
      match RowParts(row[..|row| - 1])
      case None => None
      case Some(init) =>
        match PartOf(row[|row| - 1].0, row[|row| - 1].1)
        case None => None
        case Some(p) => Some(init + [p])
  }

  function RowLine(row: Dict): Option<string>
  {
    match RowParts(row)
    case None => None
    case Some(parts) => Some("  " + Join(parts, ", "))
  }

  function RecordLines(rows: seq<Dict>): (r: Option<seq<string>>)
    ensures r.Some? ==> |r.value| == |rows|
    decreases |rows|
  {
    if |rows| == 0 then Some([])
    else
      match RecordLines(rows[..|rows| - 1])
      case None => None
      case Some(init) =>
        match RowLine(rows[|rows| - 1])
        case None => None
        case Some(l) => Some(init + [l])
  }

  function NodeLine(n: Dict): string { "  - " + Repr(Obj(n)) }

  function NodeLines(nodes: seq<Dict>): (r: seq<string>)
    ensures |r| == |nodes|
    decreases |nodes|
  {
    if |nodes| == 0 then [] else NodeLines(nodes[..|nodes| - 1]) + [NodeLine(nodes[|nodes| - 1])]
  }

  /** `f"  - ({e['start']})-[:{e['type']}]->({e['end']})"`; `None` when a key is missing. */
  function EdgeLine(e: Dict): Option<string>
  {
    var s := Get(e, "start");
    var t := Get(e, "type");
    var n := Get(e, "end");
    if s.Some? && t.Some? && n.Some? then
      Some("  - (" + Show(s.value) + ")-[:" + Show(t.value) + "]->(" + Show(n.value) + ")")
    else None
  }

  function EdgeLines(edges: seq<Dict>): (r: Option<seq<string>>)
    ensures r.Some? ==> |r.value| == |edges|
    decreases |edges|
  {
    if |edges| == 0 then Some([])
    else
      match EdgeLines(edges[..|edges| - 1])
      case None => None
      case Some(init) =>
        match EdgeLine(edges[|edges| - 1])
        case None => None
        case Some(l) => Some(init + [l])
  }

  function RecordsHeader(n: nat): string { "Query results (" + NatToString(n) + " rows):" }
  function NodesHeader(n: nat): string { "Nodes (" + NatToString(n) + "):" }
  function EdgesHeader(n: nat): string { "Relationships (" + NatToString(n) + "):" }

  function NodeSection(nodes: seq<Dict>): seq<string>
  {
    if |nodes| == 0 then [] else [NodesHeader(|nodes|)] + NodeLines(Take(nodes, 20))
  }

  function EdgeSection(edges: seq<Dict>): Option<seq<string>>
  {
    if |edges| == 0 then Some([])
    else
      match EdgeLines(Take(edges, 30))
      case None => None
      case Some(ls) => Some([EdgesHeader(|edges|)] + ls)
  }

  /** The lines of the context, `None` when formatting raises. */
  function ContextLines(r: Retrieved): Option<seq<string>>
  {
    if |r.records| > 0 then
      match RecordLines(Take(r.records, 25))
      case None => None
      case Some(ls) => Some([RecordsHeader(|r.records|)] + ls)
    else
      match EdgeSection(r.graph.edges)
      case None => None
      case Some(es) => Some(NodeSection(r.graph.nodes) + es)
  }

  function ContextOf(r: Retrieved): Option<string>
  {
    match ContextLines(r)
    case None => None
    case Some(ls) => Some(if ls == [] then NoResults else Join(ls, "\n"))
  }

  /** `_serialize_context`: `None` stands for the exception a malformed row or edge raises. */
  method SerializeContext(r: Retrieved) returns (out: Option<string>)
    ensures out == ContextOf(r)
  {
    if |r.records| > 0 {
      var rowLines := SerializeRows(Take(r.records, 25));
      if rowLines.None? {
        return None;
      }
      return Some(Join([RecordsHeader(|r.records|)] + rowLines.value, "\n"));
    }
    var nodeLines := SerializeNodes(r.graph.nodes);
    var edgeLines := SerializeEdges(r.graph.edges);
    if edgeLines.None? {
      return None;
    }
    var lines := nodeLines + edgeLines.value;
    out := Some(if lines == [] then NoResults else Join(lines, "\n"));
  }

  /** The row loop of `_serialize_context`. */
  method SerializeRows(rows: seq<Dict>) returns (lines: Option<seq<string>>)
    ensures lines == RecordLines(rows)
  {
    var acc: seq<string> := [];
    var i := 0;
    assert rows[..0] == [];
    while i < |rows|
      invariant 0 <= i <= |rows|
      invariant RecordLines(rows[..i]) == Some(acc)
    {
      var line := SerializeRow(rows[i]);
      assert rows[..i + 1][..i] == rows[..i];
      if line.None? {
        RecordLinesFail(rows, i + 1);
        return None;
      }
      acc := acc + [line.value];
      i := i + 1;
    }
    assert rows[..i] == rows;
    lines := Some(acc);
  }

  /** The node part of `_serialize_context`. */
  method SerializeNodes(nodes: seq<Dict>) returns (lines: seq<string>)
    ensures lines == NodeSection(nodes)
  {
    if |nodes| == 0 {
      return [];
    }
    var shown := Take(nodes, 20);
    var acc: seq<string> := [];
    var i := 0;
    while i < |shown|
      invariant 0 <= i <= |shown|
      invariant acc == NodeLines(shown[..i])
    {
      acc := acc + [NodeLine(shown[i])];
      assert shown[..i + 1][..i] == shown[..i];
      i := i + 1;
    }
    assert shown[..i] == shown;
    lines := [NodesHeader(|nodes|)] + acc;
  }

  /** The edge part of `_serialize_context`. */
  method SerializeEdges(edges: seq<Dict>) returns (lines: Option<seq<string>>)
    ensures lines == EdgeSection(edges)
  {
    if |edges| == 0 {
      return Some([]);
    }
    var shown := Take(edges, 30);
    var acc: seq<string> := [];
    var i := 0;
    assert shown[..0] == [];
    while i < |shown|
      invariant 0 <= i <= |shown|
      invariant EdgeLines(shown[..i]) == Some(acc)
    {
      var line := EdgeLine(shown[i]);
      assert shown[..i + 1][..i] == shown[..i];
      if line.None? {
        EdgeLinesFail(shown, i + 1);
        return None;
      }
      acc := acc + [line.value];
      i := i + 1;
    }
    assert shown[..i] == shown;
    lines := Some([EdgesHeader(|edges|)] + acc);
  }

  /** The parts loop of one row. */
  method SerializeRow(row: Dict) returns (line: Option<string>)
    ensures line == RowLine(row)
  {
    var parts: seq<string> := [];
    var j := 0;
    assert row[..0] == [];
    while j < |row|
      invariant 0 <= j <= |row|
      invariant RowParts(row[..j]) == Some(parts)
    {
      var part := PartOf(row[j].0, row[j].1);
      assert row[..j + 1][..j] == row[..j];
      if part.None? {
        RowPartsFail(row, j + 1);
        return None;
      }
      parts := parts + [part.value];
      j := j + 1;
    }
    assert row[..j] == row;
    line := Some("  " + Join(parts, ", "));
  }

  /** Once a prefix fails, the whole row fails. */
  lemma {:induction false} RowPartsFail(row: Dict, n: nat)
    requires n <= |row| && RowParts(row[..n]).None?
    ensures RowParts(row).None?
    decreases |row| - n
  {
    if n < |row| {
      assert row[..n + 1][..n] == row[..n];
      RowPartsFail(row, n + 1);
    } else {
      assert row[..n] == row;
    }
  }

  lemma {:induction false} RecordLinesFail(rows: seq<Dict>, n: nat)
    requires n <= |rows| && RecordLines(rows[..n]).None?
    ensures RecordLines(rows).None?
    decreases |rows| - n
  {
    if n < |rows| {
      assert rows[..n + 1][..n] == rows[..n];
      RecordLinesFail(rows, n + 1);
    } else {
      assert rows[..n] == rows;
    }
  }

  lemma {:induction false} EdgeLinesFail(edges: seq<Dict>, n: nat)
    requires n <= |edges| && EdgeLines(edges[..n]).None?
    ensures EdgeLines(edges).None?
    decreases |edges| - n
  {
    if n < |edges| {
      assert edges[..n + 1][..n] == edges[..n];
      EdgeLinesFail(edges, n + 1);
    } else {
      assert edges[..n] == edges;
    }
  }

  /**
   * With rows, the context is the row header and at most 25 row lines, and
   * the nodes and edges play no part.
   */
  lemma RecordsContext(r: Retrieved, g: Subgraph)
    requires |r.records| > 0
    ensures ContextOf(Retrieved(g, r.records)) == ContextOf(r)
    ensures ContextLines(r).Some? ==>
      && ContextLines(r).value[0] == RecordsHeader(|r.records|)
      && |ContextLines(r).value| == 1 + (if |r.records| < 25 then |r.records| else 25)
  {
  }

  /** An edge dict that has its start, type and end always has its line. */
  predicate HasEnds(e: Dict)
  {
    Get(e, "start").Some? && Get(e, "type").Some? && Get(e, "end").Some?
  }

  lemma {:induction false} EdgeLinesDefined(edges: seq<Dict>)
    requires forall i :: 0 <= i < |edges| ==> HasEnds(edges[i])
    ensures EdgeLines(edges).Some?
    decreases |edges|
  {
    if |edges| > 0 {
      EdgeLinesDefined(edges[..|edges| - 1]);
    }
  }

  /**
   * Without rows: a node header counting every node and at most 20 node
   * lines, then an edge header counting every edge and at most 30 edge
   * lines, each section only when it has items; with nothing at all the
   * context is "No results found.".
   */
  lemma GraphContext(r: Retrieved)
    requires r.records == []
    requires forall i :: 0 <= i < |r.graph.edges| ==> HasEnds(r.graph.edges[i])
    ensures ContextLines(r).Some?
    ensures var n := |r.graph.nodes|; var m := |r.graph.edges|;
      |ContextLines(r).value|
        == (if n == 0 then 0 else 1 + (if n < 20 then n else 20))
         + (if m == 0 then 0 else 1 + (if m < 30 then m else 30))
    ensures |r.graph.nodes| > 0 ==> ContextLines(r).value[0] == NodesHeader(|r.graph.nodes|)
    ensures r.graph.nodes == [] && r.graph.edges == [] ==> ContextOf(r) == Some(NoResults)
  {
    var shown := Take(r.graph.edges, 30);
    assert forall i :: 0 <= i < |shown| ==> shown[i] == r.graph.edges[i];
    EdgeLinesDefined(shown);
  }

  // ---------------------------------------------------------------------------
  // _execute_read_cypher: converting query records
  // ---------------------------------------------------------------------------

  /** A value in a query record: a node, a relationship, or anything else. */
  datatype Field =
    | NodeField(nodeLabels: seq<string>, elementId: string, props: Dict)
    | RelField(relType: string, startId: string, endId: string, props: Dict)
    | PlainField(value: Value)

  /** A record as its keys and values, in order. */
  type Record = seq<(string, Field)>

  function StrList(xs: seq<string>): Value
  {
    List(seq(|xs|, i requires 0 <= i < |xs| => Str(xs[i])))
  }

  /** A node's cleaned properties with `_labels` and `_id` set. */
  function NodeDict(nodeLabels: seq<string>, elementId: string, props: Dict): Dict
  {
    Put(Put(CleanProps(props), "_labels", StrList(nodeLabels)), "_id", Str(elementId))
  }

  /** A relationship as the edge dict the retriever builds. */
  function EdgeDict(relType: string, startId: string, endId: string, props: Dict): Dict
  {
    [("type", Str(relType)), ("start", Str(startId)), ("end", Str(endId)), ("props", Obj(CleanProps(props)))]
  }

  /** A record's row, and the nodes and edges it contributes, in key order. */
  function ConvertRecord(rec: Record): (Dict, seq<Dict>, seq<Dict>)
    decreases |rec|
  {
    if |rec| == 0 then ([], [], [])
    else
      var (row, nodes, edges) := ConvertRecord(rec[..|rec| - 1]);
      var (key, f) := rec[|rec| - 1];
      match f
      case NodeField(ls, id, props) =>
        var d := NodeDict(ls, id, props);
        (Put(row, key, Obj(d)), nodes + [d], edges)
      case RelField(t, a, b, props) =>
        var d := EdgeDict(t, a, b, props);
        (Put(row, key, Obj(d)), nodes, edges + [d])
      case PlainField(v) =>
        (Put(row, key, v), nodes, edges)
  }

  function ConvertRecords(recs: seq<Record>): (r: Retrieved)
    ensures |r.records| == |recs|
    decreases |recs|
  {
    if |recs| == 0 then NoRetrieved
    else
      var acc := ConvertRecords(recs[..|recs| - 1]);
      var (row, nodes, edges) := ConvertRecord(recs[|recs| - 1]);
      Retrieved(Subgraph(acc.graph.nodes + nodes, acc.graph.edges + edges), acc.records + [row])
  }

  /** The record loop of `_execute_read_cypher`. */
  method ConvertAll(recs: seq<Record>) returns (r: Retrieved)
    ensures r == ConvertRecords(recs)
  {
    r := NoRetrieved;
    var i := 0;
    while i < |recs|
      invariant 0 <= i <= |recs|
      invariant r == ConvertRecords(recs[..i])
    {
      var row, nodes, edges := ConvertOne(recs[i]);
      r := Retrieved(Subgraph(r.graph.nodes + nodes, r.graph.edges + edges), r.records + [row]);
      assert recs[..i + 1][..i] == recs[..i];
      i := i + 1;
    }
    assert recs[..i] == recs;
  }

  /** The key loop for one record. */
  method ConvertOne(rec: Record) returns (row: Dict, nodes: seq<Dict>, edges: seq<Dict>)
    ensures (row, nodes, edges) == ConvertRecord(rec)
  {
    row, nodes, edges := [], [], [];
    var j := 0;
    while j < |rec|
      invariant 0 <= j <= |rec|
      invariant (row, nodes, edges) == ConvertRecord(rec[..j])
    {
      var (key, f) := rec[j];
      match f {
        case NodeField(ls, id, props) =>
          var d := NodeDict(ls, id, props);
          nodes := nodes + [d];
          row := Put(row, key, Obj(d));
        case RelField(t, a, b, props) =>
          var d := EdgeDict(t, a, b, props);
          edges := edges + [d];
          row := Put(row, key, Obj(d));
        case PlainField(v) =>
          row := Put(row, key, v);
      }
      assert rec[..j + 1][..j] == rec[..j];
      j := j + 1;
    }
    assert rec[..j] == rec;
  }

  /** Every node the conversion yields carries its id and labels. */
  lemma NodeDictMeaning(nodeLabels: seq<string>, elementId: string, props: Dict, k: string)
    ensures Lookup(NodeDict(nodeLabels, elementId, props), "_id") == Some(Str(elementId))
    ensures Lookup(NodeDict(nodeLabels, elementId, props), "_labels") == Some(StrList(nodeLabels))
    ensures k != "_id" && k != "_labels" ==> Lookup(NodeDict(nodeLabels, elementId, props), k) == Lookup(CleanProps(props), k)
  {
    var d := Put(CleanProps(props), "_labels", StrList(nodeLabels));
    PutMeaning(CleanProps(props), "_labels", StrList(nodeLabels), k);
    PutMeaning(d, "_id", Str(elementId), k);
    PutMeaning(d, "_id", Str(elementId), "_labels");
  }

  lemma EdgeDictHasEnds(relType: string, startId: string, endId: string, props: Dict)
    ensures HasEnds(EdgeDict(relType, startId, endId, props))
  {
    var e := EdgeDict(relType, startId, endId, props);
    assert e[0].0 == "type" && e[1].0 == "start" && e[2].0 == "end";
  }

  lemma {:induction false} ConvertRecordEdges(rec: Record)
    ensures forall i :: 0 <= i < |ConvertRecord(rec).2| ==> HasEnds(ConvertRecord(rec).2[i])
    decreases |rec|
  {
    if |rec| > 0 {
      ConvertRecordEdges(rec[..|rec| - 1]);
      var edges := ConvertRecord(rec[..|rec| - 1]).2;
      match rec[|rec| - 1].1
      case RelField(t, a, b, props) =>
        EdgeDictHasEnds(t, a, b, props);
        assert ConvertRecord(rec).2 == edges + [EdgeDict(t, a, b, props)];
      case NodeField(_, _, _) =>
        assert ConvertRecord(rec).2 == edges;
      case PlainField(_) =>
        assert ConvertRecord(rec).2 == edges;
    }
  }

  /** Every edge the conversion yields has its start, type and end. */
  lemma {:induction false} ConvertRecordsEdges(recs: seq<Record>)
    ensures forall i :: 0 <= i < |ConvertRecords(recs).graph.edges| ==> HasEnds(ConvertRecords(recs).graph.edges[i])
    decreases |recs|
  {
    if |recs| > 0 {
      ConvertRecordsEdges(recs[..|recs| - 1]);
      ConvertRecordEdges(recs[|recs| - 1]);
    }
  }

  const RejectedMessage := "Cypher rejected by validator (possible write operation)"

  /**
   * `_execute_read_cypher`: a query the read-only guard refuses is never
   * run; otherwise the records, or the empty result and the exception's
   * message. `run` is the database session.
   */
  function ExecuteRead(run: string -> Result<seq<Record>, string>, cypher: string): (Retrieved, string)
  {
    if !CypherGuard.Validate(cypher) then (NoRetrieved, RejectedMessage)
    else match run(cypher)
      case Ok(recs) => (ConvertRecords(recs), "")
      case Err(msg) => (NoRetrieved, msg)
  }

  /** A query the guard refuses never reaches the database, and a successful run reports no error. */
  lemma ExecuteReadMeaning(run: string -> Result<seq<Record>, string>, other: string -> Result<seq<Record>, string>, cypher: string)
    ensures !CypherGuard.Validate(cypher) ==>
      ExecuteRead(run, cypher) == ExecuteRead(other, cypher) && ExecuteRead(run, cypher).1 == RejectedMessage
    ensures CypherGuard.Validate(cypher) && run(cypher).Ok? ==>
      ExecuteRead(run, cypher).1 == "" && |ExecuteRead(run, cypher).0.records| == |run(cypher).value|
  {
  }

  // ---------------------------------------------------------------------------
  // _fetch_neighbourhood
  // ---------------------------------------------------------------------------

  datatype NodeRec = NodeRec(elementId: string, props: Dict)
  datatype RelRec = RelRec(relType: string, startId: string, endId: string, props: Dict)
  /** One `n, r, m` row of the neighbourhood query. */
  datatype NeighbourRow = NeighbourRow(n: NodeRec, r: RelRec, m: NodeRec)

  predicate UniqueKeys<V>(d: seq<(string, V)>)
  {
    forall i, j :: 0 <= i < j < |d| ==> d[i].0 != d[j].0
  }

  lemma {:induction false} PutUnique<V>(d: seq<(string, V)>, k: string, v: V)
    requires UniqueKeys(d)
    ensures UniqueKeys(Put(d, k, v))
    decreases |d|
  {
    if |d| > 0 && d[0].0 != k {
      PutUnique(d[1..], k, v);
      var r := Put(d[1..], k, v);
      assert Lookup(d[1..], d[0].0).None?;
      PutMeaning(d[1..], k, v, d[0].0);
      assert Lookup(r, d[0].0).None?;
    }
  }

  /** `nodes[n.element_id] = ...` for both ends of every row. */
  function NeighbourNodes(rows: seq<NeighbourRow>): seq<(string, Dict)>
    decreases |rows|
  {
    if |rows| == 0 then []
    else
      var row := rows[|rows| - 1];
      var acc := NeighbourNodes(rows[..|rows| - 1]);
      Put(Put(acc, row.n.elementId, CleanProps(row.n.props)), row.m.elementId, CleanProps(row.m.props))
  }

  function Values<V>(d: seq<(string, V)>): (r: seq<V>)
    ensures |r| == |d|
  {
    seq(|d|, i requires 0 <= i < |d| => d[i].1)
  }

  function RelEdge(r: RelRec): Dict
  {
    EdgeDict(r.relType, r.startId, r.endId, r.props)
  }

  function NeighbourEdges(rows: seq<NeighbourRow>): (r: seq<Dict>)
    ensures |r| == |rows|
    decreases |rows|
  {
    if |rows| == 0 then [] else NeighbourEdges(rows[..|rows| - 1]) + [RelEdge(rows[|rows| - 1].r)]
  }

  function Neighbourhood(rows: seq<NeighbourRow>): Subgraph
  {
    Subgraph(Values(NeighbourNodes(rows)), NeighbourEdges(rows))
  }

  /** `_fetch_neighbourhood` once the rows are in. */
  method FetchNeighbourhood(rows: seq<NeighbourRow>) returns (g: Subgraph)
    ensures g == Neighbourhood(rows)
  {
    var nodes: seq<(string, Dict)> := [];
    var edges: seq<Dict> := [];
    var i := 0;
    while i < |rows|
      invariant 0 <= i <= |rows|
      invariant nodes == NeighbourNodes(rows[..i]) && edges == NeighbourEdges(rows[..i])
    {
      var row := rows[i];
      nodes := Put(nodes, row.n.elementId, CleanProps(row.n.props));
      nodes := Put(nodes, row.m.elementId, CleanProps(row.m.props));
      edges := edges + [RelEdge(row.r)];
      assert rows[..i + 1][..i] == rows[..i];
      i := i + 1;
    }
    assert rows[..i] == rows;
    g := Subgraph(Values(nodes), edges);
  }

  predicate Mentions(rows: seq<NeighbourRow>, id: string)
  {
    exists i :: 0 <= i < |rows| && (rows[i].n.elementId == id || rows[i].m.elementId == id)
  }

  /** The node map never holds an element id twice. */
  lemma {:induction false} NeighbourNodesUnique(rows: seq<NeighbourRow>)
    ensures UniqueKeys(NeighbourNodes(rows))
    decreases |rows|
  {
    if |rows| > 0 {
      var init := rows[..|rows| - 1];
      var row := rows[|rows| - 1];
      NeighbourNodesUnique(init);
      var acc := NeighbourNodes(init);
      PutUnique(acc, row.n.elementId, CleanProps(row.n.props));
      PutUnique(Put(acc, row.n.elementId, CleanProps(row.n.props)), row.m.elementId, CleanProps(row.m.props));
    }
  }

  /** A key is present after `d[k] = v` exactly when it is `k` or was present before. */
  lemma PutKeys<V>(d: seq<(string, V)>, k: string, v: V, j: string)
    ensures Lookup(Put(d, k, v), j).Some? <==> j == k || Lookup(d, j).Some?
  {
    PutMeaning(d, k, v, j);
  }

  lemma MentionsSnoc(rows: seq<NeighbourRow>, id: string)
    requires |rows| > 0
    ensures Mentions(rows, id) <==>
      Mentions(rows[..|rows| - 1], id) || rows[|rows| - 1].n.elementId == id || rows[|rows| - 1].m.elementId == id
  {
    var init := rows[..|rows| - 1];
    if Mentions(init, id) {
      var i :| 0 <= i < |init| && (init[i].n.elementId == id || init[i].m.elementId == id);
      assert rows[i] == init[i];
    }
    if Mentions(rows, id) {
      var i :| 0 <= i < |rows| && (rows[i].n.elementId == id || rows[i].m.elementId == id);
      if i < |rows| - 1 {
        assert init[i] == rows[i];
      }
    }
  }

  /** The node map holds exactly the element ids met at either end of some row. */
  lemma {:induction false} NeighbourNodesKeys(rows: seq<NeighbourRow>, id: string)
    ensures Lookup(NeighbourNodes(rows), id).Some? <==> Mentions(rows, id)
    decreases |rows|
  {
    if |rows| > 0 {
      var init := rows[..|rows| - 1];
      var row := rows[|rows| - 1];
      NeighbourNodesKeys(init, id);
      MentionsSnoc(rows, id);
      var acc := NeighbourNodes(init);
      var mid := Put(acc, row.n.elementId, CleanProps(row.n.props));
      PutKeys(acc, row.n.elementId, CleanProps(row.n.props), id);
      PutKeys(mid, row.m.elementId, CleanProps(row.m.props), id);
    }
  }

  /** Every neighbourhood edge carries its start, type and end. */
  lemma {:induction false} NeighbourEdgesEnds(rows: seq<NeighbourRow>)
    ensures forall i :: 0 <= i < |rows| ==> HasEnds(NeighbourEdges(rows)[i])
    decreases |rows|
  {
    if |rows| > 0 {
      var init := rows[..|rows| - 1];
      NeighbourEdgesEnds(init);
      EdgeDictHasEnds(rows[|rows| - 1].r.relType, rows[|rows| - 1].r.startId, rows[|rows| - 1].r.endId, rows[|rows| - 1].r.props);
    }
  }

  /**
   * One node per distinct element id met in the rows, and one edge per row,
   * each carrying its start, type and end.
   */
  lemma NeighbourhoodMeaning(rows: seq<NeighbourRow>)
    ensures UniqueKeys(NeighbourNodes(rows))
    ensures forall id :: Lookup(NeighbourNodes(rows), id).Some? <==> Mentions(rows, id)
    ensures |Neighbourhood(rows).edges| == |rows|
    ensures forall i :: 0 <= i < |rows| ==> HasEnds(Neighbourhood(rows).edges[i])
  {
    NeighbourNodesUnique(rows);
    forall id
      ensures Lookup(NeighbourNodes(rows), id).Some? <==> Mentions(rows, id)
    {
      NeighbourNodesKeys(rows, id);
    }
    NeighbourEdgesEnds(rows);
  }

  // ---------------------------------------------------------------------------
  // discover_schema
  // ---------------------------------------------------------------------------

  datatype IndexRow = IndexRow(name: string, kind: string, labelsOrTypes: Value, properties: Value)

  /**
   * What the discovery queries return: the labels, the relationship types,
   * the node count (`None` without a record), the key lists and property
   * dicts of up to five nodes per label, the `(from, type, to)` pattern rows
   * and the index rows delivered before `SHOW INDEXES` raised, if it did.
   */
  datatype Discovery = Discovery(
    labels: seq<string>,
    relationshipTypes: seq<string>,
    nodeCount: Option<int>,
    keysOf: string -> seq<seq<string>>,
    propertiesOf: string -> seq<Dict>,
    patternRows: seq<(Value, Value, Value)>,
    indexRows: seq<IndexRow>)

  function AllKeys(records: seq<seq<string>>): set<string>
  {
    set i, j | 0 <= i < |records| && 0 <= j < |records[i]| :: records[i][j]
  }

  /** `property_keys`: the sorted keys of each label that has any. */
  function PropertyKeysOf(labels: seq<string>, keysOf: string -> seq<seq<string>>): seq<(string, seq<string>)>
    decreases |labels|
  {
    if |labels| == 0 then []
    else
      var acc := PropertyKeysOf(labels[..|labels| - 1], keysOf);
      var l := labels[|labels| - 1];
      var all := AllKeys(keysOf(l));
      if all != {} then Put(acc, l, SortedSet(all)) else acc
  }

  /** `setdefault` and append-if-new for one short string property. */
  function AddSample(samples: seq<(string, seq<string>)>, k: string, v: Value): seq<(string, seq<string>)>
  {
    if v.Str? && |v.s| < 80 then
      var cur := Lookup(samples, k).GetOr([]);
      Put(samples, k, if v.s in cur then cur else cur + [v.s])
    else samples
  }

  function AddRecord(samples: seq<(string, seq<string>)>, rec: Dict): seq<(string, seq<string>)>
    decreases |rec|
  {
    if |rec| == 0 then samples
    else AddSample(AddRecord(samples, rec[..|rec| - 1]), rec[|rec| - 1].0, rec[|rec| - 1].1)
  }

  function CollectSamples(records: seq<Dict>): seq<(string, seq<string>)>
    decreases |records|
  {
    if |records| == 0 then []
    else AddRecord(CollectSamples(records[..|records| - 1]), records[|records| - 1])
  }

  const AlwaysSampled: seq<string> := ["name", "regulation", "title"]

  /** Properties with 2 to 20 distinct values, or a name, regulation or title, cut to five values. */
  function KeepSamples(samples: seq<(string, seq<string>)>): seq<(string, seq<string>)>
    decreases |samples|
  {
    if |samples| == 0 then []
    else
      var (k, vs) := samples[|samples| - 1];
      KeepSamples(samples[..|samples| - 1])
      + (if 1 < |vs| <= 20 || k in AlwaysSampled then [(k, Take(vs, 5))] else [])
  }

  /** `sample_values`: labels without any node are skipped. */
  function SampleValuesOf(labels: seq<string>, propertiesOf: string -> seq<Dict>): seq<(string, seq<(string, seq<string>)>)>
    decreases |labels|
  {
    if |labels| == 0 then []
    else
      var acc := SampleValuesOf(labels[..|labels| - 1], propertiesOf);
      var l := labels[|labels| - 1];
      var recs := propertiesOf(l);
      if recs == [] then acc else Put(acc, l, KeepSamples(CollectSamples(recs)))
  }

  function PatternOf(row: (Value, Value, Value)): string
  {
    "(:" + Show(row.0) + ")-[:" + Show(row.1) + "]->(:" + Show(row.2) + ")"
  }

  function PatternStrings(rows: seq<(Value, Value, Value)>): (r: seq<string>)
    ensures |r| == |rows| && forall i :: 0 <= i < |rows| ==> r[i] == PatternOf(rows[i])
  {
    MapSeq(rows, PatternOf)
  }

  function Self(s: string): string { s }

  /** `rel_patterns`: each pattern once, at its first occurrence. */
  function RelPatterns(rows: seq<(Value, Value, Value)>): seq<string>
  {
    DedupBy(PatternStrings(rows), Self, AdmitAll)
  }

  /**
   * The pattern loop of `discover_schema`, with its `seen_patterns` set;
   * `pattern` formats a row (`PatternOf`).
   */
  method CollectPatterns(rows: seq<(Value, Value, Value)>, pattern: ((Value, Value, Value)) -> string)
    returns (pats: seq<string>)
    ensures pats == DedupBy(MapSeq(rows, pattern), Self, AdmitAll)
  {
    pats := [];
    var seen: set<string> := {};
    ghost var ps := MapSeq(rows, pattern);
    var i := 0;
    while i < |rows|
      invariant 0 <= i <= |rows|
      invariant pats == DedupBy(ps[..i], Self, AdmitAll)
      invariant seen == KeysOf(ps[..i], Self, AdmitAll)
    {
      var pat := pattern(rows[i]);
      PrefixSnoc(ps, i);
      DedupBySnoc(ps[..i], pat, Self, AdmitAll);
      if pat !in seen {
        seen := seen + {pat};
        pats := pats + [pat];
      }
      i := i + 1;
    }
    assert ps[..i] == ps;
  }

  /** The patterns are pairwise distinct and are exactly the patterns of the rows. */
  lemma RelPatternsMeaning(rows: seq<(Value, Value, Value)>, p: string)
    ensures forall i, j :: 0 <= i < j < |RelPatterns(rows)| ==> RelPatterns(rows)[i] != RelPatterns(rows)[j]
    ensures p in RelPatterns(rows) <==> p in PatternStrings(rows)
  {
    var ps := PatternStrings(rows);
    DedupByProperties(ps, Self, AdmitAll);
    var r := RelPatterns(rows);
    assert forall i :: 0 <= i < |r| ==> Self(r[i]) == r[i];
    if p in ps {
      var i :| 0 <= i < |ps| && ps[i] == p;
      assert Self(ps[i]) in KeysOf(ps, Self, AdmitAll);
      assert p in KeysOf(r, Self, AdmitAll);
    }
  }

  /** `str(value or [])`. */
  function ShowOrEmpty(v: Value): string
  {
    Show(if Truthy(v) then v else List([]))
  }

  function IndexInfoOf(row: IndexRow): IndexInfo
  {
    IndexInfo(row.name, row.kind, ShowOrEmpty(row.labelsOrTypes), ShowOrEmpty(row.properties))
  }

  /** The name of the last vector index, "" when there is none. */
  function VectorIndexName(rows: seq<IndexRow>): string
    decreases |rows|
  {
    if |rows| == 0 then ""
    else if rows[|rows| - 1].kind == "VECTOR" then rows[|rows| - 1].name
    else VectorIndexName(rows[..|rows| - 1])
  }

  function SchemaOf(d: Discovery): GraphSchema
  {
    GraphSchema(
      d.labels,
      d.relationshipTypes,
      RelPatterns(d.patternRows),
      PropertyKeysOf(d.labels, d.keysOf),
      SampleValuesOf(d.labels, d.propertiesOf),
      seq(|d.indexRows|, i requires 0 <= i < |d.indexRows| => IndexInfoOf(d.indexRows[i])),
      d.nodeCount.GetOr(0),
      exists i :: 0 <= i < |d.indexRows| && d.indexRows[i].kind == "VECTOR",
      VectorIndexName(d.indexRows))
  }

  /** The schema has a vector index exactly when a `VECTOR` index row came back, and then names one. */
  lemma {:induction false} VectorIndexMeaning(rows: seq<IndexRow>)
    ensures (exists i :: 0 <= i < |rows| && rows[i].kind == "VECTOR") ==>
      exists i :: 0 <= i < |rows| && rows[i].kind == "VECTOR" && rows[i].name == VectorIndexName(rows)
    ensures (forall i :: 0 <= i < |rows| ==> rows[i].kind != "VECTOR") ==> VectorIndexName(rows) == ""
    decreases |rows|
  {
    if |rows| > 0 && rows[|rows| - 1].kind != "VECTOR" {
      var init := rows[..|rows| - 1];
      VectorIndexMeaning(init);
      if exists i :: 0 <= i < |rows| && rows[i].kind == "VECTOR" {
        var i :| 0 <= i < |rows| && rows[i].kind == "VECTOR";
        assert init[i] == rows[i];
      }
      if forall i :: 0 <= i < |rows| ==> rows[i].kind != "VECTOR" {
        assert forall i :: 0 <= i < |init| ==> init[i] == rows[i];
      }
    }
  }

  /** A label gets a key list only when its sampled nodes have keys, and the list is sorted and complete. */
  lemma PropertyKeysMeaning(labels: seq<string>, keysOf: string -> seq<seq<string>>, l: string)
    ensures var found := Lookup(PropertyKeysOf(labels, keysOf), l);
      && (found.Some? ==> l in labels && StrictlySorted(found.value) && forall k :: k in found.value <==> k in AllKeys(keysOf(l)))
      && (l in labels && AllKeys(keysOf(l)) != {} ==> found.Some?)
  {
    PropertyKeysFound(labels, keysOf, l);
    PropertyKeysPresent(labels, keysOf, l);
  }

  lemma {:induction false} PropertyKeysFound(labels: seq<string>, keysOf: string -> seq<seq<string>>, l: string)
    ensures var found := Lookup(PropertyKeysOf(labels, keysOf), l);
      found.Some? ==> l in labels && StrictlySorted(found.value) && forall k :: k in found.value <==> k in AllKeys(keysOf(l))
    decreases |labels|
  {
    if |labels| > 0 {
      var init := labels[..|labels| - 1];
      var last := labels[|labels| - 1];
      PropertyKeysFound(init, keysOf, l);
      var all := AllKeys(keysOf(last));
      if all != {} {
        PutMeaning(PropertyKeysOf(init, keysOf), last, SortedSet(all), l);
      }
      assert labels == init + [last];
    }
  }

  lemma {:induction false} PropertyKeysPresent(labels: seq<string>, keysOf: string -> seq<seq<string>>, l: string)
    ensures l in labels && AllKeys(keysOf(l)) != {} ==> Lookup(PropertyKeysOf(labels, keysOf), l).Some?
    decreases |labels|
  {
    if |labels| > 0 && l in labels && AllKeys(keysOf(l)) != {} {
      var init := labels[..|labels| - 1];
      var last := labels[|labels| - 1];
      var all := AllKeys(keysOf(last));
      PropertyKeysStep(labels, keysOf);
      if l != last {
        assert labels == init + [last];
        PropertyKeysPresent(init, keysOf, l);
      }
      if all != {} {
        PutPresent(PropertyKeysOf(init, keysOf), last, SortedSet(all), l);
      }
    }
  }

  lemma PropertyKeysStep(labels: seq<string>, keysOf: string -> seq<seq<string>>)
    requires |labels| > 0
    ensures var acc := PropertyKeysOf(labels[..|labels| - 1], keysOf);
      var all := AllKeys(keysOf(labels[|labels| - 1]));
      PropertyKeysOf(labels, keysOf) == if all != {} then Put(acc, labels[|labels| - 1], SortedSet(all)) else acc
  {
  }

  /** After `d[k] = v`, `k` and every key already present are present. */
  lemma PutPresent<V>(d: seq<(string, V)>, k: string, v: V, j: string)
    ensures j == k || Lookup(d, j).Some? ==> Lookup(Put(d, k, v), j).Some?
  {
    PutMeaning(d, k, v, j);
  }

  // ---------------------------------------------------------------------------
  // Strategies
  // ---------------------------------------------------------------------------

  /**
   * The services the retriever talks to: the discovery queries, the
   * embedding model, the vector index query (its element ids, none when it
   * raised), the neighbourhood query, any other read query (its records or
   * the exception's message) and the LLM, which gets the question, the
   * schema and, on a retry, the failed query and its error.
   */
  datatype Services = Services(
    discovery: Discovery,
    embed: string -> seq<real>,
    vectorSearch: (seq<real>, string, nat, real) -> seq<string>,
    neighbourhood: (seq<string>, nat) -> seq<NeighbourRow>,
    run: string -> Result<seq<Record>, string>,
    llm: (string, GraphSchema, Option<(string, string)>) -> string)

  datatype RetrievalResult = RetrievalResult(
    subgraph: Retrieved, context: string, cypher: string,
    nodesCount: nat, edgesCount: nat, strategy: string)

  const NoVectorHits := "No relevant nodes found via vector search."
  const CouldNotGenerate := "Could not generate a query for this question."
  const NeighbourhoodCypher := "\n    MATCH (n)-[r]-(m)\n    WHERE elementId(n) IN $node_ids"
    + "\n    RETURN n, r, m\n    LIMIT $limit\n    "

  /** `_generate_cypher`: the reply, stripped and unfenced; the error is passed on only with the query it came from. */
  function Generate(env: Services, query: string, schema: GraphSchema, error: string, previous: string): string
  {
    Fences.CleanReply(env.llm(query, schema, if error != "" && previous != "" then Some((error, previous)) else None))
  }

  function ResultOf(sub: Retrieved, cypher: string, strategy: string): Option<RetrievalResult>
  {
    match ContextOf(sub)
    case None => None
    case Some(ctx) => Some(RetrievalResult(sub, ctx, cypher, |sub.graph.nodes|, |sub.graph.edges|, strategy))
  }

  /** One generation step of the Cypher strategy: `(error, previous query) -> reply`. */
  function GenStep(env: Services, query: string, schema: GraphSchema): (string, string) -> string
  {
    (error, previous) => Generate(env, query, schema, error, previous)
  }

  /** One execution step of the Cypher strategy: a query, run read-only. */
  function RunStep(env: Services): string -> (Retrieved, string)
  {
    c => ExecuteRead(env.run, c)
  }

  /**
   * The retry loop: while the last run failed and attempts remain, ask for a
   * corrected query; an empty reply ends the loop with the previous result.
   * The outcome is the final query, its subgraph and its error.
   */
  function Retry(gen: (string, string) -> string, exec: string -> (Retrieved, string),
                 cypher: string, last: (Retrieved, string), attempts: nat): (string, Retrieved, string)
    decreases attempts
  {
    if attempts == 0 || last.1 == "" then (cypher, last.0, last.1)
    else
      var next := gen(last.1, cypher);
      if next == "" then (next, last.0, last.1)
      else Retry(gen, exec, next, exec(next), attempts - 1)
  }

  /** `Retry` unfolded by one attempt. */
  lemma RetryStep(gen: (string, string) -> string, exec: string -> (Retrieved, string),
                  cypher: string, last: (Retrieved, string), attempts: nat)
    requires attempts > 0 && last.1 != ""
    ensures var next := gen(last.1, cypher);
      && Retry(gen, exec, cypher, last, attempts)
           == (if next == "" then (next, last.0, last.1) else Retry(gen, exec, next, exec(next), attempts - 1))
      && Reruns(gen, exec, cypher, last, attempts)
           == (if next == "" then 0 else 1 + Reruns(gen, exec, next, exec(next), attempts - 1))
  {
  }

  /** How many corrected queries the retry loop runs; never more than `attempts`. */
  function Reruns(gen: (string, string) -> string, exec: string -> (Retrieved, string),
                  cypher: string, last: (Retrieved, string), attempts: nat): (n: nat)
    ensures n <= attempts
    ensures n == 0 <==> attempts == 0 || last.1 == "" || gen(last.1, cypher) == ""
    decreases attempts
  {
    if attempts == 0 || last.1 == "" then 0
    else
      var next := gen(last.1, cypher);
      if next == "" then 0 else 1 + Reruns(gen, exec, next, exec(next), attempts - 1)
  }

  /**
   * The loop runs `exec` at most `attempts` more times. A run without error
   * is kept as it is; otherwise the final subgraph and error are those of
   * the final query, unless the LLM gave up and the query is empty; and an
   * error survives only when the attempts ran out or the LLM gave up.
   */
  lemma {:induction false} RetryOutcome(gen: (string, string) -> string, exec: string -> (Retrieved, string),
                                        cypher: string, last: (Retrieved, string), attempts: nat)
    ensures last.1 == "" || attempts == 0 ==> Retry(gen, exec, cypher, last, attempts) == (cypher, last.0, last.1)
    ensures var (c, sub, err) := Retry(gen, exec, cypher, last, attempts);
      c != "" ==> (c == cypher && (sub, err) == last) || (sub, err) == exec(c)
    ensures var (c, _, err) := Retry(gen, exec, cypher, last, attempts);
      err != "" && c != "" ==> Reruns(gen, exec, cypher, last, attempts) == attempts
    decreases attempts
  {
    if attempts > 0 && last.1 != "" {
      var next := gen(last.1, cypher);
      if next != "" {
        RetryOutcome(gen, exec, next, exec(next), attempts - 1);
      }
    }
  }

  /** `_retrieve_cypher`. */
  function CypherStrategy(env: Services, query: string, schema: GraphSchema, maxRetries: nat): Option<RetrievalResult>
  {
    var first := Generate(env, query, schema, "", "");
    if first == "" then Some(RetrievalResult(NoRetrieved, CouldNotGenerate, "", 0, 0, "cypher"))
    else
      var (cypher, sub, _) := Retry(GenStep(env, query, schema), RunStep(env), first, ExecuteRead(env.run, first), maxRetries);
      ResultOf(sub, cypher, "cypher")
  }

  /** `_retrieve_vector`. */
  function VectorStrategy(env: Services, query: string, schema: GraphSchema, topK: nat, minScore: real, limit: nat)
    : Option<RetrievalResult>
  {
    var ids := env.vectorSearch(env.embed(query), schema.vectorIndexName, topK, minScore);
    if ids == [] then Some(RetrievalResult(NoRetrieved, NoVectorHits, "", 0, 0, "vector"))
    else ResultOf(Retrieved(Neighbourhood(env.neighbourhood(ids, limit)), []), NeighbourhoodCypher, "vector")
  }

  /** `retrieve` once the schema is known; `None` stands for an exception raised while formatting. */
  function RetrieveWith(env: Services, schema: GraphSchema, query: string, topK: nat, minScore: real, limit: nat)
    : Option<RetrievalResult>
  {
    if schema.hasVectorIndex then
      match VectorStrategy(env, query, schema, topK, minScore, limit)
      case None => None
      case Some(r) =>
        if r.nodesCount == 0 && r.edgesCount == 0 then CypherStrategy(env, query, schema, 1) else Some(r)
    else CypherStrategy(env, query, schema, 1)
  }

  /** The vector path always yields a result: neighbourhood edges always have their ends. */
  lemma VectorAlwaysAnswers(env: Services, query: string, schema: GraphSchema, topK: nat, minScore: real, limit: nat)
    ensures VectorStrategy(env, query, schema, topK, minScore, limit).Some?
    ensures VectorStrategy(env, query, schema, topK, minScore, limit).value.strategy == "vector"
  {
    var ids := env.vectorSearch(env.embed(query), schema.vectorIndexName, topK, minScore);
    if ids != [] {
      var rows := env.neighbourhood(ids, limit);
      NeighbourhoodMeaning(rows);
      GraphContext(Retrieved(Neighbourhood(rows), []));
    }
  }

  /**
   * The vector strategy is used exactly when the schema has a vector index,
   * and its result stands unless it found no node and no edge; every other
   * answer comes from the Cypher strategy.
   */
  lemma StrategyChoice(env: Services, schema: GraphSchema, query: string, topK: nat, minScore: real, limit: nat)
    ensures var r := RetrieveWith(env, schema, query, topK, minScore, limit);
      var v := VectorStrategy(env, query, schema, topK, minScore, limit);
      if schema.hasVectorIndex && v.Some? && (v.value.nodesCount > 0 || v.value.edgesCount > 0) then r == v
      else r == CypherStrategy(env, query, schema, 1)
    ensures var r := RetrieveWith(env, schema, query, topK, minScore, limit);
      r.Some? && r.value.strategy == "vector" ==> schema.hasVectorIndex && (r.value.nodesCount > 0 || r.value.edgesCount > 0)
    ensures var r := RetrieveWith(env, schema, query, topK, minScore, limit);
      r.Some? && !schema.hasVectorIndex ==> r.value.strategy == "cypher"
  {
    VectorAlwaysAnswers(env, query, schema, topK, minScore, limit);
    CypherStrategyLabel(env, query, schema, 1);
  }

  lemma CypherStrategyLabel(env: Services, query: string, schema: GraphSchema, n: nat)
    ensures CypherStrategy(env, query, schema, n).Some? ==> CypherStrategy(env, query, schema, n).value.strategy == "cypher"
  {
  }

  /** An empty first generation ends the Cypher strategy before any query runs. */
  lemma EmptyGenerationStops(env: Services, other: string -> Result<seq<Record>, string>, query: string, schema: GraphSchema, n: nat)
    requires Generate(env, query, schema, "", "") == ""
    ensures CypherStrategy(env, query, schema, n) == Some(RetrievalResult(NoRetrieved, CouldNotGenerate, "", 0, 0, "cypher"))
    ensures CypherStrategy(env.(run := other), query, schema, n) == CypherStrategy(env, query, schema, n)
  {
  }

  // ---------------------------------------------------------------------------
  // GraphRetriever
  // ---------------------------------------------------------------------------

  /**
   * The retry loop of `_retrieve_cypher`: while the last run failed and
   * attempts remain, ask for a corrected query, stop if it is empty, and run
   * it otherwise. `runs` counts the runs as they happen.
   */
  method RetryLoop(gen: (string, string) -> string, exec: string -> (Retrieved, string),
                   cypher0: string, last0: (Retrieved, string), maxRetries: nat)
    returns (cypher: string, last: (Retrieved, string), ghost runs: nat)
    ensures (cypher, last.0, last.1) == Retry(gen, exec, cypher0, last0, maxRetries)
    ensures runs == Reruns(gen, exec, cypher0, last0, maxRetries)
  {
    cypher, last, runs := cypher0, last0, 0;
    ghost var outcome := Retry(gen, exec, cypher, last, maxRetries);
    ghost var total := Reruns(gen, exec, cypher, last, maxRetries);
    ghost var done := false;
    var attempt := 0;
    while attempt < maxRetries
      invariant 0 <= attempt <= maxRetries
      invariant runs == attempt
      invariant !done ==> Retry(gen, exec, cypher, last, maxRetries - attempt) == outcome
      invariant !done ==> runs + Reruns(gen, exec, cypher, last, maxRetries - attempt) == total
      invariant done ==> outcome == (cypher, last.0, last.1) && runs == total
    {
      if last.1 == "" {
        done := true;
        break;
      }
      RetryStep(gen, exec, cypher, last, maxRetries - attempt);
      var next := gen(last.1, cypher);
      if next == "" {
        cypher := next;
        done := true;
        break;
      }
      last := exec(next);
      runs := runs + 1;
      cypher := next;
      attempt := attempt + 1;
    }
  }

  class GraphRetriever {
    const services: Services
    /** `_schema`: discovered once, then reused. */
    var schema: Option<GraphSchema>

    constructor(services: Services)
      ensures this.services == services && schema == None
    {
      this.services := services;
      schema := None;
    }

    /** `discover_schema`: memoised in `schema`. */
    method DiscoverSchema() returns (s: GraphSchema)
      modifies this
      ensures schema == Some(s)
      ensures old(schema).Some? ==> s == old(schema).value
      ensures old(schema).None? ==> s == SchemaOf(services.discovery)
    {
      if schema.Some? {
        return schema.value;
      }
      var d := services.discovery;
      var patterns := CollectPatterns(d.patternRows, PatternOf);
      s := SchemaOf(d).(relationshipPatterns := patterns);
      schema := Some(s);
    }

    /** `retrieve`; the source's defaults are top 10, a minimum score of 0.75 and a limit of 100. */
    method Retrieve(query: string, topK: nat, minScore: real, limit: nat) returns (r: Option<RetrievalResult>)
      modifies this
      ensures schema.Some? && (old(schema).Some? ==> schema == old(schema))
      ensures old(schema).None? ==> schema == Some(SchemaOf(services.discovery))
      ensures r == RetrieveWith(services, schema.value, query, topK, minScore, limit)
    {
      var s := DiscoverSchema();
      if s.hasVectorIndex {
        var v := RetrieveVector(query, s, topK, minScore, limit);
        if v.Some? && v.value.nodesCount == 0 && v.value.edgesCount == 0 {
          var c, _ := RetrieveCypher(query, s, 1);
          return c;
        }
        return v;
      }
      var c, _ := RetrieveCypher(query, s, 1);
      r := c;
    }

    method RetrieveVector(query: string, s: GraphSchema, topK: nat, minScore: real, limit: nat)
      returns (r: Option<RetrievalResult>)
      ensures r == VectorStrategy(services, query, s, topK, minScore, limit)
    {
      var ids := services.vectorSearch(services.embed(query), s.vectorIndexName, topK, minScore);
      if ids == [] {
        return Some(RetrievalResult(NoRetrieved, NoVectorHits, "", 0, 0, "vector"));
      }
      var g := FetchNeighbourhood(services.neighbourhood(ids, limit));
      var sub := Retrieved(g, []);
      var ctx := SerializeContext(sub);
      if ctx.None? {
        return None;
      }
      r := Some(RetrievalResult(sub, ctx.value, NeighbourhoodCypher, |g.nodes|, |g.edges|, "vector"));
    }

    /** `_retrieve_cypher`: at most `maxRetries + 1` queries reach the database. */
    method RetrieveCypher(query: string, s: GraphSchema, maxRetries: nat)
      returns (r: Option<RetrievalResult>, ghost runs: nat)
      ensures r == CypherStrategy(services, query, s, maxRetries)
      ensures runs <= maxRetries + 1
      ensures var gen := GenStep(services, query, s);
        var c := gen("", "");
        runs == if c == "" then 0 else 1 + Reruns(gen, RunStep(services), c, RunStep(services)(c), maxRetries)
    {
      var gen := GenStep(services, query, s);
      var exec := RunStep(services);
      var cypher := gen("", "");
      runs := 0;
      if cypher == "" {
        return Some(RetrievalResult(NoRetrieved, CouldNotGenerate, "", 0, 0, "cypher")), runs;
      }
      var last := exec(cypher);
      runs := 1;
      ghost var reruns;
      cypher, last, reruns := RetryLoop(gen, exec, cypher, last, maxRetries);
      runs := runs + reruns;
      var sub := last.0;
      var ctx := SerializeContext(sub);
      if ctx.None? {
        return None, runs;
      }
      r := Some(RetrievalResult(sub, ctx.value, cypher, |sub.graph.nodes|, |sub.graph.edges|, "cypher"));
    }
  }
}
