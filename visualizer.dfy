/**
 * The visualizer: a Mermaid flowchart of a subgraph, and a Neo4j Bloom link
 * that searches for the subgraph's nodes by element id.
 */
module Visualizer {
  import opened Wrappers
  import opened Text
  import opened PyValue

  const Header := "graph LR"
  const DefaultMaxNodes := 20

  // ---------------------------------------------------------------------------
  // Mermaid
  // ---------------------------------------------------------------------------

  /** `re.sub(r"[^a-zA-Z0-9_]", "_", s)`. */
  function Sanitize(s: string): (r: string)
    ensures |r| == |s| && AllWordChars(r)
    ensures forall i :: 0 <= i < |s| ==> r[i] == (if IsWordChar(s[i]) then s[i] else '_')
  {
    seq(|s|, i requires 0 <= i < |s| => if IsWordChar(s[i]) then s[i] else '_')
  }

  /** Sanitizing twice changes nothing more, and a clean identifier is kept as is. */
  lemma SanitizeIdempotent(s: string)
    ensures Sanitize(Sanitize(s)) == Sanitize(s)
    ensures AllWordChars(s) ==> Sanitize(s) == s
  {
  }

  /** `xs[:n]` for a Python int `n`: a negative bound counts from the end. */
  function SlicePrefix<T>(xs: seq<T>, n: int): (r: seq<T>)
    ensures |r| <= |xs| && r == xs[..|r|]
    ensures 0 <= n ==> |r| == if n <= |xs| then n else |xs|
    ensures n < 0 ==> |r| == if |xs| + n >= 0 then |xs| + n else 0
  {
    if n >= 0 then (if n <= |xs| then xs[..n] else xs)
    else if |xs| + n >= 0 then xs[..|xs| + n]
    else []
  }

  /** `str(node.get("id", node.get("name", "unknown")))`. */
  function NodeId(node: Dict): string
  {
    match Get(node, "id")
    case Some(v) => Show(v)
    case None => Show(Get(node, "name").GetOr(Str("unknown")))
  }

  /** The box text: the name (or the id), cut to 30 characters, with `"` turned into `'`. */
  function NodeLabel(node: Dict): (r: string)
    ensures |r| <= 30 && '"' !in r
  {
    var shown := match Get(node, "name") case Some(v) => Show(v) case None => NodeId(node);
    ReplaceChar(Take(shown, 30), '"', '\'')
  }

  function NodeLine(node: Dict): string
  {
    "    " + Sanitize(NodeId(node)) + "[\"" + NodeLabel(node) + "\"]"
  }

  function EdgeEnd(edge: Dict, key: string): string
  {
    Sanitize(Show(Get(edge, key).GetOr(Str(""))))
  }

  function EdgeType(edge: Dict): string
  {
    Show(Get(edge, "type").GetOr(Str("RELATED")))
  }

  function EdgeLine(edge: Dict): string
  {
    "    " + EdgeEnd(edge, "start") + " -->|" + EdgeType(edge) + "| " + EdgeEnd(edge, "end")
  }

  function NodeLines(nodes: seq<Dict>): (r: seq<string>)
    ensures |r| == |nodes|
    ensures forall i :: 0 <= i < |nodes| ==> r[i] == NodeLine(nodes[i])
  {
    seq(|nodes|, i requires 0 <= i < |nodes| => NodeLine(nodes[i]))
  }

  /** The sanitized ids of the nodes drawn. */
  function SeenIds(nodes: seq<Dict>): set<string>
  {
    set i | 0 <= i < |nodes| :: Sanitize(NodeId(nodes[i]))
  }

  /** An edge is drawn when both its ends are drawn nodes. */
  predicate Drawn(edge: Dict, seen: set<string>)
  {
    EdgeEnd(edge, "start") in seen && EdgeEnd(edge, "end") in seen
  }

  function EdgeLines(edges: seq<Dict>, seen: set<string>): seq<string>
    decreases |edges|
  {
    if |edges| == 0 then []
    else
      var e := edges[|edges| - 1];
      EdgeLines(edges[..|edges| - 1], seen) + (if Drawn(e, seen) then [EdgeLine(e)] else [])
  }

  function MermaidLines(g: Subgraph, maxNodes: int): seq<string>
  {
    var shown := SlicePrefix(g.nodes, maxNodes);
    [Header] + NodeLines(shown) + EdgeLines(g.edges, SeenIds(shown))
  }

  /** `to_mermaid`. */
  method ToMermaid(g: Subgraph, maxNodes: int) returns (r: string)
    ensures r == Join(MermaidLines(g, maxNodes), "\n")
  {
    var shown := SlicePrefix(g.nodes, maxNodes);
    var nodeLines, seen := DrawNodes(shown);
    var edgeLines := DrawEdges(g.edges, seen);
    var lines := [Header] + nodeLines + edgeLines;
    r := Join(lines, "\n");
  }

  method DrawNodes(nodes: seq<Dict>) returns (lines: seq<string>, seen: set<string>)
    ensures lines == NodeLines(nodes) && seen == SeenIds(nodes)
  {
    lines, seen := [], {};
    var i := 0;
    while i < |nodes|
      invariant 0 <= i <= |nodes|
      invariant lines == NodeLines(nodes[..i])
      invariant seen == SeenIds(nodes[..i])
    {
      var node := nodes[i];
      var safeId := Sanitize(NodeId(node));
      lines := lines + ["    " + safeId + "[\"" + NodeLabel(node) + "\"]"];
      seen := seen + {safeId};
      NodeLinesSnoc(nodes, i);
      SeenIdsSnoc(nodes, i);
      i := i + 1;
    }
    assert nodes[..i] == nodes;
  }

  lemma NodeLinesSnoc(nodes: seq<Dict>, i: nat)
    requires i < |nodes|
    ensures NodeLines(nodes[..i + 1]) == NodeLines(nodes[..i]) + [NodeLine(nodes[i])]
  {
    assert nodes[..i + 1][i] == nodes[i];
  }

  lemma SeenIdsSnoc(nodes: seq<Dict>, i: nat)
    requires i < |nodes|
    ensures SeenIds(nodes[..i + 1]) == SeenIds(nodes[..i]) + {Sanitize(NodeId(nodes[i]))}
  {
    var a := nodes[..i];
    var b := nodes[..i + 1];
    assert forall k :: 0 <= k < i ==> b[k] == a[k];
    assert b[i] == nodes[i];
  }

  method DrawEdges(edges: seq<Dict>, seen: set<string>) returns (lines: seq<string>)
    ensures lines == EdgeLines(edges, seen)
  {
    lines := [];
    var i := 0;
    while i < |edges|
      invariant 0 <= i <= |edges|
      invariant lines == EdgeLines(edges[..i], seen)
    {
      var edge := edges[i];
      var start := EdgeEnd(edge, "start");
      var end := EdgeEnd(edge, "end");
      if start in seen && end in seen {
        lines := lines + ["    " + start + " -->|" + EdgeType(edge) + "| " + end];
      }
      assert edges[..i + 1][..i] == edges[..i];
      i := i + 1;
    }
    assert edges[..i] == edges;
  }

  /** Every edge line comes from an edge whose two ends are drawn, and every such edge gets its line. */
  lemma {:induction false} EdgeLinesExact(edges: seq<Dict>, seen: set<string>, line: string)
    ensures line in EdgeLines(edges, seen) <==>
      exists k :: 0 <= k < |edges| && Drawn(edges[k], seen) && line == EdgeLine(edges[k])
    decreases |edges|
  {
    if |edges| > 0 {
      var init := edges[..|edges| - 1];
      var e := edges[|edges| - 1];
      EdgeLinesExact(init, seen, line);
      assert EdgeLines(edges, seen) == EdgeLines(init, seen) + (if Drawn(e, seen) then [EdgeLine(e)] else []);
      if line in EdgeLines(edges, seen) {
        if line in EdgeLines(init, seen) {
          var k :| 0 <= k < |init| && Drawn(init[k], seen) && line == EdgeLine(init[k]);
          assert edges[k] == init[k];
        } else {
          assert Drawn(edges[|edges| - 1], seen) && line == EdgeLine(edges[|edges| - 1]);
        }
      } else {
        forall k | 0 <= k < |edges| && Drawn(edges[k], seen) ensures line != EdgeLine(edges[k]) {
          if k < |edges| - 1 {
            assert init[k] == edges[k];
          }
        }
      }
    }
  }

  lemma {:induction false} EdgeLinesAtMost(edges: seq<Dict>, seen: set<string>)
    ensures |EdgeLines(edges, seen)| <= |edges|
    decreases |edges|
  {
    if |edges| > 0 {
      EdgeLinesAtMost(edges[..|edges| - 1], seen);
    }
  }

  /**
   * The chart starts with its header; one line per drawn node follows, at
   * most `maxNodes` of them and in input order; an empty subgraph is the
   * header alone.
   */
  lemma MermaidShape(g: Subgraph, maxNodes: int)
    ensures var lines := MermaidLines(g, maxNodes);
      && lines[0] == Header
      && StartsWith(Join(lines, "\n"), Header)
      && (0 <= maxNodes ==> |lines| <= 1 + maxNodes + |g.edges|)
      && (forall i :: 1 <= i <= |SlicePrefix(g.nodes, maxNodes)| ==> lines[i] == NodeLine(g.nodes[i - 1]))
      && (g.nodes == [] && g.edges == [] ==> Join(lines, "\n") == Header)
  {
    var shown := SlicePrefix(g.nodes, maxNodes);
    var nodeLines := NodeLines(shown);
    var edgeLines := EdgeLines(g.edges, SeenIds(shown));
    var lines := MermaidLines(g, maxNodes);
    assert lines == [Header] + nodeLines + edgeLines;
    EdgeLinesAtMost(g.edges, SeenIds(shown));
    JoinStartsWithHead(lines, "\n");
    forall i | 1 <= i <= |shown| ensures lines[i] == NodeLine(g.nodes[i - 1]) {
      MiddleIndex(Header, nodeLines, edgeLines, i);
      assert shown[i - 1] == g.nodes[i - 1];
    }
    if g.nodes == [] && g.edges == [] {
      assert shown == [] && edgeLines == [];
      assert lines == [Header];
    }
  }

  lemma MiddleIndex<T>(h: T, a: seq<T>, b: seq<T>, i: nat)
    requires 1 <= i <= |a|
    ensures ([h] + a + b)[i] == a[i - 1]
  {
  }

  lemma JoinStartsWithHead(xs: seq<string>, sep: string)
    requires |xs| >= 1
    ensures StartsWith(Join(xs, sep), xs[0])
  {
    if |xs| > 1 {
      assert Join(xs, sep) == xs[0] + (sep + Join(xs[1..], sep));
    }
  }

  // ---------------------------------------------------------------------------
  // Bloom
  // ---------------------------------------------------------------------------

  const BloomBase := "https://bloom.neo4j.io/index.html"

  /** `[str(n.get("id", "")) for n in nodes if n.get("id")]`. */
  function NodeIds(nodes: seq<Dict>): (r: seq<string>)
    ensures |r| <= |nodes|
    decreases |nodes|
  {
    if |nodes| == 0 then []
    else
      var n := nodes[|nodes| - 1];
      var id := Get(n, "id");
      NodeIds(nodes[..|nodes| - 1]) + (if id.Some? && Truthy(id.value) then [Show(id.value)] else [])
  }

  lemma {:induction false} NodeIdsEmpty(nodes: seq<Dict>)
    ensures NodeIds(nodes) == [] <==>
      forall k :: 0 <= k < |nodes| ==> Get(nodes[k], "id").None? || !Truthy(Get(nodes[k], "id").value)
    decreases |nodes|
  {
    if |nodes| > 0 {
      NodeIdsEmpty(nodes[..|nodes| - 1]);
      assert forall k :: 0 <= k < |nodes| - 1 ==> nodes[..|nodes| - 1][k] == nodes[k];
    }
  }

  function Quoted(ids: seq<string>): (r: seq<string>)
    ensures |r| == |ids|
  {
    seq(|ids|, i requires 0 <= i < |ids| => "\"" + ids[i] + "\"")
  }

  /** The Cypher search the link carries. */
  function BloomQuery(ids: seq<string>): string
  {
    "MATCH (n) WHERE elementId(n) IN [" + Join(Quoted(ids), ", ") + "] RETURN n"
  }

  /** `urllib.parse.quote` with its default safe set, on ASCII text. */
  predicate IsUrlSafe(c: char)
  {
    IsLetter(c) || IsDigit(c) || c in {'_', '.', '-', '~', '/'}
  }

  function HexDigit(d: nat): char
    requires d < 16
  {
    if d < 10 then ('0' as int + d) as char else ('A' as int + d - 10) as char
  }

  function HexValue(c: char): nat
  {
    if '0' <= c <= '9' then c as int - '0' as int
    else if 'A' <= c <= 'F' then c as int - 'A' as int + 10
    else 0
  }

  /**
   * One character of `quote`'s output. A character from 128 to 255 becomes a
   * single `%XX` of its code point, where `quote` writes the escapes of its
   * UTF-8 bytes; only ASCII text is encoded as `quote` does.
   */
  function QuoteChar(c: char): string
  {
    if IsUrlSafe(c) || c as int >= 256 then [c]
    else ['%', HexDigit(c as int / 16), HexDigit(c as int % 16)]
  }

  function Quote(s: string): string
  {
    ConcatMap(s, QuoteChar)
  }

  /** Percent-decoding, the inverse `urllib.parse.unquote` performs. */
  function Unquote(t: string): string
    decreases |t|
  {
    if |t| == 0 then ""
    else if t[0] == '%' && |t| >= 3 then [(HexValue(t[1]) * 16 + HexValue(t[2])) as char] + Unquote(t[3..])
    else [t[0]] + Unquote(t[1..])
  }

  /** Decoding the encoded text gives it back: the search survives the link. */
  lemma {:induction false} UnquoteQuote(s: string)
    ensures Unquote(Quote(s)) == s
    decreases |s|
  {
    if |s| > 0 {
      var c := s[0];
      assert Quote(s) == QuoteChar(c) + Quote(s[1..]);
      UnquoteQuote(s[1..]);
      if !IsUrlSafe(c) && c as int < 256 {
        var q := QuoteChar(c) + Quote(s[1..]);
        assert q[3..] == Quote(s[1..]);
        assert HexValue(HexDigit(c as int / 16)) == c as int / 16;
        assert HexValue(HexDigit(c as int % 16)) == c as int % 16;
      } else {
        assert c != '%';
        assert (QuoteChar(c) + Quote(s[1..]))[1..] == Quote(s[1..]);
      }
    }
  }

  /** Encoded text holds only safe characters and `%` escapes. */
  lemma {:induction false} QuoteAlphabet(s: string)
    requires forall i :: 0 <= i < |s| ==> s[i] as int < 256
    ensures forall i :: 0 <= i < |Quote(s)| ==> IsUrlSafe(Quote(s)[i]) || Quote(s)[i] == '%'
    decreases |s|
  {
    if |s| > 0 {
      QuoteAlphabet(s[1..]);
      assert Quote(s) == QuoteChar(s[0]) + Quote(s[1..]);
    }
  }

  /** `bloom_url`. */
  function BloomUrl(g: Subgraph): string
  {
    var ids := NodeIds(g.nodes);
    if ids == [] then "" else BloomBase + "#search=" + Quote(BloomQuery(ids))
  }

  /**
   * No node with a truthy id gives no link; otherwise the link is the Bloom
   * base address whose search, once decoded, is the Cypher query over the
   * ids.
   */
  lemma BloomUrlMeaning(g: Subgraph)
    ensures BloomUrl(g) == "" <==>
      forall k :: 0 <= k < |g.nodes| ==> Get(g.nodes[k], "id").None? || !Truthy(Get(g.nodes[k], "id").value)
    ensures BloomUrl(g) != "" ==>
      var prefix := BloomBase + "#search=";
      && StartsWith(BloomUrl(g), prefix)
      && Unquote(BloomUrl(g)[|prefix|..]) == BloomQuery(NodeIds(g.nodes))
  {
    NodeIdsEmpty(g.nodes);
    var ids := NodeIds(g.nodes);
    if ids != [] {
      var prefix := BloomBase + "#search=";
      assert BloomUrl(g) == prefix + Quote(BloomQuery(ids));
      assert BloomUrl(g)[|prefix|..] == Quote(BloomQuery(ids));
      UnquoteQuote(BloomQuery(ids));
    }
  }
}
