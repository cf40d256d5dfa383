/**
 * The expert knowledge store: full-text search over the expert graph of
 * Neo4j practices, Cypher examples, functions and modelling patterns, and the
 * prompt section built from its hits.
 */
module Expert {
  import opened Wrappers
  import opened Text
  import opened Seqs

  datatype ExpertHit = ExpertHit(
    kind: string,
    name: string,
    score: real,
    description: string,
    cypher: string,
    signature: string)

  datatype ExpertContext = ExpertContext(hits: seq<ExpertHit>, query: string)

  // ---------------------------------------------------------------------------
  // Lucene escaping
  // ---------------------------------------------------------------------------

  /** The characters Lucene's query syntax reserves. */
  const LuceneSpecials: set<char> := {'+', '-', '&', '|', '!', '(', ')', '{', '}', '[', ']', '^', '"', '~', '*', '?', ':', '\\', '/', '>'}

  predicate IsLuceneSpecial(c: char) { c in LuceneSpecials }

  function LuceneChar(c: char): string
  {
    if IsLuceneSpecial(c) then ['\\', c] else [c]
  }

  /** What `_to_lucene` computes: every reserved character gets a backslash in front. */
  function LuceneEscape(q: string): string
  {
    ConcatMap(q, LuceneChar)
  }

  /** `_to_lucene`. */
  method ToLucene(query: string) returns (r: string)
    ensures r == LuceneEscape(query)
  {
    r := "";
    var i := 0;
    while i < |query|
      invariant 0 <= i <= |query|
      invariant r == LuceneEscape(query[..i])
    {
      var ch := query[i];
      if ch in LuceneSpecials {
        r := r + ['\\', ch];
      } else {
        r := r + [ch];
      }
      ConcatMapSnoc(query, i, LuceneChar);
      i := i + 1;
    }
    assert query[..i] == query;
  }

  /** Escaping adds exactly one character per reserved character. */
  lemma {:induction false} LuceneLength(q: string)
    ensures |LuceneEscape(q)| == |q| + CountWhere(q, IsLuceneSpecial)
    decreases |q|
  {
    if |q| > 0 {
      var n := |q| - 1;
      LuceneLength(q[..n]);
      ConcatMapSnoc(q, n, LuceneChar);
      assert q[..n + 1] == q;
    }
  }

  /** Text without reserved characters is left as it is. */
  lemma {:induction false} LucenePlain(q: string)
    requires forall i :: 0 <= i < |q| ==> !IsLuceneSpecial(q[i])
    ensures LuceneEscape(q) == q
    decreases |q|
  {
    if |q| > 0 {
      LucenePlain(q[1..]);
      assert q == [q[0]] + q[1..];
    }
  }

  /** Reading left to right, a backslash makes the next character literal. */
  function LuceneUnescape(s: string): string
    decreases |s|
  {
    if |s| == 0 then ""
    else if s[0] == '\\' && |s| >= 2 then [s[1]] + LuceneUnescape(s[2..])
    else [s[0]] + LuceneUnescape(s[1..])
  }

  /** Escaping loses nothing: unescaping recovers the query. */
  lemma {:induction false} LuceneRoundTrip(q: string)
    ensures LuceneUnescape(LuceneEscape(q)) == q
    decreases |q|
  {
    if |q| > 0 {
      var rest := LuceneEscape(q[1..]);
      LuceneRoundTrip(q[1..]);
      var e := LuceneEscape(q);
      assert e == LuceneChar(q[0]) + rest;
      if IsLuceneSpecial(q[0]) {
        assert e[2..] == rest;
      } else {
        assert q[0] != '\\';
        assert e[1..] == rest;
      }
      assert q == [q[0]] + q[1..];
    }
  }

  // ---------------------------------------------------------------------------
  // Prompt section
  // ---------------------------------------------------------------------------

  datatype Section = Examples | Practices | Functions | Patterns

  /** Where a hit goes in the prompt, and the line it contributes; `None` drops it. */
  function Route(h: ExpertHit): Option<(Section, string)>
  {
    if h.kind == "CypherExample" && h.cypher != "" then Some((Examples, "  " + h.cypher))
    else if h.kind == "BestPractice" then Some((Practices, "  - " + h.name + ": " + Take(h.description, 200)))
    else if h.kind == "CypherFunction" && h.signature != "" then Some((Functions, "  - " + h.name + ": " + h.signature))
    else if h.kind == "CypherClause" then Some((Practices, "  - " + h.name + ": " + Take(h.description, 150)))
    else if h.kind == "ModelingPattern" then Some((Patterns, "  - " + h.name + ": " + Take(h.description, 200)))
    else None
  }

  predicate RoutedTo(h: ExpertHit, sec: Section)
  {
    Route(h).Some? && Route(h).value.0 == sec
  }

  /** The lines one section collects, in hit order. */
  function SectionLines(hits: seq<ExpertHit>, sec: Section): seq<string>
    decreases |hits|
  {
    if |hits| == 0 then []
    else
      var h := hits[|hits| - 1];
      SectionLines(hits[..|hits| - 1], sec) + (if RoutedTo(h, sec) then [Route(h).value.1] else [])
  }

  const PromptHeader := "Neo4j Expert Knowledge (use these patterns to write better Cypher):"

  /** A section's title and its first `cap` lines, or nothing when it is empty. */
  function Block(title: string, lines: seq<string>, cap: nat): seq<string>
  {
    if lines == [] then [] else [title] + Take(lines, cap)
  }

  function PromptLines(hits: seq<ExpertHit>): seq<string>
  {
    [PromptHeader]
    + Block("Relevant Cypher examples:", SectionLines(hits, Examples), 5)
    + Block("Best practices:", SectionLines(hits, Practices), 3)
    + Block("Relevant functions:", SectionLines(hits, Functions), 3)
    + Block("Modeling patterns:", SectionLines(hits, Patterns), 2)
  }

  /** What `to_prompt` returns. */
  function PromptText(hits: seq<ExpertHit>): (r: string)
    ensures r == "" <==> hits == []
  {
    if hits == [] then ""
    else
      JoinStartsWithFirst(PromptLines(hits), "\n");
      Join(PromptLines(hits), "\n")
  }

  lemma JoinStartsWithFirst(xs: seq<string>, sep: string)
    requires |xs| >= 1
    ensures |Join(xs, sep)| >= |xs[0]|
  {
  }

  /** `ExpertContext.to_prompt`. */
  method ToPrompt(ctx: ExpertContext) returns (r: string)
    ensures r == PromptText(ctx.hits)
  {
    if ctx.hits == [] {
      return "";
    }
    var sections := [PromptHeader];
    var examples: seq<string> := [];
    var practices: seq<string> := [];
    var functions: seq<string> := [];
    var patterns: seq<string> := [];
    var hits := ctx.hits;
    var i := 0;
    while i < |hits|
      invariant 0 <= i <= |hits|
      invariant examples == SectionLines(hits[..i], Examples)
      invariant practices == SectionLines(hits[..i], Practices)
      invariant functions == SectionLines(hits[..i], Functions)
      invariant patterns == SectionLines(hits[..i], Patterns)
    {
      var h := hits[i];
      if h.kind == "CypherExample" && h.cypher != "" {
        examples := examples + ["  " + h.cypher];
      } else if h.kind == "BestPractice" {
        var desc := if h.description != "" then Take(h.description, 200) else "";
        practices := practices + ["  - " + h.name + ": " + desc];
      } else if h.kind == "CypherFunction" && h.signature != "" {
        functions := functions + ["  - " + h.name + ": " + h.signature];
      } else if h.kind == "CypherClause" {
        var desc := if h.description != "" then Take(h.description, 150) else "";
        practices := practices + ["  - " + h.name + ": " + desc];
      } else if h.kind == "ModelingPattern" {
        var desc := if h.description != "" then Take(h.description, 200) else "";
        patterns := patterns + ["  - " + h.name + ": " + desc];
      }
      assert hits[..i + 1][..i] == hits[..i];
      i := i + 1;
    }
    assert hits[..i] == hits;
    if examples != [] {
      sections := sections + ["Relevant Cypher examples:"] + Take(examples, 5);
    }
    assert sections == [PromptHeader] + Block("Relevant Cypher examples:", examples, 5);
    if practices != [] {
      sections := sections + ["Best practices:"] + Take(practices, 3);
    }
    assert sections == [PromptHeader] + Block("Relevant Cypher examples:", examples, 5)
                       + Block("Best practices:", practices, 3);
    if functions != [] {
      sections := sections + ["Relevant functions:"] + Take(functions, 3);
    }
    assert sections == [PromptHeader] + Block("Relevant Cypher examples:", examples, 5)
                       + Block("Best practices:", practices, 3) + Block("Relevant functions:", functions, 3);
    if patterns != [] {
      sections := sections + ["Modeling patterns:"] + Take(patterns, 2);
    }
    assert sections == PromptLines(hits);
    r := Join(sections, "\n");
  }

  /** Every line of a section comes from a hit routed there, and every such hit gives one. */
  lemma {:induction false} SectionLinesRouted(hits: seq<ExpertHit>, sec: Section)
    ensures |SectionLines(hits, sec)| == CountWhere(hits, h => RoutedTo(h, sec))
    ensures forall line :: line in SectionLines(hits, sec) ==>
      exists h :: h in hits && RoutedTo(h, sec) && Route(h).value.1 == line
    decreases |hits|
  {
    if |hits| > 0 {
      var init := hits[..|hits| - 1];
      SectionLinesRouted(init, sec);
      forall line | line in SectionLines(hits, sec)
        ensures exists h :: h in hits && RoutedTo(h, sec) && Route(h).value.1 == line
      {
        if line in SectionLines(init, sec) {
          var h :| h in init && RoutedTo(h, sec) && Route(h).value.1 == line;
          assert h in hits;
        } else {
          assert hits[|hits| - 1] in hits;
        }
      }
    }
  }

  /**
   * A section title appears exactly when some hit is routed to that section,
   * and each section shows at most its cap of lines: 5 examples, 3 practices,
   * 3 functions and 2 patterns.
   */
  lemma PromptShape(hits: seq<ExpertHit>)
    ensures |Block("Relevant Cypher examples:", SectionLines(hits, Examples), 5)| <= 6
    ensures |Block("Best practices:", SectionLines(hits, Practices), 3)| <= 4
    ensures |Block("Relevant functions:", SectionLines(hits, Functions), 3)| <= 4
    ensures |Block("Modeling patterns:", SectionLines(hits, Patterns), 2)| <= 3
    ensures |PromptLines(hits)| <= 18
    ensures forall sec :: SectionLines(hits, sec) != [] <==> exists h :: h in hits && RoutedTo(h, sec)
  {
    forall sec ensures SectionLines(hits, sec) != [] <==> exists h :: h in hits && RoutedTo(h, sec) {
      SectionLinesRouted(hits, sec);
      if h :| h in hits && RoutedTo(h, sec) {
        CountWherePositive(hits, x => RoutedTo(x, sec), h);
      }
    }
  }

  lemma {:induction false} CountWherePositive<T>(xs: seq<T>, p: T -> bool, x: T)
    requires x in xs && p(x)
    ensures CountWhere(xs, p) > 0
    decreases |xs|
  {
    var init := xs[..|xs| - 1];
    if xs[|xs| - 1] != x {
      assert xs == init + [xs[|xs| - 1]];
      assert x in init;
      CountWherePositive(init, p, x);
    }
  }

  // ---------------------------------------------------------------------------
  // The store
  // ---------------------------------------------------------------------------

  /** One row of the full-text query; `name` is `coalesce(name, title)`, possibly null. */
  datatype ExpertRow = ExpertRow(
    kind: string,
    name: Option<string>,
    score: real,
    description: string,
    cypher: string,
    signature: string)

  function HitOf(row: ExpertRow): (h: ExpertHit)
    ensures h.name == (if row.name.Some? then row.name.value else "")
    ensures h.kind == row.kind && h.score == row.score
  {
    ExpertHit(row.kind, row.name.GetOr(""), row.score, row.description, row.cypher, row.signature)
  }

  /**
   * The database behind the store. `indexCheck` is the count of online
   * full-text indexes named `expert_fulltext`, `None` when the query raised
   * or returned no record; `fulltext(luceneQuery, limit)` is the query's rows,
   * `None` when it raised.
   */
  datatype Driver = Driver(
    indexCheck: Option<int>,
    fulltext: (string, nat) -> Option<seq<ExpertRow>>)

  function IndexOnline(check: Option<int>): bool
  {
    check.Some? && check.value > 0
  }

  /** What `search` returns once availability is known. */
  function SearchResult(available: bool, fulltext: (string, nat) -> Option<seq<ExpertRow>>,
                        query: string, topK: nat): (ctx: ExpertContext)
    ensures ctx.query == query
    ensures !available ==> ctx.hits == []
    ensures available && fulltext(LuceneEscape(query), topK).None? ==> ctx.hits == []
    ensures available && fulltext(LuceneEscape(query), topK).Some? ==>
      var rows := fulltext(LuceneEscape(query), topK).value;
      |ctx.hits| == |rows| && forall i :: 0 <= i < |rows| ==> ctx.hits[i] == HitOf(rows[i])
  {
    if !available then ExpertContext([], query)
    else
      match fulltext(LuceneEscape(query), topK)
      case None => ExpertContext([], query)
      case Some(rows) => ExpertContext(seq(|rows|, i requires 0 <= i < |rows| => HitOf(rows[i])), query)
  }

  class ExpertStore {
    const driver: Driver
    /** `_available`: unknown until the first check, then cached. */
    var available: Option<bool>
    /** The number of queries sent to the database so far. */
    ghost var driverCalls: nat

    constructor(driver: Driver)
      ensures this.driver == driver && available == None && driverCalls == 0
    {
      this.driver := driver;
      available := None;
      driverCalls := 0;
    }

    /** `is_available`: asks the database once, then answers from the cache. */
    method IsAvailable() returns (b: bool)
      modifies this
      ensures available == Some(b)
      ensures old(available).Some? ==> b == old(available).value && driverCalls == old(driverCalls)
      ensures old(available).None? ==> b == IndexOnline(driver.indexCheck) && driverCalls == old(driverCalls) + 1
    {
      if available.Some? {
        return available.value;
      }
      driverCalls := driverCalls + 1;
      available := Some(IndexOnline(driver.indexCheck));
      b := available.value;
    }

    /** `search`: a hit-less context when the store is unavailable or the query fails. */
    method Search(query: string, topK: nat) returns (ctx: ExpertContext)
      modifies this
      ensures old(available).Some? ==> available == old(available)
      ensures old(available).None? ==> available == Some(IndexOnline(driver.indexCheck))
      ensures ctx == SearchResult(available.value, driver.fulltext, query, topK)
      ensures driverCalls == old(driverCalls) + (if old(available).None? then 1 else 0)
                                              + (if available.value then 1 else 0)
    {
      var ok := IsAvailable();
      if !ok {
        return ExpertContext([], query);
      }
      var lucene := ToLucene(query);
      driverCalls := driverCalls + 1;
      match driver.fulltext(lucene, topK)
      case None =>
        ctx := ExpertContext([], query);
      case Some(rows) =>
        var hits: seq<ExpertHit> := [];
        var i := 0;
        while i < |rows|
          invariant 0 <= i <= |rows|
          invariant |hits| == i && forall j :: 0 <= j < i ==> hits[j] == HitOf(rows[j])
        {
          hits := hits + [HitOf(rows[i])];
          i := i + 1;
        }
        ctx := ExpertContext(hits, query);
    }
  }
}
