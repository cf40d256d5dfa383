/**
 * The quality scorer: five weighted dimensions, two computed from the schema
 * and three from the LLM's Socratic YES/NO answers.
 */
module Scorer {
  import opened Wrappers
  import opened Rounding
  import opened Models
  import opened Prompts
  import opened Fences
  import opened ValidatorRules

  /** `SCORE_WEIGHTS`, in declaration order. */
  const ScoreWeights: seq<(string, real)> := [
    ("regulatory_coverage", 0.25),
    ("expert_alignment", 0.25),
    ("structural_validity", 0.20),
    ("completeness", 0.20),
    ("cypher_quality", 0.10)
  ]

  const ScoreDimensions: set<string> :=
    {"regulatory_coverage", "expert_alignment", "structural_validity", "completeness", "cypher_quality"}

  function WeightTotal(ws: seq<(string, real)>): real
    decreases |ws|
  {
    if |ws| == 0 then 0.0 else WeightTotal(ws[..|ws| - 1]) + ws[|ws| - 1].1
  }

  /** The weights sum to one, so the overall score is a weighted mean. */
  lemma {:induction false} ScoreWeightsSumToOne()
    ensures WeightTotal(ScoreWeights) == 1.0
  {
    var w := ScoreWeights;
    assert w[..4][..3] == w[..3] && w[..3][..2] == w[..2] && w[..2][..1] == w[..1] && w[..1][..0] == [];
    assert w[..5] == w;
    assert WeightTotal(w[..1]) == 0.25;
    assert WeightTotal(w[..2]) == 0.50;
    assert WeightTotal(w[..3]) == 0.70;
    assert WeightTotal(w[..4]) == 0.90;
  }

  /** `breakdown.get(dim, 0.0)`. */
  function Score0(b: map<string, real>, dim: string): real
  {
    if dim in b then b[dim] else 0.0
  }

  /** `sum(breakdown.get(dim, 0.0) * weight for dim, weight in ws)`. */
  function WeightedSum(b: map<string, real>, ws: seq<(string, real)>): real
    decreases |ws|
  {
    if |ws| == 0 then 0.0
    else WeightedSum(b, ws[..|ws| - 1]) + Score0(b, ws[|ws| - 1].0) * ws[|ws| - 1].1
  }

  /** The weighted sum written out for the five dimensions. */
  lemma {:induction false} WeightedSumFive(b: map<string, real>)
    ensures WeightedSum(b, ScoreWeights)
         == 0.25 * Score0(b, "regulatory_coverage") + 0.25 * Score0(b, "expert_alignment")
          + 0.20 * Score0(b, "structural_validity") + 0.20 * Score0(b, "completeness")
          + 0.10 * Score0(b, "cypher_quality")
  {
    var w := ScoreWeights;
    assert w[..4][..3] == w[..3] && w[..3][..2] == w[..2] && w[..2][..1] == w[..1] && w[..1][..0] == [];
    assert w[..5] == w;
    assert WeightedSum(b, w[..1]) == 0.25 * Score0(b, "regulatory_coverage");
    assert WeightedSum(b, w[..2]) == WeightedSum(b, w[..1]) + 0.25 * Score0(b, "expert_alignment");
  }

  /** A weighted mean of scores in [0, 1] lies in [0, 1]. */
  lemma WeightedSumInUnit(b: map<string, real>)
    requires forall d :: d in b ==> InUnit(b[d])
    ensures InUnit(WeightedSum(b, ScoreWeights))
  {
    WeightedSumFive(b);
    assert InUnit(Score0(b, "regulatory_coverage")) && InUnit(Score0(b, "expert_alignment"));
    assert InUnit(Score0(b, "structural_validity")) && InUnit(Score0(b, "completeness"));
    assert InUnit(Score0(b, "cypher_quality"));
  }

  // ---------------------------------------------------------------------------
  // Socratic scoring
  // ---------------------------------------------------------------------------

  const ZeroScores: map<string, real> :=
    map["regulatory_coverage" := 0.0, "expert_alignment" := 0.0, "completeness" := 0.0]

  /**
   * `_score_socratic`. The LLM reply is `None` when building the client or
   * invoking it raised; `parse` is the JSON reader, `None` when the text is
   * not a JSON object of strings. Any failure scores every dimension 0.
   */
  function SocraticScores(reply: Option<string>, parse: string -> Option<map<string, string>>): (r: map<string, real>)
    ensures r.Keys == DimensionNames
    ensures forall d :: d in r ==> r[d] in {0.0, 0.25, 0.5, 0.75, 1.0}
    ensures reply.None? ==> r == ZeroScores
    ensures reply.Some? && parse(CleanReply(reply.value)).None? ==> r == ZeroScores
    ensures reply.Some? && parse(CleanReply(reply.value)).Some? ==>
      r == ComputeScoreFromSocratic(parse(CleanReply(reply.value)).value)
  {
    match reply
    case None => ZeroScores
    case Some(content) =>
      match parse(CleanReply(content))
      case None => ZeroScores
      case Some(answers) => ComputeScoreFromSocratic(answers)
  }

  /**
   * A fenced JSON reply is read as the JSON inside the fence: wrapping a
   * reply in a fence does not change its scores.
   */
  lemma FencedReplyParsed(tag: string, json: string, parse: string -> Option<map<string, string>>)
    requires '\n' !in tag
    requires NoFenceLines(Text.Split(json, '\n'))
    requires !Text.StartsWith(Text.Strip(json), Fence)
    ensures SocraticScores(Some(Fenced(tag, json)), parse) == SocraticScores(Some(json), parse)
  {
    CleanFenced(tag, json);
  }

  // ---------------------------------------------------------------------------
  // Combined scores
  // ---------------------------------------------------------------------------

  /** The two schema-derived entries of a breakdown. */
  function SchemaScores(structural: real, cypher: real): (b: map<string, real>)
    ensures b.Keys == {"structural_validity", "cypher_quality"}
    ensures b["structural_validity"] == structural && b["cypher_quality"] == cypher
  {
    map["structural_validity" := structural, "cypher_quality" := cypher]
  }

  /** The breakdown `score` returns. */
  function Breakdown(order: seq<string>, s: GraphSchema, reply: Option<string>,
                     parse: string -> Option<map<string, string>>): map<string, real>
  {
    SchemaScores(StructuralScore(s), CypherQuality(order, s.cypherSetup).0) + SocraticScores(reply, parse)
  }

  /** The breakdown covers the five dimensions with scores in [0, 1]. */
  lemma BreakdownShape(order: seq<string>, s: GraphSchema, reply: Option<string>,
                       parse: string -> Option<map<string, string>>)
    requires IsKeywordOrder(order)
    ensures Breakdown(order, s, reply, parse).Keys == ScoreDimensions
    ensures forall d :: d in Breakdown(order, s, reply, parse) ==> InUnit(Breakdown(order, s, reply, parse)[d])
  {
    StructuralScoreInUnit(s);
    CypherQualityValues(order, s.cypherSetup);
    MergedScores(StructuralScore(s), CypherQuality(order, s.cypherSetup).0, SocraticScores(reply, parse));
  }

  lemma MergedScores(structural: real, cypher: real, socratic: map<string, real>)
    requires InUnit(structural) && InUnit(cypher)
    requires socratic.Keys == DimensionNames
    requires forall d :: d in socratic ==> socratic[d] in {0.0, 0.25, 0.5, 0.75, 1.0}
    ensures var b := SchemaScores(structural, cypher) + socratic;
      && b.Keys == ScoreDimensions
      && forall d :: d in b ==> InUnit(b[d])
  {
  }

  /** The overall score is the rounded weighted mean of the breakdown, in [0, 1]. */
  lemma OverallInUnit(order: seq<string>, s: GraphSchema, reply: Option<string>,
                      parse: string -> Option<map<string, string>>)
    requires IsKeywordOrder(order)
    ensures InUnit(Round3(WeightedSum(Breakdown(order, s, reply, parse), ScoreWeights)))
  {
    BreakdownShape(order, s, reply, parse);
    WeightedSumInUnit(Breakdown(order, s, reply, parse));
    Round3InUnit(WeightedSum(Breakdown(order, s, reply, parse), ScoreWeights));
  }

  /** When the LLM step fails the overall score comes from the two schema scores alone. */
  lemma FailedLlmOverall(order: seq<string>, s: GraphSchema, parse: string -> Option<map<string, string>>)
    ensures WeightedSum(Breakdown(order, s, None, parse), ScoreWeights)
         == 0.20 * StructuralScore(s) + 0.10 * CypherQuality(order, s.cypherSetup).0
  {
    WeightedSumFive(Breakdown(order, s, None, parse));
  }

  /** `QualityScorer.score`. */
  method Score(order: seq<string>, synthesis: SynthesisResult, reply: Option<string>,
               parse: string -> Option<map<string, string>>)
    returns (overall: real, breakdown: map<string, real>, findings: seq<Finding>)
    requires IsKeywordOrder(order)
    ensures breakdown == Breakdown(order, synthesis.graphSchema, reply, parse)
    ensures overall == Round3(WeightedSum(breakdown, ScoreWeights))
    ensures findings == StructuralFindings(synthesis.graphSchema)
                      + CypherQuality(order, synthesis.graphSchema.cypherSetup).1
  {
    var schemaScores;
    schemaScores, findings := DeterministicChecks(order, synthesis.graphSchema);
    breakdown := schemaScores + SocraticScores(reply, parse);
    var total := SumWeighted(breakdown);
    overall := Round3(total);
  }

  /** The two deterministic checks `score` and `score_deterministic` both run first. */
  method DeterministicChecks(order: seq<string>, s: GraphSchema)
    returns (breakdown: map<string, real>, findings: seq<Finding>)
    requires IsKeywordOrder(order)
    ensures breakdown == SchemaScores(StructuralScore(s), CypherQuality(order, s.cypherSetup).0)
    ensures findings == StructuralFindings(s) + CypherQuality(order, s.cypherSetup).1
  {
    var structural, structFindings := ScoreStructural(s);
    var cypher, cypherFindings := ScoreCypherQuality(order, s.cypherSetup);
    breakdown := SchemaScores(structural, cypher);
    findings := structFindings + cypherFindings;
  }

  /** The generator summing the weighted breakdown. */
  method SumWeighted(breakdown: map<string, real>) returns (total: real)
    ensures total == WeightedSum(breakdown, ScoreWeights)
  {
    total := 0.0;
    var i := 0;
    while i < |ScoreWeights|
      invariant 0 <= i <= |ScoreWeights|
      invariant total == WeightedSum(breakdown, ScoreWeights[..i])
    {
      total := total + Score0(breakdown, ScoreWeights[i].0) * ScoreWeights[i].1;
      assert ScoreWeights[..i + 1][..i] == ScoreWeights[..i];
      i := i + 1;
    }
    assert ScoreWeights[..i] == ScoreWeights;
  }

  /** The weights of the two schema-derived dimensions. */
  function Lookup(ws: seq<(string, real)>, k: string): real
  {
    if |ws| == 0 then 0.0 else if ws[0].0 == k then ws[0].1 else Lookup(ws[1..], k)
  }

  /** The overall score `score_deterministic` returns. */
  function DeterministicOverall(structural: real, cypher: real): real
  {
    var detWeights := [("structural_validity", Lookup(ScoreWeights, "structural_validity")),
                       ("cypher_quality", Lookup(ScoreWeights, "cypher_quality"))];
    var b := SchemaScores(structural, cypher);
    var totalWeight := WeightTotal(detWeights);
    Round3(if totalWeight > 0.0 then WeightedSum(b, detWeights) / totalWeight else 0.0)
  }

  lemma DeterministicOverallFormula(structural: real, cypher: real)
    ensures DeterministicOverall(structural, cypher) == Round3((0.20 * structural + 0.10 * cypher) / 0.30)
  {
    var detWeights: seq<(string, real)> := [("structural_validity", 0.20), ("cypher_quality", 0.10)];
    assert Lookup(ScoreWeights, "structural_validity") == 0.20;
    assert Lookup(ScoreWeights, "cypher_quality") == 0.10;
    assert detWeights[..1][..0] == [] && detWeights[..2] == detWeights;
    assert WeightTotal(detWeights) == 0.30;
    var b := SchemaScores(structural, cypher);
    assert WeightedSum(b, detWeights) == 0.20 * structural + 0.10 * cypher;
  }

  /**
   * The deterministic score renormalises the two schema weights: it is the
   * rounded (0.20 structural + 0.10 cypher) / 0.30, in [0, 1] for inputs in
   * [0, 1], and exactly 1.0 when both are 1.0.
   */
  lemma DeterministicOverallMeaning(structural: real, cypher: real)
    ensures DeterministicOverall(structural, cypher) == Round3((0.20 * structural + 0.10 * cypher) / 0.30)
    ensures InUnit(structural) && InUnit(cypher) ==> InUnit(DeterministicOverall(structural, cypher))
    ensures DeterministicOverall(1.0, 1.0) == 1.0
  {
    DeterministicOverallFormula(structural, cypher);
    if InUnit(structural) && InUnit(cypher) {
      Round3InUnit((0.20 * structural + 0.10 * cypher) / 0.30);
    }
    DeterministicOverallFormula(1.0, 1.0);
    assert (0.20 * 1.0 + 0.10 * 1.0) / 0.30 == 1000 as real / 1000.0;
    Round3Exact(1000);
  }

  /** `QualityScorer.score_deterministic`: no LLM involved. */
  method ScoreDeterministic(order: seq<string>, synthesis: SynthesisResult)
    returns (overall: real, breakdown: map<string, real>, findings: seq<Finding>)
    requires IsKeywordOrder(order)
    ensures breakdown.Keys == {"structural_validity", "cypher_quality"}
    ensures breakdown["structural_validity"] == StructuralScore(synthesis.graphSchema)
    ensures breakdown["cypher_quality"] == CypherQuality(order, synthesis.graphSchema.cypherSetup).0
    ensures overall == DeterministicOverall(breakdown["structural_validity"], breakdown["cypher_quality"])
    ensures findings == StructuralFindings(synthesis.graphSchema)
                      + CypherQuality(order, synthesis.graphSchema.cypherSetup).1
  {
    breakdown, findings := DeterministicChecks(order, synthesis.graphSchema);
    overall := DeterministicOverall(breakdown["structural_validity"], breakdown["cypher_quality"]);
  }
}
