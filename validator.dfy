/**
 * The schema validator: a syntactic gate over the Cypher setup script, the
 * structural checks, alignment with the expert graph, and the Cypher quality
 * score, combined into one gated overall score and an approval decision.
 */
module Validator {
  import opened Wrappers
  import opened Text
  import opened Seqs
  import opened Rounding
  import opened Models
  import opened ValidatorRules
  import opened Prompts
  import opened Expert
  import opened Scorer

  // ---------------------------------------------------------------------------
  // Stage 1: syntactic gate
  // ---------------------------------------------------------------------------

  const EmptySetupMessage := "SYNTACTIC: Cypher setup script is empty"

  function KeywordMessage(k: string): string
  {
    "SYNTACTIC: Forbidden keyword '" + k + "' in Cypher setup"
  }

  function UnknownLabelMessage(l: string): string
  {
    "SYNTACTIC: Constraint references unknown label '" + l + "'"
  }

  function GenericLabelMessage(l: string): string
  {
    "SYNTACTIC: Generic label '" + l + "' \U{2014} use a domain-specific name"
  }

  /**
   * The regular expression `FOR\s*\(\w+:(\w+)\)` (keyword case-insensitive)
   * matched at index `i`, yielding its label group. Greedy matching loses
   * nothing here: no run can give characters back to what follows it.
   */
  function ConstraintLabelAt(c: string, i: nat): (r: Option<string>)
    ensures r.Some? ==> r.value != [] && AllWordChars(r.value)
  {
    if i + 3 <= |c| && Upper(c[i..i + 3]) == "FOR" then
      var j := SkipSpaces(c, i + 3);
      if j < |c| && c[j] == '(' then
        var k := SkipWord(c, j + 1);
        if k > j + 1 && k < |c| && c[k] == ':' then
          var m := SkipWord(c, k + 1);
          if m > k + 1 && m < |c| && c[m] == ')' then Some(c[k + 1..m]) else None
        else None
      else None
    else None
  }

  /** `re.search`: the label of the leftmost match at or after `from`. */
  function FirstConstraintLabel(c: string, from: nat): Option<string>
    decreases |c| - from
  {
    if from > |c| then None
    else if ConstraintLabelAt(c, from).Some? then ConstraintLabelAt(c, from)
    else FirstConstraintLabel(c, from + 1)
  }

  /** The search finds the leftmost match, and finds none only when there is none. */
  lemma {:induction false} FirstConstraintLabelLeftmost(c: string, from: nat)
    ensures var r := FirstConstraintLabel(c, from);
      && (r.Some? ==> exists i :: from <= i <= |c| && ConstraintLabelAt(c, i) == r
                        && forall j :: from <= j < i ==> ConstraintLabelAt(c, j).None?)
      && (r.None? ==> forall i :: from <= i <= |c| ==> ConstraintLabelAt(c, i).None?)
  {
    var r := FirstConstraintLabel(c, from);
    if r.Some? {
      var i := FirstConstraintLabelFound(c, from);
    } else {
      FirstConstraintLabelNone(c, from);
    }
  }

  /** A label found comes from the leftmost match at or after `from`; that match's index is `i`. */
  lemma {:induction false} FirstConstraintLabelFound(c: string, from: nat) returns (i: nat)
    requires FirstConstraintLabel(c, from).Some?
    ensures from <= i <= |c| && ConstraintLabelAt(c, i) == FirstConstraintLabel(c, from)
    ensures forall j :: from <= j < i ==> ConstraintLabelAt(c, j).None?
    decreases |c| - from
  {
    if ConstraintLabelAt(c, from).Some? {
      i := from;
    } else {
      assert FirstConstraintLabel(c, from) == FirstConstraintLabel(c, from + 1);
      i := FirstConstraintLabelFound(c, from + 1);
    }
  }

  /** No label found means no match at or after `from`. */
  lemma {:induction false} FirstConstraintLabelNone(c: string, from: nat)
    requires FirstConstraintLabel(c, from).None?
    ensures forall i :: from <= i <= |c| ==> ConstraintLabelAt(c, i).None?
    decreases |c| - from
  {
    if from <= |c| {
      FirstConstraintLabelNone(c, from + 1);
    }
  }

  function KeywordFindings(order: seq<string>, upper: string): seq<string>
    decreases |order|
  {
    if |order| == 0 then []
    else
      var k := order[|order| - 1];
      KeywordFindings(order[..|order| - 1], upper) + (if Contains(upper, k) then [KeywordMessage(k)] else [])
  }

  function ConstraintFindings(cs: seq<string>, labels: set<string>): seq<string>
    decreases |cs|
  {
    if |cs| == 0 then []
    else
      var m := FirstConstraintLabel(cs[|cs| - 1], 0);
      ConstraintFindings(cs[..|cs| - 1], labels)
      + (if m.Some? && m.value !in labels then [UnknownLabelMessage(m.value)] else [])
  }

  function GenericFindings(nodes: seq<NodeSchema>): seq<string>
    decreases |nodes|
  {
    if |nodes| == 0 then []
    else
      var l := nodes[|nodes| - 1].nodeLabel;
      GenericFindings(nodes[..|nodes| - 1]) + (if l in GenericLabels then [GenericLabelMessage(l)] else [])
  }

  /** A constraint whose label the pattern finds but no node declares. */
  predicate UnknownConstraint(c: string, labels: set<string>)
  {
    var m := FirstConstraintLabel(c, 0);
    m.Some? && m.value !in labels
  }

  /** Whether the gate passes, stated directly on the schema. */
  predicate SyntacticOk(order: seq<string>, s: GraphSchema)
  {
    && !IsBlank(s.cypherSetup)
    && (forall i :: 0 <= i < |order| ==> !Contains(Upper(s.cypherSetup), order[i]))
    && (forall i :: 0 <= i < |s.constraints| ==> !UnknownConstraint(s.constraints[i], NodeLabels(s.nodes)))
    && (forall i :: 0 <= i < |s.nodes| ==> s.nodes[i].nodeLabel !in GenericLabels)
  }

  /** The findings `_validate_syntactic` returns. */
  function SyntacticFindings(order: seq<string>, s: GraphSchema): seq<string>
  {
    if IsBlank(s.cypherSetup) then [EmptySetupMessage]
    else
      KeywordFindings(order, Upper(s.cypherSetup))
      + ConstraintFindings(s.constraints, NodeLabels(s.nodes))
      + GenericFindings(s.nodes)
  }

  /** `_validate_syntactic`. */
  method ValidateSyntactic(order: seq<string>, s: GraphSchema) returns (ok: bool, findings: seq<string>)
    ensures ok == SyntacticOk(order, s)
    ensures findings == SyntacticFindings(order, s)
  {
    if IsBlank(s.cypherSetup) {
      return false, [EmptySetupMessage];
    }
    var upper := Upper(s.cypherSetup);
    var kwOk, kwFindings := CheckKeywords(order, upper);
    var labels := NodeLabels(s.nodes);
    var cOk, cFindings := CheckConstraints(s.constraints, labels);
    var gOk, gFindings := CheckGenericLabels(s.nodes);
    ok := kwOk && cOk && gOk;
    findings := kwFindings + cFindings + gFindings;
  }

  /** The keyword loop: every keyword found is reported, with no early exit. */
  method CheckKeywords(order: seq<string>, upper: string) returns (ok: bool, findings: seq<string>)
    ensures ok <==> forall i :: 0 <= i < |order| ==> !Contains(upper, order[i])
    ensures findings == KeywordFindings(order, upper)
  {
    ok, findings := true, [];
    var i := 0;
    while i < |order|
      invariant 0 <= i <= |order|
      invariant ok <==> forall j :: 0 <= j < i ==> !Contains(upper, order[j])
      invariant findings == KeywordFindings(order[..i], upper)
    {
      if Contains(upper, order[i]) {
        findings := findings + [KeywordMessage(order[i])];
        ok := false;
      }
      assert order[..i + 1][..i] == order[..i];
      i := i + 1;
    }
    assert order[..i] == order;
  }

  /** The constraint loop. */
  method CheckConstraints(cs: seq<string>, labels: set<string>) returns (ok: bool, findings: seq<string>)
    ensures ok <==> forall i :: 0 <= i < |cs| ==> !UnknownConstraint(cs[i], labels)
    ensures findings == ConstraintFindings(cs, labels)
  {
    ok, findings := true, [];
    var i := 0;
    while i < |cs|
      invariant 0 <= i <= |cs|
      invariant ok <==> forall j :: 0 <= j < i ==> !UnknownConstraint(cs[j], labels)
      invariant findings == ConstraintFindings(cs[..i], labels)
    {
      var m := FirstConstraintLabel(cs[i], 0);
      if m.Some? {
        var found := m.value;
        if found !in labels {
          findings := findings + [UnknownLabelMessage(found)];
          ok := false;
        }
      }
      assert cs[..i + 1][..i] == cs[..i];
      i := i + 1;
    }
    assert cs[..i] == cs;
  }

  /** The generic-label loop. */
  method CheckGenericLabels(nodes: seq<NodeSchema>) returns (ok: bool, findings: seq<string>)
    ensures ok <==> forall i :: 0 <= i < |nodes| ==> nodes[i].nodeLabel !in GenericLabels
    ensures findings == GenericFindings(nodes)
  {
    ok, findings := true, [];
    var i := 0;
    while i < |nodes|
      invariant 0 <= i <= |nodes|
      invariant ok <==> forall j :: 0 <= j < i ==> nodes[j].nodeLabel !in GenericLabels
      invariant findings == GenericFindings(nodes[..i])
    {
      if nodes[i].nodeLabel in GenericLabels {
        findings := findings + [GenericLabelMessage(nodes[i].nodeLabel)];
        ok := false;
      }
      assert nodes[..i + 1][..i] == nodes[..i];
      i := i + 1;
    }
    assert nodes[..i] == nodes;
  }

  lemma {:induction false} KeywordFindingsEmpty(order: seq<string>, upper: string)
    ensures KeywordFindings(order, upper) == [] <==> forall i :: 0 <= i < |order| ==> !Contains(upper, order[i])
    decreases |order|
  {
    if |order| > 0 {
      KeywordFindingsEmpty(order[..|order| - 1], upper);
      assert forall i :: 0 <= i < |order| - 1 ==> order[..|order| - 1][i] == order[i];
    }
  }

  lemma {:induction false} ConstraintFindingsEmpty(cs: seq<string>, labels: set<string>)
    ensures ConstraintFindings(cs, labels) == [] <==> forall i :: 0 <= i < |cs| ==> !UnknownConstraint(cs[i], labels)
    decreases |cs|
  {
    if |cs| > 0 {
      ConstraintFindingsEmpty(cs[..|cs| - 1], labels);
      assert forall i :: 0 <= i < |cs| - 1 ==> cs[..|cs| - 1][i] == cs[i];
    }
  }

  lemma {:induction false} GenericFindingsEmpty(nodes: seq<NodeSchema>)
    ensures GenericFindings(nodes) == [] <==> forall i :: 0 <= i < |nodes| ==> nodes[i].nodeLabel !in GenericLabels
    decreases |nodes|
  {
    if |nodes| > 0 {
      GenericFindingsEmpty(nodes[..|nodes| - 1]);
      assert forall i :: 0 <= i < |nodes| - 1 ==> nodes[..|nodes| - 1][i] == nodes[i];
    }
  }

  /** Every finding comes with a failed gate, and a failed gate always says why. */
  lemma SyntacticOkIffNoFindings(order: seq<string>, s: GraphSchema)
    ensures SyntacticOk(order, s) <==> SyntacticFindings(order, s) == []
  {
    if !IsBlank(s.cypherSetup) {
      KeywordFindingsEmpty(order, Upper(s.cypherSetup));
      ConstraintFindingsEmpty(s.constraints, NodeLabels(s.nodes));
      GenericFindingsEmpty(s.nodes);
    }
  }

  /** A blank script fails the gate with exactly one finding. */
  lemma BlankSetupFails(order: seq<string>, s: GraphSchema)
    requires IsBlank(s.cypherSetup)
    ensures !SyntacticOk(order, s) && SyntacticFindings(order, s) == [EmptySetupMessage]
  {
  }

  /** Each forbidden keyword in the script is reported on its own: the loop does not stop at the first. */
  lemma {:induction false} KeywordReported(order: seq<string>, upper: string, k: string)
    requires k in order
    ensures KeywordMessage(k) in KeywordFindings(order, upper) <==> Contains(upper, k)
    decreases |order|
  {
    var init := order[..|order| - 1];
    var last := order[|order| - 1];
    assert order == init + [last];
    if k in init {
      KeywordReported(init, upper, k);
    } else {
      KeywordNotReported(init, upper, k);
    }
    if last != k {
      KeywordMessageInjective(last, k);
    }
  }

  lemma {:induction false} KeywordNotReported(order: seq<string>, upper: string, k: string)
    requires k !in order
    ensures KeywordMessage(k) !in KeywordFindings(order, upper)
    decreases |order|
  {
    if |order| > 0 {
      var init := order[..|order| - 1];
      assert order == init + [order[|order| - 1]];
      KeywordNotReported(init, upper, k);
      KeywordMessageInjective(order[|order| - 1], k);
    }
  }

  lemma KeywordMessageInjective(a: string, b: string)
    ensures KeywordMessage(a) == KeywordMessage(b) ==> a == b
  {
    var pre := "SYNTACTIC: Forbidden keyword '";
    var post := "' in Cypher setup";
    if KeywordMessage(a) == KeywordMessage(b) {
      assert |a| == |b|;
      assert a == KeywordMessage(a)[|pre|..|pre| + |a|];
      assert b == KeywordMessage(b)[|pre|..|pre| + |b|];
    }
  }

  /** A constraint naming an undeclared label fails the gate with a finding naming it. */
  lemma {:induction false} UnknownConstraintReported(cs: seq<string>, labels: set<string>, i: nat)
    requires i < |cs| && UnknownConstraint(cs[i], labels)
    ensures UnknownLabelMessage(FirstConstraintLabel(cs[i], 0).value) in ConstraintFindings(cs, labels)
    decreases |cs|
  {
    if i < |cs| - 1 {
      UnknownConstraintReported(cs[..|cs| - 1], labels, i);
      assert cs[..|cs| - 1][i] == cs[i];
    }
  }

  // ---------------------------------------------------------------------------
  // Stage 3: semantic alignment
  // ---------------------------------------------------------------------------

  const UnavailableMessage := "SEMANTIC: Expert graph not available \U{2014} skipped"
  // The two fixed queries are written as concatenations so that the verifier
  // does not expand their Lucene escaping character by character.
  const ConstraintQuery := "uniqueness constraint" + " best practice"
  const IndexQuery := "index query performance" + " best practice"

  type FullText = (string, nat) -> Option<seq<ExpertRow>>

  function RelationshipQuery(r: RelationshipSchema): string
  {
    r.fromLabel + " " + r.relType + " " + r.toLabel + " graph modeling"
  }

  function NoMatchMessage(r: RelationshipSchema): string
  {
    "SEMANTIC: Relationship (:" + r.fromLabel + ")-[:" + r.relType + "]->(:" + r.toLabel
    + ") has no expert pattern match"
  }

  /** A relationship is backed when the top of its three hits scores above 0.5. */
  predicate TopAbove(hits: seq<ExpertHit>)
  {
    hits != [] && hits[0].score > 0.5
  }

  predicate RelationshipBacked(ft: FullText, r: RelationshipSchema)
  {
    TopAbove(SearchResult(true, ft, RelationshipQuery(r), 3).hits)
  }

  predicate HasHits(ft: FullText, query: string)
  {
    SearchResult(true, ft, query, 2).hits != []
  }

  function BackedCount(ft: FullText, rels: seq<RelationshipSchema>): nat
    decreases |rels|
  {
    if |rels| == 0 then 0
    else BackedCount(ft, rels[..|rels| - 1]) + (if RelationshipBacked(ft, rels[|rels| - 1]) then 1 else 0)
  }

  function UnbackedFindings(ft: FullText, rels: seq<RelationshipSchema>): seq<string>
    decreases |rels|
  {
    if |rels| == 0 then []
    else
      var r := rels[|rels| - 1];
      UnbackedFindings(ft, rels[..|rels| - 1]) + (if RelationshipBacked(ft, r) then [] else [NoMatchMessage(r)])
  }

  function SemanticTotal(s: GraphSchema): nat
  {
    |s.relationships| + (if s.constraints != [] then 1 else 0) + (if s.indexes != [] then 1 else 0)
  }

  function SemanticPassed(ft: FullText, s: GraphSchema): nat
  {
    BackedCount(ft, s.relationships)
    + (if s.constraints != [] && HasHits(ft, ConstraintQuery) then 1 else 0)
    + (if s.indexes != [] && HasHits(ft, IndexQuery) then 1 else 0)
  }

  function SemanticRatio(ft: FullText, s: GraphSchema): real
  {
    var total := SemanticTotal(s);
    if total > 0 then Round3(SemanticPassed(ft, s) as real / total as real) else 0.0
  }

  /**
   * What `_validate_semantic` returns. `store` is `None` without an expert
   * store, else whether it is available and its full-text query.
   */
  function SemanticResult(store: Option<(bool, FullText)>, s: GraphSchema): (real, seq<string>)
  {
    if store.None? || !store.value.0 then (0.5, [UnavailableMessage])
    else (SemanticRatio(store.value.1, s), UnbackedFindings(store.value.1, s.relationships))
  }

  /** Every relationship is either backed or reported, never both. */
  lemma {:induction false} UnbackedCount(ft: FullText, rels: seq<RelationshipSchema>)
    ensures |UnbackedFindings(ft, rels)| + BackedCount(ft, rels) == |rels|
    decreases |rels|
  {
    if |rels| > 0 { UnbackedCount(ft, rels[..|rels| - 1]); }
  }

  lemma PassedAtMostTotal(ft: FullText, s: GraphSchema)
    ensures SemanticPassed(ft, s) <= SemanticTotal(s)
  {
    UnbackedCount(ft, s.relationships);
    var c := if s.constraints != [] && HasHits(ft, ConstraintQuery) then 1 else 0;
    var x := if s.indexes != [] && HasHits(ft, IndexQuery) then 1 else 0;
    assert SemanticPassed(ft, s) == BackedCount(ft, s.relationships) + c + x;
    assert c <= (if s.constraints != [] then 1 else 0);
    assert x <= (if s.indexes != [] then 1 else 0);
  }

  lemma SemanticRatioInUnit(ft: FullText, s: GraphSchema)
    ensures InUnit(SemanticRatio(ft, s))
  {
    var total := SemanticTotal(s);
    if total > 0 {
      PassedAtMostTotal(ft, s);
      var p := SemanticPassed(ft, s) as real / total as real;
      ShareInUnit(SemanticPassed(ft, s), total);
      Round3InUnit(p);
    }
  }

  lemma ShareInUnit(passed: nat, total: nat)
    requires passed <= total && total > 0
    ensures InUnit(passed as real / total as real)
  {
    assert passed as real / total as real * total as real == passed as real;
  }

  /**
   * The semantic score is the rounded share of passed checks, in [0, 1]: one
   * check per relationship and one each for non-empty constraints and
   * indexes; every relationship without a backing pattern adds one finding.
   * Without a usable store it is the neutral 0.5 with one finding.
   */
  lemma SemanticMeaning(store: Option<(bool, FullText)>, s: GraphSchema)
    ensures InUnit(SemanticResult(store, s).0)
    ensures store.None? || !store.value.0 ==> SemanticResult(store, s) == (0.5, [UnavailableMessage])
    ensures store.Some? && store.value.0 ==>
      && SemanticPassed(store.value.1, s) <= SemanticTotal(s)
      && |SemanticResult(store, s).1| == |s.relationships| - BackedCount(store.value.1, s.relationships)
      && (SemanticTotal(s) == 0 ==> SemanticResult(store, s).0 == 0.0)
  {
    if store.Some? && store.value.0 {
      SemanticRatioInUnit(store.value.1, s);
      PassedAtMostTotal(store.value.1, s);
      UnbackedCount(store.value.1, s.relationships);
    }
  }

  // ---------------------------------------------------------------------------
  // Score combination
  // ---------------------------------------------------------------------------

  /** The three stage scores `validate` combines each lie in [0, 1]. */
  lemma StageScoresInUnit(order: seq<string>, store: Option<(bool, FullText)>, s: GraphSchema)
    requires IsKeywordOrder(order)
    ensures InUnit(StructuralScore(s)) && InUnit(SemanticResult(store, s).0)
    ensures InUnit(CypherQuality(order, s.cypherSetup).0)
  {
    StructuralScoreInUnit(s);
    SemanticMeaning(store, s);
    CypherQualityValues(order, s.cypherSetup);
  }

  /**
   * The findings list `validate` hands to `ValidationResult`: the syntactic
   * strings, the structural records, the semantic strings and the Cypher
   * records, in stage order.
   */
  function ValidationEntries(order: seq<string>, store: Option<(bool, FullText)>, s: GraphSchema): seq<Entry>
    requires IsKeywordOrder(order)
  {
    AsPlain(SyntacticFindings(order, s)) + AsEntries(StructuralFindings(s))
    + AsPlain(SemanticResult(store, s).1) + AsEntries(CypherQuality(order, s.cypherSetup).1)
  }

  /**
   * What `validate` returns, or the error it raises, for a store in the given
   * state: each stage's score, the cypher score as the domain score, the
   * findings of the four stages in stage order and the gated overall score,
   * passed to the `ValidationResult` constructor.
   */
  function Validation(order: seq<string>, store: Option<(bool, FullText)>, s: GraphSchema)
    : Result<ValidationResult, string>
    requires IsKeywordOrder(order)
  {
    var syntactic := SyntacticOk(order, s);
    var structural := StructuralScore(s);
    var semantic := SemanticResult(store, s);
    var cypher := CypherQuality(order, s.cypherSetup);
    var overall := ComputeOverall(syntactic, structural, semantic.0, cypher.0);
    NewValidationResult(syntactic, structural, semantic.0, cypher.0, overall,
                        ValidationEntries(order, store, s), Some(overall >= 0.7 && syntactic))
  }

  /** The findings list holds only records exactly when both string-producing stages report nothing. */
  lemma EntriesTyped(order: seq<string>, store: Option<(bool, FullText)>, s: GraphSchema)
    requires IsKeywordOrder(order)
    ensures AllTyped(ValidationEntries(order, store, s))
        <==> SyntacticFindings(order, s) == [] && SemanticResult(store, s).1 == []
    ensures AllTyped(ValidationEntries(order, store, s)) ==>
      Records(ValidationEntries(order, store, s))
        == StructuralFindings(s) + CypherQuality(order, s.cypherSetup).1
  {
    StageEntriesTyped(SyntacticFindings(order, s), StructuralFindings(s),
                      SemanticResult(store, s).1, CypherQuality(order, s.cypherSetup).1);
  }

  /**
   * `validate` succeeds exactly when the syntactic stage reports nothing and
   * the store is reachable and backs every relationship: any bare-string
   * finding makes the `list[Finding]` field raise. Without a reachable store
   * it therefore always raises. When it succeeds, the gate has passed, every
   * score lies in [0, 1], the findings are the structural then Cypher records,
   * and approval means an overall score of at least 0.7.
   */
  lemma ValidationMeaning(order: seq<string>, store: Option<(bool, FullText)>, s: GraphSchema)
    requires IsKeywordOrder(order)
    ensures var r := Validation(order, store, s);
      && (r.Ok? <==> SyntacticFindings(order, s) == [] && store.Some? && store.value.0
                     && BackedCount(store.value.1, s.relationships) == |s.relationships|)
      && (r.Err? ==> r == Err(FindingTypeError))
      && (r.Ok? ==>
            && r.value.syntactic
            && r.value.structuralScore == StructuralScore(s)
            && r.value.semanticScore == SemanticResult(store, s).0
            && r.value.domainScore == CypherQuality(order, s.cypherSetup).0
            && r.value.findings == StructuralFindings(s) + CypherQuality(order, s.cypherSetup).1
            && InUnit(r.value.structuralScore) && InUnit(r.value.semanticScore)
            && InUnit(r.value.domainScore) && InUnit(r.value.overallScore)
            && (r.value.approvedForTraining <==> r.value.overallScore >= 0.7))
  {
    StageScoresInUnit(order, store, s);
    SyntacticOkIffNoFindings(order, s);
    SemanticMeaning(store, s);
    EntriesTyped(order, store, s);
    var r := Validation(order, store, s);
    if r.Ok? {
      assert r.value.findings == Records(ValidationEntries(order, store, s));
    }
  }

  /**
   * `_compute_overall`. A failed gate caps the result at 0.3; otherwise it is
   * the 0.40 / 0.35 / 0.25 weighted sum, rounded.
   */
  function ComputeOverall(syntactic: bool, structural: real, semantic: real, cypher: real): (r: real)
    ensures !syntactic ==> r <= 0.3
    ensures InUnit(structural) && InUnit(semantic) && InUnit(cypher) ==> InUnit(r)
  {
    if !syntactic then
      var mean := (structural + semantic + cypher) / 3.0;
      var capped := if 0.3 <= mean then 0.3 else mean;
      Round3AtMost(capped, 300);
      if InUnit(structural) && InUnit(semantic) && InUnit(cypher) then
        Round3InUnit(capped);
        Round3(capped)
      else Round3(capped)
    else
      var combined := structural * 0.40 + semantic * 0.35 + cypher * 0.25;
      if InUnit(structural) && InUnit(semantic) && InUnit(cypher) then
        Round3InUnit(combined);
        Round3(combined)
      else Round3(combined)
  }

  /** A failed gate can never be approved: its overall score stays below the 0.7 bar. */
  lemma GateBlocksApproval(structural: real, semantic: real, cypher: real)
    ensures !(ComputeOverall(false, structural, semantic, cypher) >= 0.7)
  {
  }

  /** With the gate passed, a better stage score never lowers the overall score. */
  lemma OverallMonotone(s1: real, m1: real, c1: real, s2: real, m2: real, c2: real)
    requires s1 <= s2 && m1 <= m2 && c1 <= c2
    ensures ComputeOverall(true, s1, m1, c1) <= ComputeOverall(true, s2, m2, c2)
  {
    Round3Monotone(s1 * 0.40 + m1 * 0.35 + c1 * 0.25, s2 * 0.40 + m2 * 0.35 + c2 * 0.25);
  }

  // ---------------------------------------------------------------------------
  // The validator
  // ---------------------------------------------------------------------------

  /** The LLM session `validate_full` scores with: its reply and the JSON reader. */
  datatype LlmSettings = LlmSettings(reply: Option<string>, parse: string -> Option<map<string, string>>)

  class SchemaValidator {
    /** `_expert`: a store over the given driver, or none. */
    const expert: ExpertStore?

    constructor(driver: Option<Driver>)
      ensures driver.None? <==> expert == null
      ensures expert != null ==> fresh(expert) && expert.driver == driver.value && expert.available == None
    {
      if driver.Some? {
        expert := new ExpertStore(driver.value);
      } else {
        expert := null;
      }
    }

    /** What the semantic stage sees of the store. */
    function StoreView(): Option<(bool, FullText)>
      reads this, expert
    {
      if expert == null then None else Some((expert.available == Some(true), expert.driver.fulltext))
    }

    /** `_validate_semantic`. */
    method ValidateSemantic(s: GraphSchema) returns (score: real, findings: seq<string>)
      modifies expert
      ensures expert != null ==> expert.available.Some?
      ensures (score, findings) == SemanticResult(StoreView(), s)
      ensures expert != null ==>
        expert.available == (if old(expert.available).None? then Some(IndexOnline(expert.driver.indexCheck)) else old(expert.available))
    {
      if expert == null {
        return 0.5, [UnavailableMessage];
      }
      var ok := expert.IsAvailable();
      if !ok {
        return 0.5, [UnavailableMessage];
      }
      var ft := expert.driver.fulltext;
      var passedChecks;
      passedChecks, findings := AlignRelationships(s.relationships);
      var totalChecks := |s.relationships|;
      if s.constraints != [] {
        totalChecks := totalChecks + 1;
        var ctx := expert.Search(ConstraintQuery, 2);
        if ctx.hits != [] {
          passedChecks := passedChecks + 1;
        }
      }
      if s.indexes != [] {
        totalChecks := totalChecks + 1;
        var ctx := expert.Search(IndexQuery, 2);
        if ctx.hits != [] {
          passedChecks := passedChecks + 1;
        }
      }
      assert totalChecks == SemanticTotal(s);
      assert passedChecks == SemanticPassed(ft, s);
      score := if totalChecks > 0 then Round3(passedChecks as real / totalChecks as real) else 0.0;
    }

    /** The relationship loop of `_validate_semantic`, once the store is known to be available. */
    method AlignRelationships(rels: seq<RelationshipSchema>) returns (passed: nat, findings: seq<string>)
      requires expert != null && expert.available == Some(true)
      modifies expert
      ensures expert.available == Some(true)
      ensures passed == BackedCount(expert.driver.fulltext, rels)
      ensures findings == UnbackedFindings(expert.driver.fulltext, rels)
    {
      var ft := expert.driver.fulltext;
      passed, findings := 0, [];
      var i := 0;
      while i < |rels|
        invariant 0 <= i <= |rels|
        invariant expert.available == Some(true)
        invariant passed == BackedCount(ft, rels[..i])
        invariant findings == UnbackedFindings(ft, rels[..i])
      {
        var rel := rels[i];
        var ctx := expert.Search(RelationshipQuery(rel), 3);
        if TopAbove(ctx.hits) {
          passed := passed + 1;
        } else {
          findings := findings + [NoMatchMessage(rel)];
        }
        assert rels[..i + 1][..i] == rels[..i];
        i := i + 1;
      }
      assert rels[..i] == rels;
    }

    /**
     * `validate`: the four stages run in order against the store, and their
     * results are passed to the `ValidationResult` constructor.
     */
    method Validate(order: seq<string>, s: GraphSchema) returns (r: Result<ValidationResult, string>)
      requires IsKeywordOrder(order)
      modifies expert
      ensures r == Validation(order, StoreView(), s)
      ensures expert != null ==>
        expert.available == (if old(expert.available).None? then Some(IndexOnline(expert.driver.indexCheck)) else old(expert.available))
    {
      var syntacticOk, syntacticFindings := ValidateSyntactic(order, s);
      var findings := AsPlain(syntacticFindings);
      var structuralScore, structuralFindings := ScoreStructural(s);
      findings := findings + AsEntries(structuralFindings);
      var semanticScore, semanticFindings := ValidateSemantic(s);
      findings := findings + AsPlain(semanticFindings);
      var cypherScore, cypherFindings := ScoreCypherQuality(order, s.cypherSetup);
      findings := findings + AsEntries(cypherFindings);
      var overall := ComputeOverall(syntacticOk, structuralScore, semanticScore, cypherScore);
      r := NewValidationResult(syntacticOk, structuralScore, semanticScore, cypherScore, overall, findings,
                               Some(overall >= 0.7 && syntacticOk));
    }

    /**
     * `validate_full`: without LLM settings it is `validate`. With them it
     * first runs `validate` (and raises when that raises); then the scorer's
     * overall score replaces the gated one, the regulatory-coverage score
     * becomes the domain score and the scorer's findings follow the others.
     */
    method ValidateFull(order: seq<string>, synthesis: SynthesisResult, settings: Option<LlmSettings>)
      returns (r: Result<ValidationResult, string>)
      requires IsKeywordOrder(order)
      modifies expert
      ensures settings.None? ==> r == Validation(order, StoreView(), synthesis.graphSchema)
      ensures expert != null ==>
        expert.available == (if old(expert.available).None? then Some(IndexOnline(expert.driver.indexCheck)) else old(expert.available))
      ensures settings.Some? ==>
        var g := synthesis.graphSchema;
        var v := Validation(order, StoreView(), g);
        var b := Breakdown(order, g, settings.value.reply, settings.value.parse);
        var overall := Round3(WeightedSum(b, ScoreWeights));
        && (v.Err? ==> r == v)
        && (v.Ok? ==>
              && r.Ok?
              && r.value == ValidationResult(
                   v.value.syntactic, v.value.structuralScore, v.value.semanticScore,
                   Score0(b, "regulatory_coverage"), overall,
                   v.value.findings + (StructuralFindings(g) + CypherQuality(order, g.cypherSetup).1),
                   overall >= 0.7 && v.value.syntactic)
              && InUnit(r.value.overallScore) && InUnit(r.value.domainScore))
    {
      if settings.None? {
        r := Validate(order, synthesis.graphSchema);
        return;
      }
      var base := Validate(order, synthesis.graphSchema);
      if base.Err? {
        return base;
      }
      var overall, breakdown, scorerFindings := Score(order, synthesis, settings.value.reply, settings.value.parse);
      OverallInUnit(order, synthesis.graphSchema, settings.value.reply, settings.value.parse);
      BreakdownShape(order, synthesis.graphSchema, settings.value.reply, settings.value.parse);
      Rebuild(base.value, Score0(breakdown, "regulatory_coverage"), overall, scorerFindings,
              overall >= 0.7 && base.value.syntactic);
      r := NewValidationResult(base.value.syntactic, base.value.structuralScore, base.value.semanticScore,
                               Score0(breakdown, "regulatory_coverage"), overall,
                               AsEntries(base.value.findings + scorerFindings),
                               Some(overall >= 0.7 && base.value.syntactic));
    }
  }
}
