/**
 * The deterministic scores of the training pipeline: YES-counting over the
 * Socratic answers, the twelve structural checks of a graph schema and the
 * quality score of its Cypher setup script.
 */
module Prompts {
  import opened Wrappers
  import opened Text
  import opened Seqs
  import opened Rounding
  import opened PyValue
  import opened Models
  import opened ValidatorRules

  // ---------------------------------------------------------------------------
  // Socratic answers
  // ---------------------------------------------------------------------------

  /** The three scored dimensions and the four question ids of each. */
  const SocraticDimensions: seq<(string, seq<string>)> := [
    ("regulatory_coverage", ["R1", "R2", "R3", "R4"]),
    ("expert_alignment", ["E1", "E2", "E3", "E4"]),
    ("completeness", ["C1", "C2", "C3", "C4"])
  ]

  const DimensionNames: set<string> := {"regulatory_coverage", "expert_alignment", "completeness"}

  /** `answers.get(k, "").upper() == "YES"`. */
  predicate SaysYes(answers: map<string, string>, k: string)
  {
    Upper(if k in answers then answers[k] else "") == "YES"
  }

  /** `sum(1 for k in keys if ...)`. */
  function YesCount(answers: map<string, string>, keys: seq<string>): (n: nat)
    ensures n <= |keys|
  {
    if |keys| == 0 then 0
    else (if SaysYes(answers, keys[0]) then 1 else 0) + YesCount(answers, keys[1..])
  }

  /** The share of a dimension's question ids answered YES. */
  function Share(answers: map<string, string>, keys: seq<string>): real
    requires |keys| == 4
  {
    |set k | k in keys && SaysYes(answers, k)| as real / 4.0
  }

  /** One dimension's score: its YES count over the number of its questions, rounded. */
  function DimensionScore(answers: map<string, string>, keys: seq<string>): (r: real)
    requires |keys| == 4
    requires forall i, j :: 0 <= i < j < |keys| ==> keys[i] != keys[j]
    ensures r == Share(answers, keys)
    ensures r in {0.0, 0.25, 0.5, 0.75, 1.0}
  {
    var n := YesCount(answers, keys);
    YesCountIsCardinality(answers, keys);
    assert n as real / 4.0 == (250 * n) as real / 1000.0;
    Round3Exact(250 * n);
    Round3(n as real / |keys| as real)
  }

  /** `compute_score_from_socratic`: each dimension's share of YES answers. */
  function ComputeScoreFromSocratic(answers: map<string, string>): (r: map<string, real>)
    ensures r.Keys == DimensionNames
    ensures r["regulatory_coverage"] == Share(answers, ["R1", "R2", "R3", "R4"])
    ensures r["expert_alignment"] == Share(answers, ["E1", "E2", "E3", "E4"])
    ensures r["completeness"] == Share(answers, ["C1", "C2", "C3", "C4"])
    ensures forall dim :: dim in r ==> r[dim] in {0.0, 0.25, 0.5, 0.75, 1.0}
  {
    SocraticShape();
    var d := SocraticDimensions;
    map[d[0].0 := DimensionScore(answers, d[0].1),
        d[1].0 := DimensionScore(answers, d[1].1),
        d[2].0 := DimensionScore(answers, d[2].1)]
  }

  /** Each dimension lists four distinct question ids. */
  lemma SocraticShape()
    ensures SocraticDimensions[0] == ("regulatory_coverage", ["R1", "R2", "R3", "R4"])
    ensures SocraticDimensions[1] == ("expert_alignment", ["E1", "E2", "E3", "E4"])
    ensures SocraticDimensions[2] == ("completeness", ["C1", "C2", "C3", "C4"])
    ensures forall d :: 0 <= d < 3 ==> (|SocraticDimensions[d].1| == 4 &&
      forall i, j :: 0 <= i < j < 4 ==> SocraticDimensions[d].1[i] != SocraticDimensions[d].1[j])
  {
    forall d, i, j | 0 <= d < 3 && 0 <= i < j < 4
      ensures SocraticDimensions[d].1[i] != SocraticDimensions[d].1[j]
    {
      var ids := SocraticDimensions[d].1;
      assert ids[i][1] != ids[j][1];
    }
  }

  /** For distinct ids, the YES count is the number of ids answered YES. */
  lemma {:induction false} YesCountIsCardinality(answers: map<string, string>, keys: seq<string>)
    requires forall i, j :: 0 <= i < j < |keys| ==> keys[i] != keys[j]
    ensures YesCount(answers, keys) == |set k | k in keys && SaysYes(answers, k)|
  {
    if |keys| > 0 {
      YesCountIsCardinality(answers, keys[1..]);
      YesSetCons(answers, keys);
    }
  }

  /** The ids answered YES, split at the first id. */
  lemma YesSetCons(answers: map<string, string>, keys: seq<string>)
    requires |keys| > 0 && keys[0] !in keys[1..]
    ensures |set k | k in keys && SaysYes(answers, k)|
      == (if SaysYes(answers, keys[0]) then 1 else 0) + |set k | k in keys[1..] && SaysYes(answers, k)|
  {
    var rest := keys[1..];
    var a := set k | k in rest && SaysYes(answers, k);
    var b := set k | k in keys && SaysYes(answers, k);
    assert keys == [keys[0]] + rest;
    if SaysYes(answers, keys[0]) {
      assert b == a + {keys[0]};
    } else {
      assert b == a;
    }
  }

  /** Some answers, in mixed case, with most ids missing. */
  const ExampleAnswers: map<string, string> := map["R1" := "yes", "R2" := "Yes", "E1" := "YES", "C4" := "no"]

  lemma ExampleAnswersSayYes()
    ensures SaysYes(ExampleAnswers, "R1") && SaysYes(ExampleAnswers, "R2") && SaysYes(ExampleAnswers, "E1")
    ensures !SaysYes(ExampleAnswers, "C4")
    ensures forall k :: k !in ExampleAnswers ==> !SaysYes(ExampleAnswers, k)
  {
    assert Upper("yes") == "YES" && Upper("Yes") == "YES" && Upper("YES") == "YES";
    assert Upper("no") == "NO" && Upper("") == "";
  }

  /** Answers are matched case-insensitively and missing ids count as NO. */
  lemma SocraticExample()
    ensures var r := ComputeScoreFromSocratic(ExampleAnswers);
      r["regulatory_coverage"] == 0.5 && r["expert_alignment"] == 0.25 && r["completeness"] == 0.0
  {
    RegulatoryExample();
    ExpertExample();
    CompletenessExample();
  }

  lemma RegulatoryExample()
    ensures Share(ExampleAnswers, ["R1", "R2", "R3", "R4"]) == 0.5
  {
    ExampleAnswersSayYes();
    var a := ExampleAnswers;
    assert "R3" !in a && "R4" !in a;
    assert YesCount(a, ["R3", "R4"]) == 0;
    assert YesCount(a, ["R1", "R2", "R3", "R4"]) == 2;
    YesCountIsCardinality(a, ["R1", "R2", "R3", "R4"]);
  }

  lemma ExpertExample()
    ensures Share(ExampleAnswers, ["E1", "E2", "E3", "E4"]) == 0.25
  {
    ExampleAnswersSayYes();
    var a := ExampleAnswers;
    assert "E2" !in a && "E3" !in a && "E4" !in a;
    assert YesCount(a, ["E2", "E3", "E4"]) == 0;
    YesCountIsCardinality(a, ["E1", "E2", "E3", "E4"]);
  }

  lemma CompletenessExample()
    ensures Share(ExampleAnswers, ["C1", "C2", "C3", "C4"]) == 0.0
  {
    ExampleAnswersSayYes();
    var a := ExampleAnswers;
    assert "C1" !in a && "C2" !in a && "C3" !in a;
    assert YesCount(a, ["C3", "C4"]) == 0;
    assert YesCount(a, ["C1", "C2", "C3", "C4"]) == 0;
    YesCountIsCardinality(a, ["C1", "C2", "C3", "C4"]);
  }

  // ---------------------------------------------------------------------------
  // Structural checks
  // ---------------------------------------------------------------------------

  const Structural := "STRUCTURAL"

  /** The twelve checks, in the order the scorer evaluates them. */
  const CheckNames: seq<string> := [
    "Has at least 3 node types",
    "Has at least 2 relationship types",
    "Has at least 1 constraint",
    "Has at least 1 index",
    "All relationships have direction rationale",
    "All nodes have required properties",
    "All nodes justified by research/pattern",
    "All relationships justified by research/pattern",
    "Justifications are substantive (>20 chars)",
    "Required properties are subset of properties",
    "Relationship endpoints reference existing nodes",
    "Most nodes participate in relationships"
  ]

  const MinJustificationLen := 20

  /** A failed consistency check is an ERROR, a short justification INFO, anything else a WARNING. */
  function CheckSeverity(k: nat): FindingSeverity
  {
    if k == 9 || k == 10 then Error else if k == 8 then Info else Warning
  }

  function NodeLabels(nodes: seq<NodeSchema>): set<string>
  {
    set i | 0 <= i < |nodes| :: nodes[i].nodeLabel
  }

  function FromEndpoint(r: RelationshipSchema): string
  {
    r.relType + ": from_label '" + r.fromLabel + "'"
  }

  function ToEndpoint(r: RelationshipSchema): string
  {
    r.relType + ": to_label '" + r.toLabel + "'"
  }

  /** The dangling endpoints of one relationship: its from side, then its to side. */
  function EndpointsOf(r: RelationshipSchema, labels: set<string>): seq<string>
  {
    (if r.fromLabel !in labels then [FromEndpoint(r)] else [])
    + (if r.toLabel !in labels then [ToEndpoint(r)] else [])
  }

  /** `orphan_endpoints`: every endpoint naming a label no node has, in order. */
  function OrphanEndpoints(rels: seq<RelationshipSchema>, labels: set<string>): seq<string>
    decreases |rels|
  {
    if |rels| == 0 then []
    else OrphanEndpoints(rels[..|rels| - 1], labels) + EndpointsOf(rels[|rels| - 1], labels)
  }

  /** `connected_labels`: every label some relationship starts or ends at. */
  function ConnectedLabels(rels: seq<RelationshipSchema>): set<string>
    decreases |rels|
  {
    if |rels| == 0 then {}
    else ConnectedLabels(rels[..|rels| - 1]) + {rels[|rels| - 1].fromLabel, rels[|rels| - 1].toLabel}
  }

  function Disconnected(s: GraphSchema): set<string>
  {
    NodeLabels(s.nodes) - ConnectedLabels(s.relationships)
  }

  /** `max(1, len(nodes) // 5)`. */
  function MaxDisconnected(s: GraphSchema): nat
  {
    if |s.nodes| / 5 > 1 then |s.nodes| / 5 else 1
  }

  predicate Justified(s: GraphSchema)
  {
    && (|s.nodes| > 0 || |s.relationships| > 0)
    && (forall i :: 0 <= i < |s.nodes| ==> |s.nodes[i].justifiedBy| >= MinJustificationLen)
    && (forall i :: 0 <= i < |s.relationships| ==> |s.relationships[i].justifiedBy| >= MinJustificationLen)
  }

  predicate RequiredWithinProperties(n: NodeSchema)
  {
    forall p :: p in n.requiredProperties ==> p in n.properties
  }

  /** The twelve check outcomes, in `CheckNames` order. */
  function StructuralChecks(s: GraphSchema): (c: seq<bool>)
    ensures |c| == |CheckNames|
  {
    var nodes := s.nodes;
    var rels := s.relationships;
    [ |nodes| >= 3,
      |rels| >= 2,
      |s.constraints| >= 1,
      |s.indexes| >= 1,
      |rels| > 0 && (forall i :: 0 <= i < |rels| ==> rels[i].directionRationale != ""),
      |nodes| > 0 && (forall i :: 0 <= i < |nodes| ==> nodes[i].requiredProperties != []),
      |nodes| > 0 && (forall i :: 0 <= i < |nodes| ==> nodes[i].justifiedBy != ""),
      |rels| > 0 && (forall i :: 0 <= i < |rels| ==> rels[i].justifiedBy != ""),
      Justified(s),
      |nodes| > 0 && (forall i :: 0 <= i < |nodes| ==> RequiredWithinProperties(nodes[i])),
      |OrphanEndpoints(rels, NodeLabels(nodes))| == 0,
      |Disconnected(s)| <= MaxDisconnected(s) ]
  }

  function CountTrue(c: seq<bool>): (n: nat)
    ensures n <= |c|
    decreases |c|
  {
    if |c| == 0 then 0 else CountTrue(c[..|c| - 1]) + (if c[|c| - 1] then 1 else 0)
  }

  function DanglingFinding(ep: string): Finding
  {
    Finding(Error, Structural, "Dangling endpoint \U{2014} " + ep)
  }

  function DanglingFindings(eps: seq<string>): (r: seq<Finding>)
    ensures |r| == |eps| && forall i :: 0 <= i < |r| ==> r[i] == DanglingFinding(eps[i])
  {
    seq(|eps|, i requires 0 <= i < |eps| => DanglingFinding(eps[i]))
  }

  /** The INFO line naming the disconnected labels, sorted. */
  function DisconnectedFinding(d: set<string>): Finding
  {
    Finding(Info, Structural,
            NatToString(|d|) + " node types have no relationships: " + ReprStrings(SortedSet(d)))
  }

  function FailedFinding(k: nat): Finding
    requires k < |CheckNames|
  {
    Finding(CheckSeverity(k), Structural, CheckNames[k] + " \U{2014} FAILED")
  }

  /** One finding per failed check among the first `|c|`, in check order. */
  function FailedFindings(c: seq<bool>): seq<Finding>
    requires |c| <= |CheckNames|
    decreases |c|
  {
    if |c| == 0 then []
    else FailedFindings(c[..|c| - 1]) + (if c[|c| - 1] then [] else [FailedFinding(|c| - 1)])
  }

  /** The findings `score_structural` returns, in order. */
  function StructuralFindings(s: GraphSchema): seq<Finding>
  {
    var d := Disconnected(s);
    DanglingFindings(OrphanEndpoints(s.relationships, NodeLabels(s.nodes)))
    + (if d != {} then [DisconnectedFinding(d)] else [])
    + FailedFindings(StructuralChecks(s))
  }

  /** The score `score_structural` returns: the share of passed checks, rounded. */
  function StructuralScore(s: GraphSchema): real
  {
    Round3(CountTrue(StructuralChecks(s)) as real / |CheckNames| as real)
  }

  /** The loop collecting `orphan_endpoints`. */
  method CollectOrphans(rels: seq<RelationshipSchema>, labels: set<string>) returns (orphans: seq<string>)
    ensures orphans == OrphanEndpoints(rels, labels)
  {
    orphans := [];
    var i := 0;
    while i < |rels|
      invariant 0 <= i <= |rels|
      invariant orphans == OrphanEndpoints(rels[..i], labels)
    {
      var r := rels[i];
      if r.fromLabel !in labels {
        orphans := orphans + [FromEndpoint(r)];
      }
      if r.toLabel !in labels {
        orphans := orphans + [ToEndpoint(r)];
      }
      assert rels[..i + 1][..i] == rels[..i];
      i := i + 1;
    }
    assert rels[..|rels|] == rels;
  }

  /** The loop collecting `connected_labels`. */
  method CollectConnected(rels: seq<RelationshipSchema>) returns (connected: set<string>)
    ensures connected == ConnectedLabels(rels)
  {
    connected := {};
    var i := 0;
    while i < |rels|
      invariant 0 <= i <= |rels|
      invariant connected == ConnectedLabels(rels[..i])
    {
      connected := connected + {rels[i].fromLabel, rels[i].toLabel};
      assert rels[..i + 1][..i] == rels[..i];
      i := i + 1;
    }
    assert rels[..|rels|] == rels;
  }

  /** The loop turning each failed check into a finding. */
  method ReportFailed(checks: seq<bool>) returns (findings: seq<Finding>)
    requires |checks| <= |CheckNames|
    ensures findings == FailedFindings(checks)
  {
    findings := [];
    var k := 0;
    while k < |checks|
      invariant 0 <= k <= |checks|
      invariant findings == FailedFindings(checks[..k])
    {
      if !checks[k] {
        findings := findings + [FailedFinding(k)];
      }
      assert checks[..k + 1][..k] == checks[..k];
      k := k + 1;
    }
    assert checks[..|checks|] == checks;
  }

  /** `score_structural`. */
  method ScoreStructural(s: GraphSchema) returns (score: real, findings: seq<Finding>)
    ensures score == StructuralScore(s)
    ensures findings == StructuralFindings(s)
  {
    var labels := NodeLabels(s.nodes);
    var orphans := CollectOrphans(s.relationships, labels);
    findings := DanglingFindings(orphans);
    var connected := CollectConnected(s.relationships);
    var disconnected := labels - connected;
    if disconnected != {} {
      findings := findings + [DisconnectedFinding(disconnected)];
    }
    var checks := StructuralChecks(s);
    var failed := ReportFailed(checks);
    findings := findings + failed;
    score := Round3(CountTrue(checks) as real / |checks| as real);
  }

  /** The structural score is a fraction in [0, 1]. */
  lemma StructuralScoreInUnit(s: GraphSchema)
    ensures InUnit(StructuralScore(s))
  {
    var c := StructuralChecks(s);
    assert CountTrue(c) as real / 12.0 <= 1.0;
    Round3InUnit(CountTrue(c) as real / 12.0);
  }

  /**
   * The "all ..." checks do not hold vacuously: a schema without nodes and
   * relationships passes only the endpoint and connectivity checks.
   */
  lemma EmptySchemaScoresLow(s: GraphSchema)
    requires s.nodes == [] && s.relationships == [] && s.constraints == [] && s.indexes == []
    ensures StructuralChecks(s) == [false, false, false, false, false, false, false, false, false, false, true, true]
    ensures StructuralScore(s) < 0.5
  {
    var c := StructuralChecks(s);
    assert NodeLabels(s.nodes) == {};
    assert CountTrue(c) == 2 by {
      assert c[..11][..10] == c[..10];
      assert c[..12][..11] == c[..11];
      assert c[..10] == [false, false, false, false, false, false, false, false, false, false];
      assert CountTrue(c[..10]) == 0 by { AllFalseCount(c[..10]); }
      assert c == c[..12];
    }
    Round3AtMost(2.0 / 12.0, 167);
  }

  lemma {:induction false} AllFalseCount(c: seq<bool>)
    requires forall i :: 0 <= i < |c| ==> !c[i]
    ensures CountTrue(c) == 0
    decreases |c|
  {
    if |c| > 0 { AllFalseCount(c[..|c| - 1]); }
  }

  /** An endpoint of a relationship that names no node label is listed among the orphans. */
  lemma {:induction false} OrphanListed(rels: seq<RelationshipSchema>, labels: set<string>, i: nat)
    requires i < |rels|
    ensures rels[i].fromLabel !in labels ==> FromEndpoint(rels[i]) in OrphanEndpoints(rels, labels)
    ensures rels[i].toLabel !in labels ==> ToEndpoint(rels[i]) in OrphanEndpoints(rels, labels)
    decreases |rels|
  {
    if i < |rels| - 1 {
      OrphanListed(rels[..|rels| - 1], labels, i);
      assert rels[..|rels| - 1][i] == rels[i];
    }
  }

  /** The endpoint check fails exactly when some endpoint dangles. */
  lemma {:induction false} OrphansEmptyIff(rels: seq<RelationshipSchema>, labels: set<string>)
    ensures OrphanEndpoints(rels, labels) == []
        <==> forall i :: 0 <= i < |rels| ==> rels[i].fromLabel in labels && rels[i].toLabel in labels
    decreases |rels|
  {
    if |rels| > 0 {
      OrphansEmptyIff(rels[..|rels| - 1], labels);
      var init := rels[..|rels| - 1];
      assert forall i :: 0 <= i < |init| ==> init[i] == rels[i];
    }
  }

  /**
   * Each dangling endpoint yields its own ERROR finding naming the
   * relationship type and the label, and the failed endpoint check one more.
   */
  lemma DanglingEndpointReported(s: GraphSchema, i: nat)
    requires i < |s.relationships|
    requires s.relationships[i].fromLabel !in NodeLabels(s.nodes)
    ensures DanglingFinding(FromEndpoint(s.relationships[i])) in StructuralFindings(s)
    ensures FailedFinding(10) in StructuralFindings(s)
    ensures FailedFinding(10).severity == Error
  {
    var labels := NodeLabels(s.nodes);
    var orphans := OrphanEndpoints(s.relationships, labels);
    OrphanListed(s.relationships, labels, i);
    var j :| 0 <= j < |orphans| && orphans[j] == FromEndpoint(s.relationships[i]);
    assert DanglingFindings(orphans)[j] == DanglingFinding(FromEndpoint(s.relationships[i]));
    OrphansEmptyIff(s.relationships, labels);
    assert !StructuralChecks(s)[10];
    FailedFindingListed(StructuralChecks(s), 10);
  }

  /** The same for a dangling `to_label`. */
  lemma DanglingToEndpointReported(s: GraphSchema, i: nat)
    requires i < |s.relationships|
    requires s.relationships[i].toLabel !in NodeLabels(s.nodes)
    ensures DanglingFinding(ToEndpoint(s.relationships[i])) in StructuralFindings(s)
    ensures FailedFinding(10) in StructuralFindings(s)
  {
    var labels := NodeLabels(s.nodes);
    var orphans := OrphanEndpoints(s.relationships, labels);
    OrphanListed(s.relationships, labels, i);
    var j :| 0 <= j < |orphans| && orphans[j] == ToEndpoint(s.relationships[i]);
    assert DanglingFindings(orphans)[j] == DanglingFinding(ToEndpoint(s.relationships[i]));
    OrphansEmptyIff(s.relationships, labels);
    assert !StructuralChecks(s)[10];
    FailedFindingListed(StructuralChecks(s), 10);
  }

  /** A failed check is reported, with the severity of its kind. */
  lemma {:induction false} FailedFindingListed(c: seq<bool>, k: nat)
    requires |c| <= |CheckNames| && k < |c| && !c[k]
    ensures FailedFinding(k) in FailedFindings(c)
    decreases |c|
  {
    if k < |c| - 1 {
      FailedFindingListed(c[..|c| - 1], k);
    }
  }

  /** A passed check is never reported. */
  lemma {:induction false} PassedNotListed(c: seq<bool>, k: nat)
    requires |c| <= |CheckNames| && k < |c| && c[k]
    ensures FailedFinding(k) !in FailedFindings(c)
    decreases |c|
  {
    if |c| - 1 != k {
      PassedNotListed(c[..|c| - 1], k);
      var last := |c| - 1;
      if !c[last] {
        FailedFindingsDistinct(last, k);
      }
    } else {
      FailedNotBefore(c[..|c| - 1], k);
    }
  }

  /** Findings for the first checks never name a later check. */
  lemma {:induction false} FailedNotBefore(c: seq<bool>, k: nat)
    requires |c| <= k < |CheckNames|
    ensures FailedFinding(k) !in FailedFindings(c)
    decreases |c|
  {
    if |c| > 0 {
      FailedNotBefore(c[..|c| - 1], k);
      var last := |c| - 1;
      if !c[last] {
        FailedFindingsDistinct(last, k);
      }
    }
  }

  /** Failed-check findings of different checks differ. */
  lemma FailedFindingsDistinct(i: nat, j: nat)
    requires i < |CheckNames| && j < |CheckNames| && i != j
    ensures FailedFinding(i) != FailedFinding(j)
  {
    CheckNamesDistinct(i, j);
    SuffixCancel(CheckNames[i], CheckNames[j], " \U{2014} FAILED");
  }

  lemma SuffixCancel(a: string, b: string, t: string)
    ensures a + t == b + t ==> a == b
  {
    if a + t == b + t {
      assert a == (a + t)[..|a|];
      assert b == (b + t)[..|b|];
    }
  }

  lemma CheckNamesDistinct(i: nat, j: nat)
    requires i < |CheckNames| && j < |CheckNames| && i != j
    ensures CheckNames[i] != CheckNames[j]
  {
  }

  /** A check's FAILED finding is present exactly when the check fails. */
  lemma FailedCheckReported(s: GraphSchema, k: nat)
    requires k < |CheckNames|
    ensures FailedFinding(k) in FailedFindings(StructuralChecks(s)) <==> !StructuralChecks(s)[k]
  {
    var c := StructuralChecks(s);
    if c[k] { PassedNotListed(c, k); } else { FailedFindingListed(c, k); }
  }

  /** Every structural finding carries the stage "STRUCTURAL". */
  lemma StructuralStage(s: GraphSchema)
    ensures forall f :: f in StructuralFindings(s) ==> f.stage == Structural
  {
    FailedStage(StructuralChecks(s));
  }

  lemma {:induction false} FailedStage(c: seq<bool>)
    requires |c| <= |CheckNames|
    ensures forall f :: f in FailedFindings(c) ==> f.stage == Structural
    decreases |c|
  {
    if |c| > 0 { FailedStage(c[..|c| - 1]); }
  }

  /**
   * The connectivity check passes when at most max(1, nodes // 5) labels are
   * disconnected; an INFO finding lists them whenever there are any.
   */
  lemma ConnectivityReported(s: GraphSchema)
    ensures StructuralChecks(s)[11] <==> |Disconnected(s)| <= MaxDisconnected(s)
    ensures var orphans := OrphanEndpoints(s.relationships, NodeLabels(s.nodes));
      Disconnected(s) != {} <==>
        (|StructuralFindings(s)| > |orphans| && StructuralFindings(s)[|orphans|] == DisconnectedFinding(Disconnected(s)))
  {
    var orphans := OrphanEndpoints(s.relationships, NodeLabels(s.nodes));
    var d := Disconnected(s);
    var fs := StructuralFindings(s);
    if d == {} && |fs| > |orphans| {
      var rest := FailedFindings(StructuralChecks(s));
      assert fs[|orphans|] == rest[0];
      FailedStage(StructuralChecks(s));
      NotInfoSeverityOr8(StructuralChecks(s), rest[0]);
    }
  }

  /** A FAILED finding never equals the INFO connectivity line. */
  lemma NotInfoSeverityOr8(c: seq<bool>, f: Finding)
    requires |c| <= |CheckNames|
    requires f in FailedFindings(c)
    ensures forall d :: f != DisconnectedFinding(d)
  {
    FailedShape(c);
    var k :| 0 <= k < |c| && f == FailedFinding(k);
    forall d ensures f != DisconnectedFinding(d) {
      var m := DisconnectedFinding(d).message;
      assert m[|m| - 1] == ']';
      assert f.message[|f.message| - 1] == 'D';
    }
  }

  lemma {:induction false} FailedShape(c: seq<bool>)
    requires |c| <= |CheckNames|
    ensures forall f :: f in FailedFindings(c) ==> exists k :: 0 <= k < |c| && f == FailedFinding(k)
    decreases |c|
  {
    if |c| > 0 { FailedShape(c[..|c| - 1]); }
  }

  /** A fully specified three-node, two-relationship schema scores 1.0 with no findings. */
  lemma CompleteSchemaScoresOne()
    ensures StructuralScore(CompleteSchema) == 1.0
    ensures StructuralFindings(CompleteSchema) == []
  {
    var c := StructuralChecks(CompleteSchema);
    CompleteSchemaPasses();
    AllTrueCount(c);
    assert CountTrue(c) as real / |CheckNames| as real == 1000 as real / 1000.0;
    Round3Exact(1000);
    NoFailed(c);
    CompleteSchemaConnected();
    CompleteSchemaNoOrphans();
  }

  lemma CompleteSchemaLabels()
    ensures NodeLabels(CompleteSchema.nodes) == {"Account", "Transaction", "Merchant"}
  {
    var ns := CompleteSchema.nodes;
    assert ns[0].nodeLabel == "Account" && ns[1].nodeLabel == "Transaction" && ns[2].nodeLabel == "Merchant";
  }

  lemma CompleteSchemaNoOrphans()
    ensures OrphanEndpoints(CompleteSchema.relationships, NodeLabels(CompleteSchema.nodes)) == []
  {
    CompleteSchemaLabels();
    OrphansEmptyIff(CompleteSchema.relationships, NodeLabels(CompleteSchema.nodes));
  }

  lemma CompleteSchemaConnected()
    ensures Disconnected(CompleteSchema) == {}
  {
    CompleteSchemaLabels();
    var rels := CompleteSchema.relationships;
    assert rels[..2][..1] == rels[..1] && rels[..2] == rels;
    assert ConnectedLabels(rels[..1]) == {"Account", "Transaction"};
    assert ConnectedLabels(rels) == {"Account", "Transaction", "Merchant"};
  }

  lemma CompleteSchemaPasses()
    ensures forall k :: 0 <= k < 12 ==> StructuralChecks(CompleteSchema)[k]
  {
    CompleteSchemaNoOrphans();
    CompleteSchemaConnected();
    CompleteNodesFilledIn();
    CompleteRelationshipsFilledIn();
    FilledInPasses(CompleteSchema);
  }

  /** A schema large enough, filled in everywhere and connected passes every check. */
  lemma FilledInPasses(s: GraphSchema)
    requires |s.nodes| >= 3 && |s.relationships| >= 2 && |s.constraints| >= 1 && |s.indexes| >= 1
    requires forall i :: 0 <= i < |s.nodes| ==>
      var n := s.nodes[i];
      n.requiredProperties != [] && |n.justifiedBy| >= MinJustificationLen && RequiredWithinProperties(n)
    requires forall i :: 0 <= i < |s.relationships| ==>
      var r := s.relationships[i];
      r.directionRationale != "" && |r.justifiedBy| >= MinJustificationLen
    requires OrphanEndpoints(s.relationships, NodeLabels(s.nodes)) == [] && Disconnected(s) == {}
    ensures forall k :: 0 <= k < 12 ==> StructuralChecks(s)[k]
  {
  }

  lemma CompleteNodesFilledIn()
    ensures forall i :: 0 <= i < |CompleteSchema.nodes| ==>
      var n := CompleteSchema.nodes[i];
      n.requiredProperties != [] && |n.justifiedBy| >= MinJustificationLen && RequiredWithinProperties(n)
  {
    var ns := CompleteSchema.nodes;
    assert RequiredWithinProperties(ns[0]) by { assert ns[0].requiredProperties == [ns[0].properties[0], ns[0].properties[1]]; }
    assert RequiredWithinProperties(ns[1]) by { assert ns[1].requiredProperties == [ns[1].properties[0], ns[1].properties[1]]; }
    assert RequiredWithinProperties(ns[2]) by { assert ns[2].requiredProperties == [ns[2].properties[0]]; }
  }

  lemma CompleteRelationshipsFilledIn()
    ensures forall i :: 0 <= i < |CompleteSchema.relationships| ==>
      var r := CompleteSchema.relationships[i];
      r.directionRationale != "" && |r.justifiedBy| >= MinJustificationLen
  {
  }

  lemma {:induction false} AllTrueCount(c: seq<bool>)
    requires forall i :: 0 <= i < |c| ==> c[i]
    ensures CountTrue(c) == |c|
    decreases |c|
  {
    if |c| > 0 { AllTrueCount(c[..|c| - 1]); }
  }

  lemma {:induction false} NoFailed(c: seq<bool>)
    requires |c| <= |CheckNames|
    requires forall i :: 0 <= i < |c| ==> c[i]
    ensures FailedFindings(c) == []
    decreases |c|
  {
    if |c| > 0 { NoFailed(c[..|c| - 1]); }
  }

  /** A payment-fraud schema with every field filled in. */
  const CompleteSchema := GraphSchema(
    [ NodeSchema("Account", ["id", "iban", "opened_at"], ["id", "iban"], "Bank account",
                 "Fraud rings move money between accounts"),
      NodeSchema("Transaction", ["id", "amount", "at"], ["id", "amount"], "Money transfer",
                 "Transaction monitoring is required by PSD2"),
      NodeSchema("Merchant", ["id", "name"], ["id"], "Card acceptor",
                 "Merchant risk scoring needs merchant nodes") ],
    [ RelationshipSchema("SENT", "Account", "Transaction", ["at"], "Outgoing payment",
                         "Money flows from the account", "Traces the origin of each payment"),
      RelationshipSchema("PAID", "Transaction", "Merchant", [], "Payment to merchant",
                         "Money flows to the merchant", "Links payments to merchant risk") ],
    ["CREATE CONSTRAINT account_id FOR (a:Account) REQUIRE a.id IS UNIQUE"],
    ["CREATE INDEX tx_at FOR (t:Transaction) ON (t.at)"],
    "CREATE CONSTRAINT account_id FOR (a:Account) REQUIRE a.id IS UNIQUE;\nCREATE INDEX tx_at FOR (t:Transaction) ON (t.at);")

  // ---------------------------------------------------------------------------
  // Cypher setup quality
  // ---------------------------------------------------------------------------

  const CypherStage := "CYPHER"

  /** The first keyword, in visiting order, that occurs in `upper`. */
  function FirstForbidden(order: seq<string>, upper: string): (r: Option<string>)
    ensures r.Some? ==> r.value in order && Contains(upper, r.value)
    ensures r.None? ==> forall k :: k in order ==> !Contains(upper, k)
    decreases |order|
  {
    if |order| == 0 then None
    else if Contains(upper, order[0]) then Some(order[0])
    else FirstForbidden(order[1..], upper)
  }

  /** The score and findings `score_cypher_quality` returns. */
  function CypherQuality(order: seq<string>, cypher: string): (real, seq<Finding>)
  {
    var upper := Upper(cypher);
    if IsBlank(cypher) then (0.0, [Finding(Error, CypherStage, "Setup script is empty")])
    else
      match FirstForbidden(order, upper)
      case Some(k) => (0.0, [Finding(Error, CypherStage, "Contains dangerous keyword '" + k + "'")])
      case None =>
        var hasConstraint := Contains(upper, "CREATE CONSTRAINT");
        var hasIndex := Contains(upper, "CREATE INDEX");
        ( (if hasConstraint then 0.5 else 0.0) + (if hasIndex then 0.5 else 0.0),
          (if hasConstraint then [] else [Finding(Warning, CypherStage, "No CREATE CONSTRAINT in setup")])
          + (if hasIndex then [] else [Finding(Warning, CypherStage, "No CREATE INDEX in setup")]) )
  }

  /** `score_cypher_quality`, visiting the keywords in `order`. */
  method ScoreCypherQuality(order: seq<string>, cypher: string) returns (score: real, findings: seq<Finding>)
    requires IsKeywordOrder(order)
    ensures (score, findings) == CypherQuality(order, cypher)
  {
    if IsBlank(cypher) {
      return 0.0, [Finding(Error, CypherStage, "Setup script is empty")];
    }
    var upper := Upper(cypher);
    var i := 0;
    while i < |order|
      invariant 0 <= i <= |order|
      invariant FirstForbidden(order, upper) == FirstForbidden(order[i..], upper)
    {
      if Contains(upper, order[i]) {
        assert order[i..][0] == order[i];
        return 0.0, [Finding(Error, CypherStage, "Contains dangerous keyword '" + order[i] + "'")];
      }
      assert order[i..][1..] == order[i + 1..];
      i := i + 1;
    }
    assert order[i..] == [];
    assert FirstForbidden(order, upper) == None;
    score, findings := 0.0, [];
    if Contains(upper, "CREATE CONSTRAINT") {
      score := score + 0.5;
    } else {
      findings := findings + [Finding(Warning, CypherStage, "No CREATE CONSTRAINT in setup")];
    }
    if Contains(upper, "CREATE INDEX") {
      score := score + 0.5;
    } else {
      findings := findings + [Finding(Warning, CypherStage, "No CREATE INDEX in setup")];
    }
    assert score == CypherQuality(order, cypher).0;
    assert findings == CypherQuality(order, cypher).1;
  }

  /** The Cypher quality score is 0, 0.5 or 1. */
  lemma CypherQualityValues(order: seq<string>, cypher: string)
    requires IsKeywordOrder(order)
    ensures CypherQuality(order, cypher).0 in {0.0, 0.5, 1.0}
  {
    CypherQualityOutcomes(order, cypher);
  }

  /**
   * The three outcomes of the Cypher quality score: a blank script and a
   * script holding a forbidden keyword score 0 with exactly one ERROR; any
   * other script earns 0.5 per CREATE CONSTRAINT / CREATE INDEX and one
   * WARNING per missing part.
   */
  lemma CypherQualityOutcomes(order: seq<string>, cypher: string)
    requires IsKeywordOrder(order)
    ensures var (score, fs) := CypherQuality(order, cypher);
      && score in {0.0, 0.5, 1.0}
      && (IsBlank(cypher) ==> score == 0.0 && |fs| == 1 && fs[0].severity == Error)
      && (!IsBlank(cypher) && (exists k :: k in ForbiddenKeywords && Contains(Upper(cypher), k)) ==>
            score == 0.0 && |fs| == 1 && fs[0].severity == Error
            && exists k :: k in ForbiddenKeywords && Contains(Upper(cypher), k)
                 && fs[0].message == "Contains dangerous keyword '" + k + "'")
      && (!IsBlank(cypher) && (forall k :: k in ForbiddenKeywords ==> !Contains(Upper(cypher), k)) ==>
            && score == (if Contains(Upper(cypher), "CREATE CONSTRAINT") then 0.5 else 0.0)
                      + (if Contains(Upper(cypher), "CREATE INDEX") then 0.5 else 0.0)
            && |fs| == (if Contains(Upper(cypher), "CREATE CONSTRAINT") then 0 else 1)
                     + (if Contains(Upper(cypher), "CREATE INDEX") then 0 else 1)
            && forall f :: f in fs ==> f.severity == Warning)
  {
    KeywordOrderCovers(order);
  }
}
