/**
 * The training pipeline's records: graph schemas submitted for validation,
 * severity-tagged findings, the validation result with its score bounds and
 * severity filters, and the use-case record's approval and winner accessors.
 */
module Models {
  import opened Wrappers
  import opened Text
  import opened Rounding

  // ---------------------------------------------------------------------------
  // Findings
  // ---------------------------------------------------------------------------

  datatype FindingSeverity = Error | Warning | Info

  /** The enum's string value. */
  function SeverityValue(s: FindingSeverity): string
  {
    match s
    case Error => "error"
    case Warning => "warning"
    case Info => "info"
  }

  /** A finding; `stage` is one of SYNTACTIC, STRUCTURAL, SEMANTIC, CYPHER. */
  datatype Finding = Finding(severity: FindingSeverity, stage: string, message: string)

  /** `str(finding)`: "[SEVERITY] stage: message". */
  function FindingText(f: Finding): (r: string)
    ensures StartsWith(r, "[" + Upper(SeverityValue(f.severity)) + "] ")
    ensures EndsWith(r, ": " + f.message)
  {
    var head := "[" + Upper(SeverityValue(f.severity)) + "] ";
    var r := head + f.stage + ": " + f.message;
    assert r[..|head|] == head;
    assert r[|r| - |": " + f.message|..] == ": " + f.message;
    r
  }

  function SeverityFromText(t: string): Option<FindingSeverity>
  {
    if t == "ERROR" then Some(Error)
    else if t == "WARNING" then Some(Warning)
    else if t == "INFO" then Some(Info)
    else None
  }

  /** Reads a finding back from its text; the stage ends at the first ':'. */
  function ParseFinding(t: string): Option<Finding>
  {
    if |t| == 0 || t[0] != '[' then None
    else
      var e := FindChar(t, ']', 1);
      if e < 0 || e + 1 >= |t| || t[e + 1] != ' ' then None
      else
        var sev := SeverityFromText(t[1..e]);
        if sev.None? then None else ParseStageMessage(sev.value, t[e + 2..])
  }

  /** Reads "stage: message" after the severity tag. */
  function ParseStageMessage(sev: FindingSeverity, rest: string): Option<Finding>
  {
    var c := FindChar(rest, ':', 0);
    if c < 0 || c + 1 >= |rest| || rest[c + 1] != ' ' then None
    else Some(Finding(sev, rest[..c], rest[c + 2..]))
  }

  /** A finding whose stage holds no ':' is recovered from its text. */
  lemma ParseFindingText(f: Finding)
    requires ':' !in f.stage
    ensures ParseFinding(FindingText(f)) == Some(f)
  {
    var sevText := Upper(SeverityValue(f.severity));
    SeverityTextReadsBack(f.severity);
    var rest := f.stage + ": " + f.message;
    ParseSeverityTag(sevText, f.severity, rest);
    ParseStageMessageText(f.severity, f.stage, f.message);
    assert FindingText(f) == "[" + sevText + "] " + rest;
  }

  /** The upper-cased severity value reads back as that severity. */
  lemma SeverityTextReadsBack(sev: FindingSeverity)
    ensures SeverityFromText(Upper(SeverityValue(sev))) == Some(sev)
  {
    match sev {
      case Error => assert Upper(SeverityValue(sev)) == "ERROR";
      case Warning => assert Upper(SeverityValue(sev)) == "WARNING";
      case Info => assert Upper(SeverityValue(sev)) == "INFO";
    }
  }

  lemma ParseSeverityTag(sevText: string, sev: FindingSeverity, rest: string)
    requires SeverityFromText(sevText) == Some(sev)
    ensures ParseFinding("[" + sevText + "] " + rest) == ParseStageMessage(sev, rest)
  {
    assert ']' !in sevText;
    var t := "[" + sevText + "] " + rest;
    assert t == "[" + sevText + [']'] + (" " + rest);
    FindCharAt("[", sevText, ']', " " + rest);
    var e := |sevText| + 1;
    assert t[1..e] == sevText;
    assert t[e + 2..] == rest;
    ParseFindingUnfold(t, e, sev, rest);
  }

  /** `ParseFinding` on a text whose tag closes at `e` with a known severity. */
  lemma ParseFindingUnfold(t: string, e: int, sev: FindingSeverity, rest: string)
    requires |t| > 0 && t[0] == '[' && FindChar(t, ']', 1) == e && 0 <= e && e + 1 < |t| && t[e + 1] == ' '
    requires 1 <= e && SeverityFromText(t[1..e]) == Some(sev) && t[e + 2..] == rest
    ensures ParseFinding(t) == ParseStageMessage(sev, rest)
  {
  }

  lemma ParseStageMessageText(sev: FindingSeverity, stage: string, message: string)
    requires ':' !in stage
    ensures ParseStageMessage(sev, stage + ": " + message) == Some(Finding(sev, stage, message))
  {
    var rest := stage + ": " + message;
    assert rest == "" + stage + [':'] + (" " + message);
    FindCharAt("", stage, ':', " " + message);
    assert rest[..|stage|] == stage;
    assert rest[|stage| + 2..] == message;
  }

  /** The first `c` at or after the end of `pre` follows the `c`-free text `x`. */
  lemma FindCharAt(pre: string, x: string, c: char, post: string)
    requires c !in x
    ensures FindChar(pre + x + [c] + post, c, |pre|) == |pre| + |x|
  {
    var s := pre + x + [c] + post;
    assert s[|pre| + |x|] == c;
    assert forall i :: |pre| <= i < |pre| + |x| ==> s[i] == x[i - |pre|];
  }

  /** Distinct findings (with ':'-free stages) print differently. */
  lemma FindingTextInjective(f: Finding, g: Finding)
    requires ':' !in f.stage && ':' !in g.stage
    requires FindingText(f) == FindingText(g)
    ensures f == g
  {
    ParseFindingText(f);
    ParseFindingText(g);
  }

  // ---------------------------------------------------------------------------
  // Graph schemas
  // ---------------------------------------------------------------------------

  datatype NodeSchema = NodeSchema(
    nodeLabel: string,
    properties: seq<string>,
    requiredProperties: seq<string>,
    description: string,
    justifiedBy: string)

  datatype RelationshipSchema = RelationshipSchema(
    relType: string,
    fromLabel: string,
    toLabel: string,
    properties: seq<string>,
    description: string,
    directionRationale: string,
    justifiedBy: string)

  datatype GraphSchema = GraphSchema(
    nodes: seq<NodeSchema>,
    relationships: seq<RelationshipSchema>,
    constraints: seq<string>,
    indexes: seq<string>,
    cypherSetup: string)

  // ---------------------------------------------------------------------------
  // Validation result
  // ---------------------------------------------------------------------------

  /**
   * One element of the findings list handed to `ValidationResult`. The scoring
   * functions produce `Finding` records; the syntactic and semantic stages
   * produce bare strings, which the `list[Finding]` field refuses.
   */
  datatype Entry = Typed(finding: Finding) | Plain(text: string)

  datatype ValidationResult = ValidationResult(
    syntactic: bool,
    structuralScore: real,
    semanticScore: real,
    domainScore: real,
    overallScore: real,
    findings: seq<Finding>,
    approvedForTraining: bool)

  /** The four scores of a result lie in [0, 1], as the field bounds demand. */
  predicate ScoresInUnit(v: ValidationResult)
  {
    InUnit(v.structuralScore) && InUnit(v.semanticScore) && InUnit(v.domainScore) && InUnit(v.overallScore)
  }

  /** Every entry is a `Finding` record. */
  predicate AllTyped(es: seq<Entry>)
  {
    forall i :: 0 <= i < |es| ==> es[i].Typed?
  }

  /** The records of an all-record findings list, in order. */
  function Records(es: seq<Entry>): (r: seq<Finding>)
    requires AllTyped(es)
    ensures |r| == |es| && forall i :: 0 <= i < |r| ==> es[i] == Typed(r[i])
  {
    seq(|es|, i requires 0 <= i < |es| => es[i].finding)
  }

  /** The message pydantic gives for a findings element that is not a `Finding`. */
  const FindingTypeError := "findings: Input should be a valid dictionary or instance of Finding"

  /**
   * Constructing a `ValidationResult`: every score must lie in [0, 1], every
   * finding must be a `Finding` record, and `approved_for_training` is false
   * unless given. Anything else raises pydantic's `ValidationError`.
   */
  function NewValidationResult(
    syntactic: bool, structural: real, semantic: real, domain: real, overall: real,
    findings: seq<Entry>, approved: Option<bool>): (r: Result<ValidationResult, string>)
    ensures r.Ok? <==> InUnit(structural) && InUnit(semantic) && InUnit(domain) && InUnit(overall)
                       && AllTyped(findings)
    ensures !AllTyped(findings) ==> r == Err(FindingTypeError)
    ensures r.Ok? ==> r.value.approvedForTraining == (approved == Some(true))
    ensures r.Ok? ==> |r.value.findings| == |findings|
                      && (forall i :: 0 <= i < |findings| ==> findings[i] == Typed(r.value.findings[i]))
    ensures r.Ok? ==> ScoresInUnit(r.value)
    ensures r.Ok? ==> && r.value.syntactic == syntactic && r.value.structuralScore == structural
                      && r.value.semanticScore == semantic && r.value.domainScore == domain
                      && r.value.overallScore == overall
  {
    if !AllTyped(findings) then Err(FindingTypeError)
    else if InUnit(structural) && InUnit(semantic) && InUnit(domain) && InUnit(overall) then
      Ok(ValidationResult(syntactic, structural, semantic, domain, overall, Records(findings),
                          approved.GetOr(false)))
    else Err("score must lie between 0.0 and 1.0")
  }

  /** The findings of one severity, in order. */
  function OfSeverity(fs: seq<Finding>, s: FindingSeverity): (r: seq<Finding>)
    ensures forall i :: 0 <= i < |r| ==> r[i].severity == s && r[i] in fs
    decreases |fs|
  {
    if |fs| == 0 then []
    else
      var init := OfSeverity(fs[..|fs| - 1], s);
      var last := fs[|fs| - 1];
      if last.severity == s then init + [last] else init
  }

  /** `errors`, `warnings`, `infos`. */
  function Errors(v: ValidationResult): seq<Finding> { OfSeverity(v.findings, Error) }
  function Warnings(v: ValidationResult): seq<Finding> { OfSeverity(v.findings, Warning) }
  function Infos(v: ValidationResult): seq<Finding> { OfSeverity(v.findings, Info) }

  /** The filters keep order: filtering a concatenation concatenates the filtered parts. */
  lemma {:induction false} OfSeverityAppend(a: seq<Finding>, b: seq<Finding>, s: FindingSeverity)
    ensures OfSeverity(a + b, s) == OfSeverity(a, s) + OfSeverity(b, s)
    decreases |b|
  {
    if |b| > 0 {
      assert (a + b)[..|a + b| - 1] == a + b[..|b| - 1];
      OfSeverityAppend(a, b[..|b| - 1], s);
    } else {
      assert a + b == a;
    }
  }

  /** The three filters partition the findings: their lengths add up to the total. */
  lemma {:induction false} SeverityPartition(fs: seq<Finding>)
    ensures |OfSeverity(fs, Error)| + |OfSeverity(fs, Warning)| + |OfSeverity(fs, Info)| == |fs|
    decreases |fs|
  {
    if |fs| > 0 { SeverityPartition(fs[..|fs| - 1]); }
  }

  /** For a result, `errors`, `warnings` and `infos` together hold every finding once. */
  lemma SeverityPartitionResult(v: ValidationResult)
    ensures |Errors(v)| + |Warnings(v)| + |Infos(v)| == |v.findings|
  {
    SeverityPartition(v.findings);
  }

  /** Wraps scoring findings as entries of a findings list. */
  function AsEntries(fs: seq<Finding>): (r: seq<Entry>)
    ensures |r| == |fs| && forall i :: 0 <= i < |r| ==> r[i] == Typed(fs[i])
    ensures AllTyped(r) && Records(r) == fs
  {
    seq(|fs|, i requires 0 <= i < |fs| => Typed(fs[i]))
  }

  /**
   * A findings list made of bare strings and records in the four-stage layout
   * holds only records exactly when both string parts are empty.
   */
  lemma StageEntriesTyped(p: seq<string>, a: seq<Finding>, q: seq<string>, c: seq<Finding>)
    ensures AllTyped(AsPlain(p) + AsEntries(a) + AsPlain(q) + AsEntries(c)) <==> p == [] && q == []
    ensures p == [] && q == [] ==>
      (AllTyped(AsPlain(p) + AsEntries(a) + AsPlain(q) + AsEntries(c))
       && Records(AsPlain(p) + AsEntries(a) + AsPlain(q) + AsEntries(c)) == a + c)
  {
    var es := AsPlain(p) + AsEntries(a) + AsPlain(q) + AsEntries(c);
    if p != [] {
      assert es[0] == Plain(p[0]);
    } else if q != [] {
      assert es[|a|] == Plain(q[0]);
    } else {
      assert AsPlain(p) == [] && AsPlain(q) == [];
      assert es == AsEntries(a) + AsEntries(c);
      assert forall i :: 0 <= i < |es| ==> es[i] == Typed((a + c)[i]);
    }
  }

  /**
   * Rebuilding a valid result with a new domain and overall score in [0, 1]
   * and extra records appended succeeds, with approval given explicitly.
   */
  lemma Rebuild(v: ValidationResult, domain: real, overall: real, extra: seq<Finding>, approved: bool)
    requires ScoresInUnit(v) && InUnit(domain) && InUnit(overall)
    ensures NewValidationResult(v.syntactic, v.structuralScore, v.semanticScore, domain, overall,
                                AsEntries(v.findings + extra), Some(approved))
         == Ok(ValidationResult(v.syntactic, v.structuralScore, v.semanticScore, domain, overall,
                                v.findings + extra, approved))
  {
  }

  /** Wraps bare-string findings as entries of a findings list. */
  function AsPlain(ts: seq<string>): (r: seq<Entry>)
    ensures |r| == |ts| && forall i :: 0 <= i < |r| ==> r[i] == Plain(ts[i])
  {
    seq(|ts|, i requires 0 <= i < |ts| => Plain(ts[i]))
  }

  /** A finding is in a filter exactly when it is in the list with that severity. */
  lemma {:induction false} OfSeverityMembers(fs: seq<Finding>, s: FindingSeverity)
    ensures forall f :: f in OfSeverity(fs, s) <==> f in fs && f.severity == s
    decreases |fs|
  {
    if |fs| > 0 {
      OfSeverityMembers(fs[..|fs| - 1], s);
      assert fs == fs[..|fs| - 1] + [fs[|fs| - 1]];
    }
  }

  // ---------------------------------------------------------------------------
  // Use-case record
  // ---------------------------------------------------------------------------

  /** A synthesis candidate, reduced to the fields the model reads. */
  datatype SynthesisResult = SynthesisResult(model: string, graphSchema: GraphSchema)

  datatype Winner = A | B

  datatype UseCaseRecord = UseCaseRecord(
    synthesisA: Option<SynthesisResult>,
    synthesisB: Option<SynthesisResult>,
    winner: Option<Winner>,
    validation: Option<ValidationResult>)

  /** `is_approved`. */
  function IsApproved(u: UseCaseRecord): (r: bool)
    ensures r ==> u.validation.Some?
    ensures u.validation.Some? ==> (r <==> u.validation.value.approvedForTraining)
  {
    u.validation.Some? && u.validation.value.approvedForTraining
  }

  /** `winning_synthesis`. */
  function WinningSynthesis(u: UseCaseRecord): (r: Option<SynthesisResult>)
    ensures u.winner.None? ==> r.None?
    ensures u.winner == Some(A) ==> r == u.synthesisA
    ensures u.winner == Some(B) ==> r == u.synthesisB
  {
    match u.winner
    case None => None
    case Some(A) => u.synthesisA
    case Some(B) => u.synthesisB
  }
}
