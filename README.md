# GibsGraph core, modelled in Dafny

GibsGraph turns natural-language questions into Neo4j graph queries. It also
trains an LLM to design graph schemas, and judges the schemas it proposes
against an expert graph of Neo4j documentation. This project models the
deterministic core of that system and proves what it promises:

- **Training pipeline** (`models`, `prompts`, `scorer`, `validator`,
  `validator_rules`, `rounding`, `fences`):
  - the finding records and their severity filters;
  - the twelve structural checks and the Cypher-quality score;
  - YES-counting over the Socratic answers;
  - the five-weight quality score;
  - the syntactic gate over a schema's setup script, the semantic alignment
    with the expert graph, and the gated overall score with its approval rule.
- **Retrieval** (`pcst`, `retriever`, `pyvalue`):
  - node texts and clamped similarity prizes;
  - the boost of the top prizes and the translation into and out of the
    prize-collecting Steiner tree solver;
  - the discovered schema and its prompt;
  - record conversion and context serialisation;
  - the choice between the vector and text-to-Cypher strategies, with the
    retry loop.
- **Tools and the expert store** (`cypher_guard`, `visualizer`, `expert`):
  - the read-only Cypher guard and parameter extraction;
  - the Mermaid chart and the Bloom link;
  - Lucene escaping, the expert prompt section, and the store's
    availability cache.
- **Agent and configuration** (`agent`, `config`):
  - the node functions, the routing rule and the choice of chat client;
  - the provider registry and the Neo4j URI check.
- **Data scripts** (`asciidoc`, `cypher_docs`, `modeling_docs`,
  `generate_embeddings`, `load_embeddings`, `generate_cypher_load`,
  `load_via_docker`, `cypher_literal`):
  - the AsciiDoc parsers of the Cypher manual and the modelling guide;
  - the embedding documents and their numbering;
  - whitespace-normalised matching of example embeddings;
  - the two Cypher load scripts, with their string-literal escaping
    (`cypher_literal` holds the literal decoder Neo4j applies to them).

`text`, `seqs` and `wrappers` hold the Python primitives the rest share.
These are ASCII string operations, first-occurrence de-duplication,
chunking, `Option` and `Result`.

External parties are parameters of the operations that use them. These are
the LLM, the Neo4j driver, the `pcst_fast` solver, numpy's `argsort`, the
cosine similarity and `json.loads`. Each parameter is used only through
what it promises. Loops in the source are methods with loop invariants,
proved equal to a specification function. Objects that update their own
fields are classes: `SchemaValidator`, `ExpertStore` and `GraphRetriever`.

## Model

| member | source | states |
|---|---|---|
| Models.FindingText | src/gibsgraph/training/models.py:115-127 | `str(finding)` starts with the upper-cased severity in brackets and ends with ": " and the message |
| Models.ParseFindingText | src/gibsgraph/training/models.py:126-127 | a finding whose stage holds no ':' is read back unchanged from its text (the text is a lossless encoding) |
| Models.ParseSeverityTag | src/gibsgraph/training/models.py:126-127 | the bracketed severity tag is read back as the severity it names |
| Models.ParseStageMessageText | src/gibsgraph/training/models.py:126-127 | "stage: message" splits back into stage and message at the first ':' |
| Models.FindingTextInjective | src/gibsgraph/training/models.py:126-127 | two findings with ':'-free stages that print the same are the same finding |
| Models.NewValidationResult | src/gibsgraph/training/models.py:181-192 | construction succeeds exactly when all four scores lie in [0, 1] and every finding is a `Finding` record; a bare-string finding raises pydantic's findings error; on success the fields are the arguments, the findings are the records in order, and approval is false unless given |
| Models.OfSeverity | src/gibsgraph/training/models.py:193-207 | the severity filter returns only findings of that severity, each taken from the findings list |
| Models.OfSeverityAppend | src/gibsgraph/training/models.py:193-207 | the filters keep order: filtering a concatenation concatenates the filtered parts |
| Models.SeverityPartition | src/gibsgraph/training/models.py:193-207 | the lengths of `errors`, `warnings` and `infos` add up to the number of findings: each finding is in exactly one filter |
| Models.SeverityPartitionResult | src/gibsgraph/training/models.py:193-207 | for a result, the three properties together hold as many findings as the result has |
| Models.StageEntriesTyped | src/gibsgraph/training/validator.py:69-84 | a findings list built from bare strings and records in the four-stage layout holds only records exactly when both string parts are empty; its records are then the two record parts, in order |
| Models.OfSeverityMembers | src/gibsgraph/training/models.py:193-207 | a finding is in a severity filter exactly when it is in the findings list and has that severity |
| Models.IsApproved | src/gibsgraph/training/models.py:238-241 | approved only with a validation result, and then exactly when that result is approved for training |
| Models.WinningSynthesis | src/gibsgraph/training/models.py:243-251 | winner "a" gives synthesis A, "b" gives synthesis B, no winner gives None |
| Rounding.Round3 | src/gibsgraph/training/validator.py:253-257 | `round(x, 3)` returns a multiple of 0.001 within half a thousandth of `x` |
| Rounding.Round3Monotone | src/gibsgraph/training/validator.py:253-257 | rounding to three decimals preserves order |
| Rounding.Round3InUnit | src/gibsgraph/training/scorer.py:90 | rounding keeps a score inside [0, 1] |
| Rounding.Round3AtMost | src/gibsgraph/training/validator.py:253 | rounding never lifts a value above a multiple of 0.001 (such as the 0.3 cap) that bounds it |
| Rounding.Clamp01 | src/gibsgraph/retrieval/pcst_pruner.py:89 | `max(0.0, min(1.0, x))` lies in [0, 1], leaves values in [0, 1] alone and sends values below 0 to 0 and above 1 to 1 |
| ValidatorRules.SomeKeywordOrderIsOrder | src/gibsgraph/training/validator.py:44 | the listed order visits each forbidden keyword exactly once |
| ValidatorRules.KeywordOrderCovers | src/gibsgraph/training/validator.py:165 | any iteration order of `FORBIDDEN_KEYWORDS` visits every keyword and nothing else |
| Validator.ConstraintLabelAt | src/gibsgraph/training/validator.py:174-176 | a match of `FOR\s*\(\w+:(\w+)\)` yields a non-empty label of word characters |
| Validator.FirstConstraintLabelLeftmost | src/gibsgraph/training/validator.py:174 | `re.search` returns the leftmost match, and returns none only when no position matches |
| Validator.ValidateSyntactic | src/gibsgraph/training/validator.py:154-189 | `_validate_syntactic` returns the gate verdict and findings given by the specification functions (blank script, keywords, constraint labels, generic labels) |
| Validator.CheckKeywords | src/gibsgraph/training/validator.py:163-168 | the keyword loop fails exactly when some forbidden keyword occurs in the upper-cased script and reports each one found |
| Validator.CheckConstraints | src/gibsgraph/training/validator.py:170-179 | the constraint loop fails exactly when some constraint names an undeclared label |
| Validator.CheckGenericLabels | src/gibsgraph/training/validator.py:181-187 | the generic-label loop fails exactly when some node label is generic |
| Validator.KeywordFindingsEmpty | src/gibsgraph/training/validator.py:163-168 | no keyword finding exactly when no forbidden keyword occurs |
| Validator.ConstraintFindingsEmpty | src/gibsgraph/training/validator.py:170-179 | no constraint finding exactly when every constraint's label is declared |
| Validator.GenericFindingsEmpty | src/gibsgraph/training/validator.py:181-187 | no generic-label finding exactly when no label is generic |
| Validator.SyntacticOkIffNoFindings | src/gibsgraph/training/validator.py:154-189 | the gate passes exactly when stage 1 reports nothing |
| Validator.BlankSetupFails | src/gibsgraph/training/validator.py:159-161 | a blank setup script fails the gate with exactly the one "empty" finding |
| Validator.KeywordReported | src/gibsgraph/training/validator.py:165-168 | each forbidden keyword is reported exactly when it occurs, whatever the others do (no early exit) |
| Validator.KeywordNotReported | src/gibsgraph/training/validator.py:165-168 | nothing outside the keyword set is ever reported as forbidden |
| Validator.KeywordMessageInjective | src/gibsgraph/training/validator.py:167 | distinct keywords give distinct findings |
| Validator.UnknownConstraintReported | src/gibsgraph/training/validator.py:172-179 | a constraint naming an undeclared label yields a finding that names that label |
| Validator.UnbackedCount | src/gibsgraph/training/validator.py:207-217 | every relationship is either backed by an expert pattern or reported, never both |
| Validator.PassedAtMostTotal | src/gibsgraph/training/validator.py:203-231 | passed checks never exceed total checks |
| Validator.SemanticRatioInUnit | src/gibsgraph/training/validator.py:233 | the semantic ratio lies in [0, 1] |
| Validator.SemanticMeaning | src/gibsgraph/training/validator.py:195-234 | without an available store the stage gives 0.5 and one "skipped" finding; otherwise the score is in [0, 1], one finding per unbacked relationship, and 0.0 when nothing was checked |
| Validator.ComputeOverall | src/gibsgraph/training/validator.py:240-257 | a failed gate caps the overall score at 0.3; scores in [0, 1] give an overall score in [0, 1] |
| Validator.GateBlocksApproval | src/gibsgraph/training/validator.py:250-253 | a schema that fails the syntactic gate can never reach the 0.7 approval bar (the gate is at line 102) |
| Validator.OverallMonotone | src/gibsgraph/training/validator.py:255-257 | with the gate passed, raising any stage score never lowers the overall score |
| Validator.SchemaValidator.constructor | src/gibsgraph/training/validator.py:57-65 | an expert store exists exactly when a driver is given, and it wraps that driver |
| Validator.SchemaValidator.ValidateSemantic | src/gibsgraph/training/validator.py:195-234 | `_validate_semantic` returns the score and findings of the semantic specification for the store's state. A store whose availability is not yet known asks its index check once and caches the answer; a known answer is kept. |
| Validator.SchemaValidator.AlignRelationships | src/gibsgraph/training/validator.py:206-217 | the relationship loop counts the backed relationships and reports every other one, in order |
| Validator.SchemaValidator.Validate | src/gibsgraph/training/validator.py:67-103 | `validate` runs the four stages in order against the store and passes their scores and findings to `ValidationResult`. It returns exactly `Validation` for the store's state, including the error that construction raises. The store's availability is cached after the first index check and kept afterwards. |
| Validator.ValidationMeaning | src/gibsgraph/training/validator.py:67-103 | `validate` succeeds exactly when the syntactic stage reports nothing and a reachable store backs every relationship. Otherwise a bare-string finding makes construction raise, so without a reachable store it always raises. On success the gate has passed and each score is its stage's, in [0, 1]. The findings are the structural then the Cypher records, and approval means an overall score of at least 0.7. |
| Validator.EntriesTyped | src/gibsgraph/training/validator.py:69-84 | the findings list `validate` assembles holds only records exactly when the syntactic and semantic stages report nothing; the records are then the structural then the Cypher findings |
| Validator.SchemaValidator.ValidateFull | src/gibsgraph/training/validator.py:105-148 | Without settings it is `validate`. With settings, an error raised by `validate` propagates. Otherwise the gate, the structural and the semantic score are kept. The rounded weighted scorer total becomes the overall score and regulatory coverage the domain score, both in [0, 1]. The scorer's findings follow the others, and approval needs a total of at least 0.7 with the gate passed. The store's availability is cached after the first index check and kept afterwards. |
| Prompts.YesCount | src/gibsgraph/training/prompts.py:91 | the YES count of a dimension never exceeds its number of questions |
| Prompts.DimensionScore | src/gibsgraph/training/prompts.py:90-92 | a dimension of four distinct questions scores its share of YES answers, one of 0, 0.25, 0.5, 0.75, 1 |
| Prompts.ComputeScoreFromSocratic | src/gibsgraph/training/prompts.py:80-93 | `compute_score_from_socratic` has exactly the three Socratic dimensions, each the share of its R/E/C questions answered YES, each a multiple of 0.25 |
| Prompts.YesCountIsCardinality | src/gibsgraph/training/prompts.py:91 | for distinct ids the YES count is the number of ids answered YES |
| Prompts.SocraticExample | src/gibsgraph/training/prompts.py:87-93 | answers are compared case-insensitively and a missing id counts as NO (a worked example giving 0.5 / 0.25 / 0.0) |
| Prompts.StructuralChecks | src/gibsgraph/training/prompts.py:105-170 | `score_structural` makes exactly twelve checks |
| Prompts.DanglingFindings | src/gibsgraph/training/prompts.py:153-160 | one ERROR finding per orphan endpoint, in order |
| Prompts.CollectOrphans | src/gibsgraph/training/prompts.py:145-151 | the orphan loop lists the dangling endpoints given by the specification function |
| Prompts.CollectConnected | src/gibsgraph/training/prompts.py:162-166 | the connectivity loop collects the labels at either end of some relationship |
| Prompts.ReportFailed | src/gibsgraph/training/prompts.py:182-205 | the reporting loop turns each failed check into its finding, in check order |
| Prompts.ScoreStructural | src/gibsgraph/training/prompts.py:96-208 | `score_structural` returns the score and findings of the structural specification |
| Prompts.StructuralScoreInUnit | src/gibsgraph/training/prompts.py:207 | the structural score lies in [0, 1] |
| Prompts.EmptySchemaScoresLow | src/gibsgraph/training/prompts.py:113-136 | the "all ..." checks do not hold vacuously: an empty schema passes only the endpoint and connectivity checks and scores below 0.5 |
| Prompts.OrphanListed | src/gibsgraph/training/prompts.py:145-151 | an endpoint naming no node label is listed among the orphans |
| Prompts.OrphansEmptyIff | src/gibsgraph/training/prompts.py:144-152 | the endpoint check fails exactly when some from- or to-label is not a node label |
| Prompts.DanglingEndpointReported | src/gibsgraph/training/prompts.py:144-160 | a dangling from-label yields its own ERROR finding and an ERROR "FAILED" finding for the endpoint check |
| Prompts.DanglingToEndpointReported | src/gibsgraph/training/prompts.py:144-160 | the same for a dangling to-label |
| Prompts.FailedFindingListed | src/gibsgraph/training/prompts.py:191-205 | every failed check is reported |
| Prompts.PassedNotListed | src/gibsgraph/training/prompts.py:191-205 | a passed check is never reported |
| Prompts.FailedNotBefore | src/gibsgraph/training/prompts.py:191-205 | findings for the first checks never name a later check |
| Prompts.FailedFindingsDistinct | src/gibsgraph/training/prompts.py:183-205 | the findings of different checks differ |
| Prompts.FailedCheckReported | src/gibsgraph/training/prompts.py:191-205 | a check's "FAILED" finding is present exactly when the check fails |
| Prompts.StructuralStage | src/gibsgraph/training/prompts.py:157-202 | every structural finding has stage "STRUCTURAL" |
| Prompts.ConnectivityReported | src/gibsgraph/training/prompts.py:162-180 | the connectivity check passes exactly when at most max(1, nodes // 5) labels are disconnected, and an INFO finding follows the orphan findings exactly when some label is disconnected |
| Prompts.CompleteSchemaScoresOne | src/gibsgraph/training/prompts.py:105-208 | a fully specified three-node, two-relationship schema scores 1.0 with no findings |
| Prompts.CompleteSchemaPasses | src/gibsgraph/training/prompts.py:105-170 | every one of the twelve checks holds on that schema |
| Prompts.FilledInPasses | src/gibsgraph/training/prompts.py:105-170 | Any schema with at least 3 nodes, 2 relationships, a constraint and an index passes all twelve checks, provided every node and relationship is filled in and justified and no label dangles or is disconnected. |
| Prompts.NoFailed | src/gibsgraph/training/prompts.py:191-205 | no failed check, no "FAILED" finding |
| Prompts.FirstForbidden | src/gibsgraph/training/prompts.py:227-236 | the first keyword found, in visiting order, occurs in the script; none is found only when no keyword occurs |
| Prompts.ScoreCypherQuality | src/gibsgraph/training/prompts.py:211-261 | `score_cypher_quality` returns the score and findings of its specification |
| Prompts.CypherQualityOutcomes | src/gibsgraph/training/prompts.py:211-261 | the score is 0, 0.5 or 1; a blank script or one with a forbidden keyword scores 0 with exactly one ERROR naming the keyword; otherwise 0.5 per CREATE CONSTRAINT / CREATE INDEX, with a WARNING for each one missing |
| Scorer.ScoreWeightsSumToOne | src/gibsgraph/training/scorer.py:28-34 | the five dimension weights sum to 1 |
| Scorer.WeightedSumFive | src/gibsgraph/training/scorer.py:86-89 | the overall sum is 0.25 regulatory + 0.25 expert + 0.20 structural + 0.20 completeness + 0.10 cypher, a missing dimension counting 0 |
| Scorer.WeightedSumInUnit | src/gibsgraph/training/scorer.py:86-89 | the weighted sum of scores in [0, 1] lies in [0, 1] |
| Scorer.SocraticScores | src/gibsgraph/training/scorer.py:126-165 | the three Socratic dimensions, each a multiple of 0.25; an LLM failure or a reply that is not a JSON object gives all zeros; otherwise `compute_score_from_socratic` of the parsed answers |
| Scorer.FencedReplyParsed | src/gibsgraph/training/scorer.py:150-157 | wrapping a JSON reply in a Markdown fence does not change its scores |
| Scorer.BreakdownShape | src/gibsgraph/training/scorer.py:63-83 | the breakdown covers the five dimensions, each in [0, 1] |
| Scorer.OverallInUnit | src/gibsgraph/training/scorer.py:85-90 | the overall score lies in [0, 1] |
| Scorer.FailedLlmOverall | src/gibsgraph/training/scorer.py:159-165 | when the LLM step fails the overall score comes from the two schema scores alone (0.20 structural + 0.10 cypher) |
| Scorer.Score | src/gibsgraph/training/scorer.py:53-93 | `score` returns the breakdown, its rounded weighted sum, and the structural then Cypher findings |
| Scorer.SumWeighted | src/gibsgraph/training/scorer.py:86-89 | the summing generator computes the weighted sum of the breakdown |
| Scorer.DeterministicOverallMeaning | src/gibsgraph/training/scorer.py:113-124 | the deterministic score is the rounded (0.20 structural + 0.10 cypher) / 0.30, in [0, 1] for inputs in [0, 1], and 1.0 when both are 1.0 |
| Scorer.DeterministicChecks | src/gibsgraph/training/scorer.py:66-73 | the structural and Cypher checks both scorers run first give the two schema scores and the structural then Cypher findings |
| Scorer.ScoreDeterministic | src/gibsgraph/training/scorer.py:95-124 | `score_deterministic` has exactly the two schema dimensions, their renormalised rounded mean, and the structural then Cypher findings |
| Expert.ToLucene | src/gibsgraph/expert.py:179-192 | the `_to_lucene` loop returns the query with a backslash before each Lucene reserved character |
| Expert.LuceneLength | src/gibsgraph/expert.py:185-192 | escaping adds exactly one character per reserved character |
| Expert.LucenePlain | src/gibsgraph/expert.py:185-192 | a query without reserved characters is left as it is |
| Expert.LuceneRoundTrip | src/gibsgraph/expert.py:179-192 | escaping loses nothing: unescaping gives back the query |
| Expert.PromptText | src/gibsgraph/expert.py:43-85 | the prompt text is empty exactly when there are no hits |
| Expert.ToPrompt | src/gibsgraph/expert.py:43-85 | the `to_prompt` loop builds the prompt text of the hits |
| Expert.SectionLinesRouted | src/gibsgraph/expert.py:57-70 | each section holds one line per hit routed to it, and every line comes from such a hit |
| Expert.PromptShape | src/gibsgraph/expert.py:72-85 | a section title appears exactly when some hit is routed there; at most 5 examples, 3 practices, 3 functions and 2 patterns are shown, so at most 18 lines |
| Expert.HitOf | src/gibsgraph/expert.py:159-167 | a row becomes a hit with its label and score, and a missing name becomes "" |
| Expert.SearchResult | src/gibsgraph/expert.py:135-176 | `search` keeps the query; it has no hits when the store is unavailable or the query fails, and otherwise one hit per row returned for the Lucene-escaped query |
| Expert.ExpertStore.constructor | src/gibsgraph/expert.py:108-111 | a new store keeps its driver and has not yet asked whether the index is online |
| Expert.ExpertStore.IsAvailable | src/gibsgraph/expert.py:113-133 | `is_available` asks the database once and afterwards answers from its cache without asking again |
| Expert.ExpertStore.Search | src/gibsgraph/expert.py:135-176 | `search` settles availability: a fresh store asks the index check once and caches the verdict, and a known verdict is kept. It returns the specified context for that verdict, sending the index check on a fresh store and one full-text query when available. |
| CypherGuard.SearchIffOccurs | src/gibsgraph/tools/cypher_validator.py:55-56 | `pattern.search` succeeds exactly when the pattern matches at some position |
| CypherGuard.FirstPattern | src/gibsgraph/tools/cypher_validator.py:55-59 | the first injection pattern in list order that occurs is the one reported; none is reported only when none occurs |
| CypherGuard.DollarBraceMeaning | src/gibsgraph/tools/cypher_validator.py:25 | the lazy `\$\{.+?\}` matches exactly when a `}` follows `${` after a non-empty newline-free text |
| CypherGuard.AssertValid | src/gibsgraph/tools/cypher_validator.py:50-66 | `assert_valid` raises "empty" exactly for a blank query, names the first injection pattern found, and raises the interpolation error exactly when only interpolation is found |
| CypherGuard.Validate | src/gibsgraph/tools/cypher_validator.py:42-48 | `validate` is true exactly when `assert_valid` raises nothing: not blank, no injection pattern, no interpolation |
| CypherGuard.SemicolonWriteRefused | src/gibsgraph/tools/cypher_validator.py:13-15 | a `;` then optional whitespace then DROP, DELETE or DETACH, in any case, is refused |
| CypherGuard.NoSpecialsAccepted | src/gibsgraph/tools/cypher_validator.py:12-25 | a non-blank query free of `;`, `{`, `$`, `"` and of LOAD and APOC is accepted |
| CypherGuard.UnprefixedDeleteAccepted | src/gibsgraph/tools/cypher_validator.py:13-15 | a write not preceded by `;` is not caught: "MATCH (n) DELETE n" passes |
| CypherGuard.FindParams | src/gibsgraph/tools/cypher_validator.py:68-70 | every name `findall` returns is a non-empty run of word characters |
| CypherGuard.FindParamsComplete | src/gibsgraph/tools/cypher_validator.py:70 | resuming after each match loses nothing: `findall` returns every `$name` reference in order |
| CypherGuard.ParamsFromSound | src/gibsgraph/tools/cypher_validator.py:70 | each returned name is a whole word run that follows a `$` in the query |
| CypherGuard.ParamsFromComplete | src/gibsgraph/tools/cypher_validator.py:70 | every `$name` reference in the query is returned |
| CypherGuard.ExtractParametersMeaning | src/gibsgraph/tools/cypher_validator.py:68-70 | `extract_parameters` returns exactly the word runs that follow a `$` |
| Visualizer.Sanitize | src/gibsgraph/tools/visualizer.py:32-39 | `re.sub(r"[^a-zA-Z0-9_]", "_", s)` keeps the length, keeps every word character and turns every other character into `_` |
| Visualizer.SanitizeIdempotent | src/gibsgraph/tools/visualizer.py:32 | sanitizing twice changes nothing more, and a clean identifier is kept as is |
| Visualizer.SlicePrefix | src/gibsgraph/tools/visualizer.py:24 | `nodes[:max_nodes]` is a prefix of the nodes; a negative bound counts from the end |
| Visualizer.NodeLabel | src/gibsgraph/tools/visualizer.py:31-33 | a box label has at most 30 characters and no `"` |
| Visualizer.NodeLines | src/gibsgraph/tools/visualizer.py:30-35 | one box line per node, in order |
| Visualizer.ToMermaid | src/gibsgraph/tools/visualizer.py:22-44 | `to_mermaid` joins the specified chart lines with newlines |
| Visualizer.DrawNodes | src/gibsgraph/tools/visualizer.py:30-35 | the node loop draws every node in order and records the set of sanitized ids |
| Visualizer.DrawEdges | src/gibsgraph/tools/visualizer.py:37-42 | the edge loop draws the specified edge lines |
| Visualizer.EdgeLinesExact | src/gibsgraph/tools/visualizer.py:37-42 | an edge line is drawn exactly for the edges whose two sanitized ends are drawn nodes |
| Visualizer.EdgeLinesAtMost | src/gibsgraph/tools/visualizer.py:37-42 | there are never more edge lines than edges |
| Visualizer.MermaidShape | src/gibsgraph/tools/visualizer.py:22-44 | the chart starts with "graph LR", then at most `max_nodes` node lines in input order; an empty subgraph gives the header alone |
| Visualizer.NodeIds | src/gibsgraph/tools/visualizer.py:48 | the id list never holds more entries than there are nodes |
| Visualizer.NodeIdsEmpty | src/gibsgraph/tools/visualizer.py:48-50 | the id list is empty exactly when no node has a truthy id |
| Visualizer.Quoted | src/gibsgraph/tools/visualizer.py:53 | one double-quoted entry per id |
| Visualizer.UnquoteQuote | src/gibsgraph/tools/visualizer.py:55 | percent-decoding the `urllib.parse.quote` output gives back the text |
| Visualizer.QuoteAlphabet | src/gibsgraph/tools/visualizer.py:55 | the encoded text holds only URL-safe characters and `%` escapes |
| Visualizer.BloomUrlMeaning | src/gibsgraph/tools/visualizer.py:46-59 | no truthy node id gives ""; otherwise the URL is the Bloom base plus "#search=", and the search decodes to the Cypher query over the ids |
| Config.FirstOwner | src/gibsgraph/config.py:66-69 | the provider found is the first in registry order owning a prefix of the model name; none is found only when no provider owns one |
| Config.ProviderFor | src/gibsgraph/config.py:64-69 | `provider_for_model` returns a registered provider owning the model name, or None exactly when no provider does |
| Config.PrefixesDisjoint | src/gibsgraph/config.py:32-58 | no prefix of one provider is a prefix of another provider's prefix |
| Config.OwnerUnique | src/gibsgraph/config.py:32-69 | every model name has at most one owner, so registry order never decides a lookup |
| Config.RegistryFacts | src/gibsgraph/config.py:32-58 | only xAI has an OpenAI-compatible base URL, and the default model belongs to OpenAI (the default model is at line 95) |
| Config.ValidateNeo4jUri | src/gibsgraph/config.py:119-127 | a URI is accepted, unchanged, exactly when it starts with bolt://, bolt+s://, neo4j:// or neo4j+s://; otherwise the validation error |
| Config.UriExamples | src/gibsgraph/config.py:119-127 | the default `bolt://localhost:7687` passes and an `http://` URI is refused (the default URI is at line 83) |
| Pcst.NodeText | src/gibsgraph/retrieval/pcst_pruner.py:36-67 | `node_text` computes the specified text (labels, name and title, description, then the other short strings) |
| Pcst.PriorityPartsAll | src/gibsgraph/retrieval/pcst_pruner.py:49-58 | the priority parts are the non-empty string name, title and description, in that order |
| Pcst.CollectOtherParts | src/gibsgraph/retrieval/pcst_pruner.py:60-65 | the property loop collects the specified further parts |
| Pcst.OtherPartsMeaning | src/gibsgraph/retrieval/pcst_pruner.py:60-65 | a further part is exactly a string of 1 to 200 characters stored under a key that is neither internal nor name, title or description (the internal keys are at lines 22-26) |
| Pcst.NodeTextSmall | src/gibsgraph/retrieval/pcst_pruner.py:36-67 | an empty node has the empty text; a node holding only a name is described by that name |
| Pcst.Prizes | src/gibsgraph/retrieval/pcst_pruner.py:81-90 | one prize per embedding |
| Pcst.ComputeNodePrizes | src/gibsgraph/retrieval/pcst_pruner.py:81-90 | the `compute_node_prizes` loop returns the specified prizes |
| Pcst.PrizesMeaning | src/gibsgraph/retrieval/pcst_pruner.py:70-90 | each prize lies in [0, 1]; a zero vector or a negative similarity earns 0; a similarity in [0, 1] is the prize |
| Pcst.SliceFrom | src/gibsgraph/retrieval/pcst_pruner.py:151 | `xs[start:]` is a suffix of `xs` |
| Pcst.BoostedPrizes | src/gibsgraph/retrieval/pcst_pruner.py:146-154 | the prizes handed to the solver: one per node |
| Pcst.BoostTop | src/gibsgraph/retrieval/pcst_pruner.py:153-154 | the in-place loop multiplies exactly the top prizes by the boost and leaves the rest |
| Pcst.BoostFactorBounds | src/gibsgraph/retrieval/pcst_pruner.py:152 | with prizes in [0, 1] the boost factor (mean of the top prizes plus 1) lies in [1, 2] |
| Pcst.BoostMeaning | src/gibsgraph/retrieval/pcst_pruner.py:149-154 | only the top `max_nodes` prizes are multiplied, only when there are more than `max_nodes` prizes, and no prize in [0, 1] shrinks |
| Pcst.IdIndexMeaning | src/gibsgraph/retrieval/pcst_pruner.py:136-143 | every id in the index points to a node with that id, and every node with an id is indexed (a later duplicate wins) |
| Pcst.ValidOrig | src/gibsgraph/retrieval/pcst_pruner.py:159-164 | the valid edges are listed by original index, each with both ends indexed |
| Pcst.EdgeList | src/gibsgraph/retrieval/pcst_pruner.py:157-164 | one solver edge per valid edge |
| Pcst.OrigToPcst | src/gibsgraph/retrieval/pcst_pruner.py:158-163 | one map entry per valid edge |
| Pcst.BuildEdgeList | src/gibsgraph/retrieval/pcst_pruner.py:156-164 | the edge loop builds the specified edge list and index map |
| Pcst.ValidOrigMeaning | src/gibsgraph/retrieval/pcst_pruner.py:159-164 | the valid list holds exactly the edges with both ends indexed, in strictly increasing order |
| Pcst.SelectByIndex | src/gibsgraph/retrieval/pcst_pruner.py:170-185 | selecting by index never yields more than the input |
| Pcst.SelectByIndexMeaning | src/gibsgraph/retrieval/pcst_pruner.py:170-185 | an item is selected exactly when it sits at a selected index |
| Pcst.Costs | src/gibsgraph/retrieval/pcst_pruner.py:175 | one cost per solver edge |
| Pcst.PcstPrune | src/gibsgraph/retrieval/pcst_pruner.py:93-201 | `pcst_prune` returns the specified pruned subgraph |
| Pcst.BuildIdIndex | src/gibsgraph/retrieval/pcst_pruner.py:136-143 | the index loop builds the specified id index |
| Pcst.ShortCircuit | src/gibsgraph/retrieval/pcst_pruner.py:125-132 | a subgraph of at most `max_nodes` nodes, or a missing solver, is returned as it is |
| Pcst.MapBackMeaning | src/gibsgraph/retrieval/pcst_pruner.py:187-191 | every kept edge is an original edge whose solver index was selected, and every such edge is kept |
| Pcst.NoDanglingEdge | src/gibsgraph/retrieval/pcst_pruner.py:178-201 | when the solver returns a tree (its edges' ends among its nodes), both ends of every kept edge are ids of kept nodes |
| Pcst.NoEdgeFallback | src/gibsgraph/retrieval/pcst_pruner.py:166-172 | without any valid edge the result keeps exactly the nodes at the top-prize indices, in input order, and no edge |
| PyValue.ReprQuote | src/gibsgraph/retrieval/retriever.py:47 | `repr` delimits a string with `"` exactly when it holds `'` and no `"`, and with `'` otherwise |
| PyValue.ReprChar | src/gibsgraph/retrieval/retriever.py:47 | a character is written as itself exactly when it is not a backslash, the delimiter or an ASCII control character; no written character is a line break |
| PyValue.QuoteStr | src/gibsgraph/retrieval/retriever.py:47 | `repr(s)` starts and ends with the quote `ReprQuote` picks and holds no raw line break |
| PyValue.ReprRoundTrip | src/gibsgraph/retrieval/retriever.py:47 | Python's parser reads `repr(s)` back as `s`: backslashes, the delimiter and control characters are all escaped |
| PyValue.ReprBodyPlain | src/gibsgraph/retrieval/retriever.py:47 | text without quotes, backslashes or control characters is written unchanged |
| PyValue.ReprStringsOneLine | src/gibsgraph/retrieval/retriever.py:47 | `repr` of a list of strings never spans two lines |
| Retriever.Lookup | src/gibsgraph/retrieval/retriever.py:43-48 | `d.get(k)` finds a value exactly when some entry has key `k`, and returns a value stored under `k` |
| Retriever.PutMeaning | src/gibsgraph/retrieval/retriever.py:409-429 | after `d[k] = v`, `k` maps to `v`, every other key keeps its value, and only a new key lengthens the dict (the same dict update recurs at lines 493-498) |
| Retriever.PatternLines | src/gibsgraph/retrieval/retriever.py:41-42 | one prompt line per relationship pattern |
| Retriever.SampleLines | src/gibsgraph/retrieval/retriever.py:46-47 | one prompt line per sampled property |
| Retriever.SampleLineOneLine | src/gibsgraph/retrieval/retriever.py:46-47 | a sample line stays one line of the prompt whatever the sampled values hold, because `repr` escapes line breaks |
| Retriever.ToPrompt | src/gibsgraph/retrieval/retriever.py:36-50 | `GraphSchema.to_prompt` joins the specified prompt lines with newlines |
| Retriever.PatternBlock | src/gibsgraph/retrieval/retriever.py:41-42 | the pattern loop gives one line per pattern, in order |
| Retriever.PropertyBlock | src/gibsgraph/retrieval/retriever.py:43-48 | the label loop gives the specified property blocks |
| Retriever.LabelBlock | src/gibsgraph/retrieval/retriever.py:44-48 | one label's property line and its sample lines, as the inner loop builds them |
| Retriever.PropertyBlocksHold | src/gibsgraph/retrieval/retriever.py:43-45 | every label with a property list has its property line |
| Retriever.PromptMeaning | src/gibsgraph/retrieval/retriever.py:36-50 | the prompt opens with the header, the label list and the pattern header, lists every pattern in order, holds a property line for every label, and closes with the node total |
| Retriever.CleanPropsMeaning | src/gibsgraph/retrieval/retriever.py:475-478 | a property is kept, unchanged, exactly when its value is not a list of 50 or more items |
| Retriever.RecordLines | src/gibsgraph/retrieval/retriever.py:514-527 | one context line per row when every row serializes |
| Retriever.NodeLines | src/gibsgraph/retrieval/retriever.py:533-535 | one context line per node |
| Retriever.EdgeLines | src/gibsgraph/retrieval/retriever.py:537-538 | one context line per edge when every edge has its ends |
| Retriever.SerializeContext | src/gibsgraph/retrieval/retriever.py:506-539 | `_serialize_context` returns the specified context, or the failure a malformed row or edge raises |
| Retriever.SerializeRows | src/gibsgraph/retrieval/retriever.py:514-527 | the row loop builds the specified row lines |
| Retriever.SerializeNodes | src/gibsgraph/retrieval/retriever.py:529-535 | the node part builds the specified node section |
| Retriever.SerializeEdges | src/gibsgraph/retrieval/retriever.py:536-538 | the edge part builds the specified edge section |
| Retriever.SerializeRow | src/gibsgraph/retrieval/retriever.py:515-526 | the parts loop builds the specified line for one row |
| Retriever.RowPartsFail | src/gibsgraph/retrieval/retriever.py:516-526 | once a part raises, the whole row raises |
| Retriever.RecordsContext | src/gibsgraph/retrieval/retriever.py:511-527 | with rows, the context is the row header and at most 25 row lines, and the nodes and edges play no part |
| Retriever.EdgeLinesDefined | src/gibsgraph/retrieval/retriever.py:537-538 | edges that all have start, type and end always serialize |
| Retriever.GraphContext | src/gibsgraph/retrieval/retriever.py:528-539 | without rows: a node header and at most 20 node lines, then an edge header and at most 30 edge lines, each section only when it has items |
| Retriever.ConvertRecords | src/gibsgraph/retrieval/retriever.py:407-429 | one tabular row per record |
| Retriever.ConvertAll | src/gibsgraph/retrieval/retriever.py:407-429 | the record loop builds the specified nodes, edges and rows |
| Retriever.ConvertOne | src/gibsgraph/retrieval/retriever.py:408-428 | the key loop converts one record as specified |
| Retriever.NodeDictMeaning | src/gibsgraph/retrieval/retriever.py:413-418 | every converted node carries its element id under `_id` and its labels under `_labels`, and otherwise its cleaned properties |
| Retriever.EdgeDictHasEnds | src/gibsgraph/retrieval/retriever.py:420-426 | every converted relationship carries its start, type and end |
| Retriever.ConvertRecordsEdges | src/gibsgraph/retrieval/retriever.py:407-431 | every edge the conversion yields has its start, type and end |
| Retriever.ExecuteReadMeaning | src/gibsgraph/retrieval/retriever.py:387-435 | a query the guard refuses never reaches the database and gets the rejection message; a successful run reports no error and one row per record |
| Retriever.Values | src/gibsgraph/retrieval/retriever.py:502 | one value per map entry |
| Retriever.NeighbourEdges | src/gibsgraph/retrieval/retriever.py:492-500 | one neighbourhood edge per row |
| Retriever.FetchNeighbourhood | src/gibsgraph/retrieval/retriever.py:480-504 | `_fetch_neighbourhood` builds the specified nodes and edges from the rows |
| Retriever.NeighbourNodesUnique | src/gibsgraph/retrieval/retriever.py:490-498 | the node map never holds an element id twice |
| Retriever.PutKeys | src/gibsgraph/retrieval/retriever.py:493-498 | a key is present after `d[k] = v` exactly when it is `k` or was present before |
| Retriever.NeighbourNodesKeys | src/gibsgraph/retrieval/retriever.py:492-498 | the node map holds exactly the element ids met at either end of some row |
| Retriever.NeighbourEdgesEnds | src/gibsgraph/retrieval/retriever.py:499-500 | every neighbourhood edge carries its start, type and end |
| Retriever.NeighbourhoodMeaning | src/gibsgraph/retrieval/retriever.py:480-504 | one node per distinct element id met in the rows, and one edge per row with its start, type and end |
| Retriever.PatternStrings | src/gibsgraph/retrieval/retriever.py:171-172 | one pattern string per pattern row |
| Retriever.CollectPatterns | src/gibsgraph/retrieval/retriever.py:160-175 | the pattern loop with its seen set keeps each formatted pattern once, at its first row; with `PatternOf` this is the schema's pattern list |
| Retriever.RelPatternsMeaning | src/gibsgraph/retrieval/retriever.py:160-175 | the relationship patterns are pairwise distinct and are exactly the patterns of the rows |
| Retriever.VectorIndexMeaning | src/gibsgraph/retrieval/retriever.py:177-193 | the schema has a vector index exactly when a VECTOR index row came back, and then names one of them; otherwise the name is "" |
| Retriever.PropertyKeysMeaning | src/gibsgraph/retrieval/retriever.py:120-135 | a label gets a key list only when its sampled nodes have keys, and the list is sorted and holds exactly their keys |
| Retriever.RetryStep | src/gibsgraph/retrieval/retriever.py:306-315 | one step of the retry loop: stop when the regenerated query is empty, otherwise run it |
| Retriever.Reruns | src/gibsgraph/retrieval/retriever.py:306-315 | the retry loop runs at most `max_retries` corrected queries, and none when there is no error or the LLM gives up at once |
| Retriever.RetryOutcome | src/gibsgraph/retrieval/retriever.py:304-315 | a run without error is kept; otherwise the final subgraph and error are those of the final query, and a persisting error means every retry was used |
| Retriever.VectorAlwaysAnswers | src/gibsgraph/retrieval/retriever.py:247-284 | the vector strategy always yields a result, labelled "vector" |
| Retriever.StrategyChoice | src/gibsgraph/retrieval/retriever.py:216-241 | the vector strategy is used exactly when the schema has a vector index and its result found some node or edge; every other answer comes from the Cypher strategy |
| Retriever.CypherStrategyLabel | src/gibsgraph/retrieval/retriever.py:290-321 | the Cypher strategy's result is labelled "cypher" |
| Retriever.EmptyGenerationStops | src/gibsgraph/retrieval/retriever.py:295-301 | an empty first generation ends the Cypher strategy with the "could not generate" result before any query runs |
| Retriever.GraphRetriever.constructor | src/gibsgraph/retrieval/retriever.py:89-96 | a new retriever keeps its services and has no schema yet |
| Retriever.GraphRetriever.DiscoverSchema | src/gibsgraph/retrieval/retriever.py:98-214 | `discover_schema` is memoised: the first call discovers and stores the schema, later calls return it unchanged |
| Retriever.GraphRetriever.Retrieve | src/gibsgraph/retrieval/retriever.py:216-241 | `retrieve` discovers the schema from the store on first use and keeps a schema already discovered; it returns the specified strategy's result for that schema |
| Retriever.GraphRetriever.RetrieveVector | src/gibsgraph/retrieval/retriever.py:247-284 | `_retrieve_vector` returns the specified vector result |
| Retriever.RetryLoop | src/gibsgraph/retrieval/retriever.py:306-314 | the retry loop ends in the state `Retry` specifies, and the runs it counts as they happen are exactly `Reruns` |
| Retriever.GraphRetriever.RetrieveCypher | src/gibsgraph/retrieval/retriever.py:290-321 | `_retrieve_cypher` returns the specified Cypher result. The queries it runs, counted at each run, are none when the first generation is empty, otherwise one plus each rerun the retry rule allows, so at most `max_retries + 1`. |
| Agent.MakeLlm | src/gibsgraph/agent.py:22-69 | the client keeps the model name; it is Anthropic's or Mistral's exactly when the registry assigns the model to that provider, and an OpenAI client with a base URL only for a provider registered with that URL |
| Agent.MakeLlmByPrefix | src/gibsgraph/agent.py:22-69 | "claude-" models get Anthropic, "mistral-" models Mistral, "grok-" models the OpenAI client pointed at xAI with the xAI key, and unknown models native OpenAI |
| Agent.Initial | src/gibsgraph/agent.py:77-91 | `AgentState(query=query)` holds the query and every other field at its default (the state is built at line 235) |
| Agent.Apply | src/gibsgraph/agent.py:183-216 | merging a node's update overwrites exactly the keys present and leaves the query and every absent field alone (the state fields are at lines 77-91) |
| Agent.RetrieveSubgraph | src/gibsgraph/agent.py:98-113 | `retrieve_subgraph` adds one step; a failure appends its message to the errors and changes nothing else; a success sets subgraph, context and Cypher |
| Agent.GenerateExplanation | src/gibsgraph/agent.py:116-140 | `generate_explanation` adds one step; an empty or "No results found." context gives the fixed no-information text, otherwise the stripped LLM answer |
| Agent.ValidateOutput | src/gibsgraph/agent.py:143-148 | `validate_output` adds one step and asks for review exactly when a non-empty Cypher query is refused by the guard or errors were recorded |
| Agent.Visualize | src/gibsgraph/agent.py:151-157 | `visualize` adds one step; it sets the Bloom link of the subgraph when there is one and changes nothing else otherwise |
| Agent.ShouldContinue | src/gibsgraph/agent.py:165-172 | `should_continue` ends at the step limit or three errors, otherwise routes to human review when review is wanted, and to visualize otherwise |
| Agent.StepsCount | src/gibsgraph/agent.py:98-157 | whatever nodes run, each adds exactly one step, none shortens the error list, and the query never changes |
| Agent.RoutingEnds | src/gibsgraph/agent.py:165-172 | routing always ends once enough nodes have run, whichever they are |
| Agent.AskOutcome | src/gibsgraph/agent.py:179-238 | a run takes three or four steps (three when the step limit is at most 3); a run that ends wanting review never draws a link; a failed retrieval always asks for review and records its message |
| Agent.WriteQueryNeedsReview | src/gibsgraph/agent.py:143-172 | a Cypher query writing after a `;` always sends the answer to human review |
| AsciiDoc.SpacedRest | data/scripts/parse_cypher_docs.py:109 | the stripped `(.+)` group after the whitespace run is one line with no whitespace at either end (the same group shape is at line 74) |
| AsciiDoc.BlockAt | data/scripts/parse_cypher_docs.py:61-64 | a match of the code-block pattern starting at `i` ends after `i`, inside the text |
| AsciiDoc.Kept | data/scripts/parse_cypher_docs.py:66-68 | a block body is kept, stripped, exactly when its stripped text is non-empty |
| AsciiDoc.CodeBlocks | data/scripts/parse_cypher_docs.py:58-69 | `extract_code_blocks` returns only stripped, non-empty bodies |
| AsciiDoc.SingleBlock | data/scripts/parse_cypher_docs.py:58-69 | a document holding one `[source,cypher]` block gives back exactly its body |
| AsciiDoc.Title | data/scripts/parse_cypher_docs.py:109-113 | the `^=\s+(.+)` title (multiline) is a single line |
| AsciiDoc.MatchAt | data/scripts/parse_cypher_docs.py:170-188 | a table or attribute match starts at its marker, and its group is one line except for the Syntax cell (the attribute pattern is at line 74) |
| AsciiDoc.SearchFrom | data/scripts/parse_cypher_docs.py:170-188 | `re.search` returns the group of the first matching position, and nothing only when no position matches (the attribute search is at line 74) |
| AsciiDoc.Description | data/scripts/parse_cypher_docs.py:72-75 | `extract_description` returns a single line |
| AsciiDoc.DescriptionFound | data/scripts/parse_cypher_docs.py:72-75 | a `:description:` attribute on a line of its own is found, whatever precedes it |
| AsciiDoc.SepEnd | data/scripts/parse_cypher_docs.py:149 | a separator match of `\n==\s+(?!=)` ends after it starts, inside the text |
| AsciiDoc.PiecesFrom | data/scripts/parse_cypher_docs.py:149 | `re.split` always yields at least one piece |
| AsciiDoc.SplitRejoin | data/scripts/parse_cypher_docs.py:149 | splitting on function headings loses nothing: the pieces and the separators rebuild the text |
| AsciiDoc.SplitAtRejoin | data/scripts/parse_cypher_docs.py:149 | the same for the whole page |
| AsciiDoc.FirstMeaningfulIndex | data/scripts/parse_cypher_docs.py:121-128 | the index found is that of the first meaningful line, or the end when there is none (the same scan recurs at lines 191-198) |
| AsciiDoc.FirstMeaningful | data/scripts/parse_cypher_docs.py:191-198 | the fallback loop returns "" exactly when no line is meaningful, and otherwise the first meaningful line, stripped |
| AsciiDoc.FindMeaningful | data/scripts/parse_cypher_docs.py:191-198 | the search loop stops at the first meaningful line and returns it |
| CypherDocs.RunEnd | data/scripts/parse_cypher_docs.py:85 | the `=` run ends at the first other character |
| CypherDocs.HeadingOf | data/scripts/parse_cypher_docs.py:85-92 | `^(={2,4})\s+(.+)` only matches lines starting "==" but not "=====", and its group 2 is stripped |
| CypherDocs.SecondLevel | data/scripts/parse_cypher_docs.py:85-92 | "== " followed by a trimmed text opens a section named by that text |
| CypherDocs.NotALevel | data/scripts/parse_cypher_docs.py:85 | a single `=` (a title) and a run of five or more open no section |
| CypherDocs.Flushed | data/scripts/parse_cypher_docs.py:87-101 | the open section is recorded only when it has a heading, with its content stripped |
| CypherDocs.Sections | data/scripts/parse_cypher_docs.py:78-103 | every recorded section has a heading and stripped content |
| CypherDocs.ParseSections | data/scripts/parse_cypher_docs.py:78-103 | the `parse_sections` loop and its final flush give the specified sections |
| CypherDocs.SectionsFollowHeadings | data/scripts/parse_cypher_docs.py:78-103 | a section is recorded for exactly the heading lines with a non-blank text, in order; lines before the first heading belong to no section |
| CypherDocs.FeedPlain | data/scripts/parse_cypher_docs.py:94-95 | lines that open no section are gathered into the open one |
| CypherDocs.OneSection | data/scripts/parse_cypher_docs.py:78-103 | a page with a preamble and one `==` heading gives one section: the heading and the stripped text beneath it |
| CypherDocs.TitleLine | data/scripts/parse_cypher_docs.py:121-122 | the fallback starts at the first `= ` line with two lines after it, or finds none |
| CypherDocs.ClauseFallback | data/scripts/parse_cypher_docs.py:118-128 | the two nested fallback loops, each stopping at its first hit, give the specified description |
| CypherDocs.ClauseDescription | data/scripts/parse_cypher_docs.py:117-128 | the description attribute when present, otherwise the fallback paragraph line |
| CypherDocs.ParseClause | data/scripts/parse_cypher_docs.py:106-139 | no clause without a `= ` title; otherwise the title without backticks, the description, at most 10 code examples and at most 20 sections, each the first of the page's, and authority level 1 |
| CypherDocs.ParseClauseFile | data/scripts/parse_cypher_docs.py:106-139 | `parse_clause_file` on the page text returns the specified clause |
| CypherDocs.FunctionName | data/scripts/parse_cypher_docs.py:153-156 | the function name holds no `(` and no backtick and is stripped |
| CypherDocs.RStripDots | data/scripts/parse_cypher_docs.py:174 | `rstrip('.')` removes exactly the trailing dots |
| CypherDocs.FunctionDescription | data/scripts/parse_cypher_docs.py:169-198 | the Description cell without its final dots when non-empty, otherwise the first meaningful line after the heading |
| CypherDocs.ParseFunctionSection | data/scripts/parse_cypher_docs.py:151-211 | a section gives a function exactly when its name is not a skipped heading and passes the keep test; the function has the name, category, description, Syntax and Returns cells and at most 5 examples |
| CypherDocs.FunctionsOf | data/scripts/parse_cypher_docs.py:151-213 | at most one function per section, each of the page's category and passing both filters |
| CypherDocs.ParseFunctionFile | data/scripts/parse_cypher_docs.py:142-213 | `parse_function_file` on the page text returns the specified functions |
| CypherDocs.OfClause | data/scripts/parse_cypher_docs.py:260-267 | one example record per clause example |
| CypherDocs.OfFunction | data/scripts/parse_cypher_docs.py:270-277 | one example record per function example |
| CypherDocs.CollectAllExamples | data/scripts/parse_cypher_docs.py:255-279 | the two collection loops give the specified example list |
| CypherDocs.ClauseExamplesShape | data/scripts/parse_cypher_docs.py:259-267 | each clause example becomes one "clause" record naming its clause |
| CypherDocs.FunctionExamplesShape | data/scripts/parse_cypher_docs.py:269-277 | each function example becomes one "function" record naming its function |
| CypherDocs.AllExamplesShape | data/scripts/parse_cypher_docs.py:255-279 | one record per example: first the clause ones, then the function ones |
| ModelingDocs.LetterEnd | data/scripts/parse_modeling_docs.py:68 | the greedy `[a-zA-Z]+` run ends at the first non-letter |
| ModelingDocs.RelEnd | data/scripts/parse_modeling_docs.py:72 | the greedy `[A-Z_]+` run ends at the first other character |
| ModelingDocs.ExtractLabelsAndRels | data/scripts/parse_modeling_docs.py:62-75 | the scanning loops fill both sets, and the results are those sets sorted |
| ModelingDocs.ExtractedShapes | data/scripts/parse_modeling_docs.py:68-73 | every label is an upper-case letter then at least one more letter; every relationship type is a non-empty run of `[A-Z_]` |
| ModelingDocs.LabelFound | data/scripts/parse_modeling_docs.py:68-69 | a `:Label` in a page, not followed by another letter, is found |
| ModelingDocs.RelAlsoLabel | data/scripts/parse_modeling_docs.py:68-73 | an all-letter relationship type is also taken as a label: `[:KNOWS]` puts KNOWS in both lists |
| ModelingDocs.Cut500 | data/scripts/parse_modeling_docs.py:131-133 | `section[:500].strip()` has at most 500 characters and no whitespace at either end |
| ModelingDocs.LastMatch | data/scripts/parse_modeling_docs.py:128-133 | the section kept is the last one whose lower-cased text holds a keyword |
| ModelingDocs.LastNote | data/scripts/parse_modeling_docs.py:125-133 | `when_to_use` and `anti_pattern` are "" without a matching section, else the cut of the last matching one |
| ModelingDocs.SectionNotes | data/scripts/parse_modeling_docs.py:125-133 | the section loop, each match overwriting the earlier one, leaves the specified notes |
| ModelingDocs.TipCategory | data/scripts/parse_modeling_docs.py:164-168 | a tip is "naming" exactly when its title holds "name" or its path "naming", else "performance" exactly when its title holds "performance", else "modeling" |
| ModelingDocs.TipOf | data/scripts/parse_modeling_docs.py:150-176 | a `===` section gives a practice exactly when it has a title line and a description line; the practice has the stripped title, the first meaningful line after it as description, its category, the section's first 5 examples and the page's path |
| ModelingDocs.TipsOf | data/scripts/parse_modeling_docs.py:150-176 | at most one practice per tip section, each with a title, a description and the page's path |
| ModelingDocs.ParseTips | data/scripts/parse_modeling_docs.py:147-176 | the tip loop gives the specified practices |
| ModelingDocs.PagePattern | data/scripts/parse_modeling_docs.py:123-144 | the pattern record has the title, the description or else the title, the first 10 code blocks, the last `When` and anti-pattern notes (each at most 500 characters) among the `==` sections, and exactly the page's labels and types, strictly sorted |
| ModelingDocs.ParsePage | data/scripts/parse_modeling_docs.py:93-187 | navigation and index pages and pages without a title give nothing; a page is a pattern exactly when its path names a pattern keyword or its text has both labels and types; the pattern has the title, the description or else the title, at most 10 examples, notes of at most 500 characters, the page's first 10 code blocks, the last `When`/anti-pattern notes among its `==` sections, and exactly the page's labels and types, sorted. A titled page's practices are its tips (on a practice or tips path) followed by the whole page (on a practice path with a description). |
| ModelingDocs.PagePracticesMeaning | data/scripts/parse_modeling_docs.py:147-187 | every practice a page yields has a description and the page's path; a practice page with a description ends with the whole page, titled with the page title and category `modeling` |
| ModelingDocs.CypherMakesPattern | data/scripts/parse_modeling_docs.py:123 | a titled page whose text has a label and a relationship type is a pattern whatever its path |
| ModelingDocs.FirstTitleLine | data/scripts/parse_modeling_docs.py:214-217 | the content starts after the first line beginning "= " |
| ModelingDocs.DescriptionAfterTitle | data/scripts/parse_modeling_docs.py:211-224 | a description is only found after a "= " line |
| ModelingDocs.KbDescriptionLoop | data/scripts/parse_modeling_docs.py:211-224 | the loop with its `in_content` flag gives the first meaningful line after the first title line, or "" |
| ModelingDocs.FirstGroup | data/scripts/parse_modeling_docs.py:234-243 | the category chosen is the first keyword group, in order, one of whose keywords occurs |
| ModelingDocs.KbCategory | data/scripts/parse_modeling_docs.py:231-243 | the category is "general" exactly when no keyword of any group occurs in the lower-cased title plus the first 500 characters, and otherwise that of the first group that matches |
| ModelingDocs.ParseKbArticle | data/scripts/parse_modeling_docs.py:203-252 | an article gives a practice exactly when it has a title and a description; the practice has the title, the description cut to 500 characters, its category, at most 3 examples and authority level 1 |
| GenerateEmbeddings.BuildDocuments | data/scripts/generate_embeddings.py:31-102 | The five loops with their `seen` sets build exactly the document list `Documents`: clause and function documents for every entry, then example, pattern and practice documents for the first occurrence of each key. |
| GenerateEmbeddings.DocumentsShape | data/scripts/generate_embeddings.py:31-102 | Documents come in five consecutive runs (clauses, functions, examples, patterns, practices). The first two runs have one document per input; the last three have one per distinct example query, pattern name and non-empty practice title. Each run's documents carry that run's type. |
| GenerateEmbeddings.DocumentNamesDistinct | data/scripts/generate_embeddings.py:74-100 | No two pattern documents name the same pattern, and no two practice documents name the same practice. |
| GenerateEmbeddings.ExampleKeyRoundTrip | data/scripts/generate_embeddings.py:66-68 | When the example text is not cut at 500 characters and the description does not hold the marker, the loader's marker key of an example document is the whitespace-normalised query of that example. |
| GenerateEmbeddings.NumberDocuments | data/scripts/generate_embeddings.py:133-135 | Each document gets one metadata row, and the row's `embedding_index` is the document's position. |
| LoadEmbeddings.WordsJoin | data/scripts/load_embeddings.py:50-52 | Non-empty words without whitespace, joined by single spaces, split back into the same words. |
| LoadEmbeddings.WordsGap | data/scripts/load_embeddings.py:50-52 | A non-empty whitespace run separates the words on its two sides; it adds no word and joins none. |
| LoadEmbeddings.JoinNormal | data/scripts/load_embeddings.py:50-52 | Words joined by single spaces make a text in normal form, which is empty exactly when there are no words. |
| LoadEmbeddings.NormalizeWsNormal | data/scripts/load_embeddings.py:50-52 | `normalize_ws` output has no leading or trailing whitespace, no whitespace but plain spaces, and never two spaces in a row; normalising it again changes nothing. |
| LoadEmbeddings.NormalizeWsGap | data/scripts/load_embeddings.py:50-52 | Texts that differ only in the whitespace of one gap get the same key. |
| LoadEmbeddings.MarkerKey | data/scripts/load_embeddings.py:64-72 | A metadata text has a key exactly when it contains " Cypher: ", and that key is in normal form. |
| LoadEmbeddings.LastWithKey | data/scripts/load_embeddings.py:66-74 | The index found is the last entry whose key is `k`, or -1 when no entry has that key. |
| LoadEmbeddings.KeyMapLastWins | data/scripts/load_embeddings.py:64-74 | A key is in `cypher_to_vec` exactly when some entry has it. Its value is the row of the last such entry, so a later duplicate overwrites an earlier one. |
| LoadEmbeddings.Matches | data/scripts/load_embeddings.py:80-84 | There are no more matches than nodes read. |
| LoadEmbeddings.MatchesMeaning | data/scripts/load_embeddings.py:80-84 | Every node whose normalised Cypher is a key is matched with the row bound to that key. Every match comes from such a node. |
| LoadEmbeddings.BuildKeyMap | data/scripts/load_embeddings.py:64-74 | The first loop builds exactly the key map, where the last entry wins. |
| LoadEmbeddings.FindMatches | data/scripts/load_embeddings.py:80-84 | The second loop keeps exactly the nodes whose normalised Cypher is a key, in the order they were read. |
| LoadEmbeddings.ChunkMatches | data/scripts/load_embeddings.py:87-97 | Stepping by 50 writes the matches as consecutive chunks, which `Seqs.ChunksCover` shows cover every match once, in order. |
| LoadEmbeddings.SetExampleEmbeddings | data/scripts/load_embeddings.py:55-99 | The chunks written are the matches against the key map. The function returns the number of matches and the number of distinct keys. |
| GenerateCypherLoad.EscAsWritten | data/scripts/generate_cypher_load.py:22-25 | The per-character `Esc` is `esc` as written: "" for the empty text, otherwise the four `replace` calls in order (backslash doubled first, then quote, newline, CR). |
| GenerateCypherLoad.EscReadsBack | data/scripts/generate_cypher_load.py:22-25 | An escaped value never ends its literal early. Read back as a Cypher literal body, it is the value with each newline turned into a space and each CR dropped. |
| GenerateCypherLoad.EscQuotesEscaped | data/scripts/generate_cypher_load.py:22-25 | Every quote in an escaped value is immediately preceded by a backslash. |
| GenerateCypherLoad.EscOneLine | data/scripts/generate_cypher_load.py:22-25 | An escaped value holds no newline and no CR. |
| GenerateCypherLoad.EscMerges | data/scripts/generate_cypher_load.py:22-25 | `esc` is not one-to-one: a newline and a space escape alike, and a CR escapes to nothing. |
| GenerateCypherLoad.GenerateScript | data/scripts/generate_cypher_load.py:28-155 | `main`, without the files, builds exactly the statement list `Script` and writes the statements joined by newlines. |
| GenerateCypherLoad.ScriptLength | data/scripts/generate_cypher_load.py:32-146 | The script holds 8 constraint lines and 1 line per clause. It holds 3 lines per function and 1 per distinct example query, up to 200. It holds 1 per distinct escaped pattern name, 3 per distinct non-empty escaped practice title, and 12 industry lines. |
| GenerateCypherLoad.ScriptOneLine | data/scripts/generate_cypher_load.py:32-146 | No statement of the script contains a newline. |
| GenerateCypherLoad.OutputSplits | data/scripts/generate_cypher_load.py:150-152 | Splitting the written text at newlines gives back exactly the statements. |
| GenerateCypherLoad.ScriptNamesDistinct | data/scripts/generate_cypher_load.py:98-125 | Emitted pattern names are pairwise distinct once escaped. Emitted practice titles are non-empty and pairwise distinct once escaped. |
| LoadViaDocker.EscapeAsWritten | data/scripts/load_via_docker.py:37-41 | The per-character `Escape` is `escape` as written: "" for the empty text, otherwise the three `replace` calls in order (backslash, quote, newline). |
| LoadViaDocker.EscapeRoundTrip | data/scripts/load_via_docker.py:37-41 | Decoding `\\`, `\'` and `\n` left to right gives back the input exactly. |
| LoadViaDocker.EscapeSafe | data/scripts/load_via_docker.py:37-41 | An escaped value holds no raw newline, and every quote in it is preceded by a backslash. |
| LoadViaDocker.EscapeInjective | data/scripts/load_via_docker.py:37-41 | Two values escape alike exactly when they are equal, and only "" escapes to "". |
| LoadViaDocker.UniqueLoop | data/scripts/load_via_docker.py:114-120 | The de-duplication loop keeps the first example of each raw query, in input order. |
| LoadViaDocker.BatchLoop | data/scripts/load_via_docker.py:122-141 | The batches are the unique examples cut into consecutive runs of 20. One script is run per example in order, and `loaded` counts them all. |
| LoadViaDocker.BatchesCover | data/scripts/load_via_docker.py:122-141 | The batches hold every unique example exactly once, in order. Each batch holds between 1 and 20, and only the last may hold fewer than 20. |
| LoadViaDocker.LoadAll | data/scripts/load_via_docker.py:44-210 | `main`, without the process, runs exactly the scripts `Calls` in order. The batches are the unique examples in runs of 20. The printed counts are the unique examples, the distinct escaped pattern names and the distinct non-empty escaped practice titles. |
| LoadViaDocker.SameAsRawDedup | data/scripts/load_via_docker.py:146-172 | `escape` is one-to-one, so skipping seen escaped names is skipping seen raw names. The patterns and practices loaded are the ones for which the embedding generator writes documents. |
| LoadViaDocker.CallsCount | data/scripts/load_via_docker.py:44-210 | `main` runs one script per clause, per function, per distinct example query, per distinct pattern name and per distinct non-empty practice title. It also runs four fixed scripts: the constraints, the industries and the two statistics queries. |
| CypherLiteral.UnescapeConcatMap | data/scripts/load_via_docker.py:37-41 | A text written token by token, where each token is a literal piece standing for some text, reads back as the concatenation of what the tokens stand for. This is the common step of both round trips. |
| CypherLiteral.DecodableQuotes | data/scripts/generate_cypher_load.py:22-25 | In any literal body that reads back, every quote follows a backslash. |
| Fences.CleanFenced | src/gibsgraph/training/scorer.py:150-155 | Removing the fence lines from a fenced reply gives back the stripped body, provided no line of the body itself starts with a fence. |
| Seqs.DedupByProperties | data/scripts/generate_embeddings.py:60-100 | The `seen`-set loops keep only admitted elements, with pairwise distinct keys. Every admitted key of the input is kept once, by its first element. |
| Seqs.ChunksCover | data/scripts/load_embeddings.py:87-89 | Chunking by `n` covers the list exactly once, in order. Each chunk holds between 1 and `n` elements, and only the last may hold fewer. |
| Text.JoinSplit | data/scripts/generate_cypher_load.py:150 | Splitting a text at a one-character separator and joining again gives back the text. |
| Text.SplitJoin | data/scripts/generate_cypher_load.py:150 | Joining pieces free of the separator and splitting again gives back the pieces. |

## Left out

**Numbers and text**
- Rounding.Round3: Python's `round(x, 3)` is taken on exact reals with
  halves rounded up. Python rounds binary floats half to even, and float
  representation error is not modelled.
- Scores are reals, so no score equality that depends on float rounding is
  claimed.
- PyValue.QuoteStr: characters at 128 and above are written as they are.
  Python's `repr` escapes the non-printable ones among them.
- Text is ASCII. Unicode case mapping, `\w`, `\s` and `str.split()` beyond
  ASCII are not modelled.
- Python set iteration order is a parameter. For `FORBIDDEN_KEYWORDS`, the
  validator takes any listing of the set as a parameter
  (`ValidatorRules.IsKeywordOrder`), because the order of the findings
  follows it.

**External parties**
- The LLM replies, the Neo4j query results, the `pcst_fast` solver, numpy
  (`argsort`, norms) and `json.loads` are oracle parameters.
- The sentence encoder is not modelled. Embedding vectors are named by
  their row index.
- The prompt wording of `build_socratic_scoring_prompt`, the explanation
  prompt and the Cypher-generation prompt is not modelled. Only the
  replies' use is.
- Agent.MakeLlm: the temperature, timeouts, retries and API-key lookup
  passed to the client constructors are not modelled. Only the client kind,
  the model name, the base URL and the key variable are.

**Runtime, framework and I/O**
- LangGraph's `build_graph`, `GibsGraphAgent` (`ask_async`, `close`) and
  asyncio are not modelled. `Agent.AskOutcome` states the node sequence the
  graph runs.
- The CLI, the Streamlit demo, the `_graph` facade, the GNN retriever, the
  stress test, and `visualizer.to_html_pyvis` (an optional pyvis
  dependency) are not modelled.
- `kg_builder` is not modelled: it is a stub whose chunk count is a
  placeholder.
- `load_expert_graph.py` and `validate_expert_graph.py` are not modelled.
  Their logic is Cypher run by the database.
- `Settings` is not modelled beyond `llm_model`, the provider table and the
  URI check: its other fields, environment loading and `get_settings`
  caching are left out.
- File and process plumbing in the data scripts is not modelled: `load_jsonl`,
  `write_jsonl`, argument parsing, `run_cypher`'s subprocess with its exit
  code, and every progress or statistics `print`.
  - The scripts' `main` functions take the parsed records as inputs.
  - They return the statements, scripts or chunks they would write or run.
- `parse_all_clauses`, `parse_all_functions` and `parse_modeling_pages` walk
  directories. That walk is not modelled: skipping `index.adoc`, taking the
  category from the file stem, and visiting the data-modelling pages twice
  (both `data-modeling` and `PAGES_DIR` are searched recursively). Every
  operation takes the page text and its path.
- The remaining Neo4j writes of `load_embeddings.py` are not modelled: each
  is a single query whose effect is in the database. These are
  `set_embeddings_by_name`, `create_vector_index`, `create_fulltext_index`
  and `print_results`, plus the grouping of metadata by type in its `main`.

**Narrower than the source**
- CypherLiteral.Unescape decodes only `\\`, `\'` and `\n`, the escapes the
  two load scripts produce. Neo4j's other escapes are refused rather than
  decoded.
- Retriever.GraphRetriever.Retrieve: the embedding call (`_embed`), the
  neighbourhood query (`_fetch_neighbourhood`), the Cypher-generation LLM
  call and the label, relationship-type and pattern discovery queries are
  total oracles. In the source an exception from any of them propagates out
  of `retrieve`; the model cannot express that failure. The agent's
  `retrieve` oracle returns a `Result`, so the agent still sees such
  failures as errors.
- Agent.GenerateExplanation: the LLM call is a total oracle. An exception
  from `llm.invoke` propagates out of `generate_explanation` in the source.
- PyValue: a subgraph with no nodes and no edges is not distinguished from
  `None` where the source tests the subgraph's truthiness.

## Code and tests that disagree

Where the repository's code and its unit tests disagree, the model follows
the code:
- A generic node label fails the syntactic gate
  (`Validator.CheckGenericLabels`). The tests expect a warning that lets
  the gate pass.
- Without an expert store, the semantic stage scores 0.5 with one finding
  (`Validator.SchemaValidator.ValidateSemantic`). The tests expect 0.0.
- Approval requires an overall score of at least 0.7 and a passed gate. It
  ignores ERROR findings (`Validator.GateBlocksApproval`), while some tests
  assume errors block approval.
- Syntactic and semantic findings are plain strings, while the result's
  findings field is a `list[Finding]`. Pydantic refuses a string there, so
  `validate` raises whenever the syntactic or the semantic stage reports
  anything, and always without a reachable expert store. The model returns
  that error (`Validator.ValidationMeaning`). The tests expect a result whose
  findings carry severities.
- A failed connectivity check is a WARNING, and the justification check
  passes at 20 characters.
- Only a `;`-prefixed DELETE, DROP or DETACH is refused by the Cypher guard
  (`CypherGuard.UnprefixedDeleteAccepted`). The agent and retriever tests
  expect `MATCH (n) DELETE n` to be refused.
- The configuration tests expect `pcst_*` settings that `config.py` does not
  define.

The two load scripts also differ from each other:
- `generate_cypher_load.py` escapes lossily: newlines become spaces and CRs
  are dropped (`GenerateCypherLoad.EscMerges`). So its pattern and
  practice loops, which compare escaped names, can merge distinct names.
- `load_via_docker.py` escapes one-to-one, so its de-duplication is the
  de-duplication by raw name (`LoadViaDocker.SameAsRawDedup`).
- `load_via_docker.py` loads every unique example, with no 200 cap and no
  description cut. It cuts practice descriptions to 400 characters.
