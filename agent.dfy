// The agent's node functions and its routing rule (src/gibsgraph/agent.py).
// Each node reads the state and returns an update record; the graph runner
// merges the update into the state. The retriever and the explanation LLM
// are parameters.

module Agent {
  import opened Wrappers
  import opened Text
  import opened PyValue
  import CypherGuard
  import Visualizer
  import Config

  /**
   * `AgentState`. `subgraph` is `None` both for Python's `None` and for an
   * empty dict: the nodes only test it for truthiness.
   */
  datatype AgentState = AgentState(
    query: string,
    usecase: string,
    subgraph: Option<Subgraph>,
    schemaCypher: Option<string>,
    retrievedContext: string,
    explanation: string,
    cypherUsed: string,
    visualizationUrl: string,
    errors: seq<string>,
    steps: int,
    requiresHumanReview: bool)

  /**
   * The chat client `_make_llm` builds: its class, the model name, and for
   * an OpenAI-compatible provider the base URL and the environment variable
   * holding its key. Temperature and retries are copied from the settings
   * and are not modelled.
   */
  datatype Client =
    | ChatAnthropic(model: string)
    | ChatMistral(model: string)
    | ChatOpenAI(model: string, baseUrl: Option<string>, keyVariable: Option<string>)

  /** `_make_llm`: the registry decides the client; an unknown model name falls back to native OpenAI. */
  function MakeLlm(model: string): (c: Client)
    ensures c.model == model
    ensures c.ChatAnthropic? <==> Config.ProviderFor(model) == Some(Config.Anthropic)
    ensures c.ChatMistral? <==> Config.ProviderFor(model) == Some(Config.Mistral)
    ensures c.ChatOpenAI? && c.baseUrl.Some? ==> Config.ProviderFor(model).Some? && Config.ProviderFor(model).value.baseUrl == c.baseUrl
  {
    var p := Config.ProviderFor(model);
    if p.Some? && p.value.name == "anthropic" then ChatAnthropic(model)
    else if p.Some? && p.value.name == "mistral" then ChatMistral(model)
    else if p.Some? && p.value.baseUrl.Some? then ChatOpenAI(model, p.value.baseUrl, Some(p.value.envKey))
    else ChatOpenAI(model, None, None)
  }

  /**
   * The client follows the model name's prefix: "claude-" gives Anthropic,
   * "mistral-" gives Mistral, "grok-" gives OpenAI's client pointed at xAI
   * with the xAI key, and a name no provider owns gives native OpenAI.
   */
  lemma MakeLlmByPrefix(model: string)
    ensures StartsWith(model, "claude-") ==> MakeLlm(model) == ChatAnthropic(model)
    ensures StartsWith(model, "mistral-") ==> MakeLlm(model) == ChatMistral(model)
    ensures StartsWith(model, "grok-") ==> MakeLlm(model) == ChatOpenAI(model, Some("https://api.x.ai/v1"), Some("XAI_API_KEY"))
    ensures Config.ProviderFor(model).None? ==> MakeLlm(model) == ChatOpenAI(model, None, None)
  {
    if StartsWith(model, "claude-") {
      assert StartsWith(model, Config.Providers[1].prefixes[0]);
      Config.OwnerUnique(model, 1);
    }
    if StartsWith(model, "mistral-") {
      assert StartsWith(model, Config.Providers[2].prefixes[0]);
      Config.OwnerUnique(model, 2);
    }
    if StartsWith(model, "grok-") {
      assert StartsWith(model, Config.Providers[3].prefixes[0]);
      Config.OwnerUnique(model, 3);
    }
  }

  /** `AgentState(query=query)`: every other field at its default. */
  function Initial(query: string): (s: AgentState)
    ensures s.query == query && s.steps == 0 && s.errors == [] && !s.requiresHumanReview
    ensures s.subgraph.None? && s.retrievedContext == "" && s.cypherUsed == "" && s.visualizationUrl == ""
  {
    AgentState(query, "", None, None, "", "", "", "", [], 0, false)
  }

  /** The dict a node returns: a field is `Some` exactly when its key is present. Every node sets `steps`. */
  datatype Update = Update(
    subgraph: Option<Option<Subgraph>>,
    retrievedContext: Option<string>,
    explanation: Option<string>,
    cypherUsed: Option<string>,
    visualizationUrl: Option<string>,
    errors: Option<seq<string>>,
    requiresHumanReview: Option<bool>,
    steps: int)

  /** An update carrying only the step count. */
  function StepOnly(steps: int): Update
  {
    Update(None, None, None, None, None, None, None, steps)
  }

  function Or<T>(o: Option<T>, d: T): T
  {
    if o.Some? then o.value else d
  }

  /** The runner's merge: present keys overwrite their field, absent keys leave it alone. */
  function Apply(s: AgentState, u: Update): (t: AgentState)
    ensures t.query == s.query && t.usecase == s.usecase && t.schemaCypher == s.schemaCypher
    ensures t.steps == u.steps
    ensures u.errors.None? ==> t.errors == s.errors
    ensures u.subgraph.None? ==> t.subgraph == s.subgraph
    ensures u.requiresHumanReview.None? ==> t.requiresHumanReview == s.requiresHumanReview
    ensures u.visualizationUrl.None? ==> t.visualizationUrl == s.visualizationUrl
  {
    AgentState(
      s.query, s.usecase,
      Or(u.subgraph, s.subgraph), s.schemaCypher,
      Or(u.retrievedContext, s.retrievedContext),
      Or(u.explanation, s.explanation),
      Or(u.cypherUsed, s.cypherUsed),
      Or(u.visualizationUrl, s.visualizationUrl),
      Or(u.errors, s.errors),
      u.steps,
      Or(u.requiresHumanReview, s.requiresHumanReview))
  }

  // ---------------------------------------------------------------------------
  // Nodes
  // ---------------------------------------------------------------------------

  /** What `retriever.retrieve` hands back to the agent. */
  datatype Hit = Hit(subgraph: Option<Subgraph>, context: string, cypher: string)

  /** `retrieve_subgraph`: `retrieve` yields a hit, or the message of the exception it raised. */
  function RetrieveSubgraph(s: AgentState, retrieve: string -> Result<Hit, string>): (u: Update)
    ensures u.steps == s.steps + 1
    ensures retrieve(s.query).Err? ==>
      u == StepOnly(s.steps + 1).(errors := Some(s.errors + [retrieve(s.query).error]))
    ensures retrieve(s.query).Ok? ==>
      var h := retrieve(s.query).value;
      && u.errors.None? && u.requiresHumanReview.None?
      && u.subgraph == Some(h.subgraph) && u.retrievedContext == Some(h.context) && u.cypherUsed == Some(h.cypher)
  {
    match retrieve(s.query)
    case Ok(h) => Update(Some(h.subgraph), Some(h.context), None, Some(h.cypher), None, None, None, s.steps + 1)
    case Err(msg) => StepOnly(s.steps + 1).(errors := Some(s.errors + [msg]))
  }

  const NoInformation := "No relevant information found in the knowledge graph."

  /** The contexts that carry nothing to explain. */
  predicate NothingRetrieved(context: string)
  {
    context == "" || context == "No results found."
  }

  /**
   * `generate_explanation`: the stripped reply of `llm`, asked about the
   * query, the context and the Cypher used; the fixed no-information text
   * when there is nothing to explain.
   */
  function GenerateExplanation(s: AgentState, llm: (string, string, string) -> string): (u: Update)
    ensures u.steps == s.steps + 1
    ensures NothingRetrieved(s.retrievedContext) ==> u == StepOnly(s.steps + 1).(explanation := Some(NoInformation))
    ensures !NothingRetrieved(s.retrievedContext) ==>
      u == StepOnly(s.steps + 1).(explanation := Some(Strip(llm(s.query, s.retrievedContext, s.cypherUsed))))
  {
    if NothingRetrieved(s.retrievedContext) then
      StepOnly(s.steps + 1).(explanation := Some(NoInformation))
    else
      StepOnly(s.steps + 1).(explanation := Some(Strip(llm(s.query, s.retrievedContext, s.cypherUsed))))
  }

  /** `validate_output`: review is wanted when the Cypher used is refused by the guard, or errors were recorded. */
  function ValidateOutput(s: AgentState): (u: Update)
    ensures u.steps == s.steps + 1
    ensures u == StepOnly(s.steps + 1).(requiresHumanReview := u.requiresHumanReview)
    ensures u.requiresHumanReview == Some((s.cypherUsed != "" && !CypherGuard.Validate(s.cypherUsed)) || s.errors != [])
  {
    var valid := if s.cypherUsed != "" then CypherGuard.Validate(s.cypherUsed) else true;
    StepOnly(s.steps + 1).(requiresHumanReview := Some(!valid || |s.errors| > 0))
  }

  /** `visualize`: the Bloom link of the subgraph, if there is one. */
  function Visualize(s: AgentState): (u: Update)
    ensures u.steps == s.steps + 1
    ensures s.subgraph.None? <==> u == StepOnly(s.steps + 1)
    ensures s.subgraph.Some? ==> u.visualizationUrl == Some(Visualizer.BloomUrl(s.subgraph.value))
  {
    match s.subgraph
    case None => StepOnly(s.steps + 1)
    case Some(g) => StepOnly(s.steps + 1).(visualizationUrl := Some(Visualizer.BloomUrl(g)))
  }

  // ---------------------------------------------------------------------------
  // Routing
  // ---------------------------------------------------------------------------

  datatype Route = End | HumanReview | ToVisualize

  /** `should_continue`. */
  function ShouldContinue(s: AgentState, maxSteps: int): (r: Route)
    ensures r == End <==> s.steps >= maxSteps || |s.errors| >= 3
    ensures r == HumanReview <==> s.steps < maxSteps && |s.errors| < 3 && s.requiresHumanReview
    ensures r == ToVisualize <==> s.steps < maxSteps && |s.errors| < 3 && !s.requiresHumanReview
  {
    if s.steps >= maxSteps || |s.errors| >= 3 then End
    else if s.requiresHumanReview then HumanReview
    else ToVisualize
  }

  /** The agent's nodes, as the graph names them. */
  datatype Node = RetrieveNode | ExplainNode | ValidateNode | VisualizeNode

  function Step(s: AgentState, n: Node, retrieve: string -> Result<Hit, string>, llm: (string, string, string) -> string): AgentState
  {
    match n
    case RetrieveNode => Apply(s, RetrieveSubgraph(s, retrieve))
    case ExplainNode => Apply(s, GenerateExplanation(s, llm))
    case ValidateNode => Apply(s, ValidateOutput(s))
    case VisualizeNode => Apply(s, Visualize(s))
  }

  function Steps(s: AgentState, path: seq<Node>, retrieve: string -> Result<Hit, string>, llm: (string, string, string) -> string)
    : AgentState
    decreases |path|
  {
    if |path| == 0 then s else Steps(Step(s, path[0], retrieve, llm), path[1..], retrieve, llm)
  }

  /** Whatever nodes run, each adds exactly one step and none shortens the error list. */
  lemma {:induction false} StepsCount(s: AgentState, path: seq<Node>, retrieve: string -> Result<Hit, string>,
                                      llm: (string, string, string) -> string)
    ensures Steps(s, path, retrieve, llm).steps == s.steps + |path|
    ensures |Steps(s, path, retrieve, llm).errors| >= |s.errors|
    ensures Steps(s, path, retrieve, llm).query == s.query
    decreases |path|
  {
    if |path| > 0 {
      StepsCount(Step(s, path[0], retrieve, llm), path[1..], retrieve, llm);
    }
  }

  /** Routing always ends once enough nodes have run, whichever they are. */
  lemma RoutingEnds(s: AgentState, path: seq<Node>, retrieve: string -> Result<Hit, string>,
                    llm: (string, string, string) -> string, maxSteps: int)
    requires |path| >= maxSteps - s.steps
    ensures ShouldContinue(Steps(s, path, retrieve, llm), maxSteps) == End
  {
    StepsCount(s, path, retrieve, llm);
  }

  /**
   * The compiled graph: retrieve, explain, validate, then visualize when the
   * router says so; human review and the step or error limits end the run.
   */
  function Ask(query: string, retrieve: string -> Result<Hit, string>, llm: (string, string, string) -> string,
               maxSteps: int): AgentState
  {
    var s := Steps(Initial(query), [RetrieveNode, ExplainNode, ValidateNode], retrieve, llm);
    if ShouldContinue(s, maxSteps) == ToVisualize then Step(s, VisualizeNode, retrieve, llm) else s
  }

  /**
   * A run that ends wanting review never draws a link, a failed retrieval
   * always asks for review and records its message, and a run takes three or
   * four steps.
   */
  lemma AskOutcome(query: string, retrieve: string -> Result<Hit, string>, llm: (string, string, string) -> string,
                   maxSteps: int)
    ensures var r := Ask(query, retrieve, llm, maxSteps);
      r.steps == 3 || r.steps == 4
    ensures var r := Ask(query, retrieve, llm, maxSteps);
      r.requiresHumanReview ==> r.visualizationUrl == ""
    ensures var r := Ask(query, retrieve, llm, maxSteps);
      retrieve(query).Err? ==> r.requiresHumanReview && r.errors == [retrieve(query).error] && r.visualizationUrl == ""
    ensures var r := Ask(query, retrieve, llm, maxSteps);
      maxSteps <= 3 ==> r.steps == 3
  {
    var s0 := Initial(query);
    var s1 := Step(s0, RetrieveNode, retrieve, llm);
    var s2 := Step(s1, ExplainNode, retrieve, llm);
    var s3 := Step(s2, ValidateNode, retrieve, llm);
    assert Steps(s0, [RetrieveNode, ExplainNode, ValidateNode], retrieve, llm) == s3 by {
      assert [RetrieveNode, ExplainNode, ValidateNode][1..] == [ExplainNode, ValidateNode];
      assert [ExplainNode, ValidateNode][1..] == [ValidateNode];
      assert [ValidateNode][1..] == [];
    }
    if retrieve(query).Err? {
      assert s1.errors == [retrieve(query).error] && s1.subgraph.None?;
      assert s3.requiresHumanReview;
    }
  }

  /** A Cypher query that writes after a `;` always sends the answer to review. */
  lemma WriteQueryNeedsReview(s: AgentState, i: nat, w: string, maxSteps: int)
    requires w in {"DROP", "DELETE", "DETACH"}
    requires CypherGuard.MatchesAt(s.cypherUsed, CypherGuard.AfterSemicolon(w), i)
    ensures Apply(s, ValidateOutput(s)).requiresHumanReview
    ensures |s.errors| < 3 && s.steps + 1 < maxSteps ==> ShouldContinue(Apply(s, ValidateOutput(s)), maxSteps) == HumanReview
  {
    CypherGuard.SemicolonWriteRefused(s.cypherUsed, i, w);
  }
}
