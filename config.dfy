// The LLM provider registry and the Neo4j URI check (src/gibsgraph/config.py).

module Config {
  import opened Wrappers
  import opened Text

  /** `LLMProvider`: only OpenAI-compatible providers carry a `base_url`. */
  datatype Provider = Provider(name: string, envKey: string, defaultModel: string,
                               prefixes: seq<string>, baseUrl: Option<string>)

  const OpenAI := Provider("openai", "OPENAI_API_KEY", "gpt-4o-mini", ["gpt-", "o1-", "o3-"], None)
  const Anthropic := Provider("anthropic", "ANTHROPIC_API_KEY", "claude-3-haiku-20240307", ["claude-"], None)
  const Mistral := Provider("mistral", "MISTRAL_API_KEY", "mistral-small-latest",
                            ["mistral-", "open-mistral-", "open-mixtral-"], None)
  const XAI := Provider("xai", "XAI_API_KEY", "grok-3", ["grok-"], Some("https://api.x.ai/v1"))

  /** `PROVIDERS`, in lookup order. */
  const Providers: seq<Provider> := [OpenAI, Anthropic, Mistral, XAI]

  /** The default `llm_model` setting: the first provider's default model. */
  const DefaultLlmModel := Providers[0].defaultModel

  /** `model` starts with one of the provider's prefixes. */
  predicate Owns(p: Provider, model: string)
  {
    exists k :: 0 <= k < |p.prefixes| && StartsWith(model, p.prefixes[k])
  }

  function FirstOwner(ps: seq<Provider>, model: string): (r: Option<Provider>)
    ensures r.Some? ==> r.value in ps && Owns(r.value, model)
    ensures r.None? <==> forall i :: 0 <= i < |ps| ==> !Owns(ps[i], model)
    ensures r.Some? ==> exists i :: 0 <= i < |ps| && ps[i] == r.value && forall j :: 0 <= j < i ==> !Owns(ps[j], model)
    decreases |ps|
  {
    if |ps| == 0 then None
    else if Owns(ps[0], model) then Some(ps[0])
    else
      var r := FirstOwner(ps[1..], model);
      assert forall i :: 1 <= i < |ps| ==> ps[i] == ps[1..][i - 1];
      if r.Some? then
        var i :| 0 <= i < |ps[1..]| && ps[1..][i] == r.value && forall j :: 0 <= j < i ==> !Owns(ps[1..][j], model);
        assert ps[i + 1] == r.value && forall j :: 0 <= j < i + 1 ==> !Owns(ps[j], model);
        r
      else r
  }

  /** `provider_for_model`: the first provider, in registry order, owning the model name. */
  function ProviderFor(model: string): (r: Option<Provider>)
    ensures r.Some? ==> r.value in Providers && Owns(r.value, model)
    ensures r.None? <==> forall i :: 0 <= i < |Providers| ==> !Owns(Providers[i], model)
  {
    FirstOwner(Providers, model)
  }

  /** Two strings differing somewhere within both are never prefixes of one another. */
  lemma Apart(a: string, b: string, k: nat)
    requires k < |a| && k < |b| && a[k] != b[k]
    ensures !StartsWith(a, b) && !StartsWith(b, a)
  {
  }

  /** No prefix of one provider is a prefix of another provider's prefix. */
  lemma PrefixesDisjoint(i: nat, j: nat, a: nat, b: nat)
    requires i < |Providers| && j < |Providers| && i != j
    requires a < |Providers[i].prefixes| && b < |Providers[j].prefixes|
    ensures !StartsWith(Providers[j].prefixes[b], Providers[i].prefixes[a])
  {
    var x := Providers[i].prefixes[a];
    var y := Providers[j].prefixes[b];
    if x[0] != y[0] {
      Apart(x, y, 0);
    } else {
      assert x[1] != y[1];
      Apart(x, y, 1);
    }
  }

  /** Two prefixes of the same name: the shorter is a prefix of the longer. */
  lemma CommonPrefix(m: string, x: string, y: string)
    requires StartsWith(m, x) && StartsWith(m, y) && |x| <= |y|
    ensures StartsWith(y, x)
  {
    assert y[..|x|] == m[..|y|][..|x|];
  }

  /** Every model name has at most one owner, so the registry order never decides a lookup. */
  lemma OwnerUnique(model: string, i: nat)
    requires i < |Providers| && Owns(Providers[i], model)
    ensures ProviderFor(model) == Some(Providers[i])
  {
    var r := ProviderFor(model);
    var j :| 0 <= j < |Providers| && Providers[j] == r.value;
    if j != i {
      var a :| 0 <= a < |Providers[i].prefixes| && StartsWith(model, Providers[i].prefixes[a]);
      var b :| 0 <= b < |Providers[j].prefixes| && StartsWith(model, Providers[j].prefixes[b]);
      if |Providers[i].prefixes[a]| <= |Providers[j].prefixes[b]| {
        CommonPrefix(model, Providers[i].prefixes[a], Providers[j].prefixes[b]);
        PrefixesDisjoint(i, j, a, b);
      } else {
        CommonPrefix(model, Providers[j].prefixes[b], Providers[i].prefixes[a]);
        PrefixesDisjoint(j, i, b, a);
      }
    }
  }

  /** Only xAI is reached through an OpenAI-compatible base URL; the default model belongs to OpenAI. */
  lemma RegistryFacts()
    ensures forall i :: 0 <= i < |Providers| ==> (Providers[i].baseUrl.Some? <==> Providers[i].name == "xai")
    ensures ProviderFor(DefaultLlmModel) == Some(OpenAI)
  {
    assert StartsWith(DefaultLlmModel, OpenAI.prefixes[0]);
  }

  const AllowedSchemes: seq<string> := ["bolt://", "bolt+s://", "neo4j://", "neo4j+s://"]

  const UriMessage := "NEO4J_URI must start with one of ('bolt://', 'bolt+s://', 'neo4j://', 'neo4j+s://')"

  /** `Settings.validate_neo4j_uri`: the URI unchanged when its scheme is allowed, the validation error otherwise. */
  function ValidateNeo4jUri(v: string): (r: Result<string, string>)
    ensures r.Ok? <==> exists k :: 0 <= k < |AllowedSchemes| && StartsWith(v, AllowedSchemes[k])
    ensures r.Ok? ==> r.value == v
    ensures r.Err? ==> r.error == UriMessage
  {
    if exists k :: 0 <= k < |AllowedSchemes| && StartsWith(v, AllowedSchemes[k]) then Ok(v) else Err(UriMessage)
  }

  /** The default URI `bolt://localhost:7687` passes; an `http://` URI does not. */
  lemma UriExamples()
    ensures ValidateNeo4jUri("bolt://localhost:7687") == Ok("bolt://localhost:7687")
    ensures ValidateNeo4jUri("http://localhost:7474").Err?
  {
    assert StartsWith("bolt://localhost:7687", AllowedSchemes[0]);
    var h := "http://localhost:7474";
    forall k | 0 <= k < |AllowedSchemes|
      ensures !StartsWith(h, AllowedSchemes[k])
    {
      Apart(h, AllowedSchemes[k], 0);
    }
  }
}
