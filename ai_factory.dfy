/**
 * The provider registry: three providers registered under fixed ids, and
 * the lookup that resolves a requested name, then the `AI_PROVIDER`
 * setting, then `openai`, falling back to the OpenAI provider for any id
 * that is not registered.
 */
module AiFactory {
  import opened Wrappers

  datatype Provider = OpenAI | Ollama | TemplateGenerator

  /** `AI_PROVIDERS` */
  const Registry: map<string, Provider> := map["openai" := OpenAI, "ollama" := Ollama, "template" := TemplateGenerator]

  /** A JavaScript string argument is truthy when it is present and not empty. */
  predicate Truthy(s: Option<string>) {
    s.Some? && s.value != ""
  }

  /** `providerName || process.env.AI_PROVIDER || 'openai'` */
  function RequestedId(providerName: Option<string>, envDefault: Option<string>): (id: string)
    ensures Truthy(providerName) ==> id == providerName.value
    ensures !Truthy(providerName) && Truthy(envDefault) ==> id == envDefault.value
    ensures !Truthy(providerName) && !Truthy(envDefault) ==> id == "openai"
  {
    if Truthy(providerName) then providerName.value
    else if Truthy(envDefault) then envDefault.value
    else "openai"
  }

  /** `getAIProvider(providerName)` with the environment setting passed in. */
  function GetAIProvider(providerName: Option<string>, envDefault: Option<string>): (p: Provider)
    ensures p in Registry.Values
    ensures RequestedId(providerName, envDefault) in Registry ==> p == Registry[RequestedId(providerName, envDefault)]
    ensures RequestedId(providerName, envDefault) !in Registry ==> p == OpenAI
  {
    var id := RequestedId(providerName, envDefault);
    if id !in Registry then
      assert Registry["openai"] == OpenAI;
      OpenAI
    else
      Registry[id]
  }

  /** The registry holds exactly the three ids, each mapped to a different provider. */
  lemma RegistryIds()
    ensures Registry.Keys == {"openai", "ollama", "template"}
    ensures forall a, b :: a in Registry && b in Registry && a != b ==> Registry[a] != Registry[b]
  {
  }

  /** A registered id resolves to its own provider, whatever the environment says. */
  lemma RegisteredResolvesToItself(id: string, envDefault: Option<string>)
    requires id in Registry
    ensures GetAIProvider(Some(id), envDefault) == Registry[id]
  {
  }

  /** An id that is not registered resolves to OpenAI, never to the configured default. */
  lemma UnknownFallsBackToOpenAI(id: string, envDefault: Option<string>)
    requires id != "" && id !in Registry
    ensures GetAIProvider(Some(id), envDefault) == OpenAI
  {
  }

  /**
   * Asking for an unknown id gives the same provider as asking for none
   * exactly when the configured default is unset, empty, `openai` or itself
   * unknown, that is, when it names neither `ollama` nor `template`.
   */
  lemma UnknownMatchesNoRequest(id: string, envDefault: Option<string>)
    requires id != "" && id !in Registry
    ensures GetAIProvider(Some(id), envDefault) == GetAIProvider(None, envDefault)
        <==> !(Truthy(envDefault) && envDefault.value in {"ollama", "template"})
  {
    if Truthy(envDefault) && envDefault.value in {"ollama", "template"} {
      assert GetAIProvider(None, envDefault) == Registry[envDefault.value];
      assert Registry[envDefault.value] != OpenAI;
    }
  }
}
