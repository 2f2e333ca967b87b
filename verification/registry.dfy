/** lib/models/index.ts: the model registry and `getModel`. */
module Registry {
  import opened Types
  import opened Strings
  import Prompts

  /** The adapters a registry entry builds, with their constructor
      arguments. */
  datatype Adapter =
    | GroqAdapter(keyEnvVar: string)
    | ClaudeAdapter
    | OpenAIAdapter
    | GeminiAdapter
    | CustomAdapter
    | MockAdapter

  /** `registry`: the nine keys and the adapter each builds. */
  const Table: map<string, Adapter> := map[
    "groq1" := GroqAdapter("GROQ_API_KEY_1"),
    "groq2" := GroqAdapter("GROQ_API_KEY_2"),
    "groq3" := GroqAdapter("GROQ_API_KEY_3"),
    "groq4" := GroqAdapter("GROQ_API_KEY_4"),
    "claude" := ClaudeAdapter,
    "openai" := OpenAIAdapter,
    "gemini" := GeminiAdapter,
    "custom" := CustomAdapter,
    "mock" := MockAdapter
  ]

  const Keys: set<string> := {"groq1", "groq2", "groq3", "groq4", "claude", "openai", "gemini", "custom", "mock"}

  /** What `getModel(key)` returns, and the warning it logs, if any. */
  datatype Lookup = Lookup(adapter: Adapter, warning: Option<string>)

  function FallbackWarning(key: string): string {
    "Unknown model key \"" + key + "\", falling back to mock"
  }

  /** `getModel(key)`: the registry's adapter, or a mock with a warning
      for any key outside the nine. */
  function GetModel(key: string): (r: Lookup)
    ensures key in Keys <==> r.warning.None?
    ensures key !in Keys ==> r.adapter == MockAdapter && r.warning == Some(FallbackWarning(key))
    ensures key in Keys ==> r.adapter == Table[key]
  {
    if key in Table then Lookup(Table[key], None)
    else Lookup(MockAdapter, Some(FallbackWarning(key)))
  }

  /** groq1..groq4 are Groq adapters bound to their own key variable; the
      others build the adapter of the same name. */
  lemma RegistryEntries()
    ensures GetModel("groq1").adapter == GroqAdapter("GROQ_API_KEY_1")
    ensures GetModel("groq2").adapter == GroqAdapter("GROQ_API_KEY_2")
    ensures GetModel("groq3").adapter == GroqAdapter("GROQ_API_KEY_3")
    ensures GetModel("groq4").adapter == GroqAdapter("GROQ_API_KEY_4")
    ensures GetModel("claude").adapter == ClaudeAdapter && GetModel("openai").adapter == OpenAIAdapter
    ensures GetModel("gemini").adapter == GeminiAdapter && GetModel("custom").adapter == CustomAdapter
    ensures GetModel("mock").adapter == MockAdapter
  {
  }

  /** The warning names the key it could not find. */
  lemma WarningNamesKey(key: string)
    requires key !in Keys
    ensures Contains(GetModel(key).warning.value, key)
  {
    ContainsInfix("Unknown model key \"", key, "\", falling back to mock");
  }

  /** None of the model keys the agent roster uses is a registry key: every
      agent of every mode is served by the mock adapter. */
  lemma AgentsFallBackToMock()
    ensures forall k | 0 <= k < |Prompts.Roster| ::
      GetModel(Prompts.Roster[k].model).adapter == MockAdapter && GetModel(Prompts.Roster[k].model).warning.Some?
  {
  }
}
