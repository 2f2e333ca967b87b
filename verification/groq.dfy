/** lib/models/groq.ts: `GroqAdapter.complete` around the HTTP exchange. */
module Groq {
  import opened Types
  import opened Strings
  import opened Providers

  const FallbackKeyVar := "GROQ_API_KEY"
  const DefaultModel := "llama-3.3-70b-versatile"
  const DefaultMaxTokens := 400
  /** The longest text `complete` resolves with. */
  const Cap := 2000

  /** The request body the adapter posts, with the key it authorises with. */
  datatype Request = Request(apiKey: string, model: string, maxTokens: nat, messages: seq<ChatMessage>)

  /** What one `complete` call does: the request it sends, if it gets that
      far, and how it settles. */
  datatype Exchange = Exchange(request: Option<Request>, result: Completion)

  /** `process.env[keyEnvVar] ?? process.env.GROQ_API_KEY ?? ''` */
  function ApiKey(env: map<string, string>, keyEnvVar: string): (key: string)
    ensures keyEnvVar in env ==> key == env[keyEnvVar]
    ensures keyEnvVar !in env && FallbackKeyVar in env ==> key == env[FallbackKeyVar]
    ensures keyEnvVar !in env && FallbackKeyVar !in env ==> key == ""
  {
    EnvOr(env, keyEnvVar, EnvOr(env, FallbackKeyVar, ""))
  }

  /** The model the constructor settles on when none is passed. */
  function ModelName(env: map<string, string>): string {
    EnvOr(env, "GROQ_MODEL", DefaultModel)
  }

  function MissingKeyMessage(keyEnvVar: string): string {
    "Missing env var: " + keyEnvVar + " or " + FallbackKeyVar
  }

  function ErrorMessage(status: nat, errorText: string): string {
    "Groq API error " + Decimal(status) + ": " + errorText
  }

  /** `new GroqAdapter(keyEnvVar).complete(systemPrompt, userMessage,
      history)`, with `env` the process environment and `response` what
      the API answers. */
  function Complete(env: map<string, string>, keyEnvVar: string, systemPrompt: string, userMessage: string,
                    history: seq<Message>, response: Response): (x: Exchange)
    // an empty key fails before any request is sent
    ensures ApiKey(env, keyEnvVar) == "" <==> x.request.None?
    ensures x.request.None? ==> x.result == Failed(MissingKeyMessage(keyEnvVar))
    ensures x.request.Some? ==>
      x.request.value == Request(ApiKey(env, keyEnvVar), ModelName(env), DefaultMaxTokens,
                                 ChatMessages(systemPrompt, userMessage, history))
    // a refused request fails with its status and body
    ensures x.request.Some? && !response.ok ==> x.result == Failed(ErrorMessage(response.status, response.errorText))
    // an accepted one resolves with the finished reply, at most `Cap` long
    ensures x.request.Some? && response.ok ==>
      x.result.Ok? && x.result.text == PostProcess(response.content, Cap) && |x.result.text| <= Cap
  {
    var apiKey := ApiKey(env, keyEnvVar);
    if apiKey == "" then Exchange(None, Failed(MissingKeyMessage(keyEnvVar)))
    else
      var request := Request(apiKey, ModelName(env), DefaultMaxTokens, ChatMessages(systemPrompt, userMessage, history));
      if !response.ok then Exchange(Some(request), Failed(ErrorMessage(response.status, response.errorText)))
      else Exchange(Some(request), Ok(PostProcess(response.content, Cap)))
  }

  /** A defined but empty per-agent variable is not replaced by
      `GROQ_API_KEY`: the call fails even when the shared key is set. */
  lemma EmptyKeyShadowsFallback(env: map<string, string>, keyEnvVar: string, systemPrompt: string,
                                userMessage: string, history: seq<Message>, response: Response)
    requires keyEnvVar in env && env[keyEnvVar] == ""
    ensures Complete(env, keyEnvVar, systemPrompt, userMessage, history, response).result.Failed?
  {
  }

  /** The error message of a refused request starts with the provider and
      the status. */
  lemma ErrorNamesStatus(status: nat, errorText: string)
    ensures "Groq API error " + Decimal(status) <= ErrorMessage(status, errorText)
  {
  }
}
