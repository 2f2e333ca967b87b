/** lib/models/openai.ts: `OpenAIAdapter.complete` around the HTTP exchange. */
module OpenAI {
  import opened Types
  import opened Strings
  import opened Providers

  const DefaultModel := "gpt-4o-mini"
  const DefaultMaxTokens := 150
  /** The longest text `complete` resolves with. */
  const Cap := 1000

  datatype Request = Request(apiKey: string, model: string, maxTokens: nat, messages: seq<ChatMessage>)

  datatype Exchange = Exchange(request: Request, result: Completion)

  function ErrorMessage(status: nat, errorText: string): string {
    "OpenAI API error " + Decimal(status) + ": " + errorText
  }

  /** `new OpenAIAdapter().complete(systemPrompt, userMessage, history)`.
      The key is not checked: the request is always sent. */
  function Complete(env: map<string, string>, systemPrompt: string, userMessage: string,
                    history: seq<Message>, response: Response): (x: Exchange)
    ensures x.request == Request(EnvOr(env, "OPENAI_API_KEY", ""), EnvOr(env, "OPENAI_MODEL", DefaultModel),
                                 DefaultMaxTokens, ChatMessages(systemPrompt, userMessage, history))
    ensures !response.ok ==> x.result == Failed(ErrorMessage(response.status, response.errorText))
    ensures response.ok ==>
      x.result.Ok? && x.result.text == PostProcess(response.content, Cap) && |x.result.text| <= Cap
  {
    var request := Request(EnvOr(env, "OPENAI_API_KEY", ""), EnvOr(env, "OPENAI_MODEL", DefaultModel),
                           DefaultMaxTokens, ChatMessages(systemPrompt, userMessage, history));
    if !response.ok then Exchange(request, Failed(ErrorMessage(response.status, response.errorText)))
    else Exchange(request, Ok(PostProcess(response.content, Cap)))
  }
}
