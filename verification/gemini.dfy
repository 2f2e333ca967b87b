/** lib/models/gemini.ts: `GeminiAdapter.complete` around the HTTP exchange. */
module Gemini {
  import opened Types
  import opened Strings
  import opened Providers

  const DefaultModel := "gemini-1.5-flash-8b"
  const DefaultMaxTokens := 150
  /** The longest text `complete` resolves with. */
  const Cap := 2000

  /** One element of `contents`: a role and its text parts. */
  datatype Content = Content(role: string, parts: seq<string>)

  /** The request: the key and model (both in the URL), the system
      instruction, the contents and the output-token limit. */
  datatype Request = Request(apiKey: string, model: string, systemInstruction: string,
                             contents: seq<Content>, maxOutputTokens: nat)

  datatype Exchange = Exchange(request: Request, result: Completion)

  /** `(apiKeyEnv ? process.env[apiKeyEnv] : null) ?? process.env.GEMINI_API_KEY ?? ''`:
      the named variable when a non-empty name is given and it is defined. */
  function ApiKey(env: map<string, string>, apiKeyEnv: Option<string>): (key: string)
    ensures apiKeyEnv.Some? && apiKeyEnv.value != "" && apiKeyEnv.value in env ==> key == env[apiKeyEnv.value]
    ensures (apiKeyEnv.None? || apiKeyEnv.value == "" || apiKeyEnv.value !in env) ==>
      key == EnvOr(env, "GEMINI_API_KEY", "")
  {
    var named: Option<string> :=
      if apiKeyEnv.Some? && apiKeyEnv.value != "" && apiKeyEnv.value in env then Some(env[apiKeyEnv.value])
      else None;
    match named
    case Some(key) => key
    case None => EnvOr(env, "GEMINI_API_KEY", "")
  }

  /** The contents: the history in order, role "user" kept and every other
      role sent as "model", then the user message. */
  function Contents(userMessage: string, history: seq<Message>): (c: seq<Content>)
    ensures |c| == |history| + 1
    ensures forall i | 0 <= i < |history| ::
      && (c[i].role == "user" <==> history[i].role == User)
      && (c[i].role != "user" ==> c[i].role == "model")
      && c[i].parts == [history[i].content]
    ensures c[|history|] == Content("user", [userMessage])
  {
    seq(|history|, i requires 0 <= i < |history| =>
      Content(if history[i].role == User then "user" else "model", [history[i].content]))
    + [Content("user", [userMessage])]
  }

  function ErrorMessage(status: nat, errorText: string): string {
    "Gemini API error " + Decimal(status) + ": " + errorText
  }

  /** `new GeminiAdapter(apiKeyEnv).complete(systemPrompt, userMessage,
      history)`. The system prompt travels only as the system instruction,
      never among the contents; the key is not checked. */
  function Complete(env: map<string, string>, apiKeyEnv: Option<string>, systemPrompt: string,
                    userMessage: string, history: seq<Message>, response: Response): (x: Exchange)
    ensures x.request == Request(ApiKey(env, apiKeyEnv), EnvOr(env, "GEMINI_MODEL", DefaultModel), systemPrompt,
                                 Contents(userMessage, history), DefaultMaxTokens)
    ensures !response.ok ==> x.result == Failed(ErrorMessage(response.status, response.errorText))
    ensures response.ok ==>
      x.result.Ok? && x.result.text == PostProcess(response.content, Cap) && |x.result.text| <= Cap
  {
    var request := Request(ApiKey(env, apiKeyEnv), EnvOr(env, "GEMINI_MODEL", DefaultModel), systemPrompt,
                           Contents(userMessage, history), DefaultMaxTokens);
    if !response.ok then Exchange(request, Failed(ErrorMessage(response.status, response.errorText)))
    else Exchange(request, Ok(PostProcess(response.content, Cap)))
  }
}
