/** What the Groq, Gemini and OpenAI adapters share: the provider's HTTP
    response as the adapters see it, the outgoing chat-message list, and
    the sentence-boundary clean-up applied to every returned text
    (lib/models/groq.ts, lib/models/gemini.ts, lib/models/openai.ts). */
module Providers {
  import opened Types
  import opened Strings

  /** The response to the adapter's request: whether it was ok, its
      status, the body text read on failure, and the reply text found in the
      JSON body on success (None when the path to it is missing). */
  datatype Response = Response(ok: bool, status: nat, errorText: string, content: Option<string>)

  /** `process.env[name] ?? fallback`: only an undefined variable falls
      through; a defined empty one does not. */
  function EnvOr(env: map<string, string>, name: string, fallback: string): string {
    if name in env then env[name] else fallback
  }

  /** One element of an OpenAI-style `messages` array. */
  datatype ChatMessage = ChatMessage(role: string, content: string)

  function RoleName(role: Role): string {
    match role
    case User => "user"
    case Assistant => "assistant"
  }

  /** `[{system}, ...history.map(({role, content})), {user}]`: the system
      prompt first, the history in order with its roles, the user message
      last. */
  function ChatMessages(systemPrompt: string, userMessage: string, history: seq<Message>): (r: seq<ChatMessage>)
    ensures |r| == |history| + 2
    ensures r[0] == ChatMessage("system", systemPrompt)
    ensures r[|r| - 1] == ChatMessage("user", userMessage)
    ensures forall i | 0 <= i < |history| ::
      r[i + 1] == ChatMessage(RoleName(history[i].role), history[i].content)
  {
    [ChatMessage("system", systemPrompt)]
    + seq(|history|, i requires 0 <= i < |history| => ChatMessage(RoleName(history[i].role), history[i].content))
    + [ChatMessage("user", userMessage)]
  }

  predicate IsPunctuation(c: char) {
    c == '.' || c == '!' || c == '?'
  }

  predicate IsQuote(c: char) {
    c == '"' || c == '\''
  }

  /** `text.match(/[.!?]["']?$/)`: the text ends in sentence punctuation,
      possibly followed by one quote. */
  predicate EndsSentence(text: string) {
    || (|text| >= 1 && IsPunctuation(text[|text| - 1]))
    || (|text| >= 2 && IsQuote(text[|text| - 1]) && IsPunctuation(text[|text| - 2]))
  }

  function Max(a: int, b: int): int {
    if a >= b then a else b
  }

  /** `Math.max(text.lastIndexOf('.'), text.lastIndexOf('!'), text.lastIndexOf('?'))` */
  function LastPunctuation(text: string): (r: int)
    ensures -1 <= r < |text|
    ensures r >= 0 ==> IsPunctuation(text[r])
    ensures forall j | r < j < |text| :: !IsPunctuation(text[j])
  {
    Max(Max(LastIndexOf(text, '.'), LastIndexOf(text, '!')), LastIndexOf(text, '?'))
  }

  /** The clean-up of a trimmed reply that may have been cut mid-sentence:
      a reply that already ends a sentence is kept; otherwise it is cut
      after its last sentence punctuation; with none, "..." is appended. */
  function Finish(text: string): (f: string)
    ensures |text| == 0 ==> f == text
    ensures EndsSentence(text) ==> f == text
    // a cut reply is the longest prefix that ends in punctuation
    ensures LastPunctuation(text) >= 0 && !EndsSentence(text) ==>
      && f <= text && |f| > 0 && IsPunctuation(f[|f| - 1])
      && forall j | |f| <= j < |text| :: !IsPunctuation(text[j])
    ensures |text| > 0 && LastPunctuation(text) < 0 ==> f == text + "..."
  {
    if |text| > 0 && !EndsSentence(text) then
      var lastPunctuation := LastPunctuation(text);
      if lastPunctuation != -1 then text[..lastPunctuation + 1] else text + "..."
    else text
  }

  /** `(content ?? '').trim()`, finished, then `slice(0, cap)`: the first
      min(cap, n) characters of the finished text of length n. */
  function PostProcess(content: Option<string>, cap: nat): (r: string)
    ensures |r| <= cap
    ensures var f := Finish(Trim(if content.Some? then content.value else ""));
      r <= f && |r| == (if |f| <= cap then |f| else cap)
  {
    var text := Trim(match content case Some(c) => c case None => "");
    Take(Finish(text), cap)
  }

  /** Every non-empty reply comes out of `Finish` ending a sentence. */
  lemma FinishEndsSentence(text: string)
    requires |text| > 0
    ensures EndsSentence(Finish(text))
  {
    if !EndsSentence(text) && LastPunctuation(text) < 0 {
      var f := text + "...";
      assert f[|f| - 1] == '.';
    }
  }

  /** `Finish` is idempotent: a finished reply is left as it is. */
  lemma FinishIdempotent(text: string)
    ensures Finish(Finish(text)) == Finish(text)
  {
    if |text| > 0 {
      FinishEndsSentence(text);
    }
  }

  /** A missing or blank reply gives the empty text. */
  lemma BlankReply(content: Option<string>, cap: nat)
    requires content.None? || Trim(content.value) == ""
    ensures PostProcess(content, cap) == ""
  {
  }

  /** A reply already ending a sentence is returned trimmed and otherwise
      unchanged apart from the cap. */
  lemma CompleteReply(content: string, cap: nat)
    requires EndsSentence(Trim(content))
    ensures PostProcess(Some(content), cap) == Take(Trim(content), cap)
    ensures |Trim(content)| <= cap ==> PostProcess(Some(content), cap) == Trim(content)
  {
  }

  /** A reply with no sentence punctuation at all gets "..." appended. */
  lemma UnpunctuatedReply(content: string, cap: nat)
    requires |Trim(content)| > 0 && LastPunctuation(Trim(content)) < 0
    ensures PostProcess(Some(content), cap) == Take(Trim(content) + "...", cap)
  {
  }
}
