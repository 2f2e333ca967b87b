/** lib/models/mock.ts: the adapter that answers without a provider. */
module Mock {
  import opened Types
  import opened Strings

  const Tag := "[MOCK] "

  /** The position of the first `c` in `s`, or `|s|` when there is none. */
  function IndexOf(s: string, c: char): (i: nat)
    ensures i <= |s|
    ensures i < |s| ==> s[i] == c
    ensures forall j | 0 <= j < i :: s[j] != c
  {
    if s == [] || s[0] == c then 0 else 1 + IndexOf(s[1..], c)
  }

  /** `systemPrompt.split('.')[0]`: everything before the first '.'. */
  function AgentHint(systemPrompt: string): (hint: string)
    ensures hint <= systemPrompt
    ensures forall j | 0 <= j < |hint| :: hint[j] != '.'
    ensures |hint| < |systemPrompt| ==> systemPrompt[|hint|] == '.'
  {
    systemPrompt[..IndexOf(systemPrompt, '.')]
  }

  /** `MockAdapter.complete(systemPrompt, userMessage, _history)`: it always
      resolves. */
  function Complete(systemPrompt: string, userMessage: string, history: seq<Message>): (r: Completion)
    ensures r.Ok?
    ensures Tag + AgentHint(systemPrompt) + ". Responding to: \"" <= r.text
  {
    Ok(Tag + AgentHint(systemPrompt) + ". Responding to: \"" + Take(userMessage, 40) + "...\"")
  }

  /** The reply quotes the first min(40, |userMessage|) characters of the
      user message, then `..."`, and nothing follows. */
  lemma QuotesUserMessage(systemPrompt: string, userMessage: string, history: seq<Message>)
    ensures var t := Complete(systemPrompt, userMessage, history).text;
      var q := Take(userMessage, 40) + "...\"";
      |q| <= |t| && t[|t| - |q|..] == q && |Take(userMessage, 40)| == Min(40, |userMessage|)
  {
    var t := Complete(systemPrompt, userMessage, history).text;
    var q := Take(userMessage, 40) + "...\"";
    assert t == (Tag + AgentHint(systemPrompt) + ". Responding to: \"") + q;
  }

  function Min(a: int, b: int): int {
    if a <= b then a else b
  }

  /** The history does not matter. */
  lemma IgnoresHistory(systemPrompt: string, userMessage: string, h1: seq<Message>, h2: seq<Message>)
    ensures Complete(systemPrompt, userMessage, h1) == Complete(systemPrompt, userMessage, h2)
  {
  }
}
