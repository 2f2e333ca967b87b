/** components/ChatPage.tsx: the page's message list and busy flags, the
    sending of the user's input, and the three-characters-per-tick reveal of
    each agent's answer. The `fetch` to the chat API is split off: `Submit`
    is `handleSend` up to the request, `Receive` is the rest, given what the
    request produced. */
module ChatPageModel {
  import opened Types
  import opened Strings

  /** `TYPEWRITER_CHARS` */
  const TypewriterChars := 3

  const SystemName := "System"
  const SomethingWentWrong := "Something went wrong. Please try again."

  function Min(a: int, b: int): int {
    if a <= b then a else b
  }

  /** The request body: the trimmed text, the mode, and the messages as they
      were before the user's message was added. */
  datatype ChatRequest = ChatRequest(message: string, mode: string, history: seq<Message>)

  /** What the awaited request produced: the decoded `ChatResponse`, or an
      exception from `fetch` or from decoding. */
  datatype Reply = Received(agents: seq<AgentResponse>, error: Option<string>) | Threw

  function SystemMessage(content: string): Message {
    Message(Assistant, content, Some(SystemName))
  }

  /** `if (data.error)`: an error that is present and not the empty string. */
  predicate ErrorReported(error: Option<string>) {
    error.Some? && |error.value| > 0
  }

  /** `data.agents.map(a => ({role: 'assistant', content: a.text, agentName: a.agentName}))` */
  function AgentMessages(agents: seq<AgentResponse>): (r: seq<Message>)
    ensures |r| == |agents|
    ensures forall i | 0 <= i < |agents| :: r[i] == Message(Assistant, agents[i].text, Some(agents[i].agentName))
  {
    seq(|agents|, i requires 0 <= i < |agents| => Message(Assistant, agents[i].text, Some(agents[i].agentName)))
  }

  /** The messages a reply adds after the user's message. */
  function ReplyMessages(reply: Reply): seq<Message> {
    match reply
    case Threw => [SystemMessage(SomethingWentWrong)]
    case Received(agents, error) =>
      if ErrorReported(error) then [SystemMessage("Error: " + error.value)] else AgentMessages(agents)
  }

  class ChatPage {
    var messages: seq<Message>
    var mode: string
    var inputValue: string
    var isLoading: bool
    var isAnimating: bool

    /** The initial state hooks: no messages, mode academic, empty input,
        nothing in progress. */
    constructor()
      ensures messages == [] && mode == "academic" && inputValue == ""
      ensures !isLoading && !isAnimating
    {
      messages := [];
      mode := "academic";
      inputValue := "";
      isLoading := false;
      isAnimating := false;
    }

    /** `typewriteMessage(agentMsg)`: a stub with empty content is appended,
        then every tick moves `pos` on by three characters, capped at the
        text's length, and rewrites the last message's content to the text
        up to `pos`, provided the last message belongs to the same agent;
        the first tick that reaches the end stops the interval. The list
        ends with the full message appended, after max(1, ceil(n/3)) ticks
        for a text of length n. */
    method TypewriteMessage(agentMsg: Message) returns (ticks: nat)
      modifies this
      ensures messages == old(messages) + [agentMsg]
      ensures ticks >= 1 && |agentMsg.content| <= TypewriterChars * ticks
      ensures TypewriterChars * (ticks - 1) < |agentMsg.content| || ticks == 1
      ensures mode == old(mode) && inputValue == old(inputValue)
      ensures isLoading == old(isLoading) && isAnimating == old(isAnimating)
    {
      var base := messages;
      messages := messages + [agentMsg.(content := "")];
      var full := agentMsg.content;
      var pos := 0;
      ticks := 0;
      var done := false;
      while !done
        invariant 0 <= pos <= |full|
        invariant pos == Min(TypewriterChars * ticks, |full|)
        invariant messages == base + [agentMsg.(content := full[..pos])]
        invariant done ==> ticks >= 1 && pos == |full|
        invariant ticks >= 1 ==> TypewriterChars * (ticks - 1) < |full| || ticks == 1
        invariant !done ==> ticks == 0 || pos < |full|
        invariant mode == old(mode) && inputValue == old(inputValue)
        invariant isLoading == old(isLoading) && isAnimating == old(isAnimating)
        decreases |full| - pos, if done then 0 else 1
      {
        pos := Min(pos + TypewriterChars, |full|);
        ticks := ticks + 1;
        var last := messages[|messages| - 1];
        if last.agentName == agentMsg.agentName {
          messages := messages[|messages| - 1 := last.(content := full[..pos])];
        }
        if pos >= |full| {
          done := true;
        }
      }
      assert full[..pos] == full;
    }

    /** `handleSend` up to the request. Nothing happens when the trimmed
        input is empty or a request or an animation is in progress.
        Otherwise the trimmed input is appended as the user's message, the
        input is cleared, loading starts, and the request carries the
        messages from before the append. */
    method Submit() returns (request: Option<ChatRequest>)
      modifies this
      ensures var trimmed := Trim(old(inputValue));
        request.None? <==> |trimmed| == 0 || old(isLoading) || old(isAnimating)
      ensures request.None? ==>
                && messages == old(messages) && inputValue == old(inputValue)
                && isLoading == old(isLoading) && isAnimating == old(isAnimating)
      ensures request.Some? ==>
                && request.value == ChatRequest(Trim(old(inputValue)), old(mode), old(messages))
                && messages == old(messages) + [Message(User, Trim(old(inputValue)), None)]
                && inputValue == "" && isLoading && !isAnimating
      ensures mode == old(mode)
    {
      var trimmed := Trim(inputValue);
      if |trimmed| == 0 || isLoading || isAnimating {
        return None;
      }
      var userMessage := Message(User, trimmed, None);
      var history := messages;
      messages := messages + [userMessage];
      inputValue := "";
      isLoading := true;
      return Some(ChatRequest(trimmed, mode, history));
    }

    /** The rest of `handleSend`, once the request has produced `reply`:
        loading stops; an exception appends the fixed apology and an error
        in the response appends `Error: <error>`, each as one System
        message; otherwise every agent's answer is revealed in turn, in the
        order returned, with the animation flag up while they play. */
    method Receive(reply: Reply)
      modifies this
      ensures messages == old(messages) + ReplyMessages(reply)
      ensures !isLoading && isAnimating == (if reply.Threw? || ErrorReported(reply.error) then old(isAnimating) else false)
      ensures mode == old(mode) && inputValue == old(inputValue)
    {
      match reply {
        case Threw =>
          isLoading := false;
          messages := messages + [SystemMessage(SomethingWentWrong)];
        case Received(agents, error) =>
          isLoading := false;
          if ErrorReported(error) {
            messages := messages + [SystemMessage("Error: " + error.value)];
            return;
          }
          var agentMessages := AgentMessages(agents);
          var base := messages;
          isAnimating := true;
          for i := 0 to |agentMessages|
            invariant messages == base + agentMessages[..i]
            invariant !isLoading && mode == old(mode) && inputValue == old(inputValue)
          {
            var _ := TypewriteMessage(agentMessages[i]);
            assert agentMessages[..i + 1] == agentMessages[..i] + [agentMessages[i]];
          }
          assert agentMessages[..|agentMessages|] == agentMessages;
          isAnimating := false;
      }
    }
  }
}
