/** lib/orchestrator.ts: one single-shot round in which the mode's three
    agents answer in turn, each later agent seeing the answers before it. */
module Orchestrator {
  import opened Types
  import opened Strings
  import Prompts

  /** `MAX_CHARS` */
  const MaxChars := 1000

  /** The text that stands in for an agent whose provider call failed. */
  const Unavailable := "[Agent temporarily unavailable]"

  /** `${r.agentName}: ${r.text}` */
  function ExchangeLine(r: AgentResponse): string {
    r.agentName + ": " + r.text
  }

  function ExchangeLines(results: seq<AgentResponse>): (lines: seq<string>)
    ensures |lines| == |results|
    ensures forall i | 0 <= i < |results| :: lines[i] == ExchangeLine(results[i])
  {
    seq(|results|, i requires 0 <= i < |results| => ExchangeLine(results[i]))
  }

  /** The user message an agent is given, once `results` hold the answers
      of the agents before it in this round. */
  function ContextMessage(userMessage: string, results: seq<AgentResponse>): string {
    if |results| == 0 then userMessage
    else "User said: \"" + userMessage + "\"\n\nConversation so far:\n"
         + Join(ExchangeLines(results), "\n") + "\n\nNow it is your turn to respond."
  }

  /** The text an agent's answer keeps: what the provider returned, or the
      sentinel when it failed, cut to `MaxChars` characters. */
  function AgentText(outcome: Completion): (t: string)
    ensures |t| <= MaxChars
    ensures outcome.Ok? ==> t <= outcome.text
    ensures outcome.Ok? && |outcome.text| <= MaxChars ==> t == outcome.text
    ensures outcome.Ok? && |outcome.text| > MaxChars ==> |t| == MaxChars
    ensures outcome.Failed? ==> t == Unavailable
  {
    var text := match outcome
      case Ok(text) => text
      case Failed(_) => Unavailable;
    Take(text, MaxChars)
  }

  /** `runAgents(userMessage, mode, history)`. The provider's answers are
      `outcomes`, one per agent in speaking order. The result is None when
      the mode has no roster: the loop over an undefined table entry throws
      before any provider is called. Otherwise the round runs over the
      mode's three agents as `RunRound` states. */
  method RunAgents(userMessage: string, mode: string, history: seq<Message>, outcomes: seq<Completion>)
    returns (r: Option<seq<AgentResponse>>, calls: seq<Call>)
    requires |outcomes| == |Prompts.Roster|
    ensures r.Some? <==> mode in Prompts.KnownModes
    ensures r.None? ==> calls == []
    ensures r.Some? ==> RoundOf(Prompts.Roster, userMessage, mode, history, outcomes, r.value, calls)
  {
    var agentConfigs := Prompts.AgentsByMode(mode);
    if agentConfigs.None? {
      return None, [];
    }
    var results;
    results, calls := RunRound(agentConfigs.value, userMessage, mode, history, outcomes);
    return Some(results), calls;
  }

  /** What a round over `configs` produces: exactly one response per agent,
      in config order, each with role assistant and the agent's own name; a
      failed call is replaced by the sentinel and the remaining agents still
      run; the first agent sees exactly the user message and every later one
      the context built from the answers before it; every call gets the
      unchanged history and the non-first-turn system prompt. */
  ghost predicate RoundOf(configs: seq<AgentConfig>, userMessage: string, mode: string, history: seq<Message>,
                          outcomes: seq<Completion>, results: seq<AgentResponse>, calls: seq<Call>)
    requires |outcomes| == |configs|
  {
    RoundPrefix(configs, userMessage, mode, history, outcomes, results, calls, |configs|)
  }

  /** The first `n` agents of the round have answered as `RoundOf` says. */
  ghost predicate RoundPrefix(configs: seq<AgentConfig>, userMessage: string, mode: string, history: seq<Message>,
                              outcomes: seq<Completion>, results: seq<AgentResponse>, calls: seq<Call>, n: nat)
    requires |outcomes| == |configs| && n <= |configs|
  {
    && |results| == n && |calls| == n
    && (forall k | 0 <= k < n ::
          results[k] == AgentResponse(configs[k].agentName, AgentText(outcomes[k]), Assistant))
    && (forall k | 0 <= k < n ::
          calls[k] == Call(configs[k].model, Prompts.SystemPrompt(mode, configs[k].agentName, false),
                           ContextMessage(userMessage, results[..k]), history))
  }

  /** The `for` loop of `runAgents` over the mode's agent configs. */
  method RunRound(configs: seq<AgentConfig>, userMessage: string, mode: string, history: seq<Message>,
                  outcomes: seq<Completion>)
    returns (results: seq<AgentResponse>, calls: seq<Call>)
    requires |outcomes| == |configs|
    ensures RoundOf(configs, userMessage, mode, history, outcomes, results, calls)
    ensures |configs| > 0 ==> calls[0].userMessage == userMessage
  {
    results := [];
    calls := [];
    for i := 0 to |configs|
      invariant RoundPrefix(configs, userMessage, mode, history, outcomes, results, calls, i)
    {
      var config := configs[i];
      var systemPrompt := Prompts.SystemPrompt(mode, config.agentName, false);
      var contextMessage := userMessage;
      if |results| > 0 {
        var priorExchanges := Join(ExchangeLines(results), "\n");
        contextMessage := "User said: \"" + userMessage + "\"\n\nConversation so far:\n"
                          + priorExchanges + "\n\nNow it is your turn to respond.";
      }
      assert contextMessage == ContextMessage(userMessage, results);
      var text: string;
      match outcomes[i] {
        case Ok(t) => text := t;
        case Failed(_) => text := Unavailable;
      }
      assert Take(text, MaxChars) == AgentText(outcomes[i]);
      RoundExtend(configs, userMessage, mode, history, outcomes, results, calls, i);
      calls := calls + [Call(config.model, systemPrompt, contextMessage, history)];
      results := results + [AgentResponse(config.agentName, Take(text, MaxChars), Assistant)];
    }
    if |configs| > 0 {
      assert results[..0] == [];
    }
  }

  /** One more agent's answer and call extend a round's prefix by one. */
  lemma RoundExtend(configs: seq<AgentConfig>, userMessage: string, mode: string, history: seq<Message>,
                    outcomes: seq<Completion>, results: seq<AgentResponse>, calls: seq<Call>, n: nat)
    requires |outcomes| == |configs| && n < |configs|
    requires RoundPrefix(configs, userMessage, mode, history, outcomes, results, calls, n)
    ensures RoundPrefix(configs, userMessage, mode, history, outcomes,
                        results + [AgentResponse(configs[n].agentName, AgentText(outcomes[n]), Assistant)],
                        calls + [Call(configs[n].model, Prompts.SystemPrompt(mode, configs[n].agentName, false),
                                      ContextMessage(userMessage, results), history)],
                        n + 1)
  {
    var results' := results + [AgentResponse(configs[n].agentName, AgentText(outcomes[n]), Assistant)];
    var calls' := calls + [Call(configs[n].model, Prompts.SystemPrompt(mode, configs[n].agentName, false),
                                ContextMessage(userMessage, results), history)];
    forall k | 0 <= k < n + 1
      ensures results'[k] == AgentResponse(configs[k].agentName, AgentText(outcomes[k]), Assistant)
    {
      if k < n { assert results'[k] == results[k]; }
    }
    forall k | 0 <= k < n + 1
      ensures calls'[k] == Call(configs[k].model, Prompts.SystemPrompt(mode, configs[k].agentName, false),
                                ContextMessage(userMessage, results'[..k]), history)
    {
      if k < n {
        assert calls'[k] == calls[k];
        assert results'[..k] == results[..k];
      } else {
        assert results'[..n] == results;
      }
    }
  }

  /** Every agent after the first is shown the user's message and the
      (already cut) text of every answer before it. */
  lemma LaterAgentsSeeEarlierAnswers(userMessage: string, results: seq<AgentResponse>, j: nat)
    requires j < |results|
    ensures Contains(ContextMessage(userMessage, results), userMessage)
    ensures Contains(ContextMessage(userMessage, results), results[j].text)
  {
    var lines := ExchangeLines(results);
    var joined := Join(lines, "\n");
    var head := "User said: \"";
    var middle := "\"\n\nConversation so far:\n";
    var tail := "\n\nNow it is your turn to respond.";
    var c := ContextMessage(userMessage, results);
    assert c == head + userMessage + (middle + joined + tail);
    ContainsInfix(head, userMessage, middle + joined + tail);
    JoinContains(lines, "\n", j);
    ContainsInfix(results[j].agentName + ": ", results[j].text, "");
    assert results[j].agentName + ": " + results[j].text + "" == lines[j];
    ContainsInside(joined, lines[j], results[j].text);
    ContainsInfix(head + userMessage + middle, joined, tail);
    ContainsInside(c, joined, results[j].text);
  }

  /** What a caller of `runAgents` can rely on for every known mode: three
      assistant responses named after the roster, none longer than
      `MaxChars`; the primary sees the bare user message; every later agent
      is shown the user's message and each earlier answer; and every agent,
      the primary included, is asked to rebut rather than to answer. */
  lemma RoundGuarantees(userMessage: string, mode: string, history: seq<Message>, outcomes: seq<Completion>,
                        results: seq<AgentResponse>, calls: seq<Call>)
    requires |outcomes| == |Prompts.Roster|
    requires RoundOf(Prompts.Roster, userMessage, mode, history, outcomes, results, calls)
    ensures |results| == 3 && |calls| == 3
    ensures forall k | 0 <= k < 3 ::
              (results[k].role == Assistant && results[k].agentName == Prompts.Roster[k].agentName
               && |results[k].text| <= MaxChars)
    ensures calls[0].userMessage == userMessage
    ensures forall k, j | 0 <= j < k < 3 ::
              (Contains(calls[k].userMessage, userMessage) && Contains(calls[k].userMessage, results[j].text))
    ensures forall k | 0 <= k < 3 ::
              (calls[k].history == history && Contains(calls[k].systemPrompt, "logic is flawed"))
  {
    forall k, j | 0 <= j < k < 3
      ensures Contains(calls[k].userMessage, userMessage) && Contains(calls[k].userMessage, results[j].text)
    {
      LaterAgentsSeeEarlierAnswers(userMessage, results[..k], j);
    }
    forall k | 0 <= k < 3 ensures Contains(calls[k].systemPrompt, "logic is flawed") {
      Prompts.TurnObjective(mode, Prompts.Roster[k].agentName);
    }
  }
}
