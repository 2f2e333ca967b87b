/** The records of lib/types.ts, plus the outcome of one provider call. */
module Types {

  datatype Option<+T> = None | Some(value: T)

  /** `Role`: who wrote a chat message. */
  datatype Role = User | Assistant

  /** `Message`: one turn of a conversation; `agentName` is absent for the user. */
  datatype Message = Message(role: Role, content: string, agentName: Option<string>)

  /** `AgentResponse`: one agent's answer in a single-shot round. */
  datatype AgentResponse = AgentResponse(agentName: string, text: string, role: Role)

  /** The speaking position of an agent within a round. */
  datatype AgentRole = Primary | Secondary | Tertiary

  /** `AgentConfig`: display name, position and the model registry key. */
  datatype AgentConfig = AgentConfig(agentName: string, role: AgentRole, model: string)

  /** One `complete(systemPrompt, userMessage, history)` call on the
      adapter that the registry key `model` names. */
  datatype Call = Call(model: string, systemPrompt: string, userMessage: string, history: seq<Message>)

  /** What one awaited `ModelAdapter.complete` call produced: the resolved
      text, or a rejection carrying the error's message. */
  datatype Completion = Ok(text: string) | Failed(message: string)
}
