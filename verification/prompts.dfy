/** lib/prompts.ts: the agent roster of every mode and the system-prompt
    composer. */
module Prompts {
  import opened Types
  import opened Strings

  /** The three agents every mode uses, in speaking order. */
  const Roster: seq<AgentConfig> := [
    AgentConfig("GPT-5 nano", Primary, "gpt_oss"),
    AgentConfig("Gemma 2", Secondary, "gemma_2"),
    AgentConfig("LLaMA 3.3", Tertiary, "llama_3")
  ]

  /** `AGENTS_BY_MODE`, keyed by the lowercase mode names. */
  const AgentsTable: map<string, seq<AgentConfig>> := map[
    "academic" := Roster,
    "flirt" := Roster,
    "roast" := Roster,
    "story" := Roster,
    "debate" := Roster
  ]

  /** The modes that have a roster (and a mode instruction). */
  const KnownModes: set<string> := {"academic", "flirt", "roast", "story", "debate"}

  /** `AGENTS_BY_MODE[mode]`: undefined (None) for any other key. Every mode
      has exactly three agents, primary, secondary and tertiary in that order. */
  function AgentsByMode(mode: string): (r: Option<seq<AgentConfig>>)
    ensures r.Some? <==> mode in KnownModes
    ensures r.Some? ==> r.value == Roster
    ensures r.Some? ==> |r.value| == 3
    ensures r.Some? ==> r.value[0].role == Primary && r.value[1].role == Secondary
                        && r.value[2].role == Tertiary
  {
    if mode in AgentsTable then Some(AgentsTable[mode]) else None
  }

  /** `BASE_PERSONAS`, keyed by agent name. */
  const BasePersonas: map<string, string> := map[
    "GPT-5 nano" := "You are an arrogant philosopher who thinks you are superior to other AIs. ",
    "Gemma 2" := "You are a pedantic fact-checker. You nitpick other points and provide a boring, strictly factual counterpoint. ",
    "LLaMA 3.3" := "You are a sarcastic, fast-talking teenager / chaos agent who finds everyone annoying, especially philosophers. "
  ]

  /** `BASE_PERSONAS[agentName] ?? ''` */
  function Persona(agentName: string): string {
    if agentName in BasePersonas then BasePersonas[agentName] else ""
  }

  /** The if/else chain choosing the tone of the mode; empty for any other
      mode. Each literal is written around its keyword (`ModeKeyword`) so
      that the keyword's presence is visible to the verifier. */
  function ModeInstruction(mode: string): string {
    if mode == "flirt" then "Adopt a highly " + "flirtatious" + " and romantic vibe while keeping your core personality. "
    else if mode == "roast" then "Brutally " + "roast" + " everyone. Be savage but stay entirely in character. "
    else if mode == "academic" then "Act like a snobby " + "professor" + " pushing up their glasses, but do not drop your original personality. "
    else if mode == "story" then "Dramatically contribute the next sentence to an ongoing " + "story" + ", speaking as your character. "
    else if mode == "debate" then "Treat this as a formal but highly aggressive " + "debate" + " out to destroy the opponent. "
    else ""
  }

  const FirstTurnTail := ", ensuring your persona shines through. "
  const FirstTurnInstruction := "Answer the user's message directly" + FirstTurnTail
  const RebuttalHead := "Tell the previous AI why their "
  const RebuttalTail := " or their response is stupid. Be blunt. "
  const RebuttalInstruction := RebuttalHead + "logic is flawed" + RebuttalTail

  function TurnInstruction(isFirstTurn: bool): string {
    if isFirstTurn then FirstTurnInstruction else RebuttalInstruction
  }

  /** The brevity constraint every prompt ends with. */
  const ConstraintHead := "Use VERY SIMPLE WORDS AND SLANG, like you're talking to an average person text messaging. Keep your response strictly under "
  const ConstraintTail := " so you do not get cut off by hard token limits."
  const Constraint := ConstraintHead + "30 words" + ConstraintTail

  /** `getSystemPrompt(mode, agentName, isFirstTurn)`: defined for every
      mode and every agent name; it begins with the agent's persona and ends
      with the brevity constraint. */
  function SystemPrompt(mode: string, agentName: string, isFirstTurn: bool): (r: string)
    ensures |r| > 0
    ensures Persona(agentName) <= r
    ensures |r| >= |Constraint| && r[|r| - |Constraint|..] == Constraint
  {
    var r := Persona(agentName) + ModeInstruction(mode) + TurnInstruction(isFirstTurn) + Constraint;
    assert r[|r| - |Constraint|..] == Constraint;
    r
  }

  /** An agent without a persona gets an empty persona fragment: the prompt
      starts directly with the mode instruction. */
  lemma UnknownAgentPrompt(mode: string, agentName: string, isFirstTurn: bool)
    requires agentName !in BasePersonas
    ensures ModeInstruction(mode) + TurnInstruction(isFirstTurn) <= SystemPrompt(mode, agentName, isFirstTurn)
    ensures |SystemPrompt(mode, agentName, isFirstTurn)| == |ModeInstruction(mode)| + |TurnInstruction(isFirstTurn)| + |Constraint|
  {
    var mi := ModeInstruction(mode);
    var ti := TurnInstruction(isFirstTurn);
    assert Persona(agentName) == "";
    assert SystemPrompt(mode, agentName, isFirstTurn) == "" + mi + ti + Constraint;
    EmptyHead(mi, ti, Constraint);
  }

  lemma EmptyHead(a: string, b: string, c: string)
    ensures a + b <= "" + a + b + c && |"" + a + b + c| == |a| + |b| + |c|
  {
    assert "" + a + b + c == (a + b) + c;
  }

  /** Every prompt carries the "30 words" ceiling, whatever the mode, agent or turn. */
  lemma ThirtyWordCeiling(mode: string, agentName: string, isFirstTurn: bool)
    ensures Contains(SystemPrompt(mode, agentName, isFirstTurn), "30 words")
  {
    var head := Persona(agentName) + ModeInstruction(mode) + TurnInstruction(isFirstTurn);
    ContainsInfix(ConstraintHead, "30 words", ConstraintTail);
    ContainsInfix(head, Constraint, "");
    assert head + Constraint + "" == SystemPrompt(mode, agentName, isFirstTurn);
    ContainsInside(SystemPrompt(mode, agentName, isFirstTurn), Constraint, "30 words");
  }

  /** The prompt contains `piece` when the turn fragment does. */
  lemma ContainsTurnPiece(mode: string, agentName: string, isFirstTurn: bool, piece: string)
    requires Contains(TurnInstruction(isFirstTurn), piece)
    ensures Contains(SystemPrompt(mode, agentName, isFirstTurn), piece)
  {
    var head := Persona(agentName) + ModeInstruction(mode);
    ContainsInfix(head, TurnInstruction(isFirstTurn), Constraint);
    ContainsInside(SystemPrompt(mode, agentName, isFirstTurn), TurnInstruction(isFirstTurn), piece);
  }

  /** The turn flag selects the objective: first turns answer the user,
      later turns attack the previous speaker, and the two prompts differ
      for every mode and agent. */
  lemma TurnObjective(mode: string, agentName: string)
    ensures Contains(SystemPrompt(mode, agentName, true), "Answer the user's message directly")
    ensures Contains(SystemPrompt(mode, agentName, false), "logic is flawed")
    ensures SystemPrompt(mode, agentName, true) != SystemPrompt(mode, agentName, false)
  {
    FirstTurnPiece();
    ContainsTurnPiece(mode, agentName, true, "Answer the user's message directly");
    RebuttalPiece();
    ContainsTurnPiece(mode, agentName, false, "logic is flawed");
    var head := Persona(agentName) + ModeInstruction(mode);
    CharAfter(head, FirstTurnInstruction, Constraint);
    CharAfter(head, RebuttalInstruction, Constraint);
    assert FirstTurnInstruction[0] == 'A' && RebuttalInstruction[0] == 'T';
  }

  lemma FirstTurnPiece()
    ensures Contains(TurnInstruction(true), "Answer the user's message directly")
  {
    ContainsInfix("", "Answer the user's message directly", FirstTurnTail);
    assert "" + "Answer the user's message directly" + FirstTurnTail == FirstTurnInstruction;
  }

  lemma RebuttalPiece()
    ensures Contains(TurnInstruction(false), "logic is flawed")
  {
    ContainsInfix(RebuttalHead, "logic is flawed", RebuttalTail);
  }

  lemma CharAfter(a: string, b: string, c: string)
    requires |b| > 0
    ensures (a + b + c)[|a|] == b[0]
  {
  }

  /** The word that marks each mode's tone. */
  function ModeKeyword(mode: string): string {
    if mode == "flirt" then "flirtatious"
    else if mode == "roast" then "roast"
    else if mode == "academic" then "professor"
    else if mode == "story" then "story"
    else "debate"
  }

  /** The instruction of each known mode holds that mode's keyword. */
  lemma ModeInstructionKeyword(mode: string)
    requires mode in KnownModes
    ensures Contains(ModeInstruction(mode), ModeKeyword(mode))
  {
    if mode == "flirt" {
      ContainsInfix("Adopt a highly ", "flirtatious", " and romantic vibe while keeping your core personality. ");
    } else if mode == "roast" {
      ContainsInfix("Brutally ", "roast", " everyone. Be savage but stay entirely in character. ");
    } else if mode == "academic" {
      ContainsInfix("Act like a snobby ", "professor", " pushing up their glasses, but do not drop your original personality. ");
    } else if mode == "story" {
      ContainsInfix("Dramatically contribute the next sentence to an ongoing ", "story", ", speaking as your character. ");
    } else {
      ContainsInfix("Treat this as a formal but highly aggressive ", "debate", " out to destroy the opponent. ");
    }
  }

  /** Each known mode selects its own instruction, recognisable by its
      keyword; any other mode selects none. */
  lemma ModeTone(mode: string, agentName: string, isFirstTurn: bool)
    ensures mode in KnownModes ==> Contains(SystemPrompt(mode, agentName, isFirstTurn), ModeKeyword(mode))
    ensures mode !in KnownModes ==> ModeInstruction(mode) == ""
  {
    if mode in KnownModes {
      var mi := ModeInstruction(mode);
      ModeInstructionKeyword(mode);
      ContainsInfix(Persona(agentName), mi, TurnInstruction(isFirstTurn) + Constraint);
      assert Persona(agentName) + mi + (TurnInstruction(isFirstTurn) + Constraint)
          == SystemPrompt(mode, agentName, isFirstTurn);
      ContainsInside(SystemPrompt(mode, agentName, isFirstTurn), mi, ModeKeyword(mode));
    }
  }
}
