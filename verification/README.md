# Model Mayhem: a verified model of its deterministic core

Model Mayhem is a Next.js chat application. Three AI personas ("GPT-5 nano",
"Gemma 2", "LLaMA 3.3") answer a user's message in turn, or debate each
other turn by turn, and the browser reveals their answers with typewriter
animations. This project models in Dafny the logic under the presentation,
and proves what that logic promises:

- the system-prompt composer and the agent roster (`Prompts`, prompts.dfy);
- the single-shot orchestrator (`Orchestrator`, orchestrator.dfy). It is a
  sequential loop in which later agents see earlier answers, a failing
  provider is replaced by a sentinel, and every answer is cut to 1000
  characters;
- one debate turn (`Debate`, debate.dfy). It covers speaker rotation, the
  first-turn flag, the adapter history, the choice of user message, and the
  speaker-prefix stripper, which is modelled on its regular expression and
  proved sound and complete against it;
- the client's typing queue (`TypingQueue`, typing_queue.dfy). This is a
  class whose timeouts are explicit firing events; FIFO order, exactly-once
  completion, a single bubble and prefix display are proved over its state
  functions;
- the provider adapters for Groq, Gemini and OpenAI, and their shared
  sentence-boundary post-processing (`Providers`, `Groq`, `Gemini`,
  `OpenAI`). The HTTP exchange is abstracted to the response it yields;
- the mock adapter (`Mock`) and the model registry with its mock fallback
  (`Registry`);
- the fire-back histories of the three-fighter battle (`FireBack`);
- the chat API's `POST` handler (`ChatRoute`). JSON parsing is abstracted
  to its outcome;
- the debate timing configuration (`DebateConstants`);
- the chat page's send and reveal logic (`ChatPageModel`, a class), and the
  `Typewriter` component (`TypewriterComponent`, a class).

`Types` holds the records of lib/types.ts. `Strings` holds the string
operations the code relies on: ASCII `trim`, `slice(0, n)`, `join`,
`lastIndexOf` and the decimal rendering of a number.

Providers are abstract throughout. A call's settlement is a `Completion`
(`Ok(text)` or `Failed(message)`), passed in as a parameter. The orchestrator
takes one per agent. The environment is a `map<string, string>`. Timers
become explicit events or loop iterations.

## Model

| member | source | states |
|---|---|---|
| Prompts.AgentsByMode | lib/prompts.ts:5-31 | exactly the five modes have a roster; each roster has three agents, with roles primary, secondary and tertiary in that order; any other mode has none |
| Prompts.SystemPrompt | lib/prompts.ts:40-59 | defined for every mode, agent and turn flag; non-empty; starts with the agent's persona; ends with the brevity constraint |
| Prompts.UnknownAgentPrompt | lib/prompts.ts:41-59 | for an agent without a persona, the prompt starts directly with the mode and turn instructions; its length is theirs plus the constraint |
| Prompts.ThirtyWordCeiling | lib/prompts.ts:59 | every prompt contains "30 words" |
| Prompts.ContainsTurnPiece | lib/prompts.ts:52-59 | whatever the turn fragment contains, the whole prompt contains |
| Prompts.TurnObjective | lib/prompts.ts:52-57 | a first-turn prompt contains "Answer the user's message directly"; a later-turn prompt contains "logic is flawed"; the two differ for every mode and agent |
| Prompts.ModeInstructionKeyword | lib/prompts.ts:44-49 | each known mode's instruction contains its keyword (flirtatious, roast, professor, story, debate) |
| Prompts.ModeTone | lib/prompts.ts:43-59 | a known mode's prompt contains its keyword; any other mode contributes no instruction |
| Orchestrator.AgentText | lib/orchestrator.ts:30-40 | the kept text is at most 1000 characters and a prefix of the completion; it is unchanged when the completion is at most 1000 characters; a failure gives "[Agent temporarily unavailable]" |
| Orchestrator.ExchangeLines | lib/orchestrator.ts:24-25 | one `name: text` line per earlier answer, in order |
| Orchestrator.RunAgents | lib/orchestrator.ts:8-46 | a result exactly for modes with a roster, and then a round as `RoundOf` states; an unknown mode fails before any provider call |
| Orchestrator.RunRound | lib/orchestrator.ts:16-43 | one answer per config, in config order, with role assistant and the config's name; the first agent sees exactly the user message; each later agent sees the context built from the answers before it; every call gets the unchanged history and the non-first-turn prompt |
| Orchestrator.RoundExtend | lib/orchestrator.ts:16-43 | one more loop iteration extends the round's prefix by the next agent's answer and call, keeping the earlier ones |
| Orchestrator.LaterAgentsSeeEarlierAnswers | lib/orchestrator.ts:23-28 | the context message contains the user's message and every earlier (already cut) answer |
| Orchestrator.RoundGuarantees | lib/orchestrator.ts:13-45 | for every known mode: three assistant answers named after the roster, each at most 1000 characters; the primary sees the bare message; later agents see the message and all earlier answers; every agent gets the history and the rebuttal instruction |
| Debate.IndexFrom | app/actions/debate.ts:8 | the first `]` at or after a position, or the end |
| Debate.NameRun | app/actions/debate.ts:8 | the maximal run of `[\w .'-]` characters from a position |
| Debate.MatchToken | app/actions/debate.ts:7-8 | the end of the leading speaker token, if any, lies within the text |
| Debate.MatchAt | app/actions/debate.ts:8 | after the skipped whitespace, a match ends inside the text and after the whitespace |
| Debate.MatchAtSound | app/actions/debate.ts:7-8 | a match after a whitespace run is a whitespace run, a label or a name, and a colon |
| Debate.MatchLabel | app/actions/debate.ts:8 | a `[` whose first `]` is followed by a colon matches up to that colon |
| Debate.MatchName | app/actions/debate.ts:8 | a letter, at most forty name characters and a colon match up to that colon |
| Debate.LeadingSpaceEnd | app/actions/debate.ts:8 | the leading `\s*` run is exactly what trimming the start removes |
| Debate.MatchTokenSound | app/actions/debate.ts:7-8 | whatever `MatchToken` reports is a leading whitespace run, then a bracketed label or a name of one letter and at most 40 name characters, then a colon |
| Debate.MatchTokenComplete | app/actions/debate.ts:7-8 | every such token at the head of the text is the one `MatchToken` reports |
| Debate.LabelFound | app/actions/debate.ts:8 | a bracketed label closes at the first `]` after its `[` |
| Debate.NameFound | app/actions/debate.ts:8 | a name's characters run up to its colon |
| Debate.TrimStartTwice | app/actions/debate.ts:11 | skipping leading whitespace twice is skipping it once |
| Debate.StripWithToken | app/actions/debate.ts:10-12 | with a speaker token at its head, the text loses that token and is trimmed |
| Debate.StripWithoutToken | app/actions/debate.ts:10-12 | without a token, the text is only trimmed |
| Debate.StripExample | app/actions/debate.ts:10-12 | "GPT-5 nano: Hi" becomes "Hi" |
| Debate.ExampleToken | app/actions/debate.ts:7-8 | "GPT-5 nano:" is a speaker token |
| Debate.ExampleRest | app/actions/debate.ts:11 | " Hi" trims to "Hi" |
| Debate.JsRem3 | app/actions/debate.ts:16 | JavaScript's `% 3`: the ordinary remainder for non-negative counts, never positive for negative ones |
| Debate.SpeakerOf | app/actions/debate.ts:16-36 | the speaker's system prompt is its persona's prompt, with the first-turn flag only on turn 0 |
| Debate.AdapterHistory | app/actions/debate.ts:39-44 | one message per entry, in the same order |
| Debate.Adapted | app/actions/debate.ts:40-43 | the role is user exactly when the entry's role is "user"; the content is stripped of its speaker prefix; the name is kept |
| Debate.UserMessage | app/actions/debate.ts:49-59 | the prompt on turn 0; on later turns the last message, attributed when it has a non-empty name; "Continue the debate." when there is no history |
| Debate.DebateAction | app/actions/debate.ts:14-72 | the call goes to the rotation's speaker, with its prompt, the adapted history and the chosen user message; a reply is stripped and credited to the speaker's name; a failure is rethrown with its message, or the default message when that is empty |
| Debate.DebateUserMessage | app/actions/debate.ts:50-56 | on later turns with history, the user message is the last entry as sent, prefix stripped, attributed to a non-empty name |
| Debate.Rotation | app/actions/debate.ts:16-36 | period 3; turns 0, 1 and 2 go to gpt_oss, gemma_2 and llama_3; only turn 0 gets the first-turn prompt; later GPT-5 nano turns get a different, rebuttal prompt |
| Debate.NegativeTurns | app/actions/debate.ts:16-36 | negative turn counts go to GPT-5 nano when divisible by 3, otherwise to LLaMA 3.3 |
| TypingQueue.Without | hooks/useTypingQueue.ts:80 | the filter removes every bubble with the id and keeps all the others: a bubble is in the result exactly when it is in the input and has another id |
| TypingQueue.WithoutCounts | hooks/useTypingQueue.ts:80 | every other bubble is kept as often as it occurs; none with the id is kept |
| TypingQueue.WithoutKeepsOrder | hooks/useTypingQueue.ts:80 | the kept bubbles are a subsequence of the input, in their original order |
| TypingQueue.WithText | hooks/useTypingQueue.ts:85-91 | the map rewrites the text of the bubbles with the id and leaves the others |
| TypingQueue.QueueWorkAppend | hooks/useTypingQueue.ts:106 | the work of a concatenated queue is the sum of the parts |
| TypingQueue.InitialInv | hooks/useTypingQueue.ts:59-65 | the initial state is idle, empty and satisfies the invariant |
| TypingQueue.FireInv | hooks/useTypingQueue.ts:68-97 | firing the pending timeout keeps the invariant: processing exactly while a timeout is pending, at most one bubble, showing the characters revealed so far |
| TypingQueue.EnqueueInv | hooks/useTypingQueue.ts:104-113 | enqueueing keeps the invariant |
| TypingQueue.FireProgress | hooks/useTypingQueue.ts:59-97 | each firing while processing is one step of progress; firing while idle changes nothing |
| TypingQueue.ShiftWork | hooks/useTypingQueue.ts:59-65 | pulling the next item keeps the remaining work |
| TypingQueue.EnqueueWork | hooks/useTypingQueue.ts:104-113 | enqueueing adds exactly the new items' work |
| TypingQueue.FirePending | hooks/useTypingQueue.ts:77-82 | firing never loses, duplicates or reorders an item; the completion log only grows |
| TypingQueue.ShiftPending | hooks/useTypingQueue.ts:60-65 | pulling the next item keeps the order of all items |
| TypingQueue.EnqueuePending | hooks/useTypingQueue.ts:106 | enqueueing appends exactly the new items, in order, and reports nothing |
| TypingQueue.EnqueueStarts | hooks/useTypingQueue.ts:106-110 | enqueueing during a reveal leaves the timer and the bubble unchanged; enqueueing while idle starts the first new item's pause |
| TypingQueue.OneCharPerTick | hooks/useTypingQueue.ts:85-93 | a tick that does not finish shows exactly one more character of the full text |
| TypingQueue.OneBubble | hooks/useTypingQueue.ts:70-73 | at most one bubble is on screen; it is typing and shows a prefix of the active answer |
| TypingQueue.Completion | hooks/useTypingQueue.ts:76-82 | the firing past the last character reports the item once, removes its bubble and pulls the next item; an empty answer completes on its first tick |
| TypingQueue.Drain | hooks/useTypingQueue.ts:59-113 | after exactly `Work` firings the hook is idle with no bubble, and every item has been reported once, in enqueue order |
| TypingQueue.TypingQueue.constructor | hooks/useTypingQueue.ts:59-65 | the hook starts idle and empty |
| TypingQueue.TypingQueue.ProcessNext | hooks/useTypingQueue.ts:59-73 | shift and schedule the pause, or stop processing on an empty queue |
| TypingQueue.TypingQueue.Tick | hooks/useTypingQueue.ts:76-94 | past the end: report, drop the bubble, pull the next item; otherwise: show the prefix and schedule the next tick |
| TypingQueue.TypingQueue.FireTimer | hooks/useTypingQueue.ts:68-97 | the scheduled callback runs, keeping the invariant |
| TypingQueue.TypingQueue.Enqueue | hooks/useTypingQueue.ts:104-113 | push the items; start processing only when idle; keep the invariant |
| Providers.ChatMessages | lib/models/groq.ts:37-41 | the system prompt first, the history in order with its roles, the user message last |
| Providers.LastPunctuation | lib/models/groq.ts:67-71 | the last `.`, `!` or `?`, or -1 |
| Providers.Finish | lib/models/groq.ts:66-77 | empty text and text ending a sentence are kept; otherwise the longest prefix ending in punctuation; with no punctuation, "..." is appended |
| Providers.PostProcess | lib/models/groq.ts:63-79 | the result is the first min(cap, n) characters of the finished trimmed text of length n |
| Providers.FinishEndsSentence | lib/models/groq.ts:66-77 | every non-empty finished text ends a sentence |
| Providers.FinishIdempotent | lib/models/groq.ts:66-77 | finishing twice is finishing once |
| Providers.BlankReply | lib/models/groq.ts:63-66 | a missing or blank reply gives "" |
| Providers.CompleteReply | lib/models/groq.ts:63-79 | a trimmed reply that ends a sentence is returned unchanged apart from the cap; within the cap, unchanged |
| Providers.UnpunctuatedReply | lib/models/groq.ts:74-76 | a reply without punctuation gets "..." appended before the cap |
| Groq.ApiKey | lib/models/groq.ts:30-31 | the named variable if defined, even when empty; else GROQ_API_KEY; else "" |
| Groq.Complete | lib/models/groq.ts:25-80 | an empty key fails with "Missing env var" before any request; a refused request fails with its status; an accepted one resolves with the finished reply, at most 2000 characters |
| Groq.EmptyKeyShadowsFallback | lib/models/groq.ts:30-35 | a defined empty per-agent key fails even when GROQ_API_KEY is set |
| Groq.ErrorNamesStatus | lib/models/groq.ts:59 | the error starts with "Groq API error " and the status |
| Gemini.ApiKey | lib/models/gemini.ts:9 | the named variable when a non-empty name is given and defined; otherwise GEMINI_API_KEY or "" |
| Gemini.Contents | lib/models/gemini.ts:18-24 | the history in order, role "user" kept and every other role sent as "model", then the user message |
| Gemini.Complete | lib/models/gemini.ts:14-59 | the system prompt goes only in the system instruction; a refused request fails with "Gemini API error"; an accepted one resolves with the finished reply, at most 2000 characters |
| OpenAI.Complete | lib/models/openai.ts:14-61 | system, history, user message; a refused request fails with "OpenAI API error"; an accepted one resolves with the finished reply, at most 1000 characters |
| Mock.AgentHint | lib/models/mock.ts:5 | the system prompt up to, not including, its first '.' |
| Mock.Complete | lib/models/mock.ts:4-7 | never fails; starts with "[MOCK] ", the hint and `. Responding to: "` |
| Mock.QuotesUserMessage | lib/models/mock.ts:6 | the reply ends with the first min(40, length) characters of the user message followed by `..."` |
| Mock.IgnoresHistory | lib/models/mock.ts:4 | the history does not affect the reply |
| Registry.GetModel | lib/models/index.ts:27-34 | a registry key gives its adapter with no warning; any other key gives a mock adapter and a warning |
| Registry.RegistryEntries | lib/models/index.ts:13-25 | groq1..groq4 build Groq adapters bound to GROQ_API_KEY_1..4; the other five build the adapter of the same name |
| Registry.WarningNamesKey | lib/models/index.ts:30 | the warning names the unknown key |
| Registry.AgentsFallBackToMock | lib/models/index.ts:13-29 | none of the roster's model keys is a registry key, so every agent is served by the mock |
| FireBack.Listed | app/components/ChatInterface.tsx:126 | the filter keeps exactly the other fighters whose trimmed answer is non-empty |
| FireBack.Responders | app/components/ChatInterface.tsx:125-126 | exactly the other fighters that answered, in grok, gemini, llama order |
| FireBack.KeptInOrder | app/components/ChatInterface.tsx:125-126 | filtering the three keys keeps their order |
| FireBack.Lines | app/components/ChatInterface.tsx:127 | one `Name said: "answer"` line per responder, in order |
| FireBack.FireBackHistory | app/components/ChatInterface.tsx:133-144 | the question first; a fighter without an answer gets only the question; otherwise its own trimmed answer and then the user prompt "The other AIs responded:", the listing, and the "Fire back." instruction |
| FireBack.OthersListing | app/components/ChatInterface.tsx:124-131 | never the fighter itself; every other responder is listed, in order, with its line; the fixed notice exactly when no one else answered |
| FireBack.EveryFighterAsked | app/components/ChatInterface.tsx:146 | every fighter gets its own history, opening with the question |
| ChatRoute.Validate | app/api/chat/route.ts:12-38 | invalid JSON, then a missing, non-string or blank message, then an unlisted mode, each give 400 with no agents; an accepted request carries the trimmed message, the mode and the history defaulting to [] |
| ChatRoute.Post | app/api/chat/route.ts:7-50 | rejections are returned as validated; 200 exactly when the request is accepted and its mode has a roster, with the round's answers; otherwise 500 "Internal server error" |
| ChatRoute.InvalidModeListsModes | app/api/chat/route.ts:34 | the invalid-mode error names every valid mode |
| ChatRoute.CapitalisedModesNeverRun | app/api/chat/route.ts:5 | with the list as written, no accepted mode has a roster |
| ChatRoute.CapitalisedUnknown | app/api/chat/route.ts:5 | none of 'Academic', 'Flirt' and 'Roast' is a roster key |
| ChatRoute.LowercaseModeRefused | app/api/chat/route.ts:30-38 | the mode "roast" is refused with the list as written and accepted with the corrected list |
| ChatRoute.RoastListing | app/api/chat/route.ts:5 | "roast" is not in the written list, but is in the corrected one |
| ChatRoute.CorrectedModesRun | app/api/chat/route.ts:30-41 | with the corrected list, every accepted mode has a roster |
| DebateConstants.DigitCount | app/chat/constants.ts:6 | the length of the leading digit run |
| DebateConstants.ParseInt | app/chat/constants.ts:6 | NaN exactly when no digit follows the whitespace and sign; a positive result has no minus sign |
| DebateConstants.Magnitude | app/chat/constants.ts:6 | a value exactly when the text starts with a digit |
| DebateConstants.DigitsMagnitude | app/chat/constants.ts:6 | the value read from a digit run is the run's value, whatever non-digit text follows |
| DebateConstants.ParseSigned | app/chat/constants.ts:6 | for any whitespace, optional sign and text starting with a digit, the result is the leading run's value, negated after '-' |
| DebateConstants.SignedText | app/chat/constants.ts:6 | the whitespace and the sign are skipped, and only '-' makes the result negative |
| DebateConstants.SkipToSign | app/chat/constants.ts:6 | leading whitespace is skipped up to the sign or first digit |
| DebateConstants.SignPart | app/chat/constants.ts:6 | one sign is dropped; '-' is the only negative one |
| DebateConstants.ParseFromParts | app/chat/constants.ts:6 | the result is the magnitude after the sign, negated after '-' |
| DebateConstants.LeadingZeros | app/chat/constants.ts:6 | leading zeros do not change a digit run's value |
| DebateConstants.ParseDecimalForms | app/chat/constants.ts:6 | whitespace, an optional sign and leading zeros before the decimal form of n, followed by any non-digit text, give n, or -n after '-' |
| DebateConstants.ParsePositiveInt | app/chat/constants.ts:5-9 | the fallback for an absent, unparsable or non-positive value; otherwise the parsed value, so the result is positive or the fallback |
| DebateConstants.Config | app/chat/constants.ts:11-26 | 0 < min <= max; the two are the parsed delays in sorted order; max turns is positive |
| DebateConstants.Defaults | app/chat/constants.ts:1-3 | with no environment: 900, 3000 and 15 |
| DebateConstants.StartsWithDigit | app/chat/constants.ts:6 | a text starting with a digit has no whitespace or sign to skip |
| DebateConstants.DecimalValue | app/chat/constants.ts:6 | the digits of n read back give n |
| DebateConstants.DigitRoundTrip | app/chat/constants.ts:6 | each digit character reads back as its value |
| DebateConstants.DigitRunEnds | app/chat/constants.ts:6 | the digit run stops at the first non-digit |
| DebateConstants.ParseDecimal | app/chat/constants.ts:6 | `parseInt` reads back the decimal form of any natural number, whatever non-digit text follows |
| DebateConstants.PositiveSetting | app/chat/constants.ts:7-8 | a positive setting replaces the default; "0" does not |
| DebateConstants.DelaysSorted | app/chat/constants.ts:21-22 | two positive delays set in either order come out sorted |
| DebateConstants.SettingLookups | app/chat/constants.ts:11-26 | the three variables are distinct keys |
| ChatPageModel.AgentMessages | components/ChatPage.tsx:114-118 | one assistant message per agent response, in order, with its text and name |
| ChatPageModel.ChatPage.constructor | components/ChatPage.tsx:75-79 | no messages; mode academic; empty input; not busy |
| ChatPageModel.ChatPage.TypewriteMessage | components/ChatPage.tsx:42-72 | a stub is appended; `pos` grows by 3 up to the length; the guarded tail is rewritten; the list ends with the full message, after max(1, ceil(n/3)) ticks |
| ChatPageModel.ChatPage.Submit | components/ChatPage.tsx:85-95 | nothing happens when the trimmed input is empty or the page is busy; otherwise the user message is appended, the input cleared and loading set, and the request carries the earlier messages |
| ChatPageModel.ChatPage.Receive | components/ChatPage.tsx:103-132 | loading stops; an exception or an error adds exactly one System message; otherwise every answer is revealed in order |
| TypewriterComponent.Typewriter.constructor | components/Typewriter.tsx:12-13 | empty text shown, index 0 |
| TypewriterComponent.Typewriter.Step | components/Typewriter.tsx:15-26 | below the end: one more character and the index moves on, keeping the shown text equal to the text up to the index; at the end: `onComplete`, and nothing changes |
| TypewriterComponent.Typewriter.Play | components/Typewriter.tsx:15-26 | exactly one tick per remaining character, then the whole text is shown; an empty text completes without a tick |

## Left out

- Network I/O: every `fetch`, `res.json()` and `res.text()` is replaced by the response it yields, passed in as a parameter.
- Logging: `console.error` and `console.warn` are not modelled. The warning `getModel` logs is returned as a value.
- Timers and randomness: the `setTimeout`/`setInterval` delays, `randomCharDelay` and `Math.random` message ids. Timers become explicit firing events (typing queue) or loop iterations (chat page, typewriter); durations are not modelled.
- `Math.random().toString()` ids in the debate history are left out. The adapter message type has no id field.
- Unicode whitespace: `trim` and `\s` are modelled over ASCII whitespace only. Strings are sequences of characters, not UTF-16 code units.
- Floating-point: the Groq `temperature` and JavaScript number precision. `DebateConstants.ParseInt` does not model rounding above 2^53 or the `Infinity` of very long digit strings, because integers are unbounded here.
- Bodies that parse to a non-object (such as `null`), on which the handler throws while destructuring, and histories that are present but not arrays: the parsed body is always the three fields.
- The Claude, custom and OpenRouter adapters, whose only logic is a length slice: the registry models which adapter is built, not their calls.
- `Registry.GetModel`: it does not model that each call builds a fresh adapter object, because adapters are values here.
- Concurrency: the chat page's `handleSend` is split at its one `await` into `Submit` and `Receive`. Each of those runs atomically, and so does each `typewriteMessage`. State changes by other callbacks during an animation are not modelled.
- React's effect scheduling in `Typewriter`: an effect re-run caused by a change of `text`, `speed` or `onComplete` is not modelled, so a repeated `onComplete` call on such a re-run is not either.
- `turnCount` is an integer here. The server action receives a JavaScript number, so a fractional count (1.5 % 3 is 1.5, which takes the last branch of the rotation) or NaN cannot be expressed.
- `Orchestrator.RunAgents` requires one provider outcome per roster agent. This is how the abstract provider is supplied; the source has no such precondition.
- The `startBattle` loop, streaming and the parallel rounds of the battle page are out of scope; only `nextHistories` is modelled.

## Findings

| source | as written | input that shows it | evidently intended | confidence | as-written member | corrected member |
|---|---|---|---|---|---|---|
| app/api/chat/route.ts:5 | `VALID_MODES` lists 'Academic', 'Flirt', 'Roast'. The agent table in lib/prompts.ts:5-31 has only lowercase keys, so an accepted mode makes `runAgents` iterate an undefined roster, which throws and gives 500. The lowercase modes the page sends are refused with 400, so `POST` never answers 200 | `{"message": "hi", "mode": "roast"}` gives 400; `{"message": "hi", "mode": "Roast"}` gives 500 | the lowercase modes of lib/types.ts:1 and `CHAT_MODES` in app/chat/constants.ts:20 | high (proved; not executed) | ChatRoute.CapitalisedModesNeverRun | ChatRoute.CorrectedModesRun |
