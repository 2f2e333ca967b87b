/** app/api/chat/route.ts: the `POST` handler of the single-shot chat API.
    Parsing the JSON body is abstracted to its outcome: the request is None
    when the body is not valid JSON, otherwise the three fields the handler
    destructures. */
module ChatRoute {
  import opened Types
  import opened Strings
  import Prompts
  import Orchestrator

  /** A field of the parsed body: missing, a string, or a value of any
      other JSON type. */
  datatype Field = Absent | Text(text: string) | NotText

  /** The destructured `ChatRequest`; `history` is None when absent. */
  datatype Body = Body(message: Field, mode: Field, history: Option<seq<Message>>)

  /** `ChatResponse` with the HTTP status it is sent with. */
  datatype ChatResponse = ChatResponse(status: nat, agents: seq<AgentResponse>, error: Option<string>)

  /** `VALID_MODES` as written. */
  const ValidModes: seq<string> := ["Academic", "Flirt", "Roast"]

  /** The list the handler evidently means: the mode keys of the agent
      table and of the client (the `CHAT_MODES` of app/chat/constants.ts). */
  const CorrectedModes: seq<string> := ["academic", "flirt", "roast"]

  /** What the guards decide: an early error response, or the arguments
      `runAgents` is awaited with. */
  datatype Validation =
    | Rejected(response: ChatResponse)
    | Accepted(message: string, mode: string, history: seq<Message>)

  const InvalidJson := ChatResponse(400, [], Some("Invalid JSON body"))
  const MessageRequired := ChatResponse(400, [], Some("message is required"))
  const ServerError := ChatResponse(500, [], Some("Internal server error"))

  function InvalidMode(validModes: seq<string>): ChatResponse {
    ChatResponse(400, [], Some("Invalid mode. Use one of: " + Join(validModes, ", ")))
  }

  /** `!message || typeof message !== 'string' || message.trim() === ''` fails. */
  predicate HasMessage(body: Body) {
    body.message.Text? && |Trim(body.message.text)| > 0
  }

  /** `VALID_MODES.includes(mode)`: strict equality, so only a string can match. */
  predicate ModeListed(body: Body, validModes: seq<string>) {
    body.mode.Text? && body.mode.text in validModes
  }

  /** The guards of `POST`, in their order: the JSON check, then the
      message check, then the mode check; a request that passes all three
      is dispatched with the trimmed message and the history defaulting
      to the empty list. */
  function Validate(request: Option<Body>, validModes: seq<string>): (v: Validation)
    ensures request.None? ==> v == Rejected(InvalidJson)
    ensures request.Some? && !HasMessage(request.value) ==> v == Rejected(MessageRequired)
    ensures request.Some? && HasMessage(request.value) && !ModeListed(request.value, validModes) ==>
              v == Rejected(InvalidMode(validModes))
    ensures v.Accepted? <==> request.Some? && HasMessage(request.value) && ModeListed(request.value, validModes)
    ensures v.Accepted? ==>
              && v.message == Trim(request.value.message.text) && |v.message| > 0
              && v.mode == request.value.mode.text && v.mode in validModes
              && v.history == (if request.value.history.Some? then request.value.history.value else [])
    ensures v.Rejected? ==> v.response.status == 400 && v.response.agents == [] && v.response.error.Some?
  {
    match request
    case None => Rejected(InvalidJson)
    case Some(body) =>
      var history := match body.history case Some(h) => h case None => [];
      if !body.message.Text? || Trim(body.message.text) == "" then Rejected(MessageRequired)
      else if !ModeListed(body, validModes) then Rejected(InvalidMode(validModes))
      else Accepted(Trim(body.message.text), body.mode.text, history)
  }

  /** `POST(req)` against `validModes`, with `outcomes` the provider's
      answers to the round's three calls: a rejected request gets its
      400 response and no agent is called; an accepted one is dispatched to
      `runAgents`, which answers 200 with the round's responses when the
      mode has a roster and throws otherwise, which gives the 500 response. */
  method Post(validModes: seq<string>, request: Option<Body>, outcomes: seq<Completion>)
    returns (response: ChatResponse, calls: seq<Call>)
    requires |outcomes| == |Prompts.Roster|
    ensures Validate(request, validModes).Rejected? ==>
              response == Validate(request, validModes).response && calls == []
    ensures response.status == 200 <==>
              Validate(request, validModes).Accepted? && Validate(request, validModes).mode in Prompts.KnownModes
    ensures response.status == 200 ==>
              var v := Validate(request, validModes);
              && response.error.None?
              && Orchestrator.RoundOf(Prompts.Roster, v.message, v.mode, v.history, outcomes, response.agents, calls)
    ensures Validate(request, validModes).Accepted? && Validate(request, validModes).mode !in Prompts.KnownModes ==>
              response == ServerError && calls == []
  {
    var v := Validate(request, validModes);
    if v.Rejected? {
      return v.response, [];
    }
    var agents;
    agents, calls := Orchestrator.RunAgents(v.message, v.mode, v.history, outcomes);
    if agents.None? {
      return ServerError, calls;
    }
    response := ChatResponse(200, agents.value, None);
  }

  /** The error for an unknown mode names every valid mode. */
  lemma InvalidModeListsModes(validModes: seq<string>, k: nat)
    requires k < |validModes|
    ensures Contains(InvalidMode(validModes).error.value, validModes[k])
  {
    var joined := Join(validModes, ", ");
    JoinContains(validModes, ", ", k);
    ContainsInfix("Invalid mode. Use one of: ", joined, "");
    assert "Invalid mode. Use one of: " + joined + "" == InvalidMode(validModes).error.value;
    ContainsInside(InvalidMode(validModes).error.value, joined, validModes[k]);
  }

  /** As written, no request reaches a roster: every mode that passes the
      check is capitalised, and the agent table has only lowercase keys, so
      `POST` never answers 200. */
  lemma CapitalisedModesNeverRun(request: Option<Body>)
    ensures var v := Validate(request, ValidModes);
      v.Accepted? ==> v.mode !in Prompts.KnownModes
  {
    var v := Validate(request, ValidModes);
    if v.Accepted? {
      CapitalisedUnknown(v.mode);
    }
  }

  lemma CapitalisedUnknown(m: string)
    requires m in ValidModes
    ensures m !in Prompts.KnownModes
  {
    assert m == ValidModes[0] || m == ValidModes[1] || m == ValidModes[2];
    assert 'A' <= m[0] <= 'Z';
    forall k | k in Prompts.KnownModes ensures k != m {
      assert 'a' <= k[0] <= 'z';
    }
  }

  /** The mode values the client sends are refused as written, and
      accepted with the corrected list. */
  lemma LowercaseModeRefused(message: string)
    requires |Trim(message)| > 0
    ensures Validate(Some(Body(Text(message), Text("roast"), None)), ValidModes) == Rejected(InvalidMode(ValidModes))
    ensures Validate(Some(Body(Text(message), Text("roast"), None)), CorrectedModes).Accepted?
  {
    var body := Body(Text(message), Text("roast"), None);
    RoastListing();
    assert HasMessage(body);
    assert !ModeListed(body, ValidModes);
    assert ModeListed(body, CorrectedModes);
  }

  lemma RoastListing()
    ensures "roast" !in ValidModes && "roast" in CorrectedModes
  {
    forall m | m in ValidModes ensures m != "roast" {
      assert m[0] != 'r';
    }
    assert CorrectedModes[2] == "roast";
  }

  /** With the corrected list every request that passes the checks has a
      roster, so `POST` answers 200 exactly for the accepted requests. */
  lemma CorrectedModesRun(request: Option<Body>)
    ensures var v := Validate(request, CorrectedModes);
      v.Accepted? ==> v.mode in Prompts.KnownModes
  {
  }
}
