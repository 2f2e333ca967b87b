/** app/actions/debate.ts: one turn of the three-model debate, and the
    removal of a legacy "Speaker:" prefix from every text the turn touches. */
module Debate {
  import opened Types
  import opened Strings
  import Prompts

  // ---------------------------------------------------------------------
  // The speaker prefix `^\s*(?:\[[^\]]+\]|[A-Za-z][\w .'-]{0,40}):\s*`
  // ---------------------------------------------------------------------

  predicate IsLetter(c: char) {
    'A' <= c <= 'Z' || 'a' <= c <= 'z'
  }

  /** `\w`: a letter, a digit or the underscore. */
  predicate IsWordChar(c: char) {
    IsLetter(c) || '0' <= c <= '9' || c == '_'
  }

  /** The character class `[\w .'-]` of a speaker name. */
  predicate IsNameChar(c: char) {
    IsWordChar(c) || c == ' ' || c == '.' || c == '\'' || c == '-'
  }

  /** Longest speaker names the prefix accepts: one letter and forty more. */
  const MaxNameTail := 40

  /** A bracketed label `[...]`: at least one character, none of them `]`. */
  ghost predicate Bracketed(u: string) {
    |u| >= 3 && u[0] == '[' && u[|u| - 1] == ']'
    && forall i | 1 <= i < |u| - 1 :: u[i] != ']'
  }

  /** A name: a letter followed by at most forty name characters. */
  ghost predicate Named(u: string) {
    1 <= |u| <= MaxNameTail + 1 && IsLetter(u[0])
    && forall i | 1 <= i < |u| :: IsNameChar(u[i])
  }

  /** `t` is leading whitespace (its first `w` characters), then a label or
      a name, then the colon. */
  ghost predicate TokenAt(t: string, w: int) {
    0 <= w < |t| - 1 && AllSpace(t[..w]) && t[|t| - 1] == ':'
    && (Bracketed(t[w..|t| - 1]) || Named(t[w..|t| - 1]))
  }

  /** The first `n` characters of `s` are a speaker token (without the
      whitespace after its colon). */
  ghost predicate TokenPrefix(s: string, n: int) {
    0 < n <= |s| && exists w :: TokenAt(s[..n], w)
  }

  /** The first position at or after `i` holding `c`, or `|s|`. */
  function IndexFrom(s: string, i: nat, c: char): (j: nat)
    requires i <= |s|
    decreases |s| - i
    ensures i <= j <= |s|
    ensures j < |s| ==> s[j] == c
    ensures forall k | i <= k < j :: s[k] != c
  {
    if i == |s| || s[i] == c then i else IndexFrom(s, i + 1, c)
  }

  /** The number of name characters in a row starting at `i`. */
  function NameRun(s: string, i: nat): (n: nat)
    requires i <= |s|
    decreases |s| - i
    ensures i + n <= |s|
    ensures forall k | i <= k < i + n :: IsNameChar(s[k])
    ensures i + n == |s| || !IsNameChar(s[i + n])
  {
    if i == |s| || !IsNameChar(s[i]) then 0 else 1 + NameRun(s, i + 1)
  }

  /** Where the speaker token at the start of `s` ends (just after its
      colon), as the regular expression finds it, or None when it does not
      match. Leading whitespace is skipped greedily; a `[` can only start a
      label and a letter only a name, and in either branch backtracking
      cannot help, because the character that has to follow (`]`, `:`) is
      outside the repeated class. */
  function MatchToken(s: string): (r: Option<nat>)
    ensures r.Some? ==> r.value <= |s|
  {
    MatchAt(s, |s| - |TrimStart(s)|)
  }

  /** The token match once the leading whitespace, the first `w`
      characters, has been skipped. */
  function MatchAt(s: string, w: nat): (r: Option<nat>)
    requires w <= |s|
    ensures r.Some? ==> w < r.value <= |s|
  {
    if w < |s| && s[w] == '[' then
      var j := IndexFrom(s, w + 1, ']');
      if w + 1 < j && j + 1 < |s| && s[j + 1] == ':' then Some(j + 2) else None
    else if w < |s| && IsLetter(s[w]) then
      var k := NameRun(s, w + 1);
      if k <= MaxNameTail && w + 1 + k < |s| && s[w + 1 + k] == ':' then Some(w + k + 2) else None
    else None
  }

  /** `stripSpeakerPrefix(content)`: the matched token and the whitespace
      after it are replaced by nothing, then the rest is trimmed. */
  function StripSpeakerPrefix(content: string): string {
    match MatchToken(content)
    case Some(n) => Trim(TrimStart(content[n..]))
    case None => Trim(content)
  }

  /** The whitespace that `TrimStart` skips is exactly the leading run: a
      position `w` whose prefix is all whitespace and whose character is not
      is that run's end. */
  lemma {:induction false} LeadingSpaceEnd(s: string, w: nat)
    requires w < |s| && AllSpace(s[..w]) && !IsSpace(s[w])
    ensures w == |s| - |TrimStart(s)|
  {
    if w > 0 {
      assert IsSpace(s[..w][0]);
      assert s[1..][..w - 1] == s[1..w];
      forall i | 0 <= i < w - 1 ensures IsSpace(s[1..w][i]) {
        assert s[1..w][i] == s[..w][i + 1];
      }
      LeadingSpaceEnd(s[1..], w - 1);
    }
  }

  /** Soundness: what `MatchToken` reports is a speaker token. */
  lemma MatchTokenSound(s: string)
    requires MatchToken(s).Some?
    ensures TokenPrefix(s, MatchToken(s).value)
  {
    var w := |s| - |TrimStart(s)|;
    MatchAtSound(s, w);
  }

  lemma MatchAtSound(s: string, w: nat)
    requires w <= |s| && AllSpace(s[..w]) && MatchAt(s, w).Some?
    ensures TokenPrefix(s, MatchAt(s, w).value)
  {
    if s[w] == '[' {
      var j := IndexFrom(s, w + 1, ']');
      BracketSound(s, w, j);
      TokenFromParts(s, w, j + 2);
    } else {
      var k := NameRun(s, w + 1);
      NameSound(s, w, k);
      TokenFromParts(s, w, w + k + 2);
    }
  }

  lemma BracketSound(s: string, w: nat, j: nat)
    requires w < |s| && s[w] == '['
    requires j == IndexFrom(s, w + 1, ']') && w + 1 < j && j + 1 < |s|
    ensures Bracketed(s[w..j + 1])
  {
    var u := s[w..j + 1];
    forall i | 1 <= i < |u| - 1 ensures u[i] != ']' {
      assert u[i] == s[w + i];
    }
  }

  lemma NameSound(s: string, w: nat, k: nat)
    requires w < |s| && IsLetter(s[w])
    requires k == NameRun(s, w + 1) && k <= MaxNameTail
    ensures Named(s[w..w + k + 1])
  {
    var u := s[w..w + k + 1];
    forall i | 1 <= i < |u| ensures IsNameChar(u[i]) {
      assert u[i] == s[w + i];
    }
  }

  /** Leading whitespace, a label or a name, and a colon make a token. */
  lemma TokenFromParts(s: string, w: nat, n: nat)
    requires w < n - 1 && n <= |s| && AllSpace(s[..w]) && s[n - 1] == ':'
    requires Bracketed(s[w..n - 1]) || Named(s[w..n - 1])
    ensures TokenPrefix(s, n)
  {
    var t := s[..n];
    assert t[..w] == s[..w];
    assert t[w..|t| - 1] == s[w..n - 1];
    assert TokenAt(t, w);
  }

  /** The parts of a token at the head of `s`, read off `s` itself. */
  lemma TokenParts(s: string, n: int, w: int)
    requires 0 < n <= |s| && TokenAt(s[..n], w)
    ensures 0 <= w < n - 1 && AllSpace(s[..w]) && s[n - 1] == ':'
    ensures Bracketed(s[w..n - 1]) || Named(s[w..n - 1])
    ensures Bracketed(s[w..n - 1]) ==> s[w] == '['
    ensures !Bracketed(s[w..n - 1]) ==> IsLetter(s[w])
  {
    var t := s[..n];
    assert t[..w] == s[..w];
    assert t[w..n - 1] == s[w..n - 1];
    assert s[w] == t[w..n - 1][0];
  }

  /** Completeness: every speaker token at the start of `s` is the one
      `MatchToken` reports (so there is at most one). */
  lemma MatchTokenComplete(s: string, n: int)
    requires TokenPrefix(s, n)
    ensures MatchToken(s) == Some(n)
  {
    var w :| TokenAt(s[..n], w);
    TokenParts(s, n, w);
    LeadingSpaceEnd(s, w);
    assert MatchToken(s) == MatchAt(s, w);
    if Bracketed(s[w..n - 1]) {
      LabelFound(s, w, n);
      MatchLabel(s, w, n);
    } else {
      NameFound(s, w, n);
      MatchName(s, w, n);
    }
  }

  lemma MatchLabel(s: string, w: nat, n: nat)
    requires w + 3 < n <= |s|
    requires s[w] == '[' && IndexFrom(s, w + 1, ']') == n - 2 && s[n - 1] == ':'
    ensures MatchAt(s, w) == Some(n)
  {
  }

  lemma MatchName(s: string, w: nat, n: nat)
    requires w + 1 < n <= |s| && n - w - 2 <= MaxNameTail
    requires IsLetter(s[w]) && NameRun(s, w + 1) == n - w - 2 && s[n - 1] == ':'
    ensures MatchAt(s, w) == Some(n)
  {
  }

  lemma LabelFound(s: string, w: nat, n: nat)
    requires w + 3 < n <= |s| && s[n - 1] == ':' && Bracketed(s[w..n - 1])
    ensures IndexFrom(s, w + 1, ']') == n - 2
  {
    var u := s[w..n - 1];
    assert s[n - 2] == u[|u| - 1];
    forall k | w + 1 <= k < n - 2 ensures s[k] != ']' {
      assert s[k] == u[k - w];
    }
  }

  lemma NameFound(s: string, w: nat, n: nat)
    requires w + 1 < n <= |s| && s[n - 1] == ':' && Named(s[w..n - 1])
    ensures NameRun(s, w + 1) == n - w - 2
  {
    var u := s[w..n - 1];
    var k := NameRun(s, w + 1);
    forall i | w + 1 <= i < n - 1 ensures IsNameChar(s[i]) {
      assert s[i] == u[i - w];
    }
  }

  /** `TrimStart` only ever removes whitespace once. */
  lemma TrimStartTwice(s: string)
    ensures TrimStart(TrimStart(s)) == TrimStart(s)
  {
  }

  /** With a speaker token at its head, the text loses exactly that token
      (and is then trimmed). */
  lemma StripWithToken(content: string, n: int)
    requires TokenPrefix(content, n)
    ensures StripSpeakerPrefix(content) == Trim(content[n..])
  {
    MatchTokenComplete(content, n);
    TrimStartTwice(content[n..]);
  }

  /** Without one, the text is only trimmed. */
  lemma StripWithoutToken(content: string)
    requires forall n :: !TokenPrefix(content, n)
    ensures StripSpeakerPrefix(content) == Trim(content)
  {
    if MatchToken(content).Some? {
      MatchTokenSound(content);
    }
  }

  /** A concrete removal: "GPT-5 nano: Hi" is reduced to "Hi". */
  lemma StripExample()
    ensures StripSpeakerPrefix("GPT-5 nano: Hi") == "Hi"
  {
    var s := "GPT-5 nano: Hi";
    ExampleToken();
    StripWithToken(s, 11);
    assert s[11..] == " Hi";
    ExampleRest();
  }

  lemma ExampleToken()
    ensures TokenPrefix("GPT-5 nano: Hi", 11)
  {
    var t := "GPT-5 nano: Hi"[..11];
    assert t == "GPT-5 nano:";
    assert t[..0] == "";
    assert t[0..10] == "GPT-5 nano";
    assert TokenAt(t, 0);
  }

  lemma ExampleRest()
    ensures Trim(" Hi") == "Hi"
  {
    assert " Hi" == [' '] + "Hi";
    TrimOneSpace(' ', "Hi");
  }

  /** One leading space before an already trimmed text is all `trim` removes. */
  lemma TrimOneSpace(c: char, s: string)
    requires IsSpace(c) && |s| > 0 && !IsSpace(s[0]) && !IsSpace(s[|s| - 1])
    ensures Trim([c] + s) == s
  {
    assert ([c] + s)[1..] == s;
    assert TrimStart([c] + s) == TrimStart(s) == s;
    TrimTrimmed(s);
  }

  // ---------------------------------------------------------------------
  // One debate turn
  // ---------------------------------------------------------------------

  /** `turnCount % 3` as JavaScript computes it: the remainder takes the
      sign of the dividend. */
  function JsRem3(turnCount: int): (r: int)
    ensures -3 < r < 3
    ensures turnCount >= 0 ==> r == turnCount % 3
    ensures turnCount < 0 ==> r <= 0
  {
    if turnCount >= 0 then turnCount % 3 else -((-turnCount) % 3)
  }

  /** The model a turn goes to: registry key, display name, system prompt. */
  datatype Speaker = Speaker(id: string, name: string, system: string)

  /** One entry of the history the client sends. */
  datatype HistoryEntry = HistoryEntry(role: string, content: string, name: Option<string>)

  /** What `debateAction` settles with: the reply, or the message of the
      error it throws. */
  datatype TurnResult = Reply(content: string, modelName: string) | Thrown(message: string)

  const DefaultError := "Failed to fetch next debate turn."

  /** The speaker whose turn it is: the three models in rotation, the first
      of them answering the user on turn 0 only. */
  ghost function SpeakerOf(turnCount: int, mode: string): (s: Speaker)
    ensures s.system == Prompts.SystemPrompt(mode, s.name, turnCount == 0)
  {
    var r := JsRem3(turnCount);
    if r == 0 then Speaker("gpt_oss", "GPT-5 nano", Prompts.SystemPrompt(mode, "GPT-5 nano", turnCount == 0))
    else if r == 1 then Speaker("gemma_2", "Gemma 2", Prompts.SystemPrompt(mode, "Gemma 2", false))
    else Speaker("llama_3", "LLaMA 3.3", Prompts.SystemPrompt(mode, "LLaMA 3.3", false))
  }

  /** `history.map(...)`: the history as the adapter gets it, one message
      per entry in the same order, with role user exactly for entries whose
      role is "user", the speaker prefix stripped from the content and the
      entry's name kept. */
  function AdapterHistory(history: seq<HistoryEntry>): (h: seq<Message>)
    ensures |h| == |history|
    ensures forall i | 0 <= i < |h| :: h[i] == Adapted(history[i])
  {
    seq(|history|, i requires 0 <= i < |history| => Adapted(history[i]))
  }

  /** One history entry as the adapter gets it. */
  function Adapted(entry: HistoryEntry): (m: Message)
    ensures m.role == User <==> entry.role == "user"
    ensures m.content == StripSpeakerPrefix(entry.content)
    ensures m.agentName == entry.name
  {
    Message(if entry.role == "user" then User else Assistant, StripSpeakerPrefix(entry.content), entry.name)
  }

  /** The name on the last history entry, "" when it has none. */
  function LastName(history: seq<HistoryEntry>): string
    requires |history| > 0
  {
    match history[|history| - 1].name
    case Some(name) => name
    case None => ""
  }

  /** The message the speaker answers: the prompt on turn 0 (and on
      negative turns); on later turns the last adapted message, attributed
      to its author when it carries a non-empty name, or a fixed nudge when
      there is no history. */
  function UserMessage(prompt: string, h: seq<Message>, turnCount: int): (m: string)
    ensures turnCount <= 0 ==> m == prompt
    ensures turnCount > 0 && |h| == 0 ==> m == "Continue the debate."
    ensures turnCount > 0 && |h| > 0 ==>
      var last := h[|h| - 1];
      if last.agentName.Some? && last.agentName.value != "" then
        m == last.agentName.value + " said: \"" + last.content + "\""
      else
        m == last.content
  {
    if turnCount > 0 then
      if |h| > 0 then
        var lastMessage := h[|h| - 1];
        if lastMessage.agentName.Some? && lastMessage.agentName.value != ""
        then lastMessage.agentName.value + " said: \"" + lastMessage.content + "\""
        else lastMessage.content
      else "Continue the debate."
    else prompt
  }

  /** `debateAction(prompt, history, turnCount, mode)`. The provider's
      settlement is `outcome`; `call` is the one adapter call made. */
  method DebateAction(prompt: string, history: seq<HistoryEntry>, turnCount: int, mode: string,
                      outcome: Completion)
    returns (call: Call, r: TurnResult)
    // the speaker of the turn, with the adapted history
    ensures call.model == SpeakerOf(turnCount, mode).id
    ensures call.systemPrompt == SpeakerOf(turnCount, mode).system
    ensures call.history == AdapterHistory(history)
    // the user message: the prompt on turn 0 (and on negative turns);
    // afterwards the last history entry, stripped, and attributed to its
    // author when it has a non-empty name
    ensures call.userMessage == UserMessage(prompt, AdapterHistory(history), turnCount)
    // the settlement: the stripped reply under the speaker's display name,
    // or the error's message, defaulted when it is empty
    ensures outcome.Ok? ==> r == Reply(StripSpeakerPrefix(outcome.text), SpeakerOf(turnCount, mode).name)
    ensures outcome.Failed? && outcome.message != "" ==> r == Thrown(outcome.message)
    ensures outcome.Failed? && outcome.message == "" ==> r == Thrown(DefaultError)
  {
    var currentTurnIndex := JsRem3(turnCount);
    var modelConfig: Speaker;
    if currentTurnIndex == 0 {
      modelConfig := Speaker("gpt_oss", "GPT-5 nano", Prompts.SystemPrompt(mode, "GPT-5 nano", turnCount == 0));
    } else if currentTurnIndex == 1 {
      modelConfig := Speaker("gemma_2", "Gemma 2", Prompts.SystemPrompt(mode, "Gemma 2", false));
    } else {
      modelConfig := Speaker("llama_3", "LLaMA 3.3", Prompts.SystemPrompt(mode, "LLaMA 3.3", false));
    }

    var adapterHistory := AdapterHistory(history);

    var userMessage := UserMessage(prompt, adapterHistory, turnCount);

    call := Call(modelConfig.id, modelConfig.system, userMessage, adapterHistory);
    match outcome {
      case Ok(text) =>
        r := Reply(StripSpeakerPrefix(text), modelConfig.name);
      case Failed(message) =>
        r := Thrown(if message != "" then message else DefaultError);
    }
  }

  /** On a later turn with history, the speaker answers the last entry of
      the history as sent, its speaker prefix stripped, attributed to the
      entry's author when the entry carries a non-empty name. */
  lemma DebateUserMessage(prompt: string, history: seq<HistoryEntry>, turnCount: int)
    requires turnCount > 0 && |history| > 0
    ensures var last := history[|history| - 1];
      var m := UserMessage(prompt, AdapterHistory(history), turnCount);
      && (last.name.Some? && last.name.value != "" ==>
            m == last.name.value + " said: \"" + StripSpeakerPrefix(last.content) + "\"")
      && (last.name.None? || last.name.value == "" ==> m == StripSpeakerPrefix(last.content))
  {
    var h := AdapterHistory(history);
    assert h[|h| - 1] == Adapted(history[|history| - 1]);
  }

  /** The rotation: every third turn goes to the same model, turns 0, 1, 2
      go to GPT-5 nano, Gemma 2 and LLaMA 3.3, and only turn 0 gets the
      first-turn prompt; every later turn of GPT-5 nano is a rebuttal. */
  lemma Rotation(turnCount: int, mode: string)
    requires turnCount >= 0
    ensures SpeakerOf(turnCount + 3, mode).id == SpeakerOf(turnCount, mode).id
    ensures turnCount % 3 == 0 ==> SpeakerOf(turnCount, mode).id == "gpt_oss"
    ensures turnCount % 3 == 1 ==> SpeakerOf(turnCount, mode).id == "gemma_2"
    ensures turnCount % 3 == 2 ==> SpeakerOf(turnCount, mode).id == "llama_3"
    ensures turnCount == 0 ==> Contains(SpeakerOf(turnCount, mode).system, "Answer the user's message directly")
    ensures turnCount != 0 ==> Contains(SpeakerOf(turnCount, mode).system, "logic is flawed")
    ensures turnCount > 0 && turnCount % 3 == 0 ==> SpeakerOf(turnCount, mode).system != SpeakerOf(0, mode).system
  {
    Prompts.TurnObjective(mode, SpeakerOf(turnCount, mode).name);
  }

  /** Negative turn counts, which JavaScript's remainder keeps negative,
      all fall to the last branch unless they are multiples of three. */
  lemma NegativeTurns(turnCount: int, mode: string)
    requires turnCount < 0
    ensures turnCount % 3 == 0 ==> SpeakerOf(turnCount, mode).id == "gpt_oss"
    ensures turnCount % 3 != 0 ==> SpeakerOf(turnCount, mode).id == "llama_3"
  {
    assert (-turnCount) % 3 == 0 <==> turnCount % 3 == 0;
  }
}
