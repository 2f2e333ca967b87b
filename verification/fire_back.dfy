/** `nextHistories` of app/components/ChatInterface.tsx: after a round of
    the three-fighter battle, the history each fighter is sent next, in
    which it is shown what the others said and told to fire back. */
module FireBack {
  import opened Types
  import opened Strings

  datatype Fighter = Grok | Gemini | Llama

  /** `Object.keys(fighters)`, in declaration order. */
  const Fighters: seq<Fighter> := [Grok, Gemini, Llama]

  function Name(f: Fighter): string {
    match f
    case Grok => "Grok"
    case Gemini => "Gemini"
    case Llama => "Llama"
  }

  /** A fighter's place in `Fighters`. */
  function Rank(f: Fighter): nat {
    match f
    case Grok => 0
    case Gemini => 1
    case Llama => 2
  }

  /** `RoundSnapshot`: each fighter's answer in the last round. */
  datatype RoundSnapshot = RoundSnapshot(grok: string, gemini: string, llama: string)

  function Answer(snapshot: RoundSnapshot, f: Fighter): string {
    match f
    case Grok => snapshot.grok
    case Gemini => snapshot.gemini
    case Llama => snapshot.llama
  }

  predicate Responded(snapshot: RoundSnapshot, f: Fighter) {
    |Trim(Answer(snapshot, f))| > 0
  }

  /** `HistoryMsg` */
  datatype HistoryMsg = HistoryMsg(role: Role, content: string)

  /** `FighterHistories` */
  datatype Histories = Histories(grok: seq<HistoryMsg>, gemini: seq<HistoryMsg>, llama: seq<HistoryMsg>)

  /** The fighters the filter keeps for `self`: the others that answered. */
  function Listed(snapshot: RoundSnapshot, self: Fighter): (keep: set<Fighter>)
    ensures forall f :: f in keep <==> f != self && Responded(snapshot, f)
  {
    set f | f in {Grok, Gemini, Llama} && f != self && Responded(snapshot, f)
  }

  function KeepIf(f: Fighter, keep: set<Fighter>): seq<Fighter> {
    if f in keep then [f] else []
  }

  /** `Object.keys(fighters).filter(f => f !== self && snapshot[f].trim().length > 0)`,
      over the three keys in order: exactly the other fighters that
      answered, in grok, gemini, llama order. */
  function Responders(snapshot: RoundSnapshot, self: Fighter): (r: seq<Fighter>)
    ensures forall f :: f in r <==> f != self && Responded(snapshot, f)
    ensures forall i, j | 0 <= i < j < |r| :: Rank(r[i]) < Rank(r[j])
  {
    var keep := Listed(snapshot, self);
    KeptInOrder(keep);
    KeptMembers(keep);
    KeepIf(Grok, keep) + KeepIf(Gemini, keep) + KeepIf(Llama, keep)
  }

  lemma KeptInOrder(keep: set<Fighter>)
    ensures var r := KeepIf(Grok, keep) + KeepIf(Gemini, keep) + KeepIf(Llama, keep);
      forall i, j | 0 <= i < j < |r| :: Rank(r[i]) < Rank(r[j])
  {
    var r := KeepIf(Grok, keep) + KeepIf(Gemini, keep) + KeepIf(Llama, keep);
    if Grok in keep {
      if Gemini in keep {
        if Llama in keep { assert r == [Grok, Gemini, Llama]; } else { assert r == [Grok, Gemini]; }
      } else {
        if Llama in keep { assert r == [Grok, Llama]; } else { assert r == [Grok]; }
      }
    } else {
      if Gemini in keep {
        if Llama in keep { assert r == [Gemini, Llama]; } else { assert r == [Gemini]; }
      } else {
        if Llama in keep { assert r == [Llama]; } else { assert r == []; }
      }
    }
  }

  lemma KeptMembers(keep: set<Fighter>)
    ensures var r := KeepIf(Grok, keep) + KeepIf(Gemini, keep) + KeepIf(Llama, keep);
      forall f :: f in r <==> f in keep
  {
    var r := KeepIf(Grok, keep) + KeepIf(Gemini, keep) + KeepIf(Llama, keep);
    forall f ensures f in r <==> f in keep {
      match f
      case Grok => assert f in KeepIf(Grok, keep) <==> f in keep;
      case Gemini => assert f in KeepIf(Gemini, keep) <==> f in keep;
      case Llama => assert f in KeepIf(Llama, keep) <==> f in keep;
    }
  }

  /** `${fighters[f].name} said: "${snapshot[f].trim()}"` */
  function Line(snapshot: RoundSnapshot, f: Fighter): string {
    Name(f) + " said: \"" + Trim(Answer(snapshot, f)) + "\""
  }

  function Lines(snapshot: RoundSnapshot, self: Fighter): (lines: seq<string>)
    ensures |lines| == |Responders(snapshot, self)|
    ensures forall i | 0 <= i < |lines| :: lines[i] == Line(snapshot, Responders(snapshot, self)[i])
  {
    var fs := Responders(snapshot, self);
    seq(|fs|, i requires 0 <= i < |fs| => Line(snapshot, fs[i]))
  }

  const NoResponse := "The others have not responded yet."

  /** `others(self)` */
  function Others(snapshot: RoundSnapshot, self: Fighter): string {
    var lines := Lines(snapshot, self);
    if |lines| > 0 then Join(lines, "\n\n") else NoResponse
  }

  const FireBackHead := "The other AIs responded:\n\n"
  const FireBackTail := "\n\nFire back. Prove you're better. Stay in character. Keep it punchy."

  /** `fireBack(self)` */
  function FireBackHistory(question: string, snapshot: RoundSnapshot, self: Fighter): (h: seq<HistoryMsg>)
    ensures |h| >= 1 && h[0] == HistoryMsg(User, question)
    ensures !Responded(snapshot, self) <==> |h| == 1
    ensures Responded(snapshot, self) ==>
      && |h| == 3
      && h[1] == HistoryMsg(Assistant, Trim(Answer(snapshot, self)))
      && h[2] == HistoryMsg(User, FireBackHead + Others(snapshot, self) + FireBackTail)
      && Contains(h[2].content, Others(snapshot, self))
  {
    var myPrev := Trim(Answer(snapshot, self));
    if |myPrev| == 0 then [HistoryMsg(User, question)]
    else
      var prompt := FireBackHead + Others(snapshot, self) + FireBackTail;
      ContainsInfix(FireBackHead, Others(snapshot, self), FireBackTail);
      [HistoryMsg(User, question), HistoryMsg(Assistant, myPrev), HistoryMsg(User, prompt)]
  }

  /** `nextHistories(question, snapshot)` */
  function NextHistories(question: string, snapshot: RoundSnapshot): Histories {
    Histories(FireBackHistory(question, snapshot, Grok),
              FireBackHistory(question, snapshot, Gemini),
              FireBackHistory(question, snapshot, Llama))
  }

  function HistoryOf(h: Histories, f: Fighter): seq<HistoryMsg> {
    match f
    case Grok => h.grok
    case Gemini => h.gemini
    case Llama => h.llama
  }

  /** The listing shown to `self`: never `self`, exactly the others that
      answered, in grok, gemini, llama order; each line quotes its trimmed
      answer; with no one to list, the fixed notice. */
  lemma OthersListing(snapshot: RoundSnapshot, self: Fighter)
    ensures var fs := Responders(snapshot, self);
      && self !in fs
      && (forall f | f != self && Responded(snapshot, f) :: f in fs)
      && (forall i, j | 0 <= i < j < |fs| :: Rank(fs[i]) < Rank(fs[j]))
      && (|fs| == 0 <==> Others(snapshot, self) == NoResponse)
      && (forall f | f in fs :: Contains(Others(snapshot, self), Line(snapshot, f)))
  {
    var fs := Responders(snapshot, self);
    var lines := Lines(snapshot, self);
    forall f | f in fs ensures Contains(Others(snapshot, self), Line(snapshot, f)) {
      var i :| 0 <= i < |fs| && fs[i] == f;
      JoinContains(lines, "\n\n", i);
    }
    if |fs| > 0 {
      JoinStart(lines, "\n\n");
      assert Others(snapshot, self)[0] == Name(fs[0])[0];
    }
  }

  /** A join of several lines starts with the first line. */
  lemma JoinStart(lines: seq<string>, sep: string)
    requires |lines| > 0
    ensures lines[0] <= Join(lines, sep)
  {
  }

  /** Every fighter gets a history that opens with the question; a fighter
      that answered also gets its own answer back and the fire-back prompt. */
  lemma EveryFighterAsked(question: string, snapshot: RoundSnapshot, f: Fighter)
    ensures var h := HistoryOf(NextHistories(question, snapshot), f);
      && h == FireBackHistory(question, snapshot, f)
      && |h| >= 1 && h[0] == HistoryMsg(User, question)
  {
  }
}
