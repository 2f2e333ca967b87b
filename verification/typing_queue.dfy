/** hooks/useTypingQueue.ts: agents' answers are revealed one at a time,
    character by character. Each answer waits for a start delay, then one
    more character shows on every tick; when the whole text is shown the
    bubble goes away, the completion callback runs and the next answer
    starts. Timers are modelled by the single timeout that is pending at any
    time (`Timer`), and the passing of time by firing it. */
module TypingQueue {

  /** `QueueItem` */
  datatype QueueItem = QueueItem(id: string, fullText: string)

  /** `TypingMessage`: a bubble on screen. */
  datatype TypingMessage = TypingMessage(id: string, displayText: string, isTyping: bool)

  /** The timeout that is scheduled: none, the thinking pause before `item`
      starts, or the tick that will show `index` characters of `item`. */
  datatype Timer = NoTimer | StartDelay(item: QueueItem) | NextChar(item: QueueItem, index: nat)

  /** The hook's state: the pending queue, the processing flag, the pending
      timeout, the bubbles on screen and the log of completion callbacks. */
  datatype Snapshot = Snapshot(queue: seq<QueueItem>, isProcessing: bool, timer: Timer,
                               typing: seq<TypingMessage>, completed: seq<QueueItem>)

  const Initial := Snapshot([], false, NoTimer, [], [])

  /** `prev.filter((m) => m.id !== id)` */
  function Without(msgs: seq<TypingMessage>, id: string): (r: seq<TypingMessage>)
    ensures |r| <= |msgs|
    ensures forall i | 0 <= i < |r| :: r[i].id != id
    ensures forall i | 0 <= i < |msgs| :: msgs[i].id != id ==> msgs[i] in r
    ensures forall m :: m in r <==> m in msgs && m.id != id
  {
    if msgs == [] then []
    else if msgs[0].id == id then Without(msgs[1..], id)
    else [msgs[0]] + Without(msgs[1..], id)
  }

  /** The filter keeps every other bubble as often as it occurs. */
  lemma {:induction false} WithoutCounts(msgs: seq<TypingMessage>, id: string, m: TypingMessage)
    ensures multiset(Without(msgs, id))[m] == if m.id == id then 0 else multiset(msgs)[m]
  {
    if msgs != [] {
      WithoutCounts(msgs[1..], id, m);
      assert msgs == [msgs[0]] + msgs[1..];
      if msgs[0].id != id {
        assert Without(msgs, id) == [msgs[0]] + Without(msgs[1..], id);
      }
    }
  }

  /** `idx` picks the elements of `r` out of `msgs`, in increasing order. */
  ghost predicate Embeds(idx: seq<nat>, r: seq<TypingMessage>, msgs: seq<TypingMessage>) {
    && |idx| == |r|
    && (forall k | 0 <= k < |idx| :: idx[k] < |msgs| && r[k] == msgs[idx[k]])
    && (forall k, l | 0 <= k < l < |idx| :: idx[k] < idx[l])
  }

  /** `r` is `msgs` with some elements left out, the rest in their order. */
  ghost predicate SubsequenceOf(r: seq<TypingMessage>, msgs: seq<TypingMessage>) {
    exists idx :: Embeds(idx, r, msgs)
  }

  /** The filter keeps the remaining bubbles in their order. */
  lemma {:induction false} WithoutKeepsOrder(msgs: seq<TypingMessage>, id: string)
    ensures SubsequenceOf(Without(msgs, id), msgs)
  {
    if msgs == [] {
      assert Embeds([], [], msgs);
    } else {
      var rest := Without(msgs[1..], id);
      WithoutKeepsOrder(msgs[1..], id);
      var idx' :| Embeds(idx', rest, msgs[1..]);
      assert msgs == [msgs[0]] + msgs[1..];
      if msgs[0].id == id {
        EmbedSkip(idx', rest, msgs[0], msgs[1..]);
      } else {
        EmbedKeep(idx', rest, msgs[0], msgs[1..]);
      }
    }
  }

  function Later(idx: seq<nat>): (r: seq<nat>)
    ensures |r| == |idx| && forall k | 0 <= k < |idx| :: r[k] == idx[k] + 1
  {
    seq(|idx|, k requires 0 <= k < |idx| => idx[k] + 1)
  }

  lemma EmbedSkip(idx: seq<nat>, r: seq<TypingMessage>, x: TypingMessage, msgs: seq<TypingMessage>)
    requires Embeds(idx, r, msgs)
    ensures Embeds(Later(idx), r, [x] + msgs)
  {
  }

  lemma EmbedKeep(idx: seq<nat>, r: seq<TypingMessage>, x: TypingMessage, msgs: seq<TypingMessage>)
    requires Embeds(idx, r, msgs)
    ensures Embeds([0] + Later(idx), [x] + r, [x] + msgs)
  {
    var idx2 := [0] + Later(idx);
    forall k | 0 <= k < |idx2| ensures idx2[k] < |msgs| + 1 && ([x] + r)[k] == ([x] + msgs)[idx2[k]] {
      if k > 0 { assert idx2[k] == idx[k - 1] + 1; }
    }
  }

  /** `prev.map((m) => m.id === id ? { ...m, displayText: text } : m)` */
  function WithText(msgs: seq<TypingMessage>, id: string, text: string): (r: seq<TypingMessage>)
    ensures |r| == |msgs|
    ensures forall i | 0 <= i < |r| ::
      r[i] == if msgs[i].id == id then msgs[i].(displayText := text) else msgs[i]
  {
    seq(|msgs|, i requires 0 <= i < |msgs| =>
      if msgs[i].id == id then msgs[i].(displayText := text) else msgs[i])
  }

  /** `processNext()`: shift the next item and schedule its thinking pause,
      or, with nothing left, stop processing. */
  function Shift(s: Snapshot): Snapshot {
    if s.queue == [] then s.(isProcessing := false, timer := NoTimer)
    else s.(queue := s.queue[1..], timer := StartDelay(s.queue[0]))
  }

  /** `tick(index)`: past the end, report the item, drop its bubble and move
      on; otherwise show its first `index` characters and schedule the next
      tick. */
  function TickStep(s: Snapshot, item: QueueItem, index: nat): Snapshot {
    if index > |item.fullText| then
      Shift(s.(completed := s.completed + [item], typing := Without(s.typing, item.id)))
    else
      s.(typing := WithText(s.typing, item.id, item.fullText[..index]), timer := NextChar(item, index + 1))
  }

  /** The pending timeout fires (nothing happens when there is none). */
  function Fire(s: Snapshot): Snapshot {
    match s.timer
    case NoTimer => s
    case StartDelay(item) =>
      TickStep(s.(timer := NoTimer, typing := s.typing + [TypingMessage(item.id, "", true)]), item, 1)
    case NextChar(item, index) =>
      TickStep(s.(timer := NoTimer), item, index)
  }

  /** `enqueue(items)` */
  function EnqueueStep(s: Snapshot, items: seq<QueueItem>): Snapshot {
    var s' := s.(queue := s.queue + items);
    if s.isProcessing then s' else Shift(s'.(isProcessing := true))
  }

  /** The answer being revealed, if any. */
  function Active(s: Snapshot): seq<QueueItem> {
    match s.timer
    case NoTimer => []
    case StartDelay(item) => [item]
    case NextChar(item, _) => [item]
  }

  /** Every item ever enqueued, in order: the ones reported, the active one,
      the waiting ones. */
  function Pending(s: Snapshot): seq<QueueItem> {
    s.completed + Active(s) + s.queue
  }

  /** The reachable states: processing exactly while a timeout is pending,
      an empty queue when idle, and at most one bubble, shown only between
      ticks of the active item, holding exactly the characters revealed so
      far. */
  ghost predicate Inv(s: Snapshot) {
    && (s.isProcessing <==> !s.timer.NoTimer?)
    && (!s.isProcessing ==> s.queue == [])
    && (s.timer.NextChar? ==>
          && 2 <= s.timer.index <= |s.timer.item.fullText| + 1
          && s.typing == [TypingMessage(s.timer.item.id, s.timer.item.fullText[..s.timer.index - 1], true)])
    && (!s.timer.NextChar? ==> s.typing == [])
  }

  /** Firings an item needs: the pause (which also shows the first
      character) and one per further character plus the final one. */
  function ItemWork(item: QueueItem): nat {
    |item.fullText| + 1
  }

  function QueueWork(q: seq<QueueItem>): nat {
    if q == [] then 0 else ItemWork(q[0]) + QueueWork(q[1..])
  }

  function TimerWork(t: Timer): nat {
    match t
    case NoTimer => 0
    case StartDelay(item) => ItemWork(item)
    case NextChar(item, index) => if index <= |item.fullText| + 2 then |item.fullText| + 2 - index else 0
  }

  /** How many more firings the queue takes to drain. */
  function Work(s: Snapshot): nat {
    TimerWork(s.timer) + QueueWork(s.queue)
  }

  lemma {:induction false} QueueWorkAppend(a: seq<QueueItem>, b: seq<QueueItem>)
    ensures QueueWork(a + b) == QueueWork(a) + QueueWork(b)
  {
    if a == [] {
      assert a + b == b;
    } else {
      assert (a + b)[0] == a[0];
      assert (a + b)[1..] == a[1..] + b;
      QueueWorkAppend(a[1..], b);
    }
  }

  lemma InitialInv()
    ensures Inv(Initial) && Pending(Initial) == [] && Work(Initial) == 0
  {
  }

  /** Firing keeps the invariant. */
  lemma FireInv(s: Snapshot)
    requires Inv(s)
    ensures Inv(Fire(s))
  {
    match s.timer
    case NoTimer =>
    case StartDelay(item) =>
      if |item.fullText| > 0 {
        assert Fire(s).typing == [TypingMessage(item.id, item.fullText[..1], true)];
      }
    case NextChar(item, index) =>
      if index <= |item.fullText| {
        assert Fire(s).typing == [TypingMessage(item.id, item.fullText[..index], true)];
      }
  }

  /** Enqueueing keeps the invariant. */
  lemma EnqueueInv(s: Snapshot, items: seq<QueueItem>)
    requires Inv(s)
    ensures Inv(EnqueueStep(s, items))
  {
  }

  /** Each firing while processing is one step of progress; firing while
      idle changes nothing. */
  lemma FireProgress(s: Snapshot)
    requires Inv(s)
    ensures s.isProcessing ==> Work(Fire(s)) == Work(s) - 1
    ensures !s.isProcessing ==> Fire(s) == s
  {
    match s.timer
    case NoTimer =>
    case StartDelay(item) =>
      if |item.fullText| == 0 {
        ShiftWork(s.(timer := NoTimer, completed := s.completed + [item], typing := []));
      }
    case NextChar(item, index) =>
      if index > |item.fullText| {
        ShiftWork(s.(timer := NoTimer, completed := s.completed + [item], typing := []));
      }
  }

  lemma ShiftWork(s: Snapshot)
    requires s.timer.NoTimer?
    ensures Work(Shift(s)) == QueueWork(s.queue)
  {
  }

  /** Enqueueing adds exactly the new items' work. */
  lemma EnqueueWork(s: Snapshot, items: seq<QueueItem>)
    requires Inv(s)
    ensures Work(EnqueueStep(s, items)) == Work(s) + QueueWork(items)
  {
    QueueWorkAppend(s.queue, items);
    if !s.isProcessing {
      assert s.queue + items == items;
    }
  }

  /** Firing never loses, duplicates or reorders an item: it only moves the
      active one to the completed log and the next waiting one into the
      active place. Completions are only ever appended. */
  lemma FirePending(s: Snapshot)
    requires Inv(s)
    ensures Pending(Fire(s)) == Pending(s)
    ensures s.completed <= Fire(s).completed
  {
    match s.timer
    case NoTimer =>
    case StartDelay(item) =>
      if |item.fullText| == 0 {
        ShiftPending(s.(timer := NoTimer, completed := s.completed + [item], typing := []));
      }
    case NextChar(item, index) =>
      if index > |item.fullText| {
        ShiftPending(s.(timer := NoTimer, completed := s.completed + [item], typing := []));
      }
  }

  lemma ShiftPending(s: Snapshot)
    requires s.timer.NoTimer?
    ensures Pending(Shift(s)) == Pending(s)
    ensures Shift(s).completed == s.completed
  {
    if s.queue != [] {
      assert [s.queue[0]] + s.queue[1..] == s.queue;
    }
  }

  /** Enqueueing appends exactly the new items, in their order. */
  lemma EnqueuePending(s: Snapshot, items: seq<QueueItem>)
    requires Inv(s)
    ensures Pending(EnqueueStep(s, items)) == Pending(s) + items
    ensures EnqueueStep(s, items).completed == s.completed
  {
    if !s.isProcessing {
      ShiftPending(s.(queue := s.queue + items, isProcessing := true));
    }
  }

  /** Enqueueing while an answer is being revealed leaves the reveal as it
      is; enqueueing while idle starts the pause of the first new item. */
  lemma EnqueueStarts(s: Snapshot, items: seq<QueueItem>)
    requires Inv(s)
    ensures s.isProcessing ==>
              EnqueueStep(s, items).timer == s.timer && EnqueueStep(s, items).typing == s.typing
    ensures !s.isProcessing && items != [] ==>
              && EnqueueStep(s, items).timer == StartDelay(items[0])
              && EnqueueStep(s, items).queue == items[1..]
              && EnqueueStep(s, items).isProcessing
  {
    if !s.isProcessing && items != [] {
      assert s.queue + items == items;
    }
  }

  /** One character per tick: a tick that does not finish the item shows
      exactly one more character of it. */
  lemma OneCharPerTick(s: Snapshot)
    requires Inv(s) && s.timer.NextChar? && s.timer.index <= |s.timer.item.fullText|
    ensures |Fire(s).typing| == 1 && |s.typing| == 1
    ensures Fire(s).typing[0].displayText
            == s.typing[0].displayText + [s.timer.item.fullText[s.timer.index - 1]]
  {
    var t := s.timer.item.fullText;
    var i := s.timer.index;
    assert t[..i] == t[..i - 1] + [t[i - 1]];
  }

  /** What is on screen: at most one bubble, still typing, showing a prefix
      of the answer being revealed. */
  lemma OneBubble(s: Snapshot)
    requires Inv(s)
    ensures |s.typing| <= 1
    ensures forall m | m in s.typing ::
      (m.isTyping && |Active(s)| == 1 && m.id == Active(s)[0].id && m.displayText <= Active(s)[0].fullText)
  {
  }

  /** The firing past an item's last character reports it once, removes
      its bubble and pulls the next item; an empty answer gets there on the
      firing that ends its pause, with no character shown. */
  lemma Completion(s: Snapshot)
    requires Inv(s)
    requires || (s.timer.NextChar? && s.timer.index == |s.timer.item.fullText| + 1)
             || (s.timer.StartDelay? && s.timer.item.fullText == "")
    ensures Fire(s).completed == s.completed + Active(s)
    ensures Fire(s).typing == []
    ensures s.queue == [] ==> Fire(s).timer == NoTimer && !Fire(s).isProcessing
    ensures s.queue != [] ==> Fire(s).timer == StartDelay(s.queue[0]) && Fire(s).queue == s.queue[1..]
  {
    var item := Active(s)[0];
    if s.timer.StartDelay? {
      assert Without([TypingMessage(item.id, "", true)], item.id) == [];
    } else {
      assert Without(s.typing, item.id) == [];
    }
  }

  /** `n` firings of the pending timeout in a row. */
  ghost function FireN(s: Snapshot, n: nat): Snapshot
    decreases n
  {
    if n == 0 then s else FireN(Fire(s), n - 1)
  }

  /** Draining: after exactly `Work(s)` firings the hook is idle with no
      bubble, and the completion callback has reported every item ever
      enqueued, each once, in enqueue order. */
  lemma {:induction false} Drain(s: Snapshot)
    requires Inv(s)
    decreases Work(s)
    ensures var d := FireN(s, Work(s));
      !d.isProcessing && d.typing == [] && d.queue == [] && d.completed == Pending(s)
  {
    if s.isProcessing {
      FireProgress(s);
      FireInv(s);
      FirePending(s);
      Drain(Fire(s));
    } else {
      assert Work(s) == 0;
    }
  }

  /** The hook instance: `queue` and `isProcessing` are its refs,
      `typingMessages` its state, `timer` the timeout it has scheduled and
      `completed` the calls it has made to `onMessageComplete`. */
  class TypingQueue {
    var queue: seq<QueueItem>
    var isProcessing: bool
    var timer: Timer
    var typingMessages: seq<TypingMessage>
    var completed: seq<QueueItem>

    function State(): Snapshot
      reads this
    {
      Snapshot(queue, isProcessing, timer, typingMessages, completed)
    }

    ghost predicate Valid()
      reads this
    {
      Inv(State())
    }

    constructor ()
      ensures State() == Initial && Valid()
    {
      queue := [];
      isProcessing := false;
      timer := NoTimer;
      typingMessages := [];
      completed := [];
    }

    /** `processNext` */
    method ProcessNext()
      modifies this
      ensures State() == Shift(old(State()))
    {
      if queue == [] {
        isProcessing := false;
        timer := NoTimer;
        return;
      }
      var item := queue[0];
      queue := queue[1..];
      timer := StartDelay(item);
    }

    /** `tick(index)` */
    method Tick(item: QueueItem, index: nat)
      modifies this
      ensures State() == TickStep(old(State()), item, index)
    {
      if index > |item.fullText| {
        completed := completed + [item];
        typingMessages := Without(typingMessages, item.id);
        ProcessNext();
        return;
      }
      typingMessages := WithText(typingMessages, item.id, item.fullText[..index]);
      timer := NextChar(item, index + 1);
    }

    /** The scheduled timeout's callback runs. */
    method FireTimer()
      requires Valid()
      modifies this
      ensures State() == Fire(old(State()))
      ensures Valid()
    {
      FireInv(State());
      match timer {
        case NoTimer =>
        case StartDelay(item) =>
          timer := NoTimer;
          typingMessages := typingMessages + [TypingMessage(item.id, "", true)];
          Tick(item, 1);
        case NextChar(item, index) =>
          timer := NoTimer;
          Tick(item, index);
      }
    }

    /** `enqueue(items)` */
    method Enqueue(items: seq<QueueItem>)
      requires Valid()
      modifies this
      ensures State() == EnqueueStep(old(State()), items)
      ensures Valid()
    {
      EnqueueInv(State(), items);
      queue := queue + items;
      if !isProcessing {
        isProcessing := true;
        ProcessNext();
      }
    }
  }
}
