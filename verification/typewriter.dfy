/** components/Typewriter.tsx: the component's `displayedText` and
    `currentIndex` state, advanced by one character each time its pending
    timeout fires. A run of the effect is a call of `Step`. */
module TypewriterComponent {

  class Typewriter {
    const text: string
    var displayedText: string
    var currentIndex: nat

    /** What the effect keeps true: the shown text is the first
        `currentIndex` characters of the text. */
    ghost predicate Valid()
      reads this
    {
      currentIndex <= |text| && displayedText == text[..currentIndex]
    }

    /** Both state hooks start empty. */
    constructor(text: string)
      ensures this.text == text && displayedText == "" && currentIndex == 0
      ensures Valid()
    {
      this.text := text;
      displayedText := "";
      currentIndex := 0;
    }

    /** One run of the effect. While characters remain, the timeout
        appends the next one and moves the index on; once the index has
        reached the end, `onComplete` is called (`completed`) and nothing
        changes. */
    method Step() returns (completed: bool)
      requires Valid()
      modifies this
      ensures Valid()
      ensures completed <==> old(currentIndex) >= |text|
      ensures completed ==> displayedText == old(displayedText) && currentIndex == old(currentIndex)
      ensures !completed ==>
                && currentIndex == old(currentIndex) + 1
                && displayedText == old(displayedText) + [text[old(currentIndex)]]
    {
      if currentIndex < |text| {
        displayedText := displayedText + [text[currentIndex]];
        currentIndex := currentIndex + 1;
        return false;
      }
      return true;
    }

    /** Effect runs until `onComplete`: exactly one tick per remaining
        character, then the whole text is shown; an empty text completes
        on the first run, without a tick. */
    method Play() returns (ticks: nat)
      requires Valid()
      modifies this
      ensures Valid()
      ensures ticks == |text| - old(currentIndex)
      ensures displayedText == text && currentIndex == |text|
    {
      ticks := 0;
      var completed := false;
      while !completed
        invariant Valid()
        invariant ticks == currentIndex - old(currentIndex)
        invariant completed ==> currentIndex == |text|
        decreases |text| - currentIndex, if completed then 0 else 1
      {
        completed := Step();
        if !completed {
          ticks := ticks + 1;
        }
      }
    }
  }
}
