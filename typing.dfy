/** The typing effect of js/script.js: a state machine over
    `(wordIndex, charIndex, isDeleting)` that types the current word one
    character at a time, pauses, deletes it one character at a time, and
    moves on to the next word, forever. */
module Typing {
  import opened Js

  const Words: seq<string> := ["Websites", "Web Apps", "Landing Pages", "UI/UX"]

  /** The delays, in milliseconds, before the next step. */
  const TypeDelay: nat := 100
  const DeleteDelay: nat := 50
  const FullWordPause: nat := 2000
  const NextWordPause: nat := 500

  datatype TypingState = TypingState(wordIndex: int, charIndex: int, isDeleting: bool)

  /** What one call of `type` produces: the next state, the text it writes
      and the delay before it runs again. */
  datatype Tick = Tick(next: TypingState, text: string, delay: nat)

  /** The state the effect starts in. */
  const Start: TypingState := TypingState(0, 0, false)

  /** The states the machine can be in: a valid word, a character count
      within it, at least one character while deleting and fewer than all
      while typing. */
  predicate Inv(s: TypingState) {
    && 0 <= s.wordIndex < |Words|
    && 0 <= s.charIndex <= |Words[s.wordIndex]|
    && (s.isDeleting ==> s.charIndex >= 1)
    && (!s.isDeleting ==> s.charIndex < |Words[s.wordIndex]|)
  }

  /** One call of `type`: write one more or one fewer character of the
      current word, then pick the delay; the full word switches to deleting
      after a long pause, and the empty word switches to typing the next word
      after a short one. */
  function Step(s: TypingState): (t: Tick)
    requires 0 <= s.wordIndex < |Words|
  {
    var word := Words[s.wordIndex];
    var text := if s.isDeleting then Prefix(word, s.charIndex - 1) else Prefix(word, s.charIndex + 1);
    var charIndex := if s.isDeleting then s.charIndex - 1 else s.charIndex + 1;
    if !s.isDeleting && charIndex == |word| then
      Tick(TypingState(s.wordIndex, charIndex, true), text, FullWordPause)
    else if s.isDeleting && charIndex == 0 then
      Tick(TypingState(JsRem(s.wordIndex + 1, |Words|), charIndex, false), text, NextWordPause)
    else
      Tick(TypingState(s.wordIndex, charIndex, s.isDeleting), text, if s.isDeleting then DeleteDelay else TypeDelay)
  }

  /** The word after `w`, wrapping after the last. */
  function NextWord(w: int): int {
    if w == |Words| - 1 then 0 else w + 1
  }

  /** Every word is non-empty, so a new word can always be typed. */
  lemma WordsNonEmpty(i: int)
    requires 0 <= i < |Words|
    ensures |Words[i]| > 0
  {
  }

  /** A step keeps the invariant. */
  lemma StepKeepsInv(s: TypingState)
    requires Inv(s)
    ensures Inv(Step(s).next)
  {
    JsRemOnce(s.wordIndex + 1, |Words|);
    WordsNonEmpty(Step(s).next.wordIndex);
  }

  /** The text written is exactly the first
      `charIndex` characters of the word now current; and the delay is 2000
      when the word has just been completed, 500 when it has just been erased
      (and the word index moves on by one, wrapping after the last word), and
      otherwise 100 while typing and 50 while deleting. */
  lemma StepSpec(s: TypingState)
    requires Inv(s)
    ensures Step(s).text == Words[Step(s).next.wordIndex][..Step(s).next.charIndex]
    ensures !s.isDeleting && s.charIndex + 1 == |Words[s.wordIndex]| ==>
              Step(s).next == TypingState(s.wordIndex, s.charIndex + 1, true) && Step(s).delay == FullWordPause
    ensures s.isDeleting && s.charIndex == 1 ==>
              && Step(s).next == TypingState(NextWord(s.wordIndex), 0, false)
              && Step(s).delay == NextWordPause
    ensures !s.isDeleting && s.charIndex + 1 < |Words[s.wordIndex]| ==>
              Step(s).next == TypingState(s.wordIndex, s.charIndex + 1, false) && Step(s).delay == TypeDelay
    ensures s.isDeleting && s.charIndex > 1 ==>
              Step(s).next == TypingState(s.wordIndex, s.charIndex - 1, true) && Step(s).delay == DeleteDelay
  {
    JsRemOnce(s.wordIndex + 1, |Words|);
  }

  /** The state after `k` steps. */
  function Run(s: TypingState, k: nat): (r: TypingState)
    requires 0 <= s.wordIndex < |Words|
    ensures 0 <= r.wordIndex < |Words|
    decreases k
  {
    if k == 0 then s else Run(Step(s).next, k - 1)
  }

  /** Every state the effect ever reaches from a valid state is valid: the
      character count stays within the current word. */
  lemma {:induction false} RunKeepsInv(s: TypingState, k: nat)
    requires Inv(s)
    ensures Inv(Run(s, k))
    decreases k
  {
    if k > 0 {
      StepKeepsInv(s);
      RunKeepsInv(Step(s).next, k - 1);
    }
  }

  /** Typing from `c` characters reaches the full word, now being deleted,
      after as many steps as characters are missing; whatever follows runs
      from there. */
  lemma {:induction false} TypesToEnd(w: int, c: int, extra: nat)
    requires 0 <= w < |Words| && 0 <= c < |Words[w]|
    ensures Run(TypingState(w, c, false), |Words[w]| - c + extra) == Run(TypingState(w, |Words[w]|, true), extra)
    decreases |Words[w]| - c
  {
    var s := TypingState(w, c, false);
    StepSpec(s);
    if c + 1 < |Words[w]| {
      TypesToEnd(w, c + 1, extra);
    }
  }

  /** Deleting from `c` characters empties the word after `c` steps and
      leaves the machine typing the next word from its start; whatever
      follows runs from there. */
  lemma {:induction false} DeletesToStart(w: int, c: int, extra: nat)
    requires 0 <= w < |Words| && 1 <= c <= |Words[w]|
    ensures Run(TypingState(w, c, true), c + extra) == Run(TypingState(NextWord(w), 0, false), extra)
    decreases c
  {
    var s := TypingState(w, c, true);
    StepSpec(s);
    if c > 1 {
      DeletesToStart(w, c - 1, extra);
    }
  }

  /** A whole word takes twice its length in steps: typed out, then erased,
      after which the next word is started. */
  lemma {:induction false} WordCycle(w: int, extra: nat)
    requires 0 <= w < |Words|
    ensures Run(TypingState(w, 0, false), 2 * |Words[w]| + extra) == Run(TypingState(NextWord(w), 0, false), extra)
  {
    var len := |Words[w]|;
    WordsNonEmpty(w);
    TypesToEnd(w, 0, len + extra);
    DeletesToStart(w, len, extra);
  }

  /** The number of steps to type and erase every word once. */
  const CycleLength: nat := 2 * (|Words[0]| + |Words[1]| + |Words[2]| + |Words[3]|)

  /** After typing and erasing all four words in turn the effect is back in
      its starting state, so the words repeat forever in order. */
  lemma FullCycle()
    ensures Run(Start, CycleLength) == Start
  {
    WordCycle(0, 2 * (|Words[1]| + |Words[2]| + |Words[3]|));
    WordCycle(1, 2 * (|Words[2]| + |Words[3]|));
    WordCycle(2, 2 * |Words[3]|);
    WordCycle(3, 0);
  }

  /** The element the effect writes into, and the pending timer. */
  class Typewriter {
    var wordIndex: int
    var charIndex: int
    var isDeleting: bool
    /** The text content of the typed-text element. */
    var text: string
    /** The delay of the timer that will call `type` again. */
    var pendingDelay: nat

    function State(): TypingState
      reads this
    {
      TypingState(wordIndex, charIndex, isDeleting)
    }

    /** The effect starts on the first word with nothing typed, and `type`
        runs once straight away. */
    constructor ()
      ensures State() == Step(Start).next && text == Step(Start).text && pendingDelay == Step(Start).delay
      ensures Inv(State())
    {
      wordIndex, charIndex, isDeleting := 0, 0, false;
      text, pendingDelay := "", 0;
      new;
      Type();
    }

    /** `type`: writes the next prefix, moves the character count, and picks
        the delay and the next phase. */
    method Type()
      requires Inv(State())
      modifies this
      ensures State() == Step(old(State())).next
      ensures text == Step(old(State())).text && pendingDelay == Step(old(State())).delay
      ensures Inv(State())
    {
      StepKeepsInv(State());
      var currentWord := Words[wordIndex];
      if isDeleting {
        text := Prefix(currentWord, charIndex - 1);
        charIndex := charIndex - 1;
      } else {
        text := Prefix(currentWord, charIndex + 1);
        charIndex := charIndex + 1;
      }
      var typeSpeed := if isDeleting then DeleteDelay else TypeDelay;
      if !isDeleting && charIndex == |currentWord| {
        typeSpeed := FullWordPause;
        isDeleting := true;
      } else if isDeleting && charIndex == 0 {
        isDeleting := false;
        wordIndex := (wordIndex + 1) % |Words|;
        JsRemNonNegative(old(wordIndex) + 1, |Words|);
        typeSpeed := NextWordPause;
      }
      pendingDelay := typeSpeed;
    }
  }
}
