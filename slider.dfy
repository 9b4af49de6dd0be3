/** The testimonial slider of js/script.js: the current slide index, which
    moves modulo the number of slides under the previous and next buttons,
    direct jumps from the dots and horizontal swipes, and the row of dots of
    which exactly the current one is active. */
module Slider {
  import opened Js
  import opened OneHot

  /** The distance in pixels a touch has to travel to count as a swipe. */
  const SwipeThreshold: int := 50

  /** The index the next button moves to: `(i + 1) % n`. */
  function NextIndex(i: int, n: int): int
    requires n > 0
  {
    JsRem(i + 1, n)
  }

  /** The index the previous button moves to: `(i - 1 + n) % n`. */
  function PrevIndex(i: int, n: int): int
    requires n > 0
  {
    JsRem(i - 1 + n, n)
  }

  /** From a valid index, next steps forward by one and wraps from the last
      slide to the first, and previous steps back by one and wraps from the
      first slide to the last; both stay within `[0, n)`. */
  lemma StepsWrap(i: int, n: int)
    requires 0 <= i < n
    ensures NextIndex(i, n) == if i == n - 1 then 0 else i + 1
    ensures PrevIndex(i, n) == if i == 0 then n - 1 else i - 1
    ensures 0 <= NextIndex(i, n) < n && 0 <= PrevIndex(i, n) < n
  {
    JsRemOnce(i + 1, n);
    JsRemOnce(i - 1 + n, n);
  }

  /** Previous undoes next and next undoes previous. */
  lemma PrevUndoesNext(i: int, n: int)
    requires 0 <= i < n
    ensures PrevIndex(NextIndex(i, n), n) == i
    ensures NextIndex(PrevIndex(i, n), n) == i
  {
    StepsWrap(i, n);
    StepsWrap(NextIndex(i, n), n);
    StepsWrap(PrevIndex(i, n), n);
  }

  /** `handleSwipe`: a touch that moved left by more than the threshold
      advances one slide, one that moved right by more than the threshold
      goes back one slide, and a shorter one leaves the index alone. */
  function Swiped(i: int, n: int, startX: int, endX: int): (r: int)
    requires 0 <= i < n
    ensures 0 <= r < n
    ensures startX - endX > SwipeThreshold ==> r == NextIndex(i, n)
    ensures endX - startX > SwipeThreshold ==> r == PrevIndex(i, n)
    ensures -SwipeThreshold <= startX - endX <= SwipeThreshold ==> r == i
  {
    StepsWrap(i, n);
    if startX - endX > SwipeThreshold then NextIndex(i, n)
    else if endX - startX > SwipeThreshold then PrevIndex(i, n)
    else i
  }

  class Slider {
    /** The number of testimonial cards. */
    const total: nat
    /** The active flag of each dot. */
    const dots: array<bool>
    var current: int
    var touchStartX: int
    var touchEndX: int

    /** The index is a valid slide and exactly its dot is active. */
    ghost predicate Valid()
      reads this, dots
    {
      dots.Length == total && 0 <= current < total && dots[..] == OnlyAt(total, current)
    }

    /** The set-up loop: one dot per card, the first one active, the first
        slide current. The slider is only set up when there is at least one
        card. */
    constructor (n: nat)
      requires n > 0
      ensures total == n && current == 0 && touchStartX == 0 && touchEndX == 0
      ensures fresh(dots) && Valid()
    {
      total := n;
      current := 0;
      touchStartX, touchEndX := 0, 0;
      var marks := new bool[n];
      var i := 0;
      while i < n
        invariant 0 <= i <= n
        invariant forall k :: 0 <= k < i ==> marks[k] == (k == 0)
      {
        marks[i] := i == 0;
        i := i + 1;
      }
      dots := marks;
      new;
      assert dots[..] == OnlyAt(total, current);
    }

    /** `updateSlider`: each dot is toggled to active exactly when its index
        is the current slide. */
    method UpdateSlider()
      requires dots.Length == total && 0 <= current < total
      modifies dots
      ensures dots[..] == OnlyAt(total, current)
    {
      var i := 0;
      while i < dots.Length
        invariant 0 <= i <= dots.Length
        invariant forall k :: 0 <= k < i ==> dots[k] == (k == current)
      {
        dots[i] := i == current;
        i := i + 1;
      }
    }

    /** A dot's click handler: jump to that dot's slide. */
    method GoToSlide(index: int)
      requires Valid() && 0 <= index < total
      modifies this`current, dots
      ensures Valid() && current == index
    {
      current := index;
      UpdateSlider();
    }

    /** The previous button. */
    method Prev()
      requires Valid()
      modifies this`current, dots
      ensures Valid() && current == PrevIndex(old(current), total)
    {
      StepsWrap(current, total);
      current := (current - 1 + total) % total;
      JsRemNonNegative(old(current) - 1 + total, total);
      UpdateSlider();
    }

    /** The next button. */
    method Next()
      requires Valid()
      modifies this`current, dots
      ensures Valid() && current == NextIndex(old(current), total)
    {
      StepsWrap(current, total);
      current := (current + 1) % total;
      JsRemNonNegative(old(current) + 1, total);
      UpdateSlider();
    }

    /** The `touchstart` handler records where the touch began. */
    method TouchStart(x: int)
      modifies this`touchStartX
      ensures touchStartX == x
    {
      touchStartX := x;
    }

    /** The `touchend` handler records where the touch ended and then runs
        `handleSwipe`, whose two tests are checked one after the other. */
    method TouchEnd(x: int)
      requires Valid()
      modifies this`touchEndX, this`current, dots
      ensures touchEndX == x
      ensures Valid() && current == Swiped(old(current), total, touchStartX, x)
    {
      touchEndX := x;
      StepsWrap(current, total);
      if touchStartX - touchEndX > SwipeThreshold {
        current := (current + 1) % total;
        JsRemNonNegative(old(current) + 1, total);
        UpdateSlider();
      }
      if touchEndX - touchStartX > SwipeThreshold {
        current := (current - 1 + total) % total;
        JsRemNonNegative(old(current) - 1 + total, total);
        UpdateSlider();
      }
    }
  }
}
