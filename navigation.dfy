/** The carousel's button navigation: showCounter, showPreviousCounter,
    showNextCounter and updateCarouselControls. The buttons wrap around. */
module Navigation {
  import opened Counters

  /** JavaScript's `%` on integers, which truncates: the remainder has the
      sign of the dividend (Dafny's own `%` never returns a negative). */
  function JsRem(a: int, b: int): (r: int)
    requires b > 0
    ensures a >= 0 ==> r == a % b && 0 <= r < b
    ensures a < 0 ==> r == a - b * (-((-a) / b)) && -b < r <= 0
  {
    if a >= 0 then a % b
    else
      assert -a == b * ((-a) / b) + (-a) % b;
      -((-a) % b)
  }

  /** The index before `current`, wrapping from the first to the last. */
  function PreviousIndex(current: int, n: int): (r: int)
    requires n > 0
    ensures 0 <= current < n ==> r == (if current == 0 then n - 1 else current - 1)
  {
    JsRem(current - 1 + n, n)
  }

  /** The index after `current`, wrapping from the last to the first. */
  function NextIndex(current: int, n: int): (r: int)
    requires n > 0
    ensures 0 <= current < n ==> r == (if current == n - 1 then 0 else current + 1)
  {
    JsRem(current + 1, n)
  }

  /** showCounter: moves the cursor to `index`, or ignores an index that
      names no counter. */
  function Shown(s: State, index: int): (r: State)
    ensures r.counters == s.counters && r.dragging == s.dragging && r.startPos == s.startPos
    ensures InRange(s.counters, index) ==> r.current == index
    ensures !InRange(s.counters, index) ==> r == s
  {
    if index < 0 || index >= |s.counters| then s else s.(current := index)
  }

  /** showPreviousCounter: a no-op with one counter or none, otherwise one
      step back, from the first counter round to the last. */
  function ShownPrevious(s: State): (r: State)
    ensures r.counters == s.counters && r.dragging == s.dragging && r.startPos == s.startPos
    ensures |s.counters| <= 1 ==> r == s
    ensures |s.counters| > 1 && InRange(s.counters, s.current) ==>
              r.current == (if s.current == 0 then |s.counters| - 1 else s.current - 1)
  {
    if |s.counters| <= 1 then s
    else Shown(s, PreviousIndex(s.current, |s.counters|))
  }

  /** showNextCounter: a no-op with one counter or none, otherwise one step
      forward, from the last counter round to the first. */
  function ShownNext(s: State): (r: State)
    ensures r.counters == s.counters && r.dragging == s.dragging && r.startPos == s.startPos
    ensures |s.counters| <= 1 ==> r == s
    ensures |s.counters| > 1 && InRange(s.counters, s.current) ==>
              r.current == (if s.current == |s.counters| - 1 then 0 else s.current + 1)
  {
    if |s.counters| <= 1 then s
    else Shown(s, NextIndex(s.current, |s.counters|))
  }

  /** updateCarouselControls: whether the previous and next buttons are
      disabled, which is when there is no second counter to go to. */
  function ControlsDisabled(s: State): (r: bool)
    ensures r <==> !InRange(s.counters, 1)
  {
    |s.counters| <= 1
  }

  /** Both buttons keep the cursor a valid index. */
  lemma NavigationKeepsCursor(s: State)
    requires InRange(s.counters, s.current)
    ensures InRange(ShownPrevious(s).counters, ShownPrevious(s).current)
    ensures InRange(ShownNext(s).counters, ShownNext(s).current)
  {
  }

  /** Next then previous, or previous then next, returns to where it began. */
  lemma NextPreviousInverse(s: State)
    requires InRange(s.counters, s.current)
    ensures ShownPrevious(ShownNext(s)) == s
    ensures ShownNext(ShownPrevious(s)) == s
  {
  }

  /** The buttons are disabled exactly when pressing them would do nothing. */
  lemma ControlsDisabledIffInert(s: State)
    requires InRange(s.counters, s.current)
    ensures ControlsDisabled(s) <==> ShownNext(s) == s
    ensures ControlsDisabled(s) <==> ShownPrevious(s) == s
  {
  }
}
