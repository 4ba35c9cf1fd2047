/** The carousel's drag gesture: dragStart, drag and dragEnd over the
    globals `isDragging` and `startPos`. A pointer or touch event is reduced
    to its horizontal coordinate. The gesture navigates while the pointer
    moves, and unlike the buttons it stops at the first and last counter. */
module Gesture {
  import opened Counters
  import opened Navigation

  /** The distance the pointer must travel, strictly exceeded, before a
      drag navigates. */
  const Threshold: int := 50

  function Abs(x: int): nat {
    if x < 0 then -x else x
  }

  /** dragStart: starts tracking at `x`, unless there is one counter or none. */
  function DragStarted(s: State, x: int): (r: State)
    ensures r.counters == s.counters && r.current == s.current
    ensures |s.counters| <= 1 ==> r == s
    ensures |s.counters| > 1 ==> r.dragging && r.startPos == x
  {
    if |s.counters| <= 1 then s else s.(dragging := true, startPos := x)
  }

  /** drag: while tracking, once the pointer is more than `Threshold` away
      from where it started, moves one step toward the previous counter
      (pointer moved right) or the next one (pointer moved left) and stops
      tracking; at the first or last counter it neither moves nor stops. */
  function Dragged(s: State, x: int): (r: State)
    ensures r.counters == s.counters && r.startPos == s.startPos
    ensures !s.dragging || Abs(x - s.startPos) <= Threshold ==> r == s
    ensures InRange(s.counters, s.current) ==>
              && InRange(r.counters, r.current)
              && Abs(r.current - s.current) <= 1
              && r.dragging == (s.dragging && r.current == s.current)
              && (r.current < s.current ==> x - s.startPos > Threshold)
              && (r.current > s.current ==> x - s.startPos < -Threshold)
    ensures InRange(s.counters, s.current) && s.dragging && x - s.startPos > Threshold ==>
              (r.current < s.current <==> s.current > 0)
    ensures InRange(s.counters, s.current) && s.dragging && x - s.startPos < -Threshold ==>
              (r.current > s.current <==> s.current < |s.counters| - 1)
  {
    if !s.dragging then s
    else
      var diff := x - s.startPos;
      if Abs(diff) > Threshold then
        if diff > 0 && s.current > 0 then Shown(s, s.current - 1).(dragging := false)
        else if diff < 0 && s.current < |s.counters| - 1 then Shown(s, s.current + 1).(dragging := false)
        else s
      else s
  }

  /** dragEnd: stops tracking. */
  function DragEnded(s: State): (r: State)
    ensures !r.dragging
    ensures r.counters == s.counters && r.current == s.current && r.startPos == s.startPos
  {
    if !s.dragging then s else s.(dragging := false)
  }

  /** A run of move events at the given coordinates. */
  function Moves(s: State, xs: seq<int>): State
    decreases |xs|
  {
    if xs == [] then s else Moves(Dragged(s, xs[0]), xs[1..])
  }

  /** Move events do nothing while nothing is being tracked. */
  lemma {:induction false} MovesInertWhenIdle(s: State, xs: seq<int>)
    requires !s.dragging
    ensures Moves(s, xs) == s
    decreases |xs|
  {
    if xs != [] {
      MovesInertWhenIdle(Dragged(s, xs[0]), xs[1..]);
    }
  }

  /** However far and however often the pointer moves, one gesture moves the
      cursor by at most one counter, and tracking has ended if it moved. */
  lemma {:induction false} GestureMovesAtMostOneStep(s: State, xs: seq<int>)
    requires InRange(s.counters, s.current)
    ensures InRange(Moves(s, xs).counters, Moves(s, xs).current)
    ensures Abs(Moves(s, xs).current - s.current) <= 1
    ensures Moves(s, xs).current != s.current ==> !Moves(s, xs).dragging
    decreases |xs|
  {
    if xs != [] {
      var t := Dragged(s, xs[0]);
      if t.current == s.current {
        assert t == s;
        GestureMovesAtMostOneStep(t, xs[1..]);
      } else {
        MovesInertWhenIdle(t, xs[1..]);
      }
    }
  }

  /** At the first counter a rightward drag stays put and keeps tracking,
      where the previous button wraps round to the last counter; at the last
      counter a leftward drag stays put, where the next button wraps to the
      first. */
  lemma DragClampsWhereButtonsWrap(s: State, x: int)
    requires Valid(s) && |s.counters| > 1 && s.dragging
    ensures s.current == 0 && x - s.startPos > Threshold ==>
              Dragged(s, x) == s && ShownPrevious(s).current == |s.counters| - 1
    ensures s.current == |s.counters| - 1 && x - s.startPos < -Threshold ==>
              Dragged(s, x) == s && ShownNext(s).current == 0
  {
  }
}
