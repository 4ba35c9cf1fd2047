/** The page's mutable state and the handlers that change it, as a class:
    the globals `counters`, `currentCounterIndex`, `isDragging` and
    `startPos` are its fields, and local storage is a ghost copy of the list
    with a count of the writes made to it. Each handler is specified by the
    corresponding transition of the Session model. */
module App {
  import opened Text
  import opened Counters
  import opened Navigation
  import opened Store
  import opened Gesture
  import opened Session

  class CounterApp {
    var counters: seq<Counter>
    var currentCounterIndex: int
    var isDragging: bool
    var startPos: int

    /** The list as local storage holds it under the key 'counters'. */
    ghost var stored: seq<Counter>
    /** How many times saveCounters has written it. */
    ghost var writes: nat

    function Snapshot(): State
      reads this
    {
      State(counters, currentCounterIndex, isDragging, startPos)
    }

    ghost predicate Valid()
      reads this
    {
      Counters.Valid(Snapshot())
    }

    /** Storage holds exactly the list in memory. */
    ghost predicate Synced()
      reads this
    {
      stored == counters
    }

    /** loadCounters at start-up: `saved` is the parsed stored list, or None
        when the key is absent or holds the empty string (the two cases the
        truthiness test sends to the default counter); `freshId` is the id
        generateId would return. */
    constructor (saved: Option<seq<Counter>>, freshId: string)
      ensures Snapshot() == Loaded(saved, freshId)
      ensures Synced()
      ensures writes == (if saved.None? then 1 else 0)
      ensures saved.None? ==> Valid()
    {
      counters := if saved.Some? then saved.value else [];
      currentCounterIndex, isDragging, startPos := 0, false, 0;
      stored := counters;
      writes := 0;
      new;
      if saved.None? {
        counters := [NewCounter(freshId)];
        SaveCounters();
      }
    }

    /** saveCounters: writes the whole list to storage. */
    method SaveCounters()
      modifies this
      ensures Snapshot() == old(Snapshot())
      ensures Synced() && writes == old(writes) + 1
    {
      stored := counters;
      writes := writes + 1;
    }

    /** createNewCounter, with `freshId` standing for generateId's result. */
    method CreateNewCounter(freshId: string)
      modifies this
      ensures Snapshot() == Step(old(Snapshot()), Apply(Create(freshId)))
      ensures Synced() && writes == old(writes) + 1
      ensures old(Valid()) ==> Valid()
    {
      counters := counters + [NewCounter(freshId)];
      SaveCounters();
      ShowCounter(|counters| - 1);
    }

    /** saveCounterTitle, with `input` the text of the counter's title field. */
    method SaveCounterTitle(index: int, input: string) returns (outcome: Outcome)
      modifies this
      ensures outcome == EditOutcome(old(Snapshot()), SaveTitle(index, input))
      ensures Snapshot() == Step(old(Snapshot()), Apply(SaveTitle(index, input)))
      ensures outcome == Saved ==> Synced() && writes == old(writes) + 1
      ensures outcome != Saved ==> stored == old(stored) && writes == old(writes)
      ensures old(Synced()) ==> Synced()
      ensures old(Valid()) ==> Valid()
    {
      ghost var s0 := Snapshot();
      if index < 0 || index >= |counters| {
        return TypeError;
      }
      TitleSavedCases(s0, index, input);
      var newTitle := Trim(input);
      if newTitle != [] {
        counters := counters[index := counters[index].(title := newTitle)];
        SaveCounters();
        ShowCounter(currentCounterIndex);
        assert Snapshot() == s0.(counters := s0.counters[index := s0.counters[index].(title := newTitle)]);
        outcome := Saved;
      } else {
        outcome := Ignored;
      }
    }

    /** changeCounterValue. */
    method ChangeCounterValue(index: int, change: int) returns (outcome: Outcome)
      modifies this
      ensures outcome == EditOutcome(old(Snapshot()), ChangeValue(index, change))
      ensures Snapshot() == Step(old(Snapshot()), Apply(ChangeValue(index, change)))
      ensures outcome == Saved ==> Synced() && writes == old(writes) + 1
      ensures outcome != Saved ==> stored == old(stored) && writes == old(writes)
      ensures old(Synced()) ==> Synced()
      ensures old(Valid()) ==> Valid()
    {
      if index < 0 || index >= |counters| {
        return TypeError;
      }
      var newValue := counters[index].value + change;
      if newValue >= 0 {
        counters := counters[index := counters[index].(value := newValue)];
        SaveCounters();
        outcome := Saved;
      } else {
        outcome := Ignored;
      }
    }

    /** resetCounterValue. */
    method ResetCounterValue(index: int) returns (outcome: Outcome)
      modifies this
      ensures outcome == EditOutcome(old(Snapshot()), ResetValue(index))
      ensures Snapshot() == Step(old(Snapshot()), Apply(ResetValue(index)))
      ensures outcome == Saved ==> Synced() && writes == old(writes) + 1
      ensures outcome != Saved ==> stored == old(stored) && writes == old(writes)
      ensures old(Synced()) ==> Synced()
      ensures old(Valid()) ==> Valid()
    {
      if index < 0 || index >= |counters| {
        return TypeError;
      }
      if counters[index].value != 0 {
        counters := counters[index := counters[index].(value := 0)];
        SaveCounters();
        outcome := Saved;
      } else {
        outcome := Ignored;
      }
    }

    /** changeCounterStyle. */
    method ChangeCounterStyle(index: int, style: string) returns (outcome: Outcome)
      modifies this
      ensures outcome == EditOutcome(old(Snapshot()), ChangeStyle(index, style))
      ensures Snapshot() == Step(old(Snapshot()), Apply(ChangeStyle(index, style)))
      ensures outcome == Saved ==> Synced() && writes == old(writes) + 1
      ensures outcome != Saved ==> stored == old(stored) && writes == old(writes)
      ensures old(Synced()) ==> Synced()
      ensures old(Valid()) ==> Valid()
    {
      if index < 0 || index >= |counters| {
        return TypeError;
      }
      counters := counters[index := counters[index].(style := style)];
      SaveCounters();
      ShowCounter(currentCounterIndex);
      outcome := Saved;
    }

    /** deleteCounter, with `confirmed` the user's answer to the dialog. */
    method DeleteCounter(index: int, confirmed: bool) returns (outcome: Outcome)
      modifies this
      ensures outcome == EditOutcome(old(Snapshot()), Delete(index, confirmed))
      ensures Snapshot() == Step(old(Snapshot()), Apply(Delete(index, confirmed)))
      ensures outcome == Saved ==> Synced() && writes == old(writes) + 1
      ensures outcome != Saved ==> stored == old(stored) && writes == old(writes)
      ensures old(Synced()) ==> Synced()
      ensures old(Valid()) ==> Valid()
    {
      if |counters| <= 1 {
        return Refused;
      }
      if index < 0 || index >= |counters| {
        return TypeError;
      }
      if !confirmed {
        return Ignored;
      }
      counters := counters[..index] + counters[index + 1..];
      if currentCounterIndex >= index {
        currentCounterIndex := if currentCounterIndex - 1 > 0 then currentCounterIndex - 1 else 0;
      }
      SaveCounters();
      ShowCounter(currentCounterIndex);
      outcome := Saved;
    }

    /** A click on the × button of list row `index`: the button's own
        handler deleteCounter(index), then the row's handler
        showCounter(index), which the click reaches as it bubbles up. */
    method DeleteButtonClicked(index: int, confirmed: bool) returns (outcome: Outcome)
      modifies this
      ensures outcome == EditOutcome(old(Snapshot()), Delete(index, confirmed))
      ensures Snapshot() == Step(old(Snapshot()), DeleteClick(index, confirmed))
      ensures outcome == Saved ==> Synced() && writes == old(writes) + 1
      ensures outcome != Saved ==> stored == old(stored) && writes == old(writes)
      ensures old(Synced()) ==> Synced()
      ensures old(Valid()) ==> Valid()
    {
      outcome := DeleteCounter(index, confirmed);
      ShowCounter(index);
    }

    /** showCounter. */
    method ShowCounter(index: int)
      modifies this
      ensures Snapshot() == Step(old(Snapshot()), Show(index))
      ensures stored == old(stored) && writes == old(writes)
      ensures old(Synced()) ==> Synced()
    {
      if index < 0 || index >= |counters| {
        return;
      }
      currentCounterIndex := index;
    }

    /** showPreviousCounter. */
    method ShowPreviousCounter()
      modifies this
      ensures Snapshot() == Step(old(Snapshot()), Previous)
      ensures stored == old(stored) && writes == old(writes)
      ensures old(Synced()) ==> Synced()
      ensures old(Valid()) ==> Valid()
    {
      if |counters| <= 1 {
        return;
      }
      var newIndex := JsRem(currentCounterIndex - 1 + |counters|, |counters|);
      ShowCounter(newIndex);
    }

    /** showNextCounter. */
    method ShowNextCounter()
      modifies this
      ensures Snapshot() == Step(old(Snapshot()), Next)
      ensures stored == old(stored) && writes == old(writes)
      ensures old(Synced()) ==> Synced()
      ensures old(Valid()) ==> Valid()
    {
      if |counters| <= 1 {
        return;
      }
      var newIndex := JsRem(currentCounterIndex + 1, |counters|);
      ShowCounter(newIndex);
    }

    /** dragStart, at horizontal coordinate `x`. */
    method DragStart(x: int)
      modifies this
      ensures Snapshot() == Step(old(Snapshot()), Grab(x))
      ensures stored == old(stored) && writes == old(writes)
      ensures old(Synced()) ==> Synced()
    {
      if |counters| <= 1 {
        return;
      }
      startPos := x;
      isDragging := true;
    }

    /** drag, at horizontal coordinate `x`. */
    method Drag(x: int)
      modifies this
      ensures Snapshot() == Step(old(Snapshot()), Move(x))
      ensures stored == old(stored) && writes == old(writes)
      ensures old(Synced()) ==> Synced()
      ensures old(Valid()) ==> Valid()
    {
      if !isDragging {
        return;
      }
      var diff := x - startPos;
      if Abs(diff) > Threshold {
        if diff > 0 && currentCounterIndex > 0 {
          ShowCounter(currentCounterIndex - 1);
          isDragging := false;
        } else if diff < 0 && currentCounterIndex < |counters| - 1 {
          ShowCounter(currentCounterIndex + 1);
          isDragging := false;
        }
      }
    }

    /** dragEnd. */
    method DragEnd()
      modifies this
      ensures Snapshot() == Step(old(Snapshot()), Release)
      ensures stored == old(stored) && writes == old(writes)
      ensures old(Synced()) ==> Synced()
    {
      if !isDragging {
        return;
      }
      isDragging := false;
    }
  }
}
