/** A page session: loading the store, then any sequence of user
    operations, each followed (for edits that save) by a write of the whole
    list to storage. */
module Session {
  import opened Counters
  import opened Navigation
  import opened Store
  import opened Gesture

  /** Any user operation: an edit, a jump to a counter (an indicator or a
      list row clicked), a click on the × button of a list row, the
      previous and next buttons, and the three drag events. */
  datatype Op =
    | Apply(edit: Edit)
    | Show(index: int)
    | DeleteClick(index: int, confirmed: bool)
    | Previous
    | Next
    | Grab(x: int)
    | Move(x: int)
    | Release

  /** The state after one operation; every operation keeps the invariant. */
  function Step(s: State, op: Op): (r: State)
    ensures Valid(s) ==> Valid(r)
  {
    match op
    case Apply(e) => Edited(s, e)
    case Show(index) => Shown(s, index)
    case DeleteClick(index, confirmed) => Shown(Edited(s, Delete(index, confirmed)), index)
    case Previous => ShownPrevious(s)
    case Next => ShownNext(s)
    case Grab(x) => DragStarted(s, x)
    case Move(x) => Dragged(s, x)
    case Release => DragEnded(s)
  }

  /** Whether the operation calls saveCounters: only an edit, or a × click,
      whose edit saves. */
  predicate Writes(s: State, op: Op): (w: bool)
    ensures w ==> op.Apply? || op.DeleteClick?
    ensures w && op.Apply? && !op.edit.Create? ==> InRange(s.counters, op.edit.index)
    ensures w && op.DeleteClick? ==> |s.counters| > 1 && InRange(s.counters, op.index) && op.confirmed
  {
    || (op.Apply? && EditOutcome(s, op.edit) == Saved)
    || (op.DeleteClick? && EditOutcome(s, Delete(op.index, op.confirmed)) == Saved)
  }

  /** loadCounters: the parsed stored list, or, when the key is absent or
      holds the empty string (`saved` is None), exactly one default counter,
      which is then written to storage. */
  function Loaded(saved: Option<seq<Counter>>, id: string): (s: State)
    ensures saved.None? ==> s.counters == [Counter(id, "Novo Contador", 0, "1")] && Valid(s)
    ensures saved.Some? ==> s.counters == saved.value
    ensures s.current == 0 && !s.dragging && s.startPos == 0
  {
    var counters := if saved.Some? then saved.value else [NewCounter(id)];
    State(counters, 0, false, 0)
  }

  /** A stored empty list loads as an empty store: the invariant holds only
      when storage was absent or held counters. */
  lemma LoadedEmptyListIsNotValid(id: string)
    ensures !Valid(Loaded(Some([]), id))
  {
  }

  /** The state after a sequence of operations. */
  function Run(s: State, ops: seq<Op>): State
    decreases |ops|
  {
    if ops == [] then s else Run(Step(s, ops[0]), ops[1..])
  }

  /** What storage holds after a sequence of operations, given what it held
      before. */
  function StoredAfter(s: State, ops: seq<Op>, stored: seq<Counter>): seq<Counter>
    decreases |ops|
  {
    if ops == [] then stored
    else
      var stored' := if Writes(s, ops[0]) then Step(s, ops[0]).counters else stored;
      StoredAfter(Step(s, ops[0]), ops[1..], stored')
  }

  /** An operation that does not write leaves the counters as they were. */
  lemma NoWriteNoChange(s: State, op: Op)
    ensures !Writes(s, op) ==> Step(s, op).counters == s.counters
  {
  }

  /** No sequence of operations breaks the invariant: the list is never
      emptied, the cursor stays a valid index, and no value goes negative. */
  lemma {:induction false} RunPreservesValid(s: State, ops: seq<Op>)
    requires Valid(s)
    ensures Valid(Run(s, ops))
    decreases |ops|
  {
    if ops != [] {
      RunPreservesValid(Step(s, ops[0]), ops[1..]);
    }
  }

  /** If storage held the list, it holds the list after any sequence of
      operations: every change to the counters is written at once. */
  lemma {:induction false} RunKeepsStorageInSync(s: State, ops: seq<Op>, stored: seq<Counter>)
    requires stored == s.counters
    ensures StoredAfter(s, ops, stored) == Run(s, ops).counters
    decreases |ops|
  {
    if ops != [] {
      NoWriteNoChange(s, ops[0]);
      var stored' := if Writes(s, ops[0]) then Step(s, ops[0]).counters else stored;
      RunKeepsStorageInSync(Step(s, ops[0]), ops[1..], stored');
    }
  }

  /** Loading what storage holds after any session gives back the same list. */
  lemma ReloadRestoresCounters(saved: Option<seq<Counter>>, id: string, ops: seq<Op>, id': string)
    ensures var s := Loaded(saved, id);
            Loaded(Some(StoredAfter(s, ops, s.counters)), id').counters == Run(s, ops).counters
  {
    var s := Loaded(saved, id);
    RunKeepsStorageInSync(s, ops, s.counters);
  }

  /** A counter at 0 taken up three times and down five times ends at 0:
      the last two decrements are declined, not applied. */
  lemma ClampedAtZeroScenario(a: Counter)
    requires a.value == 0
    ensures var up, down := Apply(ChangeValue(0, 1)), Apply(ChangeValue(0, -1));
            var s3 := Step(Step(Step(State([a], 0, false, 0), up), up), up);
            var s6 := Step(Step(Step(s3, down), down), down);
            var s7 := Step(s6, down);
            var s8 := Step(s7, down);
            && s3.counters[0].value == 3
            && s6.counters[0].value == 0
            && !Writes(s6, down) && s7 == s6
            && !Writes(s7, down) && s8 == s6
            && s8.counters[0].value == 0
  {
  }

  /** A click on the × button of list row `index` runs deleteCounter(index)
      and then, as the click bubbles up to the row, showCounter(index) with
      the same index. After a removal the cursor lands on `index`, which
      now names the counter that followed the removed one, unless the
      removed one was last; without a removal the cursor still moves to
      `index`. */
  lemma DeleteClickLandsOnIndex(s: State, index: int, confirmed: bool)
    requires Valid(s)
    ensures var r := Step(s, DeleteClick(index, confirmed));
            Writes(s, DeleteClick(index, confirmed)) ==>
              && r.counters == s.counters[..index] + s.counters[index + 1..]
              && r.current == (if index < |s.counters| - 1 then index else CursorAfterDelete(s.current, index))
              && (index < |s.counters| - 1 ==> r.counters[r.current] == s.counters[index + 1])
    ensures var r := Step(s, DeleteClick(index, confirmed));
            !Writes(s, DeleteClick(index, confirmed)) ==>
              && r.counters == s.counters
              && (InRange(s.counters, index) ==> r.current == index)
              && (!InRange(s.counters, index) ==> r == s)
  {
    if Writes(s, DeleteClick(index, confirmed)) {
      DeleteRemovesOne(s, index);
    }
  }

  /** With three counters and the third on screen, deleting the first keeps
      the third on screen as far as deleteCounter goes, but the × click
      ends on the second; a declined dialog on the third row's × still
      moves the cursor there. */
  lemma DeleteClickScenario(a: Counter, b: Counter, c: Counter)
    ensures var s := State([a, b, c], 2, false, 0);
            Step(s, Apply(Delete(0, true))).counters[Step(s, Apply(Delete(0, true))).current] == c
    ensures var s := State([a, b, c], 2, false, 0);
            Step(s, DeleteClick(0, true)).counters[Step(s, DeleteClick(0, true)).current] == b
    ensures Step(State([a, b, c], 0, false, 0), DeleteClick(2, false)).current == 2
  {
  }

  /** Deleting the first of two counters, with the cursor on it, leaves the
      second one on screen. */
  lemma DeleteFirstOfTwoScenario(a: Counter, b: Counter)
    ensures Step(State([a, b], 0, false, 0), Apply(Delete(0, true))).counters == [b]
    ensures Step(State([a, b], 0, false, 0), Apply(Delete(0, true))).current == 0
  {
  }

  /** A title of blanks is not saved. */
  lemma BlankTitleScenario(s: State)
    requires InRange(s.counters, 0)
    ensures Step(s, Apply(SaveTitle(0, "   "))) == s
  {
  }

  /** A drag from 100 to 40 on three counters, from the first, shows the
      second; a drag of 20 units shows the same counter. */
  lemma GestureScenario(cs: seq<Counter>)
    requires |cs| == 3
    ensures Run(State(cs, 0, false, 0), [Grab(100), Move(40)]).current == 1
    ensures Run(State(cs, 0, false, 0), [Grab(100), Move(120), Release]).current == 0
  {
  }

  /** The previous button at the first counter wraps to the last. */
  lemma PreviousAtFirstWrapsScenario(cs: seq<Counter>)
    requires |cs| == 3
    ensures Step(State(cs, 0, false, 0), Previous).current == 2
  {
  }
}
