/** The counter store's editing operations: createNewCounter,
    saveCounterTitle, changeCounterValue, resetCounterValue,
    changeCounterStyle and deleteCounter, each a function from the state
    before to the state after, and the outcome that says whether the
    operation wrote the store to storage. */
module Store {
  import opened Text
  import opened Counters
  import opened Navigation

  /** One call of an editing operation, with the inputs the page supplies:
      the fresh id of a new counter, the text of the title field, and the
      user's answer to the confirmation dialog of a deletion. */
  datatype Edit =
    | Create(id: string)
    | SaveTitle(index: int, input: string)
    | ChangeValue(index: int, change: int)
    | ResetValue(index: int)
    | ChangeStyle(index: int, style: string)
    | Delete(index: int, confirmed: bool)

  /** `cs'` has as many counters as `cs`, and all but the one at `index`
      are the same. */
  predicate OthersUnchanged(cs: seq<Counter>, cs': seq<Counter>, index: int) {
    |cs'| == |cs| && forall j :: 0 <= j < |cs| && j != index ==> cs'[j] == cs[j]
  }

  /** createNewCounter: appends one counter with the default title, value and
      style, keeps the earlier ones, and shows the new last counter. */
  function Created(s: State, id: string): (r: State)
    ensures |r.counters| == |s.counters| + 1 && r.counters[..|s.counters|] == s.counters
    ensures r.counters[|s.counters|] == Counter(id, "Novo Contador", 0, "1")
    ensures r.current == |s.counters|
    ensures r.dragging == s.dragging && r.startPos == s.startPos
  {
    var t := s.(counters := s.counters + [NewCounter(id)]);
    Shown(t, |t.counters| - 1)
  }

  /** saveCounterTitle: stores the trimmed input as the title of counter
      `index` unless the input is all white space. */
  function TitleSaved(s: State, index: int, input: string): (r: State)
    ensures r.current == s.current && r.dragging == s.dragging && r.startPos == s.startPos
    ensures OthersUnchanged(s.counters, r.counters, index)
    ensures !InRange(s.counters, index) || AllWhitespace(input) ==> r == s
    ensures InRange(s.counters, index) && !AllWhitespace(input) ==>
              && r.counters[index] == s.counters[index].(title := Trim(input))
              && r.counters[index].title != []
  {
    if !InRange(s.counters, index) then s
    else
      var newTitle := Trim(input);
      if newTitle == [] then s
      else Shown(s.(counters := s.counters[index := s.counters[index].(title := newTitle)]), s.current)
  }

  /** changeCounterValue: adds `change` to the value of counter `index` when
      the sum is not negative, and otherwise changes nothing. */
  function ValueChanged(s: State, index: int, change: int): (r: State)
    ensures r.current == s.current && r.dragging == s.dragging && r.startPos == s.startPos
    ensures OthersUnchanged(s.counters, r.counters, index)
    ensures !InRange(s.counters, index) || s.counters[index].value + change < 0 ==> r == s
    ensures InRange(s.counters, index) && s.counters[index].value + change >= 0 ==>
              r.counters[index] == s.counters[index].(value := s.counters[index].value + change)
    ensures NonNegative(s.counters) ==> NonNegative(r.counters)
  {
    if !InRange(s.counters, index) then s
    else
      var newValue := s.counters[index].value + change;
      if newValue >= 0 then s.(counters := s.counters[index := s.counters[index].(value := newValue)])
      else s
  }

  /** resetCounterValue: sets the value of counter `index` to zero. */
  function ValueReset(s: State, index: int): (r: State)
    ensures r.current == s.current && r.dragging == s.dragging && r.startPos == s.startPos
    ensures OthersUnchanged(s.counters, r.counters, index)
    ensures InRange(s.counters, index) ==> r.counters[index] == s.counters[index].(value := 0)
    ensures !InRange(s.counters, index) ==> r == s
  {
    if !InRange(s.counters, index) then s
    else if s.counters[index].value != 0 then s.(counters := s.counters[index := s.counters[index].(value := 0)])
    else s
  }

  /** changeCounterStyle: replaces the style of counter `index`. The style
      is not checked against the five the selector offers. */
  function StyleChanged(s: State, index: int, style: string): (r: State)
    ensures r.current == s.current && r.dragging == s.dragging && r.startPos == s.startPos
    ensures OthersUnchanged(s.counters, r.counters, index)
    ensures InRange(s.counters, index) ==> r.counters[index] == s.counters[index].(style := style)
    ensures !InRange(s.counters, index) ==> r == s
  {
    if !InRange(s.counters, index) then s
    else Shown(s.(counters := s.counters[index := s.counters[index].(style := style)]), s.current)
  }

  /** `Math.max(0, current - 1)` when the cursor is at or after the removed
      index, else the cursor as it was. */
  function CursorAfterDelete(current: int, index: int): (r: int)
    ensures current < index ==> r == current
    ensures current - 1 <= r
    ensures 0 <= current ==> 0 <= r <= current
    ensures 0 <= index ==> (r == current <==> current < index || current == 0)
  {
    if current >= index then (if current - 1 > 0 then current - 1 else 0) else current
  }

  /** deleteCounter: unless it is the only one, and if the user confirms,
      removes counter `index` and keeps the others in order; the cursor
      steps back when it was at or after the removed counter. */
  function Deleted(s: State, index: int, confirmed: bool): (r: State)
    ensures r.dragging == s.dragging && r.startPos == s.startPos
    ensures |s.counters| <= 1 || !InRange(s.counters, index) || !confirmed ==> r == s
    ensures |s.counters| > 1 && InRange(s.counters, index) && confirmed ==>
              && |r.counters| == |s.counters| - 1
              && (forall j :: 0 <= j < index ==> r.counters[j] == s.counters[j])
              && (forall j :: index <= j < |r.counters| ==> r.counters[j] == s.counters[j + 1])
              && r.current == CursorAfterDelete(s.current, index)
    ensures InRange(s.counters, s.current) ==> InRange(r.counters, r.current)
  {
    if |s.counters| <= 1 || !InRange(s.counters, index) || !confirmed then s
    else
      var t := s.(counters := s.counters[..index] + s.counters[index + 1..],
                  current := CursorAfterDelete(s.current, index));
      Shown(t, t.current)
  }

  /** What the edit does: whether it writes the store, or which guard of the
      source declines it. */
  function EditOutcome(s: State, e: Edit): (r: Outcome)
    ensures e.Create? ==> r == Saved
    ensures r == Refused <==> e.Delete? && |s.counters| <= 1
    ensures r == TypeError <==>
              !e.Create? && !InRange(s.counters, e.index) && !(e.Delete? && |s.counters| <= 1)
    ensures r == Ignored ==> e.SaveTitle? || e.ChangeValue? || e.ResetValue? || e.Delete?
    ensures r == Saved && e.Delete? ==> e.confirmed
  {
    match e
    case Create(_) => Saved
    case SaveTitle(index, input) =>
      if !InRange(s.counters, index) then TypeError
      else if Trim(input) == [] then Ignored
      else Saved
    case ChangeValue(index, change) =>
      if !InRange(s.counters, index) then TypeError
      else if s.counters[index].value + change >= 0 then Saved
      else Ignored
    case ResetValue(index) =>
      if !InRange(s.counters, index) then TypeError
      else if s.counters[index].value != 0 then Saved
      else Ignored
    case ChangeStyle(index, _) =>
      if !InRange(s.counters, index) then TypeError else Saved
    case Delete(index, confirmed) =>
      if |s.counters| <= 1 then Refused
      else if !InRange(s.counters, index) then TypeError
      else if confirmed then Saved
      else Ignored
  }

  /** The state after an edit. An edit that does not save changes nothing,
      no edit touches the drag state, and every edit keeps the invariant. */
  function Edited(s: State, e: Edit): (r: State)
    ensures EditOutcome(s, e) != Saved ==> r == s
    ensures r.dragging == s.dragging && r.startPos == s.startPos
    ensures Valid(s) ==> Valid(r)
  {
    match e
    case Create(id) => Created(s, id)
    case SaveTitle(index, input) => TitleSaved(s, index, input)
    case ChangeValue(index, change) => ValueChanged(s, index, change)
    case ResetValue(index) => ValueReset(s, index)
    case ChangeStyle(index, style) => StyleChanged(s, index, style)
    case Delete(index, confirmed) => Deleted(s, index, confirmed)
  }

  /** saveCounterTitle on a counter that exists, case by case: a title of
      white space is ignored, any other is trimmed and stored. */
  lemma TitleSavedCases(s: State, index: int, input: string)
    requires InRange(s.counters, index)
    ensures Trim(input) == [] ==>
              EditOutcome(s, SaveTitle(index, input)) == Ignored && Edited(s, SaveTitle(index, input)) == s
    ensures Trim(input) != [] ==>
              && EditOutcome(s, SaveTitle(index, input)) == Saved
              && Edited(s, SaveTitle(index, input))
                   == s.(counters := s.counters[index := s.counters[index].(title := Trim(input))])
  {
  }

  /** A second reset changes nothing and saves nothing. */
  lemma ResetIdempotent(s: State, index: int)
    ensures ValueReset(ValueReset(s, index), index) == ValueReset(s, index)
    ensures EditOutcome(ValueReset(s, index), ResetValue(index)) != Saved
  {
  }

  /** A confirmed deletion removes exactly the counter at `index`. */
  lemma DeleteRemovesOne(s: State, index: int)
    requires |s.counters| > 1 && InRange(s.counters, index)
    ensures Deleted(s, index, true).counters == s.counters[..index] + s.counters[index + 1..]
    ensures multiset(Deleted(s, index, true).counters) + multiset{s.counters[index]}
              == multiset(s.counters)
  {
    var cs := s.counters;
    var r := Deleted(s, index, true).counters;
    assert r == cs[..index] + cs[index + 1..];
    assert cs == cs[..index] + [cs[index]] + cs[index + 1..];
  }

  /** When the counter on screen is not the one deleted, the same counter
      stays on screen; when it is, its predecessor (or the new first
      counter) is shown. */
  lemma DeleteKeepsShownCounter(s: State, index: int)
    requires Valid(s) && |s.counters| > 1 && InRange(s.counters, index)
    ensures s.current != index ==>
              Deleted(s, index, true).counters[Deleted(s, index, true).current] == s.counters[s.current]
    ensures s.current == index ==>
              Deleted(s, index, true).current == (if index == 0 then 0 else index - 1)
  {
  }

  /** Edits keep ids distinct, given that a created counter's id is fresh. */
  lemma EditKeepsIdsUnique(s: State, e: Edit)
    requires UniqueIds(s.counters)
    requires e.Create? ==> forall c :: c in s.counters ==> c.id != e.id
    ensures UniqueIds(Edited(s, e).counters)
  {
  }
}
