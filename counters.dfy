/** The data model of the counter widget: the Counter record, the
    application state held in the page's globals, and its invariant. */
module Counters {

  datatype Option<T> = None | Some(value: T)

  /** One counter (script.js:19-26). In the page these are plain objects
      reachable only through the `counters` array, so a value is enough. */
  datatype Counter = Counter(id: string, title: string, value: int, style: string)

  const DefaultTitle: string := "Novo Contador"
  const DefaultStyle: string := "1"

  /** `new Counter(id)` with the constructor's default title, value and style. */
  function NewCounter(id: string): (c: Counter)
    ensures c.id == id && c.value == 0
    ensures c.title == DefaultTitle && c.style == DefaultStyle
  {
    Counter(id, DefaultTitle, 0, DefaultStyle)
  }

  /** The page's globals that carry state: `counters`,
      `currentCounterIndex`, `isDragging` and `startPos` (script.js:10-13). */
  datatype State = State(counters: seq<Counter>, current: int, dragging: bool, startPos: int)

  /** What an editing operation did. */
  datatype Outcome =
    | Saved      // the store was changed and written to storage
    | Ignored    // a guard of the operation declined it; nothing changed
    | Refused    // deleting the only counter: an alert is shown instead
    | TypeError  // the index names no counter: the handler throws before changing anything

  predicate InRange(cs: seq<Counter>, index: int) {
    0 <= index < |cs|
  }

  predicate NonNegative(cs: seq<Counter>) {
    forall i :: 0 <= i < |cs| ==> cs[i].value >= 0
  }

  predicate UniqueIds(cs: seq<Counter>) {
    forall i, j :: 0 <= i < j < |cs| ==> cs[i].id != cs[j].id
  }

  /** The invariant the widget keeps once it holds a counter: the list is
      never empty, the cursor names one of its counters, and no value is
      negative. */
  predicate Valid(s: State) {
    && s.counters != []
    && InRange(s.counters, s.current)
    && NonNegative(s.counters)
  }
}
