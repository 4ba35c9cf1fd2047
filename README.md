# Contador: a verified model of the counter store

Contador is a browser widget that keeps several named counters, each with a
value and one of five colour styles, shown one at a time in a carousel. The
user moves through the carousel with previous/next buttons that wrap around,
with indicator dots and list rows, or by dragging. Every change to the list writes
the whole list to the browser's local storage, and the list is read back from there when
the page loads.

This project models the state logic of `script.js` in Dafny:

- `Counters` (counters.dfy) is the data model. A `Counter` is a record of id,
  title, value and style. A `State` holds the page's globals that carry state:
  the list, the cursor `currentCounterIndex`, `isDragging` and `startPos`.
  `Valid` is the invariant the widget keeps: the list is not empty, the cursor
  is a valid index, and no value is negative.
- `Text` (text.dfy) models `String.prototype.trim`, with the white-space and
  line-terminator set of ECMAScript.
- `Navigation` (navigation.dfy) models `showCounter`, the wrapping previous and
  next buttons, and `updateCarouselControls`. `JsRem` models JavaScript's
  truncating `%`.
- `Store` (store.dfy) models the six editing operations as functions from
  state to state. `EditOutcome` says whether an edit saved the list, which of
  the source's guards declined it, or whether the handler threw a `TypeError`
  because the index names no counter.
- `Gesture` (gesture.dfy) models the drag state machine: `dragStart`, `drag`
  and `dragEnd`.
- `View` (view.dfy) models what the renderer derives from the state: style
  names, carousel offsets, and the rows of the summary list.
- `Session` (session.dfy) models page load, one operation (`Step`) and any
  sequence of operations (`Run`), together with what storage holds after them.
- `App` (app.dfy) is the imperative model. The class `CounterApp` has the
  globals as fields and local storage as a ghost field `stored` with a write
  count `writes`. Each handler is a method, and its `ensures` ties the new
  fields to `Step` applied to the old ones.

In several places the code does not do what one might expect of such a
widget. The model follows the code in each case:

- The previous and next buttons wrap around (`%`). They do not stop at the
  ends.
- The buttons are disabled only when there is one counter or none. They are
  never disabled at an edge.
- `changeCounterValue` adds any integer `change`, not exactly ±1. The buttons
  only ever pass ±1.
- A drag navigates inside the move handler, not on release. At the first
  counter a rightward drag, and at the last counter a leftward drag, neither
  moves nor stops tracking.
- `dragStart` does not ignore presses that start on a button or on the title
  field.
- Loading tests the stored string for truthiness. A missing key and a stored
  empty string both seed one default counter and write it. Any other stored
  value is parsed and used as it is. A stored `"[]"` loads an empty list. A
  parse error is not caught. Neither case falls back to a default counter.
- `changeCounterStyle` does not check the style against the five offered.
- An index that names no counter is not reported as an error. The handler
  throws a `TypeError` before it changes anything.
- New counters always get style `"1"`.
- The × button of a list row sits inside the row, and the row's own click
  handler runs `showCounter(index)` once `deleteCounter(index)` has returned.
  So a click on × ends with the cursor on `index`. After a removal that shows
  the counter that followed the removed one, not the counter that was on
  screen. A declined dialog still moves the cursor to that row.

## Model

| member | source | states |
|---|---|---|
| Text.TrimStart | script.js:215 | the result is a suffix of the input that does not start with white space, and what was cut off is all white space |
| Text.TrimEnd | script.js:215 | the result is a prefix of the input that does not end with white space, and what was cut off is all white space |
| Text.Trim | script.js:215 | the trimmed title is empty exactly when the input is all white space; otherwise its first and last characters are not white space |
| Text.TrimIsSlice | script.js:215 | the trimmed title is the input's characters from the end of its leading white space on, unaltered |
| Text.TrimCutsWhitespace | script.js:215 | what trimming cuts off before and after the trimmed title is all white space |
| Text.TrimIdempotent | script.js:215 | trimming a trimmed title changes nothing |
| Text.WhitespaceSplit | script.js:215 | a string is all white space exactly when both halves of any split of it are |
| Navigation.JsRem | script.js:178 | for a non-negative dividend JavaScript's `%` agrees with the mathematical remainder; for a negative one it is the dividend minus the divisor times the quotient truncated toward zero, in (-n, 0] |
| Navigation.PreviousIndex | script.js:178 | from a valid index, the previous index is one less, and from 0 it wraps to the last |
| Navigation.NextIndex | script.js:185 | from a valid index, the next index is one more, and from the last it wraps to 0 |
| Navigation.Shown | script.js:160-163 | showCounter moves the cursor to an index in range; an index out of range leaves the whole state unchanged |
| Navigation.ShownPrevious | script.js:176-180 | a no-op with one counter or none; otherwise the cursor steps back, from the first counter to the last |
| Navigation.ShownNext | script.js:183-187 | a no-op with one counter or none; otherwise the cursor steps forward, from the last counter to the first |
| Navigation.NavigationKeepsCursor | script.js:176-187 | both buttons keep the cursor a valid index |
| Navigation.NextPreviousInverse | script.js:176-187 | next followed by previous, and previous followed by next, restore the cursor |
| Navigation.ControlsDisabled | script.js:190-193 | the buttons are disabled exactly when there is no second counter |
| Navigation.ControlsDisabledIffInert | script.js:190-193 | the buttons are disabled exactly when pressing them would change nothing |
| Counters.NewCounter | script.js:19-26 | a new counter has the given id, value 0, the title "Novo Contador" and style "1" |
| Store.Created | script.js:204-210 | appends one counter with the given id, title "Novo Contador", value 0 and style "1"; the earlier counters are kept; the cursor is on the new last index |
| Store.TitleSaved | script.js:213-221 | if the input is not all white space, the trimmed input (never empty) becomes the title of counter `index`; otherwise, or when the index is out of range, nothing changes; no other counter or field changes |
| Store.ValueChanged | script.js:239-243 | the value becomes value + change when that is not negative, otherwise nothing changes; only counter `index` changes; no value becomes negative |
| Store.ValueReset | script.js:256-259 | the value of counter `index` becomes 0; nothing else changes |
| Store.StyleChanged | script.js:272-276 | the style of counter `index` is replaced; nothing else changes |
| Store.CursorAfterDelete | script.js:306-307 | a cursor before the removed index is kept; otherwise it steps back by one but not below 0; it stays unchanged exactly when it was before the removed index or at 0 |
| Store.Deleted | script.js:297-313 | with one counter or none, an out-of-range index or no confirmation, nothing changes; otherwise the counter at `index` is removed, the others keep their order, the cursor becomes max(0, current-1) when it was at or after `index`, and a valid cursor stays valid |
| Store.EditOutcome | script.js:204-313 | creation always saves; only deleting with one counter or none is refused; an edit other than creation throws a `TypeError` exactly when its index names no counter and it is not refused; a style change is never declined; a saved deletion was confirmed |
| Store.Edited | script.js:204-313 | an edit that does not save changes nothing; no edit touches the drag state; every edit keeps the invariant |
| Store.ResetIdempotent | script.js:256-259 | a second reset changes nothing and saves nothing |
| Store.DeleteRemovesOne | script.js:304 | the list after deletion is the list with exactly the element at `index` cut out, as a multiset too |
| Store.DeleteKeepsShownCounter | script.js:306-308 | within `deleteCounter` itself, deleting another counter keeps the same counter on screen, and deleting the one on screen shows its predecessor or the new first counter (a click on × also runs the row's handler: see `Session.DeleteClickLandsOnIndex`) |
| Store.EditKeepsIdsUnique | script.js:204-206 | given a fresh id for each new counter, no edit makes two counters share an id |
| Gesture.DragStarted | script.js:317-327 | tracking starts at the press coordinate, except when there is one counter or none, where nothing changes |
| Gesture.Dragged | script.js:333-352 | without tracking, or within 50 units of the start, nothing changes; otherwise the cursor moves at most one step: back when the pointer moved right and the cursor is not at the first counter, forward when it moved left and the cursor is not at the last; tracking ends exactly when the cursor moved |
| Gesture.DragEnded | script.js:354-357 | tracking always ends; nothing else changes |
| Gesture.MovesInertWhenIdle | script.js:334 | move events while nothing is tracked change nothing |
| Gesture.GestureMovesAtMostOneStep | script.js:339-350 | any sequence of move events moves the cursor by at most one counter, keeps it valid, and has ended tracking if it moved |
| Gesture.DragClampsWhereButtonsWrap | script.js:176-187 | at the first counter a rightward drag stays put and keeps tracking, while the previous button wraps to the last counter; the same holds for the last counter and the next button |
| View.StyleName | script.js:140-149 | each of styles 1 to 5 has its own name, and every other number gets the fallback name "Estilo" |
| View.StyleNamesDistinct | script.js:141-147 | the five style names are pairwise different |
| View.Offset | script.js:155 | a cell's offset is a whole number of cell widths; it is 0 exactly for the cell at the cursor and negative exactly for the cells before it |
| View.Offsets | script.js:152-156 | one offset per cell; only the cell at the cursor has offset 0, the cells before it are to the left, and neighbouring cells are 100% apart |
| View.ListRows | script.js:280-294 | one row per counter with its title and value; delete buttons appear exactly when there is more than one counter; the row of the cursor is the active one |
| View.OneActiveRow | script.js:285 | with a valid cursor, exactly one row is active |
| Session.Step | script.js:160-360 | every operation keeps the invariant |
| Session.Writes | script.js:71-73 | only an edit or a × click that saves writes storage; it then names a counter in range; a × click writes only when there is more than one counter and the dialog was confirmed |
| Session.Loaded | script.js:54-63 | with nothing stored (`None`: the key is absent or holds the empty string), the list is exactly one default counter and the invariant holds; otherwise it is the stored list; the cursor is 0 and nothing is tracked |
| Session.LoadedEmptyListIsNotValid | script.js:56-57 | a stored empty list loads as an empty store, so the invariant is not guaranteed after loading |
| Session.NoWriteNoChange | script.js:207-310 | every operation that changes the list also writes it to storage |
| Session.RunPreservesValid | script.js:204-360 | no sequence of operations empties the list, moves the cursor off the list, or makes a value negative |
| Session.RunKeepsStorageInSync | script.js:71-73 | if storage held the list before, it holds the list in memory after any sequence of operations |
| Session.ReloadRestoresCounters | script.js:54-73 | reloading from what storage holds after any session gives back the list in memory |
| Session.ClampedAtZeroScenario | script.js:239-243 | a counter at 0 raised three times reads 3; three decrements bring it to 0, and the fourth and fifth are declined without a write and leave it at 0 |
| Session.DeleteClickLandsOnIndex | script.js:288-308 | a click on the × of row `index` removes that counter and then puts the cursor on `index`, now the counter after the removed one, unless the removed one was last; without a removal the list is unchanged and the cursor still moves to `index` |
| Session.DeleteClickScenario | script.js:288-308 | with the third of three counters on screen, deleting the first keeps the third on screen within `deleteCounter`, but the × click ends on the second; a declined dialog on the third row still moves the cursor there |
| Session.DeleteFirstOfTwoScenario | script.js:304-308 | deleting the first of two counters with the cursor on it leaves the second one, with the cursor at 0 |
| Session.BlankTitleScenario | script.js:215-217 | saving a title of blanks changes nothing |
| Session.GestureScenario | script.js:317-357 | on three counters, a drag from 100 to 40 shows the second counter; a drag of 20 units leaves the cursor where it was |
| Session.PreviousAtFirstWrapsScenario | script.js:176-179 | the previous button at the first of three counters shows the third |
| App.CounterApp.constructor | script.js:54-63 | loading gives the state of `Session.Loaded`, storage in sync, and one write exactly when a default counter was seeded |
| App.CounterApp.SaveCounters | script.js:71-73 | storage holds the list in memory; one more write; the state is unchanged |
| App.CounterApp.CreateNewCounter | script.js:204-210 | the new state is `Step` of a create; storage is in sync after one write; the invariant is kept |
| App.CounterApp.SaveCounterTitle | script.js:213-221 | the new state is `Step` of a title save; the outcome is `EditOutcome`; storage is written exactly when the outcome is `Saved`; the invariant is kept; storage that was in sync stays in sync |
| App.CounterApp.ChangeCounterValue | script.js:239-243 | the new state is `Step` of a value change; the outcome is `EditOutcome`; storage is written exactly when the outcome is `Saved`; the invariant is kept; storage that was in sync stays in sync |
| App.CounterApp.ResetCounterValue | script.js:256-259 | the new state is `Step` of a reset; the outcome is `EditOutcome`; an already zero value is neither changed nor written; storage that was in sync stays in sync |
| App.CounterApp.ChangeCounterStyle | script.js:272-276 | the new state is `Step` of a style change; the outcome is `EditOutcome`; storage is written exactly when the outcome is `Saved`; storage that was in sync stays in sync |
| App.CounterApp.DeleteCounter | script.js:297-313 | `deleteCounter` alone: the new state is `Step` of a deletion; the only counter is refused, a declined dialog changes nothing, and storage is written exactly when the counter is removed; storage that was in sync stays in sync |
| App.CounterApp.DeleteButtonClicked | script.js:288-308 | `deleteCounter(index)` then the row's `showCounter(index)`: the new state is `Step` of a × click; the outcome is that of the deletion; storage is written exactly when the counter is removed; the invariant is kept |
| App.CounterApp.ShowCounter | script.js:160-163 | the new state is `Step` of a jump; storage is untouched and stays in sync |
| App.CounterApp.ShowPreviousCounter | script.js:176-180 | the new state is `Step` of the previous button; storage is untouched and stays in sync; the invariant is kept |
| App.CounterApp.ShowNextCounter | script.js:183-187 | the new state is `Step` of the next button; storage is untouched and stays in sync; the invariant is kept |
| App.CounterApp.DragStart | script.js:317-327 | the new state is `Step` of a press; storage is untouched and stays in sync |
| App.CounterApp.Drag | script.js:333-352 | the new state is `Step` of a move; storage is untouched and stays in sync; the invariant is kept |
| App.CounterApp.DragEnd | script.js:354-357 | the new state is `Step` of a release; storage is untouched and stays in sync |

## Left out

- DOM construction and re-rendering (`renderCarousel`, the `innerHTML` templates, `updateActiveIndicator`, handler binding in `init`, script.js:29-51 and 76-137). `View` keeps only what these derive from the state.
- Local storage and JSON. The list is written and read as an abstract sequence. The text format, a parse error, a stored value that is not an array, and records with missing or extra fields are not modelled. So the model does not assume that loaded values are non-negative or that the loaded list is non-empty.
- `generateId` (it uses `Date.now` and `Math.random`). A new counter's id is a parameter. `Store.EditKeepsIdsUnique` assumes the id is fresh.
- `alert` and `confirm`. The alert is the `Refused` outcome, and the user's answer to the dialog is a boolean parameter.
- Timers and animation: the value pulse, the "Salvo!" label swap, the slide-in class, `requestAnimationFrame`/`cancelAnimationFrame` with `animation`, the `dragging` class, the cursor style and the resize handler. None of these change state.
- Event objects: mouse and touch events are reduced to one horizontal coordinate, and `preventDefault` is not modelled.
- The globals `currentTranslate` and `prevTranslate`, which no code uses. `animationID` belongs to the animation loop of the timers line above.
- JavaScript numbers: values, changes and coordinates are unbounded integers. Fractional changes and precision above 2^53 are not modelled.
- Counters are values rather than objects. Each object in the page is reachable only through the `counters` array, so there is no aliasing to lose.
- The handlers assume that the DOM matches the state, as it does after every render. The model does not cover a DOM query coming back null after the state has changed, as in the slide-in of `showCounter`.
- Lone UTF-16 surrogates. A JavaScript title can hold one, but a Dafny `char` cannot. No surrogate is white space, so this does not change what `trim` returns.
