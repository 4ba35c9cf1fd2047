/** What the renderer derives from the state: the style names of the
    selector, the horizontal offset of each carousel cell, and the rows of
    the summary list. The DOM itself is not modelled. */
module View {
  import opened Counters

  const FallbackStyleName: string := "Estilo"

  /** getStyleName: the name of each of the five styles, and a fallback for
      any other number. */
  function StyleName(style: int): (name: string)
    ensures 1 <= style <= 5 <==> name != FallbackStyleName
    ensures name != []
  {
    if style == 1 then "Azul"
    else if style == 2 then "Verde"
    else if style == 3 then "Roxo"
    else if style == 4 then "Vermelho"
    else if style == 5 then "Laranja"
    else FallbackStyleName
  }

  /** The five styles the selector offers have five different names. */
  lemma StyleNamesDistinct(a: int, b: int)
    requires 1 <= a <= 5 && 1 <= b <= 5 && a != b
    ensures StyleName(a) != StyleName(b)
  {
  }

  /** The translation, in percent of the cell width, of the cell at `index`
      when the cursor is at `current`. */
  function Offset(index: int, current: int): (r: int)
    ensures r == 0 <==> index == current
    ensures r < 0 <==> index < current
    ensures r % 100 == 0
  {
    (index - current) * 100
  }

  /** updateCarouselPosition: one offset per cell. The cell on screen is the
      only one at offset zero, and neighbouring cells sit one cell width
      apart. */
  function Offsets(n: nat, current: int): (r: seq<int>)
    ensures |r| == n
    ensures forall i :: 0 <= i < n ==> (r[i] == 0 <==> i == current)
    ensures forall i :: 0 < i < n ==> r[i] - r[i - 1] == 100
    ensures forall i :: 0 <= i < n ==> (r[i] < 0 <==> i < current)
  {
    seq(n, i => Offset(i, current))
  }

  /** One row of the summary list. */
  datatype Row = Row(title: string, value: int, hasDelete: bool, active: bool)

  /** renderCounterList as a projection: a row per counter with its title
      and value, a delete button only when there is more than one counter,
      and the counter on screen marked active. */
  function ListRows(s: State): (rows: seq<Row>)
    ensures |rows| == |s.counters|
    ensures forall i :: 0 <= i < |rows| ==>
              rows[i].title == s.counters[i].title && rows[i].value == s.counters[i].value
    ensures forall i :: 0 <= i < |rows| ==> (rows[i].hasDelete <==> |s.counters| > 1)
    ensures forall i :: 0 <= i < |rows| ==> (rows[i].active <==> i == s.current)
  {
    seq(|s.counters|, i requires 0 <= i < |s.counters| =>
      Row(s.counters[i].title, s.counters[i].value, |s.counters| > 1, i == s.current))
  }

  /** With a valid cursor exactly one row is active. */
  lemma OneActiveRow(s: State)
    requires InRange(s.counters, s.current)
    ensures ListRows(s)[s.current].active
    ensures forall i, j :: 0 <= i < j < |s.counters| ==> !(ListRows(s)[i].active && ListRows(s)[j].active)
  {
  }
}
