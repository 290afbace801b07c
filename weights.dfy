/** The 3x3 weight grid (`weight_a`) and the edits the buttons and the
    table make to it, as functions on its value. The class `Monitor.MyApp`
    performs the same edits in place. */
module Weights {
  import opened Text

  /** A row or column number of the 3x3 table. */
  newtype Coord = k: int | 0 <= k < 3

  /** A cell of the weight table. */
  datatype Cell = Cell(row: Coord, col: Coord)

  /** The grid as nine integers in row-major order. */
  type Grid = g: seq<int> | |g| == 9 witness [0, 0, 0, 0, 0, 0, 0, 0, 0]

  /** The list position of a cell, `row * 3 + col`. */
  function Index(c: Cell): (i: nat)
    ensures i < 9
    ensures i / 3 == c.row as int && i % 3 == c.col as int
  {
    c.row as int * 3 + c.col as int
  }

  /** The cell at a list position. */
  function CellAt(i: nat): (c: Cell)
    requires i < 9
    ensures c.row as int == i / 3 && c.col as int == i % 3
  {
    Cell((i / 3) as Coord, (i % 3) as Coord)
  }

  /** Every cell has its own position, and every position is a cell's. */
  lemma IndexRoundTrip(c: Cell, i: nat)
    requires i < 9
    ensures CellAt(Index(c)) == c
    ensures Index(CellAt(i)) == i
  {
  }

  /** Two cells share a position only when they are the same cell. */
  lemma IndexInjective(c: Cell, d: Cell)
    ensures Index(c) == Index(d) <==> c == d
  {
    if Index(c) == Index(d) {
      var i := Index(c);
      assert c.row as int == i / 3 == d.row as int;
      assert c.col as int == i % 3 == d.col as int;
    }
  }

  /** The two buttons that step a cell's weight. */
  datatype Step = Plus | Minus

  /** `weightP` adds 20; `weightM` sets a value below 4 to 0 and subtracts 20
      from any other, so that 4 .. 19 become negative. */
  function Adjust(op: Step, v: int): (r: int)
    ensures op.Plus? ==> r == v + 20
    ensures op.Minus? && v < 4 ==> r == 0
    ensures op.Minus? && v >= 4 ==> r == v - 20
    ensures op.Minus? && 4 <= v < 20 ==> r < 0
  {
    match op
    case Plus => v + 20
    case Minus => if v < 4 then 0 else v - 20
  }

  /** Minus undoes Plus on every value that stays at 4 or more after it, and
      Plus undoes Minus on every value it does not clamp. */
  lemma StepsUndo(v: int)
    ensures v >= -16 <==> Adjust(Minus, Adjust(Plus, v)) == v
    ensures v >= 4 ==> Adjust(Plus, Adjust(Minus, v)) == v
    ensures v < 4 ==> Adjust(Plus, Adjust(Minus, v)) == 20
  {
  }

  /** Reference definition of a button press: the step applied to the
      selected cells one after another, in selection order. */
  function Adjusted(g: Grid, sel: seq<Cell>, op: Step): (r: Grid)
    ensures |sel| == 0 ==> r == g
    ensures op.Plus? ==> forall i :: 0 <= i < 9 ==> r[i] >= g[i]
    decreases |sel|
  {
    if |sel| == 0 then g
    else
      var h := Adjusted(g, sel[..|sel| - 1], op);
      var i := Index(sel[|sel| - 1]);
      h[i := Adjust(op, h[i])]
  }

  /** The positions of a selection. */
  function Positions(sel: seq<Cell>): set<nat>
  {
    set c | c in sel :: Index(c)
  }

  /** A button press changes only the selected cells. */
  lemma {:induction false} AdjustedFrame(g: Grid, sel: seq<Cell>, op: Step, i: nat)
    requires i < 9 && i !in Positions(sel)
    ensures Adjusted(g, sel, op)[i] == g[i]
    decreases |sel|
  {
    if |sel| > 0 {
      var pre := sel[..|sel| - 1];
      assert Positions(pre) <= Positions(sel);
      AdjustedFrame(g, pre, op, i);
    }
  }

  /** No cell is selected twice, as in a table selection. */
  predicate Distinct(sel: seq<Cell>) {
    forall j, k :: 0 <= j < k < |sel| ==> sel[j] != sel[k]
  }

  /** When the selection names each cell once, each selected cell takes
      exactly one step. */
  lemma {:induction false} AdjustedSelected(g: Grid, sel: seq<Cell>, op: Step, c: Cell)
    requires Distinct(sel) && c in sel
    ensures Adjusted(g, sel, op)[Index(c)] == Adjust(op, g[Index(c)])
    decreases |sel|
  {
    var pre := sel[..|sel| - 1];
    var last := sel[|sel| - 1];
    assert sel == pre + [last];
    if c == last {
      var i := Index(c);
      assert i !in Positions(pre) by {
        forall d | d in pre ensures Index(d) != i {
          var j :| 0 <= j < |pre| && pre[j] == d;
          IndexInjective(d, last);
        }
      }
      AdjustedFrame(g, pre, op, i);
    } else {
      assert c in pre;
      IndexInjective(c, last);
      AdjustedSelected(g, pre, op, c);
    }
  }

  /** `weightZ`: all nine weights 0. */
  function Zeros(): (g: Grid)
    ensures forall i :: 0 <= i < 9 ==> g[i] == 0
  {
    [0, 0, 0, 0, 0, 0, 0, 0, 0]
  }

  /** `onCellChanged(row, col)` with the cell's new text: a non-empty
      all-digit text is taken as the cell's weight; any other text leaves the
      grid as it was and the cell shows the weight again. Returns the new grid
      and the text the cell then shows. */
  function CellEdit(g: Grid, c: Cell, text: string): (r: (Grid, string))
    ensures forall i :: 0 <= i < 9 && i != Index(c) ==> r.0[i] == g[i]
    ensures IsDigitString(text) ==> r.0[Index(c)] == DigitsValue(text) >= 0 && r.1 == text
    ensures !IsDigitString(text) ==> r.0 == g && r.1 == IntToString(g[Index(c)])
  {
    if IsDigitString(text) then (g[Index(c) := DigitsValue(text)], text)
    else (g, IntToString(g[Index(c)]))
  }

  /** The text a cell shows always reads back as its weight: feeding it to
      the edit handler again changes nothing, whether the weight is a
      digit string or a negative number the handler refuses. */
  lemma {:induction false} ShownTextIsStable(g: Grid, c: Cell)
    ensures CellEdit(g, c, IntToString(g[Index(c)])).0 == g
  {
    var v := g[Index(c)];
    if v >= 0 {
      assert IntToString(v) == NatToString(v);
      NatToStringRoundTrip(v);
    }
  }
}
