/** The text dump of the board: one line per y coordinate, each holding one
    two-character token per x coordinate ("0 " for a free cell, "X " for an
    occupied one) and ending in a newline. */
module Display {
  import opened BoardState

  function Mark(c: Cell): char {
    if c.Free? then '0' else 'X'
  }

  function Token(c: Cell): string {
    [Mark(c), ' ']
  }

  /** The first n tokens of line i: cells (0, i) .. (n - 1, i). */
  function Line(cells: seq<seq<Cell>>, side: nat, i: nat, n: nat): (s: string)
    requires IsSquare(side, cells) && i < side && n <= side
    ensures |s| == 2 * n
  {
    if n == 0 then "" else Line(cells, side, i, n - 1) + Token(cells[n - 1][i])
  }

  /** Offset of line y in the dump: every line has 2 * side + 1 characters. */
  function LineStart(side: nat, y: nat): nat {
    if y == 0 then 0 else LineStart(side, y - 1) + 2 * side + 1
  }

  lemma {:induction false} LineStartIsProduct(side: nat, y: nat)
    ensures LineStart(side, y) == y * (2 * side + 1)
  {
    if y > 0 {
      LineStartIsProduct(side, y - 1);
      assert y * (2 * side + 1) == (y - 1) * (2 * side + 1) + 2 * side + 1;
    }
  }

  /** The first n lines of the dump. */
  function Lines(cells: seq<seq<Cell>>, side: nat, n: nat): (s: string)
    requires IsSquare(side, cells) && n <= side
    ensures |s| == LineStart(side, n)
  {
    if n == 0 then "" else Lines(cells, side, n - 1) + LineText(cells, side, n - 1)
  }

  /** Line y of the dump with its newline. */
  function LineText(cells: seq<seq<Cell>>, side: nat, y: nat): (s: string)
    requires IsSquare(side, cells) && y < side
    ensures |s| == 2 * side + 1
  {
    Line(cells, side, y, side) + "\n"
  }

  function Snapshot(cells: seq<seq<Cell>>, side: nat): string
    requires IsSquare(side, cells)
  {
    Lines(cells, side, side)
  }

  /** Token j of a line shows cell (j, i). */
  lemma {:induction false} LineAt(cells: seq<seq<Cell>>, side: nat, i: nat, n: nat, j: nat)
    requires IsSquare(side, cells) && i < side && n <= side && j < n
    ensures Line(cells, side, i, n)[2 * j] == Mark(cells[j][i])
    ensures Line(cells, side, i, n)[2 * j + 1] == ' '
  {
    if j < n - 1 {
      LineAt(cells, side, i, n - 1, j);
    }
  }

  lemma LineTextAt(cells: seq<seq<Cell>>, side: nat, x: nat, y: nat)
    requires IsSquare(side, cells) && x < side && y < side
    ensures LineText(cells, side, y)[2 * x] == Mark(cells[x][y])
    ensures LineText(cells, side, y)[2 * x + 1] == ' '
    ensures LineText(cells, side, y)[2 * side] == '\n'
  {
    LineAt(cells, side, y, side, x);
  }

  /** Line y of a dump holding at least y + 1 lines starts at LineStart(side, y). */
  lemma {:induction false} LinesHoldLine(cells: seq<seq<Cell>>, side: nat, n: nat, y: nat, i: nat)
    requires IsSquare(side, cells) && y < n <= side && i <= 2 * side
    ensures LineStart(side, y) + i < |Lines(cells, side, n)|
    ensures Lines(cells, side, n)[LineStart(side, y) + i] == LineText(cells, side, y)[i]
  {
    if y < n - 1 {
      LinesHoldLine(cells, side, n - 1, y, i);
    }
  }

  /** The dump shows the grid transposed: the character at column 2 * x of
      line y is the mark of cell (x, y), the next one is a space, and every
      line ends with a newline after 2 * side characters. */
  lemma SnapshotAt(cells: seq<seq<Cell>>, side: nat, x: nat, y: nat)
    requires IsSquare(side, cells) && x < side && y < side
    ensures |Snapshot(cells, side)| == side * (2 * side + 1)
    ensures y * (2 * side + 1) + 2 * side < |Snapshot(cells, side)|
    ensures Snapshot(cells, side)[y * (2 * side + 1) + 2 * x] == Mark(cells[x][y])
    ensures Snapshot(cells, side)[y * (2 * side + 1) + 2 * x + 1] == ' '
    ensures Snapshot(cells, side)[y * (2 * side + 1) + 2 * side] == '\n'
  {
    LineStartIsProduct(side, side);
    LineStartIsProduct(side, y);
    LineTextAt(cells, side, x, y);
    LinesHoldLine(cells, side, side, y, 2 * x);
    LinesHoldLine(cells, side, side, y, 2 * x + 1);
    LinesHoldLine(cells, side, side, y, 2 * side);
  }
}
