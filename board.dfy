/** The shared board of the game server, as values: cells, the position table,
    toroidal wrap-around, the consistency invariant that ties the two together,
    the occupied-cell count, and the two elementary updates (placing a new
    player, relocating a registered one). */
module BoardState {

  /** Maximum number of connected players; the board side is half of it. */
  const MaxPlayers: int := 30
  const BoardSide: int := MaxPlayers / 2

  type PlayerId = string

  datatype Option<T> = None | Some(value: T)

  /** A cell is free or holds exactly one player. */
  datatype Cell = Free | Occupied(id: PlayerId)

  /** A coordinate pair; also used for a displacement (dx, dy). */
  datatype LocPair = LocPair(x: int, y: int)

  /** The board as a value: the grid, indexed cells[x][y], and the position table. */
  datatype Board = Board(cells: seq<seq<Cell>>, table: map<PlayerId, LocPair>)

  predicate InRange(side: int, p: LocPair) {
    0 <= p.x < side && 0 <= p.y < side
  }

  /** A displacement the move commands and the perturbation table can produce. */
  predicate IsStep(d: LocPair) {
    -1 <= d.x <= 1 && -1 <= d.y <= 1
  }

  function Add(p: LocPair, d: LocPair): LocPair {
    LocPair(p.x + d.x, p.y + d.y)
  }

  predicate IsSquare(side: int, cells: seq<seq<Cell>>) {
    |cells| == side && forall i :: 0 <= i < side ==> |cells[i]| == side
  }

  /** One-step toroidal correction: a coordinate that left the board by at most
      one cell is brought back by adding or subtracting the side once. */
  function Wrap(v: int, side: int): (r: int)
    requires side > 0 && -1 <= v <= side
    ensures 0 <= r < side
    ensures r == v % side
  {
    if v >= side then v - side else if v < 0 then v + side else v
  }

  function WrapPair(p: LocPair, side: int): (r: LocPair)
    requires side > 0 && -1 <= p.x <= side && -1 <= p.y <= side
    ensures InRange(side, r)
    ensures r.x == p.x % side && r.y == p.y % side
  {
    LocPair(Wrap(p.x, side), Wrap(p.y, side))
  }

  /** Shape facts every reachable board has, even one the unguarded cascade has
      damaged: a square grid, every recorded position on the board, and every
      id written in a cell registered in the table. */
  ghost predicate WellFormed(side: int, b: Board) {
    && side > 0
    && IsSquare(side, b.cells)
    && (forall id :: id in b.table ==> InRange(side, b.table[id]))
    && (forall x, y :: 0 <= x < side && 0 <= y < side && b.cells[x][y].Occupied? ==> b.cells[x][y].id in b.table)
  }

  /** The board and the table are mutual inverses: every registered player sits
      on the cell the table records for it, and every occupied cell is recorded
      in the table as that player's position. */
  ghost predicate Consistent(side: int, b: Board) {
    && WellFormed(side, b)
    && (forall id :: id in b.table ==> b.cells[b.table[id].x][b.table[id].y] == Occupied(id))
    && (forall x, y :: 0 <= x < side && 0 <= y < side && b.cells[x][y].Occupied? ==> b.table[b.cells[x][y].id].x == x && b.table[b.cells[x][y].id].y == y)
  }

  /** Consistency means one player per cell and one cell per player. */
  lemma ConsistentIsOneToOne(side: int, b: Board, id: PlayerId, x: int, y: int)
    requires Consistent(side, b)
    requires 0 <= x < side && 0 <= y < side && b.cells[x][y] == Occupied(id)
    ensures id in b.table && b.table[id] == LocPair(x, y)
    ensures forall u, v :: 0 <= u < side && 0 <= v < side && b.cells[u][v] == Occupied(id) ==> u == x && v == y
  {
  }

  function Occ(c: Cell): nat {
    if c.Occupied? then 1 else 0
  }

  /** Number of occupied cells among the first n of a row. */
  function CountRow(row: seq<Cell>, n: nat): (c: nat)
    requires n <= |row|
    ensures c <= n
  {
    if n == 0 then 0 else CountRow(row, n - 1) + Occ(row[n - 1])
  }

  /** Number of occupied cells in the first n rows. */
  function CountRows(cells: seq<seq<Cell>>, n: nat): nat
    requires n <= |cells|
  {
    if n == 0 then 0 else CountRows(cells, n - 1) + CountRow(cells[n - 1], |cells[n - 1]|)
  }

  /** Number of occupied cells of the grid. */
  function CountGrid(cells: seq<seq<Cell>>): nat {
    CountRows(cells, |cells|)
  }

  lemma {:induction false} CountRowUpdate(row: seq<Cell>, n: nat, j: int, v: Cell)
    requires n <= |row| && 0 <= j < |row|
    ensures CountRow(row[j := v], n) == CountRow(row, n) + (if j < n then Occ(v) - Occ(row[j]) else 0)
  {
    if n > 0 {
      CountRowUpdate(row, n - 1, j, v);
    }
  }

  lemma {:induction false} CountRowsUpdate(cells: seq<seq<Cell>>, n: nat, x: int, y: int, v: Cell)
    requires n <= |cells| && 0 <= x < |cells| && 0 <= y < |cells[x]|
    ensures CountRows(cells[x := cells[x][y := v]], n) == CountRows(cells, n) + (if x < n then Occ(v) - Occ(cells[x][y]) else 0)
  {
    if n > 0 {
      CountRowsUpdate(cells, n - 1, x, y, v);
      if x == n - 1 {
        CountRowUpdate(cells[x], |cells[x]|, y, v);
      }
    }
  }

  /** Writing one cell changes the occupied count by the difference it makes. */
  lemma CountGridUpdate(cells: seq<seq<Cell>>, x: int, y: int, v: Cell)
    requires 0 <= x < |cells| && 0 <= y < |cells[x]|
    ensures CountGrid(cells[x := cells[x][y := v]]) == CountGrid(cells) - Occ(cells[x][y]) + Occ(v)
  {
    CountRowsUpdate(cells, |cells|, x, y, v);
  }

  lemma {:induction false} FreeInRow(row: seq<Cell>, n: nat)
    requires n <= |row| && CountRow(row, n) < n
    ensures exists j :: 0 <= j < n && row[j] == Free
  {
    if row[n - 1] != Free {
      FreeInRow(row, n - 1);
    }
  }

  lemma {:induction false} FreeInRows(cells: seq<seq<Cell>>, n: nat, side: nat)
    requires n <= |cells| && forall i :: 0 <= i < |cells| ==> |cells[i]| == side
    requires CountRows(cells, n) < n * side
    ensures exists x, y :: 0 <= x < n && 0 <= y < side && cells[x][y] == Free
  {
    if CountRow(cells[n - 1], side) < side {
      FreeInRow(cells[n - 1], side);
    } else {
      assert n * side == (n - 1) * side + side;
      FreeInRows(cells, n - 1, side);
    }
  }

  /** A grid whose occupied count is below its capacity has a free cell. */
  lemma FreeCellExists(side: int, cells: seq<seq<Cell>>)
    requires side >= 0 && IsSquare(side, cells)
    requires CountGrid(cells) < side * side
    ensures exists x, y :: 0 <= x < side && 0 <= y < side && cells[x][y] == Free
  {
    FreeInRows(cells, side, side);
  }

  function AllFree(side: nat): (cells: seq<seq<Cell>>)
    ensures IsSquare(side, cells)
    ensures forall x, y :: 0 <= x < side && 0 <= y < side ==> cells[x][y] == Free
  {
    seq(side, _ => seq(side, _ => Free))
  }

  lemma {:induction false} CountRowAllFree(row: seq<Cell>, n: nat)
    requires n <= |row| && forall j :: 0 <= j < |row| ==> row[j] == Free
    ensures CountRow(row, n) == 0
  {
    if n > 0 {
      CountRowAllFree(row, n - 1);
    }
  }

  lemma {:induction false} CountRowsAllFree(cells: seq<seq<Cell>>, n: nat)
    requires n <= |cells|
    requires forall x, y :: 0 <= x < |cells| && 0 <= y < |cells[x]| ==> cells[x][y] == Free
    ensures CountRows(cells, n) == 0
  {
    if n > 0 {
      CountRowAllFree(cells[n - 1], |cells[n - 1]|);
      CountRowsAllFree(cells, n - 1);
    }
  }

  /** An all-free grid with an empty table is consistent and has no occupied cell. */
  lemma EmptyBoardConsistent(side: nat)
    requires side > 0
    ensures Consistent(side, Board(AllFree(side), map[]))
    ensures CountGrid(AllFree(side)) == 0
  {
    CountRowsAllFree(AllFree(side), side);
  }

  /** Registers a new player on cell p: the cell gets its id, the table its position. */
  function Place(side: int, b: Board, id: PlayerId, p: LocPair): (r: Board)
    requires IsSquare(side, b.cells) && InRange(side, p)
    ensures IsSquare(side, r.cells)
    ensures r.table == b.table[id := p]
    ensures r.cells[p.x][p.y] == Occupied(id)
    ensures forall x, y :: 0 <= x < side && 0 <= y < side && (x != p.x || y != p.y) ==> r.cells[x][y] == b.cells[x][y]
  {
    Board(b.cells[p.x := b.cells[p.x][p.y := Occupied(id)]], b.table[id := p])
  }

  /** Placing a new player on a free cell keeps the board consistent and adds
      exactly one occupied cell. */
  lemma PlaceConsistent(side: int, b: Board, id: PlayerId, p: LocPair)
    requires Consistent(side, b) && id !in b.table
    requires InRange(side, p) && b.cells[p.x][p.y] == Free
    ensures Consistent(side, Place(side, b, id, p))
    ensures CountGrid(Place(side, b, id, p).cells) == CountGrid(b.cells) + 1
  {
    CountGridUpdate(b.cells, p.x, p.y, Occupied(id));
  }

  /** Moves a registered player to w: the player is written into w first, then
      the cell its table entry currently names is set free, then the entry is
      updated (the table entry is the object the source mutates in place). */
  function Relocate(side: int, b: Board, id: PlayerId, w: LocPair): (r: Board)
    requires WellFormed(side, b) && id in b.table && InRange(side, w)
    ensures WellFormed(side, r)
    ensures r.table == b.table[id := w]
    ensures b.table[id] != w ==> r.cells[w.x][w.y] == Occupied(id) && r.cells[b.table[id].x][b.table[id].y] == Free
    ensures forall x, y :: 0 <= x < side && 0 <= y < side && (x != w.x || y != w.y) && (x != b.table[id].x || y != b.table[id].y) ==> r.cells[x][y] == b.cells[x][y]
  {
    var from := b.table[id];
    var c1 := b.cells[w.x := b.cells[w.x][w.y := Occupied(id)]];
    var c2 := c1[from.x := c1[from.x][from.y := Free]];
    Board(c2, b.table[id := w])
  }

  /** Relocating a player onto a free cell keeps the board consistent and the
      occupied count unchanged. */
  lemma RelocateConsistent(side: int, b: Board, id: PlayerId, w: LocPair)
    requires Consistent(side, b) && id in b.table
    requires InRange(side, w) && b.cells[w.x][w.y] == Free
    ensures Consistent(side, Relocate(side, b, id, w))
    ensures CountGrid(Relocate(side, b, id, w).cells) == CountGrid(b.cells)
  {
    var from := b.table[id];
    var c1 := b.cells[w.x := b.cells[w.x][w.y := Occupied(id)]];
    CountGridUpdate(b.cells, w.x, w.y, Occupied(id));
    CountGridUpdate(c1, from.x, from.y, Free);
  }
}
