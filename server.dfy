/** The game server's board state: a square grid of cells, the position table
    of registered players and the counter of occupied cells, with the joining,
    moving, lookup and dump operations. Each operation runs as one atomic step. */
module GameServer {
  import opened BoardState
  import opened Cascade
  import opened Display

  /** Outcome of a join request. */
  datatype Status = Ok | Failed

  class Server {
    /** Fixed board side. */
    const side: int := BoardSide
    /** The grid, indexed grid[x, y]. */
    const grid: array2<Cell>
    /** The grid's contents as a value, kept equal to `grid`. */
    ghost var cells: seq<seq<Cell>>
    /** Position of every registered player. */
    var currentPosition: map<PlayerId, LocPair>
    /** Number of registered players (and of occupied cells). */
    var nextFreePos: int

    ghost function State(): Board
      reads this
    {
      Board(cells, currentPosition)
    }

    /** `cells` mirrors the grid. */
    ghost predicate Synced()
      reads this, grid
    {
      && grid.Length0 == side && grid.Length1 == side
      && IsSquare(side, cells)
      && forall x, y :: 0 <= x < side && 0 <= y < side ==> grid[x, y] == cells[x][y]
    }

    /** The server invariant: grid and table are mutual inverses and the
        counter counts both the occupied cells and the registered players. */
    ghost predicate Valid()
      reads this, grid
    {
      && Synced()
      && Consistent(side, State())
      && nextFreePos == CountGrid(cells)
      && nextFreePos == |currentPosition|
    }

    /** A new server: every cell free, no player registered. */
    constructor ()
      ensures Valid() && fresh(grid)
      ensures currentPosition == map[] && nextFreePos == 0
      ensures forall x, y :: 0 <= x < side && 0 <= y < side ==> grid[x, y] == Free
    {
      grid := new Cell[BoardSide, BoardSide];
      currentPosition := map[];
      nextFreePos := 0;
      new;
      for i := 0 to side
        modifies grid
        invariant forall x, y :: 0 <= x < i && 0 <= y < side ==> grid[x, y] == Free
      {
        for j := 0 to side
          modifies grid
          invariant forall x, y :: 0 <= x < i && 0 <= y < side ==> grid[x, y] == Free
          invariant forall y :: 0 <= y < j ==> grid[i, y] == Free
        {
          grid[i, j] := Free;
        }
      }
      cells := AllFree(side);
      EmptyBoardConsistent(side);
    }

    /** Writes `id` into cell w, then frees the cell its table entry names,
        then records w in the table. */
    method MoveTo(id: PlayerId, w: LocPair)
      requires Synced() && WellFormed(side, State()) && id in currentPosition && InRange(side, w)
      modifies this, grid
      ensures Synced()
      ensures State() == Relocate(side, old(State()), id, w)
      ensures nextFreePos == old(nextFreePos)
    {
      var p := currentPosition[id];
      grid[w.x, w.y] := Occupied(id);
      cells := cells[w.x := cells[w.x][w.y := Occupied(id)]];
      grid[p.x, p.y] := Free;
      cells := cells[p.x := cells[p.x][p.y := Free]];
      currentPosition := currentPosition[id := w];
    }

    /** Joins `clientID` at a free cell chosen arbitrarily. A full board fails
        before the registration test, so even a registered player gets Failed;
        a registered player on a board that is not full gets Ok and nothing
        changes. */
    method RandomPosition(clientID: PlayerId) returns (status: Status)
      requires Valid()
      modifies this, grid
      ensures Valid()
      ensures status == Failed <==> old(nextFreePos) >= side * side
      ensures status == Failed || clientID in old(currentPosition) ==> unchanged(this) && unchanged(grid)
      ensures status == Ok ==> clientID in currentPosition
      ensures status == Ok && clientID !in old(currentPosition) ==>
        var p := currentPosition[clientID];
        && InRange(side, p) && old(cells)[p.x][p.y] == Free
        && State() == Place(side, old(State()), clientID, p)
        && nextFreePos == old(nextFreePos) + 1
    {
      if nextFreePos >= side * side {
        return Failed;
      }
      if clientID !in currentPosition {
        FreeCellExists(side, cells);
        var x: int, y: int :| 0 <= x < side && 0 <= y < side && grid[x, y] == Free;
        PlaceConsistent(side, State(), clientID, LocPair(x, y));
        PlaceAt(clientID, LocPair(x, y));
      }
      return Ok;
    }

    /** Records a new player at p in the table, writes it into cell p and
        counts it. */
    method PlaceAt(id: PlayerId, p: LocPair)
      requires Synced() && InRange(side, p)
      modifies this, grid
      ensures Synced()
      ensures State() == Place(side, old(State()), id, p)
      ensures nextFreePos == old(nextFreePos) + 1
    {
      currentPosition := currentPosition[id := p];
      grid[p.x, p.y] := Occupied(id);
      cells := cells[p.x := cells[p.x][p.y := Occupied(id)]];
      nextFreePos := nextFreePos + 1;
    }

    /** Moves `clientID` by (dx, dy) with the corrected cascade guard; the
        perturbations of every sampling loop are read from `draws` starting at
        index `from`. Returns the player's position afterwards. */
    method UpdatePosition(clientID: PlayerId, dx: int, dy: int, draws: seq<LocPair>, from: nat) returns (pos: LocPair)
      requires Valid() && clientID in currentPosition
      requires IsStep(LocPair(dx, dy)) && AllSteps(draws) && from <= |draws|
      modifies this, grid
      ensures Valid() && nextFreePos == old(nextFreePos)
      ensures (State(), pos) == Move(LandedAndFree, side, old(State()), clientID, LocPair(dx, dy), draws, from)
      decreases |draws| - from, 1
    {
      var cur := currentPosition[clientID];
      var wanted := WrapPair(LocPair(cur.x + dx, cur.y + dy), side);
      if grid[wanted.x, wanted.y] == Free {
        MoveFreeStep(LandedAndFree, side, State(), clientID, LocPair(dx, dy), draws, from);
        RelocateConsistent(side, State(), clientID, wanted);
        MoveTo(clientID, wanted);
        pos := wanted;
      } else {
        MoveOccupiedStep(LandedAndFree, side, State(), clientID, LocPair(dx, dy), draws, from);
        pos := DisplaceOccupant(clientID, wanted, draws, from);
      }
    }

    /** The occupied branch of UpdatePosition: samples the occupant's
        perturbation, moves the occupant, and moves `clientID` into `wanted`
        when the occupant landed on its candidate and `wanted` is free. */
    method DisplaceOccupant(clientID: PlayerId, wanted: LocPair, draws: seq<LocPair>, from: nat) returns (pos: LocPair)
      requires Valid() && clientID in currentPosition && InRange(side, wanted)
      requires cells[wanted.x][wanted.y].Occupied? && AllSteps(draws) && from <= |draws|
      modifies this, grid
      ensures Valid() && nextFreePos == old(nextFreePos)
      ensures (State(), pos) == Displace(LandedAndFree, side, old(State()), clientID, wanted, draws, from)
      decreases |draws| - from, 0
    {
      ghost var b := State();
      var cur := currentPosition[clientID];
      var other := grid[wanted.x, wanted.y].id;
      var found, change, next := SamplePerturbation(wanted, cur, draws, from);
      if !found {
        DisplaceExhausted(LandedAndFree, side, b, clientID, wanted, draws, from);
        return cur;
      }
      DisplaceSampled(LandedAndFree, side, b, clientID, wanted, draws, from, next);
      ghost var r := Displace(LandedAndFree, side, b, clientID, wanted, draws, from);
      var ret := UpdatePosition(other, change.x, change.y, draws, next);
      ghost var sub := (State(), ret);
      assert LocPair(change.x, change.y) == change;
      assert sub == Move(LandedAndFree, side, b, other, change, draws, next);
      pos := FollowOccupant(clientID, wanted, change, ret);
      assert (State(), pos) == r;
      DisplaceKeepsConsistency(side, b, clientID, wanted, draws, from);
    }

    /** The end of a cascade level: `ret` is where the occupant's move left the
        occupant. The mover takes `wanted` when the occupant stands on its
        wrapped candidate wanted + change and `wanted` is free; otherwise it
        stays. Returns the mover's position. */
    method FollowOccupant(clientID: PlayerId, wanted: LocPair, change: LocPair, ret: LocPair) returns (pos: LocPair)
      requires Synced() && WellFormed(side, State()) && clientID in currentPosition
      requires InRange(side, wanted) && IsStep(change)
      modifies this, grid
      ensures Synced() && nextFreePos == old(nextFreePos)
      ensures (State(), pos) == Follow(LandedAndFree, side, (old(State()), ret), clientID, wanted, change)
    {
      var candidate := WrapPair(Add(wanted, change), side);
      if ret == candidate && grid[wanted.x, wanted.y] == Free {
        MoveTo(clientID, wanted);
        pos := wanted;
      } else {
        pos := currentPosition[clientID];
      }
    }

    /** The sampling loop: draws perturbations from index `from` on until the
        unwrapped candidate wanted + change differs from the wanted cell and
        from the mover's position `cur`. Reports whether one was found, the
        accepted perturbation and the index just after it. */
    static method SamplePerturbation(wanted: LocPair, cur: LocPair, draws: seq<LocPair>, from: nat)
      returns (found: bool, change: LocPair, next: nat)
      requires from <= |draws|
      ensures !found ==> Sample(wanted, cur, draws, from) == None
      ensures found ==> from < next <= |draws| && Sample(wanted, cur, draws, from) == Some(next) && change == draws[next - 1]
    {
      var candidate := wanted;
      change := LocPair(-2, -2);
      next := from;
      while (candidate == wanted || candidate == cur) && next < |draws|
        invariant from <= next <= |draws|
        invariant candidate == wanted || candidate == cur ==> Sample(wanted, cur, draws, next) == Sample(wanted, cur, draws, from)
        invariant !(candidate == wanted || candidate == cur) ==>
          from < next && Sample(wanted, cur, draws, from) == Some(next) && change == draws[next - 1] && candidate == Add(wanted, change)
        decreases |draws| - next
      {
        change := draws[next];
        candidate := Add(wanted, change);
        next := next + 1;
      }
      found := !(candidate == wanted || candidate == cur);
    }

    /** The recorded position of `clientID`, or None for an unknown player. */
    method GetCurrentPosition(clientID: PlayerId) returns (pos: Option<LocPair>)
      requires Valid()
      ensures pos.Some? <==> clientID in currentPosition
      ensures pos.Some? ==> pos.value == currentPosition[clientID] && InRange(side, pos.value) && cells[pos.value.x][pos.value.y] == Occupied(clientID)
    {
      if clientID in currentPosition {
        pos := Some(currentPosition[clientID]);
      } else {
        pos := None;
      }
    }

    /** The text dump of the board, line y listing cells (0, y) .. (side - 1, y). */
    method ToString() returns (out: string)
      requires Synced()
      ensures out == Snapshot(cells, side)
    {
      out := "";
      for i := 0 to side
        invariant out == Lines(cells, side, i)
      {
        for j := 0 to side
          invariant out == Lines(cells, side, i) + Line(cells, side, i, j)
        {
          out := out + Token(grid[j, i]);
        }
        out := out + "\n";
      }
    }
  }
}
