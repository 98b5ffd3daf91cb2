/** The move operation with cascade displacement, as a function of the board.

    The random generator is an explicit stream `draws` of perturbations, each
    drawn from {-1, 0, 1} x {-1, 0, 1}, read from index `from` on. The
    sampling loop consumes draws until one is accepted; the displaced
    occupant's recursive move continues after the accepted draw. Every cascade
    level consumes at least one draw, so the length of the stream caps the
    cascade depth; a level whose sampling loop runs out of draws fails without
    changing anything. */
module Cascade {
  import opened BoardState

  /** Which test lets the mover follow a displaced occupant: `LandedOnly` is the
      test the source applies (the occupant stands on its candidate cell),
      `LandedAndFree` additionally demands that the wanted cell is free. */
  datatype Guard = LandedOnly | LandedAndFree

  /** The sampling loop's exit test: the unwrapped candidate differs from the
      wanted cell and from the mover's current position. */
  predicate Accepted(wanted: LocPair, cur: LocPair, change: LocPair) {
    Add(wanted, change) != wanted && Add(wanted, change) != cur
  }

  predicate AllSteps(draws: seq<LocPair>) {
    forall i :: 0 <= i < |draws| ==> IsStep(draws[i])
  }

  /** Where the sampling loop leaves the stream: just after the first draw
      from index `from` on that it accepts (the draw it settles on is the one
      before the returned position), or None when no later draw is accepted. */
  function Sample(wanted: LocPair, cur: LocPair, draws: seq<LocPair>, from: nat): (r: Option<nat>)
    requires from <= |draws|
    ensures r.Some? ==> from < r.value <= |draws| && Accepted(wanted, cur, draws[r.value - 1])
    ensures r.Some? ==> forall i :: from <= i < r.value - 1 ==> !Accepted(wanted, cur, draws[i])
    ensures r.None? ==> forall i :: from <= i < |draws| ==> !Accepted(wanted, cur, draws[i])
    decreases |draws| - from
  {
    if from == |draws| then None
    else if Accepted(wanted, cur, draws[from]) then Some(from + 1)
    else Sample(wanted, cur, draws, from + 1)
  }

  /** The accepted perturbation is never (0, 0), so on a board of side at least
      three the occupant's wrapped candidate is never the wanted cell itself. */
  lemma SampledCandidateDiffers(side: int, wanted: LocPair, cur: LocPair, draws: seq<LocPair>, from: nat)
    requires side >= 3 && InRange(side, wanted) && AllSteps(draws) && from <= |draws|
    requires Sample(wanted, cur, draws, from).Some?
    ensures var ch := draws[Sample(wanted, cur, draws, from).value - 1];
      ch != LocPair(0, 0) && WrapPair(Add(wanted, ch), side) != wanted
  {
    var ch := draws[Sample(wanted, cur, draws, from).value - 1];
    assert IsStep(ch);
    var c := WrapPair(Add(wanted, ch), side);
    if ch.x != 0 {
      assert c.x != wanted.x;
    } else {
      assert ch.y != 0;
      assert c.y != wanted.y;
    }
  }

  /** The exit test compares unwrapped coordinates: next to the board edge it
      accepts a perturbation whose wrapped candidate is the mover's own cell
      (mover at (14, 5) moving right onto (0, 5), occupant pushed left). */
  lemma UnwrappedTestAdmitsMoverCell()
    ensures Sample(LocPair(0, 5), LocPair(14, 5), [LocPair(-1, 0)], 0) == Some(1)
    ensures WrapPair(Add(LocPair(0, 5), LocPair(-1, 0)), BoardSide) == LocPair(14, 5)
  {
  }

  /** The end of a cascade level: `sub` is the board and position after the
      occupant's move by `change`. The mover follows into `wanted` when the
      occupant stands on its candidate cell (and, with the corrected guard,
      `wanted` is free); otherwise it stays where the cascade left it. */
  function Follow(guard: Guard, side: int, sub: (Board, LocPair), id: PlayerId, wanted: LocPair, change: LocPair): (r: (Board, LocPair))
    requires WellFormed(side, sub.0) && id in sub.0.table && InRange(side, wanted) && IsStep(change)
    ensures WellFormed(side, r.0)
    ensures r.0.table.Keys == sub.0.table.Keys
    ensures r.1 == r.0.table[id]
  {
    if sub.1 == WrapPair(Add(wanted, change), side) && (guard == LandedOnly || sub.0.cells[wanted.x][wanted.y].Free?) then
      (Relocate(side, sub.0, id, wanted), wanted)
    else
      (sub.0, sub.0.table[id])
  }

  /** Moves player `id` by `d`. Returns the new board and the position the
      source hands back, which is always the player's recorded position.
      A free destination is taken directly. An occupied one starts a cascade:
      the occupant is moved by the sampled perturbation, and the mover follows
      into the wanted cell when `guard`'s test passes; otherwise the mover
      stays where the cascade left it. A level whose sampling runs out of
      draws leaves the board as it is. */
  function Move(guard: Guard, side: int, b: Board, id: PlayerId, d: LocPair, draws: seq<LocPair>, from: nat): (r: (Board, LocPair))
    requires WellFormed(side, b) && id in b.table && IsStep(d) && AllSteps(draws) && from <= |draws|
    ensures WellFormed(side, r.0)
    ensures r.0.table.Keys == b.table.Keys
    ensures r.1 == r.0.table[id]
    decreases |draws| - from, 1
  {
    var wanted := WrapPair(Add(b.table[id], d), side);
    if b.cells[wanted.x][wanted.y].Free? then
      (Relocate(side, b, id, wanted), wanted)
    else
      Displace(guard, side, b, id, wanted, draws, from)
  }

  /** The cascade of a move whose wanted cell is occupied: the sampling loop
      picks the occupant's perturbation, the occupant moves by it on the rest
      of the stream, and Follow decides whether the mover takes the wanted
      cell. When no draw is accepted nothing changes. */
  function Displace(guard: Guard, side: int, b: Board, id: PlayerId, wanted: LocPair, draws: seq<LocPair>, from: nat): (r: (Board, LocPair))
    requires WellFormed(side, b) && id in b.table && InRange(side, wanted) && AllSteps(draws) && from <= |draws|
    requires b.cells[wanted.x][wanted.y].Occupied?
    ensures WellFormed(side, r.0)
    ensures r.0.table.Keys == b.table.Keys
    ensures r.1 == r.0.table[id]
    decreases |draws| - from, 0
  {
    match Sample(wanted, b.table[id], draws, from)
    case None => (b, b.table[id])
    case Some(next) =>
      Follow(guard, side, Move(guard, side, b, b.cells[wanted.x][wanted.y].id, draws[next - 1], draws, next), id, wanted, draws[next - 1])
  }

  /** Unfolding steps of Move and Displace, one case each. */
  lemma MoveFreeStep(guard: Guard, side: int, b: Board, id: PlayerId, d: LocPair, draws: seq<LocPair>, from: nat)
    requires WellFormed(side, b) && id in b.table && IsStep(d) && AllSteps(draws) && from <= |draws|
    requires var w := WrapPair(Add(b.table[id], d), side); b.cells[w.x][w.y].Free?
    ensures var w := WrapPair(Add(b.table[id], d), side);
      Move(guard, side, b, id, d, draws, from) == (Relocate(side, b, id, w), w)
  {
  }

  lemma MoveOccupiedStep(guard: Guard, side: int, b: Board, id: PlayerId, d: LocPair, draws: seq<LocPair>, from: nat)
    requires WellFormed(side, b) && id in b.table && IsStep(d) && AllSteps(draws) && from <= |draws|
    requires var w := WrapPair(Add(b.table[id], d), side); b.cells[w.x][w.y].Occupied?
    ensures var w := WrapPair(Add(b.table[id], d), side);
      Move(guard, side, b, id, d, draws, from) == Displace(guard, side, b, id, w, draws, from)
  {
  }

  lemma DisplaceExhausted(guard: Guard, side: int, b: Board, id: PlayerId, wanted: LocPair, draws: seq<LocPair>, from: nat)
    requires WellFormed(side, b) && id in b.table && InRange(side, wanted) && AllSteps(draws) && from <= |draws|
    requires b.cells[wanted.x][wanted.y].Occupied?
    requires Sample(wanted, b.table[id], draws, from).None?
    ensures Displace(guard, side, b, id, wanted, draws, from) == (b, b.table[id])
  {
  }

  lemma DisplaceSampled(guard: Guard, side: int, b: Board, id: PlayerId, wanted: LocPair, draws: seq<LocPair>, from: nat, next: nat)
    requires WellFormed(side, b) && id in b.table && InRange(side, wanted) && AllSteps(draws) && from <= |draws|
    requires b.cells[wanted.x][wanted.y].Occupied?
    requires Sample(wanted, b.table[id], draws, from) == Some(next)
    ensures 0 < next <= |draws|
    ensures Displace(guard, side, b, id, wanted, draws, from)
      == Follow(guard, side, Move(guard, side, b, b.cells[wanted.x][wanted.y].id, draws[next - 1], draws, next), id, wanted, draws[next - 1])
  {
  }

  /** A move into a free cell: the mover lands on the wrapped destination
      ((pos + d) mod side), its old cell is freed, its table entry and the
      returned position are the destination, and nothing else changes. */
  lemma MoveIntoFreeCell(guard: Guard, side: int, b: Board, id: PlayerId, d: LocPair, draws: seq<LocPair>, from: nat)
    requires Consistent(side, b) && id in b.table && IsStep(d) && AllSteps(draws) && from <= |draws|
    requires var w := WrapPair(Add(b.table[id], d), side); b.cells[w.x][w.y] == Free
    ensures var r := Move(guard, side, b, id, d, draws, from);
      var p := b.table[id];
      var w := LocPair((p.x + d.x) % side, (p.y + d.y) % side);
      && r.1 == w
      && r.0.table == b.table[id := w]
      && r.0.cells[w.x][w.y] == Occupied(id)
      && r.0.cells[p.x][p.y] == Free
      && (forall x, y :: 0 <= x < side && 0 <= y < side && (x != w.x || y != w.y) && (x != p.x || y != p.y) ==> r.0.cells[x][y] == b.cells[x][y])
  {
    var p := b.table[id];
    assert b.cells[p.x][p.y] == Occupied(id);
  }

  /** The corrected guard only lets the mover into a free cell, so the end of
      a cascade level keeps a consistent board consistent. */
  lemma FollowKeepsConsistency(side: int, sub: (Board, LocPair), id: PlayerId, wanted: LocPair, change: LocPair)
    requires Consistent(side, sub.0) && id in sub.0.table && InRange(side, wanted) && IsStep(change)
    ensures var r := Follow(LandedAndFree, side, sub, id, wanted, change);
      Consistent(side, r.0) && CountGrid(r.0.cells) == CountGrid(sub.0.cells)
  {
    if sub.1 == WrapPair(Add(wanted, change), side) && sub.0.cells[wanted.x][wanted.y].Free? {
      RelocateConsistent(side, sub.0, id, wanted);
    }
  }

  /** With the corrected guard every move, however deep its cascade, keeps the
      board and the table mutual inverses and keeps the occupied count. */
  lemma {:induction false} MoveKeepsConsistency(side: int, b: Board, id: PlayerId, d: LocPair, draws: seq<LocPair>, from: nat)
    requires Consistent(side, b) && id in b.table && IsStep(d) && AllSteps(draws) && from <= |draws|
    ensures var r := Move(LandedAndFree, side, b, id, d, draws, from);
      Consistent(side, r.0) && CountGrid(r.0.cells) == CountGrid(b.cells)
    decreases |draws| - from, 1
  {
    var wanted := WrapPair(Add(b.table[id], d), side);
    if b.cells[wanted.x][wanted.y].Free? {
      RelocateConsistent(side, b, id, wanted);
    } else {
      DisplaceKeepsConsistency(side, b, id, wanted, draws, from);
    }
  }

  /** The cascade half of MoveKeepsConsistency. */
  lemma {:induction false} DisplaceKeepsConsistency(side: int, b: Board, id: PlayerId, wanted: LocPair, draws: seq<LocPair>, from: nat)
    requires Consistent(side, b) && id in b.table && InRange(side, wanted) && AllSteps(draws) && from <= |draws|
    requires b.cells[wanted.x][wanted.y].Occupied?
    ensures var r := Displace(LandedAndFree, side, b, id, wanted, draws, from);
      Consistent(side, r.0) && CountGrid(r.0.cells) == CountGrid(b.cells)
    decreases |draws| - from, 0
  {
    match Sample(wanted, b.table[id], draws, from)
    case None =>
    case Some(next) =>
      DisplaceSampled(LandedAndFree, side, b, id, wanted, draws, from, next);
      var other := b.cells[wanted.x][wanted.y].id;
      MoveKeepsConsistency(side, b, other, draws[next - 1], draws, next);
      var sub := Move(LandedAndFree, side, b, other, draws[next - 1], draws, next);
      FollowKeepsConsistency(side, sub, id, wanted, draws[next - 1]);
  }

  const Mover: PlayerId := "mover"
  const Occupant: PlayerId := "occupant"
  const Pushed: PlayerId := "pushed"

  lemma IdsDistinct()
    ensures Mover != Occupant && Mover != Pushed && Occupant != Pushed
  {
    assert |Mover| == 5 && |Occupant| == 8 && |Pushed| == 6;
  }

  /** Three players in a row across the vertical edge of a board of the
      source's size: Mover at (1, 5), Occupant at (0, 5), Pushed at (14, 5), and (0, 6)
      free; any other cell may hold anything well-formed. */
  ghost predicate EdgeTrioCells(b: Board) {
    && WellFormed(BoardSide, b)
    && Mover in b.table && b.table[Mover] == LocPair(1, 5) && b.cells[1][5] == Occupied(Mover)
    && Occupant in b.table && b.table[Occupant] == LocPair(0, 5) && b.cells[0][5] == Occupied(Occupant)
    && Pushed in b.table && b.table[Pushed] == LocPair(14, 5) && b.cells[14][5] == Occupied(Pushed)
    && b.cells[0][6] == Free
  }

  /** The same three players on a consistent board. */
  ghost predicate EdgeTrio(b: Board) {
    Consistent(BoardSide, b) && EdgeTrioCells(b)
  }

  /** One such board: the three players on an otherwise empty board. */
  function EdgeTrioBoard(): (b: Board)
    ensures EdgeTrio(b)
  {
    Board(
      seq(BoardSide, x => seq(BoardSide, y =>
        if x == 1 && y == 5 then Occupied(Mover)
        else if x == 0 && y == 5 then Occupied(Occupant)
        else if x == 14 && y == 5 then Occupied(Pushed)
        else Free)),
      map[Mover := LocPair(1, 5), Occupant := LocPair(0, 5), Pushed := LocPair(14, 5)])
  }

  /** The perturbation stream of the example below. */
  const EdgeDraws: seq<LocPair> := [LocPair(-1, 0), LocPair(1, 0), LocPair(0, 1)]

  lemma SampleTakesNextDraw(wanted: LocPair, cur: LocPair, draws: seq<LocPair>, from: nat)
    requires from < |draws| && Accepted(wanted, cur, draws[from])
    ensures Sample(wanted, cur, draws, from) == Some(from + 1)
  {
  }

  /** One cascade level whose next draw is accepted: the occupant moves by that
      draw on the rest of the stream, and the mover follows when the guard lets
      it. */
  lemma CascadeNextDraw(guard: Guard, side: int, b: Board, id: PlayerId, d: LocPair, draws: seq<LocPair>, from: nat)
    requires WellFormed(side, b) && id in b.table && IsStep(d) && AllSteps(draws) && from < |draws|
    requires var wanted := WrapPair(Add(b.table[id], d), side);
      b.cells[wanted.x][wanted.y].Occupied? && Accepted(wanted, b.table[id], draws[from])
    ensures var wanted := WrapPair(Add(b.table[id], d), side);
      var sub := Move(guard, side, b, b.cells[wanted.x][wanted.y].id, draws[from], draws, from + 1);
      Move(guard, side, b, id, d, draws, from) == Follow(guard, side, sub, id, wanted, draws[from])
  {
    var wanted := WrapPair(Add(b.table[id], d), side);
    MoveOccupiedStep(guard, side, b, id, d, draws, from);
    SampleTakesNextDraw(wanted, b.table[id], draws, from);
    DisplaceSampled(guard, side, b, id, wanted, draws, from, from + 1);
  }

  /** A cascade level whose next draw is accepted and whose occupant lands on
      its candidate, leaving the wanted cell free: the mover takes the wanted
      cell under either guard. */
  lemma CascadeFollows(guard: Guard, side: int, b: Board, id: PlayerId, d: LocPair, draws: seq<LocPair>, from: nat)
    requires WellFormed(side, b) && id in b.table && IsStep(d) && AllSteps(draws) && from < |draws|
    requires var wanted := WrapPair(Add(b.table[id], d), side);
      b.cells[wanted.x][wanted.y].Occupied? && Accepted(wanted, b.table[id], draws[from])
    requires var wanted := WrapPair(Add(b.table[id], d), side);
      var sub := Move(guard, side, b, b.cells[wanted.x][wanted.y].id, draws[from], draws, from + 1);
      sub.1 == WrapPair(Add(wanted, draws[from]), side) && sub.0.cells[wanted.x][wanted.y].Free?
    ensures var wanted := WrapPair(Add(b.table[id], d), side);
      var sub := Move(guard, side, b, b.cells[wanted.x][wanted.y].id, draws[from], draws, from + 1);
      Move(guard, side, b, id, d, draws, from) == (Relocate(side, sub.0, id, wanted), wanted)
  {
    var wanted := WrapPair(Add(b.table[id], d), side);
    var sub := Move(guard, side, b, b.cells[wanted.x][wanted.y].id, draws[from], draws, from + 1);
    CascadeNextDraw(guard, side, b, id, d, draws, from);
    FollowFree(guard, side, sub, id, wanted, draws[from]);
  }

  /** Innermost level of the example: Occupant steps from (0, 5) up to the free (0, 6). */
  lemma EdgeTrioLevel3(guard: Guard, b: Board)
    requires EdgeTrioCells(b)
    ensures var s := Move(guard, BoardSide, b, Occupant, LocPair(0, 1), EdgeDraws, 3);
      && s.1 == LocPair(0, 6)
      && s.0.table[Mover] == LocPair(1, 5) && s.0.table[Occupant] == LocPair(0, 6) && s.0.table[Pushed] == LocPair(14, 5)
      && s.0.cells[0][5] == Free && s.0.cells[14][5] == Occupied(Pushed)
  {
    IdsDistinct();
  }

  /** Pushed is pushed right over the edge back to (0, 5), which Occupant has
      just left. */
  lemma EdgeTrioLevel2(guard: Guard, b: Board)
    requires EdgeTrioCells(b)
    ensures var s := Move(guard, BoardSide, b, Pushed, LocPair(1, 0), EdgeDraws, 2);
      && s.1 == LocPair(0, 5)
      && s.0.table[Mover] == LocPair(1, 5) && s.0.table[Occupant] == LocPair(0, 6) && s.0.table[Pushed] == LocPair(0, 5)
      && s.0.cells[0][5] == Occupied(Pushed) && s.0.cells[14][5] == Free
  {
    IdsDistinct();
    var sub := Move(guard, BoardSide, b, Occupant, EdgeDraws[2], EdgeDraws, 3);
    EdgeTrioLevel3(guard, b);
    assert WrapPair(Add(b.table[Pushed], LocPair(1, 0)), BoardSide) == LocPair(0, 5);
    assert WrapPair(Add(LocPair(0, 5), EdgeDraws[2]), BoardSide) == LocPair(0, 6);
    CascadeFollows(guard, BoardSide, b, Pushed, LocPair(1, 0), EdgeDraws, 2);
    var r := Relocate(BoardSide, sub.0, Pushed, LocPair(0, 5));
    assert r.table[Mover] == sub.0.table[Mover] && r.table[Occupant] == sub.0.table[Occupant];
  }

  /** Occupant is pushed left over the edge onto Pushed and ends on (14, 5). */
  lemma EdgeTrioLevel1(guard: Guard, b: Board)
    requires EdgeTrioCells(b)
    ensures var s := Move(guard, BoardSide, b, Occupant, LocPair(-1, 0), EdgeDraws, 1);
      && s.1 == LocPair(14, 5)
      && s.0.table[Mover] == LocPair(1, 5) && s.0.table[Occupant] == LocPair(14, 5) && s.0.table[Pushed] == LocPair(0, 5)
      && s.0.cells[0][5] == Occupied(Pushed)
  {
    IdsDistinct();
    var sub := Move(guard, BoardSide, b, Pushed, EdgeDraws[1], EdgeDraws, 2);
    EdgeTrioLevel2(guard, b);
    assert WrapPair(Add(b.table[Occupant], LocPair(-1, 0)), BoardSide) == LocPair(14, 5);
    assert WrapPair(Add(LocPair(14, 5), EdgeDraws[1]), BoardSide) == LocPair(0, 5);
    CascadeFollows(guard, BoardSide, b, Occupant, LocPair(-1, 0), EdgeDraws, 1);
    var r := Relocate(BoardSide, sub.0, Occupant, LocPair(14, 5));
    assert r.table[Mover] == sub.0.table[Mover] && r.table[Pushed] == sub.0.table[Pushed];
  }

  /** The unguarded test passes as soon as the occupant stands on its candidate cell. */
  lemma FollowLanded(side: int, sub: (Board, LocPair), id: PlayerId, wanted: LocPair, change: LocPair)
    requires WellFormed(side, sub.0) && id in sub.0.table && InRange(side, wanted) && IsStep(change)
    requires sub.1 == WrapPair(Add(wanted, change), side)
    ensures Follow(LandedOnly, side, sub, id, wanted, change) == (Relocate(side, sub.0, id, wanted), wanted)
  {
  }

  /** Either test passes when the occupant stands on its candidate cell and
      the wanted cell is free. */
  lemma FollowFree(guard: Guard, side: int, sub: (Board, LocPair), id: PlayerId, wanted: LocPair, change: LocPair)
    requires WellFormed(side, sub.0) && id in sub.0.table && InRange(side, wanted) && IsStep(change)
    requires sub.1 == WrapPair(Add(wanted, change), side) && sub.0.cells[wanted.x][wanted.y].Free?
    ensures Follow(guard, side, sub, id, wanted, change) == (Relocate(side, sub.0, id, wanted), wanted)
  {
  }

  /** The corrected test fails unless the occupant stands on its candidate
      cell and the wanted cell is free; the mover then stays put. */
  lemma FollowRefused(side: int, sub: (Board, LocPair), id: PlayerId, wanted: LocPair, change: LocPair)
    requires WellFormed(side, sub.0) && id in sub.0.table && InRange(side, wanted) && IsStep(change)
    requires sub.1 != WrapPair(Add(wanted, change), side) || sub.0.cells[wanted.x][wanted.y].Occupied?
    ensures Follow(LandedAndFree, side, sub, id, wanted, change) == (sub.0, sub.0.table[id])
  {
  }

  /** Whatever the guard, the mover stays put when the occupant did not land on
      its candidate cell. */
  lemma FollowMissed(guard: Guard, side: int, sub: (Board, LocPair), id: PlayerId, wanted: LocPair, change: LocPair)
    requires WellFormed(side, sub.0) && id in sub.0.table && InRange(side, wanted) && IsStep(change)
    requires sub.1 != WrapPair(Add(wanted, change), side)
    ensures Follow(guard, side, sub, id, wanted, change) == (sub.0, sub.0.table[id])
  {
  }

  /** Relocating a player onto the recorded cell of another player puts the
      mover there while the table still places the other player on it. */
  lemma RelocateOverPlayer(side: int, b: Board, id: PlayerId, w: LocPair, other: PlayerId)
    requires WellFormed(side, b) && id in b.table && InRange(side, w) && b.table[id] != w
    requires other in b.table && other != id && b.table[other] == w
    ensures var r := Relocate(side, b, id, w);
      && r.cells[w.x][w.y] == Occupied(id)
      && r.table[other] == w
      && !Consistent(side, r)
  {
  }

  /** Relocating a player onto the cell its table entry already names writes
      it there and then frees that same cell: the player is left recorded on a
      free cell. */
  lemma RelocateOntoOwnCell(side: int, b: Board, id: PlayerId, w: LocPair)
    requires WellFormed(side, b) && id in b.table && InRange(side, w) && b.table[id] == w
    ensures var r := Relocate(side, b, id, w);
      && r.cells[w.x][w.y] == Free
      && r.table[id] == w
      && !Consistent(side, r)
  {
  }

  /** The test the source applies after the recursive move (the occupant stands
      on its candidate) does not mean the wanted cell is free. Mover moves left
      onto Occupant; Occupant is pushed left over the edge onto Pushed; Pushed
      is pushed right over the edge back onto (0, 5) (the unwrapped candidate
      (15, 5) passes the sampling test); Occupant steps up to the free (0, 6);
      Pushed takes (0, 5); Occupant takes (14, 5); and Mover then writes itself
      over Pushed at (0, 5). The table still places Pushed at (0, 5), so a
      consistent board becomes inconsistent. */
  lemma UnguardedCascadeOverwritesPlayer(b: Board)
    requires EdgeTrio(b)
    ensures var r := Move(LandedOnly, BoardSide, b, Mover, LocPair(-1, 0), EdgeDraws, 0);
      && r.0.cells[0][5] == Occupied(Mover)
      && r.0.table[Pushed] == LocPair(0, 5)
      && !Consistent(BoardSide, r.0)
  {
    IdsDistinct();
    var w := LocPair(0, 5);
    var ch := EdgeDraws[0];
    assert WrapPair(Add(b.table[Mover], LocPair(-1, 0)), BoardSide) == w;
    assert Accepted(w, b.table[Mover], ch);
    var sub := Move(LandedOnly, BoardSide, b, Occupant, ch, EdgeDraws, 1);
    CascadeNextDraw(LandedOnly, BoardSide, b, Mover, LocPair(-1, 0), EdgeDraws, 0);
    assert Move(LandedOnly, BoardSide, b, Mover, LocPair(-1, 0), EdgeDraws, 0) == Follow(LandedOnly, BoardSide, sub, Mover, w, ch);
    EdgeTrioLevel1(LandedOnly, b);
    assert WrapPair(Add(w, ch), BoardSide) == sub.1;
    FollowLanded(BoardSide, sub, Mover, w, ch);
    RelocateOverPlayer(BoardSide, sub.0, Mover, w, Pushed);
  }

  /** On the same board and stream the corrected guard keeps Mover at (1, 5),
      leaves Pushed on (0, 5) and keeps the board consistent. */
  lemma GuardedCascadeKeepsPlayer(b: Board)
    requires EdgeTrio(b)
    ensures var r := Move(LandedAndFree, BoardSide, b, Mover, LocPair(-1, 0), EdgeDraws, 0);
      && r.1 == LocPair(1, 5)
      && r.0.cells[0][5] == Occupied(Pushed)
      && Consistent(BoardSide, r.0)
  {
    IdsDistinct();
    var w := LocPair(0, 5);
    var ch := EdgeDraws[0];
    assert WrapPair(Add(b.table[Mover], LocPair(-1, 0)), BoardSide) == w;
    assert Accepted(w, b.table[Mover], ch);
    var sub := Move(LandedAndFree, BoardSide, b, Occupant, ch, EdgeDraws, 1);
    CascadeNextDraw(LandedAndFree, BoardSide, b, Mover, LocPair(-1, 0), EdgeDraws, 0);
    assert Move(LandedAndFree, BoardSide, b, Mover, LocPair(-1, 0), EdgeDraws, 0) == Follow(LandedAndFree, BoardSide, sub, Mover, w, ch);
    EdgeTrioLevel1(LandedAndFree, b);
    FollowRefused(BoardSide, sub, Mover, w, ch);
    MoveKeepsConsistency(BoardSide, b, Mover, LocPair(-1, 0), EdgeDraws, 0);
  }

  /** Three players in the interior of a board of the source's size: Mover at
      (1, 1), Occupant at (2, 1), Pushed at (2, 2), and (3, 1) free; any other
      cell may hold anything well-formed. */
  ghost predicate InteriorTrioCells(b: Board) {
    && WellFormed(BoardSide, b)
    && Mover in b.table && b.table[Mover] == LocPair(1, 1) && b.cells[1][1] == Occupied(Mover)
    && Occupant in b.table && b.table[Occupant] == LocPair(2, 1) && b.cells[2][1] == Occupied(Occupant)
    && Pushed in b.table && b.table[Pushed] == LocPair(2, 2) && b.cells[2][2] == Occupied(Pushed)
    && b.cells[3][1] == Free
  }

  /** The same three players on a consistent board. */
  ghost predicate InteriorTrio(b: Board) {
    Consistent(BoardSide, b) && InteriorTrioCells(b)
  }

  /** One such board: the three players on an otherwise empty board. */
  function InteriorTrioBoard(): (b: Board)
    ensures InteriorTrio(b)
  {
    Board(
      seq(BoardSide, x => seq(BoardSide, y =>
        if x == 1 && y == 1 then Occupied(Mover)
        else if x == 2 && y == 1 then Occupied(Occupant)
        else if x == 2 && y == 2 then Occupied(Pushed)
        else Free)),
      map[Mover := LocPair(1, 1), Occupant := LocPair(2, 1), Pushed := LocPair(2, 2)])
  }

  /** The perturbation stream of the interior example. */
  const InteriorDraws: seq<LocPair> := [LocPair(0, 1), LocPair(-1, -1), LocPair(1, 0), LocPair(1, 0)]

  /** Innermost level: Occupant steps from (2, 1) right to the free (3, 1). */
  lemma InteriorTrioLevel4(guard: Guard, b: Board)
    requires InteriorTrioCells(b)
    ensures var s := Move(guard, BoardSide, b, Occupant, LocPair(1, 0), InteriorDraws, 4);
      && s.1 == LocPair(3, 1)
      && s.0.table[Mover] == LocPair(1, 1) && s.0.table[Occupant] == LocPair(3, 1) && s.0.table[Pushed] == LocPair(2, 2)
      && s.0.cells[2][1] == Free
  {
    IdsDistinct();
  }

  /** Mover, pushed by Pushed, steps right onto (2, 1), which Occupant has just left. */
  lemma InteriorTrioLevel3(guard: Guard, b: Board)
    requires InteriorTrioCells(b)
    ensures var s := Move(guard, BoardSide, b, Mover, LocPair(1, 0), InteriorDraws, 3);
      && s.1 == LocPair(2, 1)
      && s.0.table[Mover] == LocPair(2, 1) && s.0.table[Occupant] == LocPair(3, 1) && s.0.table[Pushed] == LocPair(2, 2)
      && s.0.cells[1][1] == Free
  {
    IdsDistinct();
    var sub := Move(guard, BoardSide, b, Occupant, InteriorDraws[3], InteriorDraws, 4);
    InteriorTrioLevel4(guard, b);
    assert WrapPair(Add(b.table[Mover], LocPair(1, 0)), BoardSide) == LocPair(2, 1);
    assert WrapPair(Add(LocPair(2, 1), InteriorDraws[3]), BoardSide) == LocPair(3, 1);
    CascadeFollows(guard, BoardSide, b, Mover, LocPair(1, 0), InteriorDraws, 3);
    var r := Relocate(BoardSide, sub.0, Mover, LocPair(2, 1));
    assert r.table[Occupant] == sub.0.table[Occupant] && r.table[Pushed] == sub.0.table[Pushed];
  }

  /** Pushed, pushed by Occupant, steps diagonally onto (1, 1), which Mover has just left. */
  lemma InteriorTrioLevel2(guard: Guard, b: Board)
    requires InteriorTrioCells(b)
    ensures var s := Move(guard, BoardSide, b, Pushed, LocPair(-1, -1), InteriorDraws, 2);
      && s.1 == LocPair(1, 1)
      && s.0.table[Mover] == LocPair(2, 1) && s.0.table[Occupant] == LocPair(3, 1) && s.0.table[Pushed] == LocPair(1, 1)
      && s.0.cells[2][2] == Free
  {
    IdsDistinct();
    var sub := Move(guard, BoardSide, b, Mover, InteriorDraws[2], InteriorDraws, 3);
    InteriorTrioLevel3(guard, b);
    assert WrapPair(Add(b.table[Pushed], LocPair(-1, -1)), BoardSide) == LocPair(1, 1);
    assert WrapPair(Add(LocPair(1, 1), InteriorDraws[2]), BoardSide) == LocPair(2, 1);
    CascadeFollows(guard, BoardSide, b, Pushed, LocPair(-1, -1), InteriorDraws, 2);
    var r := Relocate(BoardSide, sub.0, Pushed, LocPair(1, 1));
    assert r.table[Mover] == sub.0.table[Mover] && r.table[Occupant] == sub.0.table[Occupant];
  }

  /** Occupant, pushed by Mover, steps up onto (2, 2), which Pushed has just
      left; the deeper cascade has put Mover on (2, 1). */
  lemma InteriorTrioLevel1(guard: Guard, b: Board)
    requires InteriorTrioCells(b)
    ensures var s := Move(guard, BoardSide, b, Occupant, LocPair(0, 1), InteriorDraws, 1);
      && s.1 == LocPair(2, 2)
      && s.0.table[Mover] == LocPair(2, 1)
  {
    IdsDistinct();
    var sub := Move(guard, BoardSide, b, Pushed, InteriorDraws[1], InteriorDraws, 2);
    InteriorTrioLevel2(guard, b);
    assert WrapPair(Add(b.table[Occupant], LocPair(0, 1)), BoardSide) == LocPair(2, 2);
    assert WrapPair(Add(LocPair(2, 2), InteriorDraws[1]), BoardSide) == LocPair(1, 1);
    CascadeFollows(guard, BoardSide, b, Occupant, LocPair(0, 1), InteriorDraws, 1);
    var r := Relocate(BoardSide, sub.0, Occupant, LocPair(2, 2));
    assert r.table[Mover] == sub.0.table[Mover];
  }

  /** The source's test can erase the mover itself, away from any edge. Mover
      moves right onto Occupant; the cascade it starts pushes Pushed onto
      Mover's cell, which pushes Mover right onto (2, 1) once Occupant has
      stepped to the free (3, 1); Occupant then lands on its candidate (2, 2),
      so the top-level test passes and Mover is relocated onto the cell it
      already holds: writing it there and then freeing its recorded cell
      leaves Mover recorded on a free cell. */
  lemma UnguardedCascadeErasesMover(b: Board)
    requires InteriorTrio(b)
    ensures var r := Move(LandedOnly, BoardSide, b, Mover, LocPair(1, 0), InteriorDraws, 0);
      && r.1 == LocPair(2, 1)
      && r.0.table[Mover] == LocPair(2, 1)
      && r.0.cells[2][1] == Free
      && !Consistent(BoardSide, r.0)
  {
    IdsDistinct();
    var w := LocPair(2, 1);
    var ch := InteriorDraws[0];
    assert WrapPair(Add(b.table[Mover], LocPair(1, 0)), BoardSide) == w;
    assert Accepted(w, b.table[Mover], ch);
    var sub := Move(LandedOnly, BoardSide, b, Occupant, ch, InteriorDraws, 1);
    CascadeNextDraw(LandedOnly, BoardSide, b, Mover, LocPair(1, 0), InteriorDraws, 0);
    assert Move(LandedOnly, BoardSide, b, Mover, LocPair(1, 0), InteriorDraws, 0) == Follow(LandedOnly, BoardSide, sub, Mover, w, ch);
    InteriorTrioLevel1(LandedOnly, b);
    assert WrapPair(Add(w, ch), BoardSide) == sub.1;
    FollowLanded(BoardSide, sub, Mover, w, ch);
    RelocateOntoOwnCell(BoardSide, sub.0, Mover, w);
  }
}
