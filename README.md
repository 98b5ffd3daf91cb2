# Benchmark game server: board state and core-affinity mask

This project models two parts of the benchmark game:

- The game server's shared board.
  - A square grid of `boardSide` × `boardSide` cells (15 × 15, half of the 30-player maximum). Each cell is free or holds one player.
  - The table of registered players' positions and the counter of occupied cells.
  - The operations on them:
    - the constructor that frees every cell;
    - joining at a random free cell;
    - moving by a one-cell step on a toroidal board, with the cascade that pushes an occupant out of the way;
    - looking up a position;
    - the text dump of the board.
- The core-affinity mask string `configStr` that the benchmark passes to `taskset`.

The model is split into five modules:

- `BoardState` (board.dfy) holds the board as a value: `Board(cells, table)`. It has the one-step wrap-around and the consistency invariant that ties grid and table together: every registered player sits on its recorded cell, and every occupied cell is recorded. It also has the occupied-cell count and the two elementary updates, `Place` and `Relocate`.
- `Cascade` (cascade.dfy) specifies a whole move by the mutually recursive functions `Move`, `Displace` and `Follow`.
  - The random perturbations are an explicit stream `draws` read from index `from`. `Sample` is the sampling loop over that stream.
  - A `Guard` selects the test applied after the occupant's recursive move:
    - `LandedOnly` is the test as written: the occupant stands on its candidate cell;
    - `LandedAndFree` also requires the wanted cell to be free.
  - The section at the end of the file exhibits the difference on a concrete board (see Findings).
- `GameServer` (server.dfy) is the server as a class.
  - The grid is an `array2<Cell>`, mirrored by a ghost sequence.
  - It holds the `currentPosition` map and the `nextFreePos` counter.
  - Methods update these in place and are proved against the `Cascade` and `BoardState` functions.
  - Moves use the corrected guard.
- `Display` (display.dfy) specifies the text dump.
- `CoreConfig` (setconfig.dfy) holds `configStr`.

The cascade perturbations come from the random generator in the source. Here they are a parameter, `draws`. Joining picks any free cell with `:|` in place of the random retry loop.

A move by (0, 0) is not a no-op in the code. The `switch` at benchmarkgame/Server.java:168 finds the mover's own cell occupied, so the mover displaces itself and can push other players (benchmarkgame/Server.java:183-197). The command handlers never issue (0, 0), and the model handles it like any other step.

## Model

| member | source | states |
|---|---|---|
| BoardState.WrapPair | benchmarkgame/Server.java:150-164 | a coordinate at most one cell off the board is brought back by one addition or subtraction of the side; the result is on the board and equals the coordinate modulo the side |
| BoardState.ConsistentIsOneToOne | benchmarkgame/Server.java:41-42 | when MAP and currentPosition agree, a player occupies exactly one cell, and that cell is its recorded position |
| BoardState.EmptyBoardConsistent | benchmarkgame/Server.java:64-73 | the all-free grid with an empty table is consistent and has no occupied cell |
| BoardState.FreeCellExists | benchmarkgame/Server.java:111-120 | a board with fewer occupied cells than side × side has a free cell, so the join retry loop has a cell to find |
| BoardState.Place | benchmarkgame/Server.java:121-123 | registering a player on p writes its id into cell p, records p in the table and leaves every other cell as it was |
| BoardState.PlaceConsistent | benchmarkgame/Server.java:115-125 | placing an unregistered player on a free cell keeps the board consistent and adds exactly one occupied cell |
| BoardState.Relocate | benchmarkgame/Server.java:171-176 | moving a player to w writes it into w, frees the cell its entry names and records w; the board stays well formed and no other cell changes |
| BoardState.RelocateConsistent | benchmarkgame/Server.java:168-177 | relocating a player onto a free cell keeps the board consistent and keeps the occupied count |
| Cascade.Sample | benchmarkgame/Server.java:189-194 | the sampling loop stops just after the first draw whose unwrapped candidate differs from both the wanted cell and the mover's cell; every earlier draw is rejected; None when no remaining draw is accepted |
| Cascade.SampledCandidateDiffers | benchmarkgame/Server.java:189-209 | the accepted perturbation is never (0, 0), so the occupant's wrapped candidate differs from the wanted cell |
| Cascade.UnwrappedTestAdmitsMoverCell | benchmarkgame/Server.java:189-209 | the loop compares unwrapped coordinates, so at the board edge it accepts a candidate that wraps onto the mover's own cell |
| Cascade.Follow | benchmarkgame/Server.java:213-224 | after the occupant's move the mover takes the wanted cell when the guard's test passes and otherwise stays; the returned position is the mover's recorded one |
| Cascade.Move | benchmarkgame/Server.java:139-228 | a move keeps the board well formed and the set of registered players, and returns the mover's recorded position |
| Cascade.Displace | benchmarkgame/Server.java:179-224 | the occupied-cell branch keeps the board well formed and the registered players, and returns the mover's recorded position |
| Cascade.MoveIntoFreeCell | benchmarkgame/Server.java:150-177 | moving into a free cell puts the mover on ((x + dx) mod side, (y + dy) mod side), frees its old cell, updates its entry, returns the new position and changes nothing else |
| Cascade.FollowKeepsConsistency | benchmarkgame/Server.java:213-221 | with the corrected guard the end of a cascade level keeps the board consistent and the occupied count unchanged |
| Cascade.MoveKeepsConsistency | benchmarkgame/Server.java:139-228 | with the corrected guard every move, at any cascade depth, keeps the board consistent and the occupied count unchanged |
| Cascade.DisplaceKeepsConsistency | benchmarkgame/Server.java:183-224 | with the corrected guard the cascade branch keeps the board consistent and the occupied count unchanged |
| Cascade.FollowLanded | benchmarkgame/Server.java:213-221 | the test as written moves the mover in as soon as the occupant stands on its candidate, whether or not the wanted cell is free |
| Cascade.FollowRefused | benchmarkgame/Server.java:213-224 | with the corrected guard a mover whose occupant did not land, or whose wanted cell is occupied, stays where it is |
| Cascade.FollowMissed | benchmarkgame/Server.java:213-224 | under either guard, the code as written included, a mover whose occupant did not land on its candidate cell stays where it is |
| Cascade.RelocateOverPlayer | benchmarkgame/Server.java:213-221 | writing the mover onto a cell recorded as another player's makes the board inconsistent |
| Cascade.UnguardedCascadeOverwritesPlayer | benchmarkgame/Server.java:213-221 | on the edge example the code as written writes Mover over Pushed at (0, 5) while the table still places Pushed there, so the board becomes inconsistent |
| Cascade.RelocateOntoOwnCell | benchmarkgame/Server.java:215-220 | relocating a player onto the cell it is already recorded on writes it there and then frees that cell, so the player is recorded on a free cell and the board is inconsistent |
| Cascade.UnguardedCascadeErasesMover | benchmarkgame/Server.java:213-221 | on the interior example the deeper cascade puts Mover on its own wanted cell (2, 1), the code as written then frees that cell, and Mover is left recorded on a free cell |
| Cascade.GuardedCascadeKeepsPlayer | benchmarkgame/Server.java:213-221 | on the edge example the corrected guard keeps Mover at (1, 5) and Pushed on (0, 5), and the board stays consistent |
| GameServer.Server.constructor | benchmarkgame/Server.java:64-73 | the two nested loops free every cell; the table is empty and the counter 0, and the server invariant holds |
| GameServer.Server.RandomPosition | benchmarkgame/Server.java:106-129 | Failed exactly when the counter has reached side × side, with nothing changed; a registered player gets Ok with nothing changed; a new player is placed on a cell that was free, with the counter one higher and the invariant kept |
| GameServer.Server.PlaceAt | benchmarkgame/Server.java:121-124 | records the player, writes its id into the cell and increments the counter; the new state is Place of the old one |
| GameServer.Server.MoveTo | benchmarkgame/Server.java:171-176 | the in-place writes to the grid and the table give exactly Relocate of the old state |
| GameServer.Server.UpdatePosition | benchmarkgame/Server.java:139-228 | the new state and the returned position are Move of the old state with the corrected guard; the invariant and the counter are kept |
| GameServer.Server.DisplaceOccupant | benchmarkgame/Server.java:179-224 | the occupied branch yields Displace of the old state; the invariant and the counter are kept |
| GameServer.Server.SamplePerturbation | benchmarkgame/Server.java:189-194 | the while loop accepts exactly the draw Sample picks and reports the stream position after it, or reports that the stream ran out |
| GameServer.Server.FollowOccupant | benchmarkgame/Server.java:199-224 | wraps the candidate and moves the mover in under the corrected test; the result is Follow of the old state |
| GameServer.Server.GetCurrentPosition | benchmarkgame/Server.java:236-238 | a registered player's recorded position, which is on the board and holds that player; None for an unknown player |
| GameServer.Server.ToString | benchmarkgame/Server.java:241-254 | the nested loops produce Snapshot of the grid |
| Display.SnapshotAt | benchmarkgame/Server.java:241-254 | the dump has side lines of 2 × side + 1 characters; in line y, column 2x is '0' for a free cell (x, y) and 'X' for an occupied one, followed by a space; each line ends in a newline |
| CoreConfig.ConfigStr | benchmarkgame/gameutils/SetConfig.java:4-27 | the result starts with "0x"; it has 4 characters exactly when both counts are in 0..4 and fewer otherwise |
| CoreConfig.BigDigit | benchmarkgame/gameutils/SetConfig.java:6-15 | one digit for a count in 0..4, none otherwise |
| CoreConfig.LittleDigit | benchmarkgame/gameutils/SetConfig.java:16-25 | one digit for a count in 0..4, none otherwise |
| CoreConfig.DigitsCountCores | benchmarkgame/gameutils/SetConfig.java:6-21 | each digit emitted for a count n is a hex digit with exactly n set bits, that is n cores of its cluster |
| CoreConfig.BigDigitValues | benchmarkgame/gameutils/SetConfig.java:6-11 | the big digits are the masks 0, 8, 9, 14 and 15, selecting the CPU sets {}, {7}, {7, 4}, {7, 6, 5} and {7, 6, 5, 4} |
| CoreConfig.ConfigStrDigits | benchmarkgame/gameutils/SetConfig.java:5-26 | for counts in 0..4 the result has four characters; the third is 0, 8, 9, e or f for 0..4 big cores and the fourth is 0, 1, 6, 7 or f for 0..4 LITTLE cores |
| CoreConfig.ConfigStrValid | benchmarkgame/gameutils/SetConfig.java:4-27 | for valid counts the mask is "0x", the big digit and the LITTLE digit, and the two nibbles count the requested cores |
| CoreConfig.ConfigStrInjective | benchmarkgame/gameutils/SetConfig.java:4-27 | different valid requests give different masks |
| CoreConfig.InvalidBigDropsDigit | benchmarkgame/gameutils/SetConfig.java:12-14 | an out-of-range big count drops its digit, so the LITTLE digit takes the big digit's place in a 3-character string |
| CoreConfig.InvalidBothGivesPrefix | benchmarkgame/gameutils/SetConfig.java:12-24 | out-of-range counts on both sides leave the bare "0x" |

## Left out

- The network layer (NetworkManager, the listener, command parsing and replies), the clients and the driver are not part of this model. Neither are the singleton accessor, `init`, `main`, the printer thread, `getProcessID` and `setConfig`; these are I/O and process control.
- The `synchronized` blocks and concurrency. Each operation is modelled as one atomic step on the board.
- `java.util.Random`.
  - Joining chooses any free cell (`:|`).
  - The cascade reads its perturbations from the `draws` stream.
  - When the stream runs out during a sampling loop, that cascade level leaves the board unchanged. This also bounds the recursion, which in the source is bounded only by the random outcomes.
- The diagnostic messages that `configStr` writes to standard error for out-of-range counts.
- Java string identity: cells compare against the literal "free". The model uses a separate `Free` cell, so a player named "free" is not modelled.
- `LocPair.compare` is not part of this model. It is taken to be coordinate equality.
- GameServer.Server.UpdatePosition requires a registered player. For an unknown id the source dereferences a missing map entry and throws. It also requires a step with components in -1..1; the command handlers only issue such steps.
- GameServer.Server.FollowOccupant: adds a test that the wanted cell is free to the landed test at benchmarkgame/Server.java:213 (the corrected guard), because the test as written can overwrite a player (see Findings).
- GameServer.Server.DisplaceOccupant: in the occupied branch the mover follows only when the occupant's returned position equals its candidate cell and the wanted cell is free (the corrected guard), where benchmarkgame/Server.java:213 tests only the first; the code as written can overwrite another player or erase the mover (see Findings).
- GameServer.Server.UpdatePosition and GameServer.Server.DisplaceOccupant use the corrected guard. The code as written is modelled by `Cascade.Move` with `LandedOnly` and examined only through the lemmas in the Findings rows, because it does not keep the server invariant.

## Findings

| source | as written | input that shows it | evidently intended | confidence | as-written member | corrected member |
|---|---|---|---|---|---|---|
| benchmarkgame/Server.java:213-221 | after moving the occupant, the mover takes the wanted cell whenever the occupant stands on its candidate cell; nothing checks that the wanted cell is still free | a 15 × 15 board with Mover at (1, 5), Occupant at (0, 5), Pushed at (14, 5) and (0, 6) free. Mover moves by (-1, 0), and the perturbations drawn are (-1, 0), (1, 0), (0, 1). Pushed wraps back onto (0, 5), which Occupant had just left. Mover is then written over Pushed, and the table still records Pushed at (0, 5) | the mover takes the wanted cell only when the occupant landed on its candidate and the wanted cell is free, so no player is overwritten | not executed | Cascade.UnguardedCascadeOverwritesPlayer | Cascade.MoveKeepsConsistency |
| benchmarkgame/Server.java:213-221 | the same test lets the mover follow when a deeper level of its own cascade has already moved it onto the wanted cell; the relocation writes it there and then frees the cell it is recorded on, which is the same cell | a 15 × 15 board with Mover at (1, 1), Occupant at (2, 1), Pushed at (2, 2) and (3, 1) free. Mover moves by (1, 0), and the perturbations drawn are (0, 1), (-1, -1), (1, 0), (1, 0). Occupant is pushed onto Pushed, Pushed onto Mover, and Mover onto (2, 1) after Occupant steps to (3, 1). Occupant then lands on (2, 2), the top-level test passes, and Mover ends recorded on (2, 1) while that cell is free | the mover takes the wanted cell only when it is free, so a mover that a deeper level already placed there stays put | not executed | Cascade.UnguardedCascadeErasesMover | Cascade.MoveKeepsConsistency |
