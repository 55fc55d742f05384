# Wa-Tor in Dafny

A model of the Wa-Tor predator–prey simulation engine of `wator/wator.py`, with
proofs about it. A `Toroid` is a width × height grid that wraps at its edges.
Each cell is empty or holds one fish. The toroid also keeps the set of live
creatures. A fish is a prey or a predator. Each tick (`advance`), every creature
that was live when the tick started is updated once:

- A prey moves to a random open neighbour, ages, and spawns into the cell it
  left once it is mature.
- A predator eats a neighbouring prey if it can (`chomp`), or else it moves.
  Then it ages, spends one unit of energy, and starves when its energy runs out.

Files:

- `topology.dfy`: module `Topology`, the wraparound coordinate arithmetic
  (`up`, `down`, `left`, `right`, `adjacent_spaces`) as pure functions of the
  grid dimensions.
- `world.dfy`: module `World`, the whole toroid as a value `State` with one
  function per operation of the source. Each function gives the state that
  operation leaves behind, or a `CollisionError` carrying the state as it was
  when the error was raised.
- `world_properties.dfy`: module `WorldProperties`, lemmas about those
  functions. They cover the population invariant `Consistent` per operation,
  the snapshot semantics of `advance`, and ticks that break `Consistent`.
- `wator.dfy`: module `Wator`, class `Toroid` with the grid as an `array2`
  updated in place. Its fields hold the table of fish records, the set of live
  creatures and the next fresh identity. The methods of `Fish`, `Prey` and
  `Predator` act on a fish by identity. Each method is proved to leave
  `Model() == World.Op(old(Model()), …)`.
- `wrappers.dfy`: an `Option` type.

How the model represents the source:

- **Fish.** A fish is an identity (`Id`) with a record in the toroid's table:
  species, position, last position, age and energy. Prey carry energy 0; the
  source gives them no energy field.
- **Dead fish.** A fish that dies leaves the grid and `creatures`, but its
  record stays in the table. This mirrors the source, where the Python object
  outlives its death inside the snapshot list of `advance`.
- **Randomness.** `random.choice(possible or [None])` becomes a draw `pick`
  supplied by the caller. The choice is `possible[pick % |possible|]`, or `None`
  when `possible` is empty. `PickDirectionCovers` and `PickMealCovers` prove
  that every candidate can be chosen.
- **Configuration.** The external `configuration` module becomes a `Config`
  value: maturity and energy yield per species, looked up with defaults 2 and
  1, plus `initial_energy`.
- **Exceptions.** A raised `CollisionError` becomes the `CollisionError`
  outcome, or `ok == false` in the class. The error ends the whole tick. Every
  change made before it (in particular the fish's new `position` and
  `last_position`) is kept.

Where the code differs from the design it was written to (the model follows the
code):

- `right` computes the new column from the row, `position.y + 1`
  (wator/wator.py:158). It is the true right-hand neighbour only where the
  column equals min(row, width − 1) (`RightIsNeighbourIff`). The repository's
  tests check only diagonal positions.
- `Predator.spawn` only logs, so predators never reproduce and never reset
  their age (`World.PredatorUpdate` keeps `nextId` and the table's keys).
- Dead fish in the snapshot are not skipped. An eaten prey still moves on its
  turn. `Toroid.update` then clears its last position, which is the cell of
  the predator that ate it. So a tick can leave a live predator outside the
  grid (`TickBreaksConsistency`), and `advance` does not preserve `Consistent`.
- A fish that spawns does not check its last position. A prey that could not
  move but is mature spawns onto whatever fish now occupies that cell
  (`StuckPreyOverwrites`, `StuckWorldOverwrites`).
- A newborn that moves on its first update has a last position by the time it
  spawns. With maturity 1 or less it therefore reproduces on its first update
  (`PreyMoveKeepsConsistent`).
- A failed move leaves the grid unchanged but not the fish. The fish's position
  fields were already changed (`World.Move`).

## Model

| member | source | states |
|---|---|---|
| `Topology.Up` | wator/wator.py:142-145 | same column; inside the grid the row is (y − 1) mod height, so row 0 goes to the last row, and the result stays in bounds |
| `Topology.Down` | wator/wator.py:147-150 | same column; inside the grid the row is (y + 1) mod height, so the last row goes to row 0, and the result stays in bounds |
| `Topology.Left` | wator/wator.py:152-155 | same row; inside the grid the column is (x − 1) mod width, so column 0 goes to the last column, and the result stays in bounds |
| `Topology.Right` | wator/wator.py:157-160 | same row; the column is y + 1, or 0 once that reaches the width, and it lies in bounds |
| `Topology.AdjacentSpaces` | wator/wator.py:135-140 | all four neighbours of a position in the grid are in the grid |
| `Topology.UpDownInverse` | wator/wator.py:142-150 | `up` and `down` undo each other on every position of the grid |
| `Topology.LeftOfRightIff` | wator/wator.py:152-160 | `left(right(p)) == p` exactly when p.x == min(p.y, width − 1) |
| `Topology.RightIsNeighbourIff` | wator/wator.py:157-160 | `right(p)` is the true right-hand neighbour exactly when p.x == min(p.y, width − 1) |
| `Topology.UnitTestExpectations` | wator/tests/test_wator.py:11-39 | every value the unit tests expect of a 5 × 5 toroid |
| `World.Maturity` | wator/wator.py:30-33 | the species' configured maturity, 2 when none is configured |
| `WorldProperties.DefaultMaturityDelaysSpawn` | wator/wator.py:30-33 | with the default maturity a newborn's first update creates no fish and leaves it one tick old |
| `World.Yield` | wator/wator.py:70 | the species' configured energy yield, 1 when none is configured |
| `World.Cell` | wator/wator.py:124-125 | the content of row y, column x of the grid |
| `World.Open` | wator/wator.py:162-163 | the cell is empty |
| `World.Contains` | wator/wator.py:165-166 | the cell holds a fish of the species |
| `World.Empty` | wator/wator.py:118-122 | a new toroid has the given dimensions, only empty cells, no fish and no creatures, and it is consistent |
| `World.SetCell` | wator/wator.py:127-128 | `__setitem__` changes exactly the one cell and keeps the state well formed |
| `World.Add` | wator/wator.py:180-181 | the fish joins `creatures`; nothing else changes |
| `World.Remove` | wator/wator.py:176-178 | the fish leaves `creatures` (a no-op for a non-member); nothing else changes |
| `World.Update` | wator/wator.py:168-174 | succeeds iff the fish's new position is open; then exactly that cell holds the fish and its last position is cleared; on a collision the state is unchanged |
| `World.NewFish` | wator/wator.py:17-23 | a fresh identity with age 0, no last position and the species' energy; stored in its cell (overwriting it) and added to `creatures` |
| `World.Grow` | wator/wator.py:35-36 | the age goes up by one; nothing else changes |
| `World.Die` | wator/wator.py:38-40 | the cell at the fish's recorded position is cleared and the fish leaves `creatures`; its record stays |
| `World.Candidates` | wator/wator.py:43-44 | the comprehension keeps exactly the listed positions that meet the criterion and is no longer than the list |
| `World.Choose` | wator/wator.py:45 | `None` exactly when there is no candidate, otherwise one of the candidates |
| `World.PickDirection` | wator/wator.py:42-45 | `None` exactly when none of the four neighbours is open, otherwise an open neighbour |
| `World.PickMeal` | wator/wator.py:90-93 | `None` exactly when no neighbour holds a prey, otherwise a neighbour holding a prey |
| `World.Move` | wator/wator.py:47-50 | the record takes the target and remembers the old position even on a collision; succeeds iff the target is open, and then the old cell is cleared and the target holds the fish |
| `World.Spawn` | wator/wator.py:52-56 | below maturity nothing changes; otherwise the age is reset, and with a last position a newborn of the same species (with that species' starting energy) is stored there, joins `creatures`, and no other cell or record changes |
| `World.FishUpdate` | wator/wator.py:58-63 | never raises (the chosen cell is open); the fish ends on the chosen open neighbour remembering its old cell, or stays put when there is none; its age becomes 0 once age + 1 reaches maturity, else age + 1; only its record changes and only newborns are created |
| `World.Eat` | wator/wator.py:68-70 | the prey leaves `creatures` and its cell is cleared, no other cell or record changes; the result is its species' yield |
| `World.PredatorGrow` | wator/wator.py:79-83 | age + 1 and energy − 1; when the energy is no longer positive the predator's cell is cleared and it leaves `creatures`, otherwise grid and creatures are unchanged |
| `World.Feed` | wator/wator.py:86-87 | eating the meal adds its yield to the predator's energy and changes no other record; the meal leaves `creatures` and its recorded cell is cleared, no other cell changes |
| `World.Chomp` | wator/wator.py:85-88 | the predator's record moves to the meal's cell, remembers its old cell and gains the prey's yield |
| `World.PredatorUpdate` | wator/wator.py:95-113 | creates no fish (the spawn does nothing); when no collision is raised the predator is one tick older, stands on the meal's cell, else the chosen open neighbour, else where it was, and its energy is e + yield − 1 after a meal and e − 1 otherwise |
| `World.Hunt` | wator/wator.py:96-102 | chomp, move or stay keeps the predator a predator of the same age and creates no fish; it ends on the meal's cell with the yield added, else on the chosen open neighbour, else where it was |
| `World.CritterUpdate` | wator/wator.py:185 | one creature's update changes only its own record and creates only newborns |
| `World.Tick` | wator/wator.py:183-185 | the tick keeps the state well formed and its table only grows |
| `WorldProperties.ChooseCovers` | wator/wator.py:45 | every candidate is chosen by some draw |
| `WorldProperties.PickDirectionCovers` | wator/wator.py:42-45 | every open neighbour is chosen by some draw |
| `WorldProperties.PickMealCovers` | wator/wator.py:90-93 | every neighbour holding a prey is chosen by some draw |
| `WorldProperties.NewFishKeepsConsistent` | wator/wator.py:17-23 | constructing a fish on an open cell keeps the world consistent |
| `WorldProperties.DieKeepsConsistent` | wator/wator.py:38-40 | a live fish's death keeps the world consistent, removes it, and opens its cell |
| `WorldProperties.MoveKeepsConsistent` | wator/wator.py:47-50 | a live fish moving to an open cell succeeds, keeps the world consistent, occupies the target and opens its old cell |
| `WorldProperties.GrowKeepsConsistent` | wator/wator.py:35-36 | growing keeps the world consistent |
| `WorldProperties.SpawnKeepsConsistent` | wator/wator.py:52-56 | spawning keeps the world consistent when there is no last position or it is open |
| `WorldProperties.ChompKeepsConsistent` | wator/wator.py:85-88 | in a consistent world chomp succeeds, the prey is gone, the predator stands on its cell with exactly the yield added, its old cell is open, and the world stays consistent |
| `WorldProperties.PredatorGrowKeepsConsistent` | wator/wator.py:79-83 | a live predator starves exactly when its energy drops to 0 or below, and then its cell is open; the world stays consistent |
| `WorldProperties.PredatorUpdateKeepsConsistent` | wator/wator.py:95-107 | a live predator's update in a consistent world never collides, keeps it consistent, creates no fish and ages the predator by one |
| `WorldProperties.PreyMoveKeepsConsistent` | wator/wator.py:58-63 | a live prey with an open neighbour moves without collision and keeps the world consistent; once mature its newborn stands in the cell it left |
| `WorldProperties.StuckPreyKeepsConsistent` | wator/wator.py:58-63 | a live prey that cannot move keeps the world consistent when its spawn cell is open |
| `WorldProperties.TickTouchesOnlySnapshot` | wator/wator.py:183-185 | a tick changes only the records of fish in its snapshot, every fish created during it is a newborn (age 0, no last position), and the snapshot names only fish that existed before the tick, so none created during it is updated |
| `WorldProperties.PredatorEatsPrey` | wator/wator.py:95-107 | after a predator eats, the world is consistent, the predator stands on the meal's cell with energy e + yield − 1, but the eaten prey's record still names that cell |
| `WorldProperties.MovingFishVacates` | wator/wator.py:168-174 | a moving prey, live or dead, leaves an empty cell (or its newborn) behind, whatever stood there |
| `WorldProperties.EatenPreyBlanksPredator` | wator/wator.py:171 | an eaten prey that still moves clears the cell of a live predator, so the world becomes inconsistent |
| `WorldProperties.EatingKeepsOpenCell` | wator/wator.py:95-107 | a cell that is open before a predator eats is still open after its update |
| `WorldProperties.TickBreaksConsistency` | wator/wator.py:184-185 | from a consistent world, a predator that eats a prey with an open neighbouring cell, followed by that prey's own update, leaves the world inconsistent whatever the prey's draw |
| `WorldProperties.TickOfTwo` | wator/wator.py:184-185 | a tick over two fish whose first update succeeds is the two updates in order |
| `WorldProperties.StuckPreyOverwrites` | wator/wator.py:52-56 | a mature prey that cannot move spawns onto the live fish in its last position, which keeps its place in `creatures` but loses its cell |
| `WorldProperties.StuckWorldOverwrites` | wator/wator.py:58-63 | a concrete consistent 2 × 1 world in which such an update makes the world inconsistent |
| `Wator.Toroid.constructor` | wator/wator.py:118-122 | the new toroid is `World.Empty` of its dimensions |
| `Wator.Toroid.Get` | wator/wator.py:124-125 | `__getitem__` returns the cell, which holds a known fish or nothing |
| `Wator.Toroid.Put` | wator/wator.py:127-128 | `__setitem__` leaves `World.SetCell` of the old state |
| `Wator.Toroid.Open` | wator/wator.py:162-163 | true exactly when the cell is empty |
| `Wator.Toroid.Contains` | wator/wator.py:165-166 | true exactly when the cell holds a fish of the species |
| `Wator.Toroid.Update` | wator/wator.py:168-174 | leaves `World.Update` of the old state and reports whether it raised |
| `Wator.Toroid.Remove` | wator/wator.py:176-178 | leaves `World.Remove` of the old state |
| `Wator.Toroid.Add` | wator/wator.py:180-181 | leaves `World.Add` of the old state |
| `Wator.Toroid.NewFish` | wator/wator.py:17-23 | leaves `World.NewFish` of the old state and returns the new fish's identity |
| `Wator.Toroid.Grow` | wator/wator.py:35-36 | leaves `World.Grow` of the old state |
| `Wator.Toroid.Die` | wator/wator.py:38-40 | leaves `World.Die` of the old state |
| `Wator.Toroid.Candidates` | wator/wator.py:43-44 | the loop computes `World.Candidates` of the listed positions |
| `Wator.Toroid.PickDirection` | wator/wator.py:42-45 | returns `World.PickDirection` for the draw |
| `Wator.Toroid.Move` | wator/wator.py:47-50 | leaves `World.Move` of the old state and reports whether it raised |
| `Wator.Toroid.Spawn` | wator/wator.py:52-56 | leaves `World.Spawn` of the old state |
| `Wator.Toroid.FishUpdate` | wator/wator.py:58-63 | leaves `World.FishUpdate` of the old state and reports whether it raised |
| `Wator.Toroid.Eat` | wator/wator.py:68-70 | leaves `World.Eat` of the old state and returns the yield |
| `Wator.Toroid.PredatorGrow` | wator/wator.py:79-83 | leaves `World.PredatorGrow` of the old state |
| `Wator.Toroid.Feed` | wator/wator.py:86-87 | leaves `World.Feed` of the old state |
| `Wator.Toroid.Chomp` | wator/wator.py:85-88 | leaves `World.Chomp` of the old state and reports whether it raised |
| `Wator.Toroid.PickMeal` | wator/wator.py:90-93 | returns `World.PickMeal` for the draw |
| `Wator.Toroid.PredatorUpdate` | wator/wator.py:95-113 | leaves `World.PredatorUpdate` of the old state and reports whether it raised |
| `Wator.Toroid.CritterUpdate` | wator/wator.py:185 | leaves `World.CritterUpdate` of the old state and reports whether it raised |
| `Wator.Toroid.Snapshot` | wator/wator.py:184 | lists every live creature exactly once |
| `Wator.Toroid.Advance` | wator/wator.py:183-185 | updates exactly the creatures live at the start, each once, in the returned order; the result is `World.Tick` of the old state, stopping at the first collision |

## Left out

- `Toroid.stock` (wator/wator.py:187-194): a rejection-sampling loop over `random.randint` that need not terminate. `Toroid.NewFish` places one fish at a caller-chosen cell instead.
- `run_terminal.py`: console rendering and the endless sleep loop that drives the simulation, all I/O.
- Logging and `__repr__`: they only build diagnostic strings.
- The `configuration` module: it is not part of this model. Its values are the `Config` parameter.
- The distribution of the random choices: only membership in the candidate list is stated. The draws are parameters.
- `Toroid.Get`, `Toroid.Put`: Python's negative and out-of-range list indexing is not modelled. Positions must lie in the grid. Every position the engine computes does.
- Instances of the plain `Fish` class: a fish is a prey or a predator. The engine itself only creates those, through `spawn`.
- `World.Update`, `Toroid.Update`: they require a last position. The source calls `update` only from `move`, which sets one; without one, clearing the last position (wator/wator.py:171) reads the row of `None` in `__setitem__` (wator/wator.py:128) and raises `AttributeError`, after line 170 has already stored the fish in its new cell.
- `Toroid.Advance`: it takes exactly one draw per creature in its snapshot.
- `Toroid.PredatorUpdate`: the source draws once in `pick_meal` and again in `pick_direction`; the model uses the same draw for both. The first draw matters only when there is a meal, and then the second is never made, so no outcome is lost.
- Object identity: the back-reference `environment` of each fish is implicit. Every fish belongs to the one toroid whose table holds it.
- `WorldProperties.TickBreaksConsistency`: stated over the two updates of a predator and the prey it ate. `WorldProperties.TickOfTwo` identifies those two updates with the tick over the snapshot `[predator, prey]`.
