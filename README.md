# Dodger game engine in Dafny

A model of the game-state engine of `dodger.c`, a single-screen arcade game in which a square
player dodges square obstacles that fall from the top of an 800 x 600 window. Positions, sizes and
speeds live in the unit square (y grows downward) and are modelled as `real`.

The model is split the way the engine is:

- `random.dfy` (module `Random`): `genRandDouble` as a pure map from a supplied fraction
  `r = rand() / RAND_MAX` in [0, 1] to `min + r * (max - min)`.
- `player.dfy` (module `Player`): the player's constants, the signed step `(pos - neg) * speed`
  and the two-branch clamp of `movePlayer`.
- `difficulty.dfy` (module `Difficulty`): the spawn-probability controller of
  `tryCreateObstacle` (halve and floor at 0.001 after a spawn, multiply by 1.5 and cap at 0.05
  after a rejection).
- `obstacles.dfy` (module `Obstacles`): the obstacle record, a table slot as `Option<Obstacle>`
  (`None` stands for NULL), and the functions that say what `createObstacle` and
  `moveObstacles` do to the table, with lemmas relating them to the number of occupied slots.
- `collision.dfy` (module `Collision`): C's `(int)` cast (truncation toward zero), the integer
  box test `pairCollision`, and the pixel boxes `checkCollision` builds (the obstacle's side is
  scaled by (800 + 600) / 2.0 = 700).
- `game.dfy` (module `Dodger`): the globals as one class `Game` whose obstacle table is an
  `array<Option<Obstacle>>` of 25 slots beside an `obstacleCount` field; one method per engine
  function, proved against the functions above; the per-frame update, the play loop with the
  top-score update, and the restart.

`rand()` is a stream `rand: nat -> real` of fractions fixed when the game is built, with a field
`randCalls` counting the draws taken. This keeps the order of draws observable: a full table takes
no draw, a rejected attempt takes one, a spawn takes four (gate, x, size, speed, in that order).

The invariant `Game.Valid()` says that the table has 25 slots, that `obstacleCount` equals the
number of live slots (so it never exceeds 25), that every live obstacle has x in [0, 1], y in
[0, 1 - size], size in [0.05, 0.1] and speed in [0.001, 0.01], and that the probability is in
[0.001, 0.05]. Every operation that runs inside the game keeps it; `freeObstacles` alone breaks
the count part, and `resetGame` restores it.

The per-frame update is also a pure function `FrameStep` on a `Snapshot` of the globals the frame
touches. `Game.Frame` is proved to move the object's state exactly as `FrameStep` moves its
snapshot, and the play loop returns the ghost trace of snapshots it passed through, so its contract
can say that no frame before the last one collided.

Where the code does something a reader might not expect, the model follows the code:

- `genRandDouble` can return `max` itself (`rand()` may equal `RAND_MAX`), so draws lie in
  [min, max], not [min, max).
- The probability updates are not strict at the bounds: a spawn at 0.001 leaves 0.001 and a
  rejection at 0.05 leaves 0.05 (`Difficulty.FixedAtBounds`).
- `freeObstacles` nulls every slot but leaves `obstacle_count`; only `resetGame` sets it to 0.
- `createObstacle` returns nothing; on a full table it does nothing and draws nothing.
- There is no tick while the game is over: the play loop ends at the first collision.

## Model

| member | source | states |
|---|---|---|
| `Random.GenRandDouble` | dodger.c:81-85 | for a fraction r and min <= max the value lies in [min, max]; r = 0 gives min and r = 1 gives max |
| `Random.GenRandDoubleMonotone` | dodger.c:81-85 | a larger draw never gives a smaller value |
| `Player.Step` | dodger.c:88-95 | the pre-clamp step is 0 when the two opposing flags are equal, +player_speed or -player_speed otherwise |
| `Player.Clamp` | dodger.c:89-100 | the result lies in [0, 1 - extent]; an in-range coordinate is left unchanged; otherwise it snaps to 0 or to 1 - extent |
| `Player.ClampIdempotent` | dodger.c:89-100 | clamping twice is clamping once |
| `Player.StartYPulledBack` | dodger.c:95-97 | from the reset position y = 1.0, one move gives y = 0.95 whatever the flags |
| `Difficulty.DecreaseProbability` | dodger.c:142-145 | after a spawn the probability is at least 0.001, stays in [0.001, 0.05] if it was there, never increases from an in-range start, strictly decreases above 0.001, and is exactly halved when the half is not below 0.001 |
| `Difficulty.IncreaseProbability` | dodger.c:147-150 | after a rejection the probability is at most 0.05, stays in [0.001, 0.05] if it was there, never decreases, strictly increases below 0.05, and is exactly multiplied by 1.5 when that is not above 0.05 |
| `Difficulty.NextProbability` | dodger.c:139-152 | one attempt keeps the probability in range; a spawn never raises it and a rejection never lowers it |
| `Difficulty.FixedAtBounds` | dodger.c:142-150 | neither update is strict at its own bound |
| `Difficulty.RunController` | dodger.c:139-152 | any sequence of attempts from an in-range start keeps the probability in [0.001, 0.05] |
| `Obstacles.Occupied` | dodger.c:55-57 | the number of non-null slots never exceeds the table size |
| `Obstacles.OccupiedFull` | dodger.c:140 | the count equals the table size exactly when every slot is taken, so a count below 25 means a free slot exists |
| `Obstacles.OccupiedEmpty` | dodger.c:154-162 | the count is zero exactly when every slot is null |
| `Obstacles.OccupiedUpdate` | dodger.c:133-134 | overwriting one slot changes the count by the slot that left and the slot that arrived |
| `Obstacles.NewObstacle` | dodger.c:128-132 | an obstacle built from three fractions starts at y = 0 with x in [0, 1], size in [0.05, 0.1] and speed in [0.001, 0.01] |
| `Obstacles.FirstFree` | dodger.c:123-127 | the index found is a null slot and every slot before it is taken; no index is found only when every slot is taken |
| `Obstacles.Place` | dodger.c:121-137 | createObstacle's effect on the table as a value keeps the table's length |
| `Obstacles.PlaceEffect` | dodger.c:121-137 | on a table with a null slot, the lowest null slot gets the new obstacle, every other slot is unchanged and the count rises by one; on a full table nothing changes |
| `Obstacles.PlaceWellFormed` | dodger.c:128-133 | placing an in-range obstacle keeps every live obstacle in range |
| `Obstacles.AdvanceSlot` | dodger.c:106-116 | a null slot stays null; a surviving obstacle has y raised by its own speed, x, size and speed unchanged, and ends with y <= 1 - size; a freed one had passed 1 - size |
| `Obstacles.AdvanceAll` | dodger.c:103-119 | the table after moveObstacles has the same length and every slot advanced on its own |
| `Obstacles.ExitCount` | dodger.c:111-116 | the slots freed by a move are at most the slots that were live |
| `Obstacles.AdvanceAllCount` | dodger.c:103-119 | the count after the move plus the number of freed slots is the count before |
| `Obstacles.AdvanceAllWellFormed` | dodger.c:110-116 | the move keeps every live obstacle in range |
| `Obstacles.AdvanceEmpty` | dodger.c:103-119 | moving an empty table leaves it empty and frees nothing |
| `Collision.Trunc` | dodger.c:182-194 | the `(int)` cast rounds toward zero: for v >= 0 the greatest integer not above v, for v < 0 the least integer not below v |
| `Collision.PairCollision` | dodger.c:164-178 | true exactly when bottomA > topB, topA < bottomB, rightA > leftB and leftA < rightB |
| `Collision.PairCollisionSymmetric` | dodger.c:164-178 | swapping the two boxes does not change the answer |
| `Collision.SharedEdgeIsNoCollision` | dodger.c:164-178 | boxes that only share an edge do not collide |
| `Collision.PlayerBox` | dodger.c:182-185 | for a non-negative position the player's pixel box is 40 pixels wide and 30 pixels high |
| `Collision.ObstacleBox` | dodger.c:192-194 | an obstacle's pixel box is square; for an in-range obstacle its side is 35 to 70 pixels and its corner is inside the window |
| `Collision.HitIsOverlap` | dodger.c:192-197 | a hit on one obstacle means the player's rectangle and the obstacle's square overlap in window coordinates up to the one or two pixels truncation loses; an overlap wider than that margin is always a hit |
| `Collision.CollisionNeedsObstacle` | dodger.c:186-199 | a collision needs a live obstacle, so a table whose count of non-null slots is zero never collides |
| `Collision.EmptyTableNoCollision` | dodger.c:181-200 | a table with no live slot never collides with the player |
| `Dodger.SpawnGate` | dodger.c:140 | a spawn happens exactly when the table is not full and the draw is below the probability |
| `Dodger.DrawsUsed` | dodger.c:128-141 | a full table takes no draw (the condition short-circuits); otherwise a rejection takes one draw and a spawn four |
| `Dodger.TrySpawn` | dodger.c:139-141 | the spawn attempt's table keeps its length, and a full table is left unchanged |
| `Dodger.FrameStep` | dodger.c:321-323 | one frame keeps the player inside [0, 0.95] on both axes, never lowers the score, never returns a draw, keeps the table's length, and keeps the probability in [0.001, 0.05] |
| `Dodger.TraceExtends` | dodger.c:303-330 | a trace of frames extended by the state after one more frame is still a trace, and gains no collision before its new last state unless that state collides |
| `Dodger.TraceScore` | dodger.c:303-330 | along any trace of frames the score never decreases (it only rises in moveObstacles) |
| `Dodger.Game.Valid` | dodger.c:55-57 | the invariant keeps obstacle_count between 0 and 25 |
| `Dodger.Game.constructor` | dodger.c:29-57 | the initial globals: score 0, player at (0.5, 1.0), empty table, count 0, probability 0.001, no draws taken, the supplied top score; the invariant holds |
| `Dodger.Game.Draw` | dodger.c:83 | the next value of the draw stream, a fraction; one more draw taken |
| `Dodger.Game.MovePlayer` | dodger.c:87-101 | each coordinate becomes the clamp of the old one plus its step; afterwards 0 <= x <= 0.95 and 0 <= y <= 0.95 whatever the flags and the prior position; with equal opposing flags an in-range coordinate is unchanged |
| `Dodger.Game.MoveObstacles` | dodger.c:103-119 | the table becomes the advanced table, score rises and the count falls by the number of freed slots, and the invariant is kept |
| `Dodger.Game.CreateObstacle` | dodger.c:121-137 | the table becomes the old table with the new obstacle in the first null slot; with a free slot the count rises by one and three draws are taken; otherwise nothing changes and no draw is taken; the invariant is kept |
| `Dodger.Game.TryCreateObstacle` | dodger.c:139-152 | the table, count, probability and draws taken follow the spawn gate; on a full table no draw is taken and the table is unchanged; the invariant, and so the probability range and count <= 25, is kept |
| `Dodger.Game.FreeObstacles` | dodger.c:154-162 | every slot is null afterwards and obstacle_count is untouched |
| `Dodger.Game.CheckCollision` | dodger.c:181-200 | true exactly when `Collision.Collides` holds, i.e. some live slot passes `Collision.Hits` (its pixel box overlaps the player's pixel box; `Collision.HitIsOverlap` gives that test's meaning); nothing changes |
| `Dodger.Game.ResetGame` | dodger.c:285-292 | score 0, player at (0.5, 1.0), every slot null, count 0, probability 0.001, and the invariant restored from any state |
| `Dodger.Game.UpdateTopScore` | dodger.c:350-351 | the top score never decreases, ends at least the score, and is either the old top score or the score |
| `Dodger.Game.Frame` | dodger.c:321-326 | movePlayer, tryCreateObstacle, moveObstacles and checkCollision in that order: the new state is the per-frame function of the old one and the input, the invariant is kept, and the result is whether the new state collides |
| `Dodger.Game.TracedFrame` | dodger.c:321-326 | one recorded frame: the state after it extends the trace, and the result is whether that state collides |
| `Dodger.Game.RunFrames` | dodger.c:303-347 | the loop's states form a trace of the per-frame function starting from the old state and ending at the current one; no state before the last collides and no input before the last quits; it stops early only on quit or a collision; the game is over exactly when the last state collides |
| `Dodger.Game.PlayGame` | dodger.c:303-355 | the frame loop's states form a trace of the per-frame function with no collision before the last state and no quit before the last input; the loop stops after the frame carrying quit or at the first collision; the game is over exactly when the last state collides; the player ends in range, the score never decreases, and the top score ends at least the score |
| `Dodger.Game.Restart` | dodger.c:357-361 | after answering "try again" the game is running again from the reset state, and the empty table collides with nothing |
| `Dodger.NeverSpawning` | dodger.c:321-330 | with every draw 1.0, any number of idle frames keeps the invariant, leaves every slot null, the score 0, no collision, and exactly one draw taken per frame |

## Left out

- SDL window, renderer, textures, fonts and all drawing (`loadImage`, `displayTexture`,
  `displayPlayer`, `displayObstacle`, `displayObstacles`, `displayScore`): user interface over a
  foreign library.
- The game-over message box and library shutdown in `gameOver`, and the start-up in `main`:
  foreign calls and process lifecycle. `Restart` models only the "yes" answer's effect.
- Reading and writing the `top_score` file: file I/O. The constructor takes the value read, and
  only the max update is kept.
- SDL event polling and the key-to-flag mapping (the Up key sets `player_down`, and so on): input
  plumbing. Each frame's four flags and quit flag are an `Input` value.
- Audio calls: foreign library.
- `rand()` itself: a library generator. Its values are the supplied stream `rand`, each assumed to
  be in [0, 1] as `rand() / RAND_MAX` is.
- `malloc` and `free`: heap obstacles are values in `Option` slots, so aliasing of obstacle
  structs is not modelled (the source never shares one).
- IEEE-754 rounding: all `double` arithmetic is exact real arithmetic. Results that depend on
  rounding (for instance whether `0.05 * 600` truncates to 29 or 30) are not modelled.
- Integer width: `score`, `top_score` and the pixel coordinates are unbounded integers; 32-bit
  overflow and the undefined behaviour of an out-of-range `(int)` cast are not modelled.
- The recursive `playGame()` call after a restart: modelled as `Restart` followed by another
  `PlayGame`, not as recursion; re-reading the top-score file on re-entry is file I/O.
- A scenario with one obstacle placed just above the player's top edge, at y = 1 - size - e, and
  a collision on the next frame: `moveObstacles` (dodger.c:110-116) frees the obstacle before
  `checkCollision` runs whenever its speed exceeds e, so the outcome depends on e and no lemma
  states it.
- `PlayGame`: an input sequence that ends without a quit frame stands for the host no longer
  driving the loop; the C loop would keep waiting for events.
