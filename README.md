# Platform game simulation engine, in Dafny

This project models the simulation core of a small browser platform game
(`code/game.js`) and proves properties of it. The game parses a level from
text into a grid of `empty`, `wall` and `lava` cells and a list of actors:
a player, coins that wobble in place, and lava that bounces or drips. It
then advances the world one `State.update` at a time. In each step, every
actor is updated against the level. A player touching a lava cell loses.
Otherwise every non-player actor that overlaps the player collides, in list
order: a coin removes itself and wins when it was the last coin, and lava
loses.

Modules, one per part of the engine:

- `Wrappers` defines `Option` and `Result`.
- `Vectors` defines `Vec`.
- `Actors` defines the three actor classes as one datatype, with their
  sizes and `create` functions.
- `Levels` covers the legend, `trim`/`split`, and the `Level` constructor.
  The constructor is modelled as a method returning a `Result`.
- `Collision` covers `State.touches`, a nested loop with an early return
  that is specified by a footprint predicate, and `overlap`.
- `Behaviour` covers `Player.update`, `Coin.update` and `Lava.update`.
  Player and lava updates are methods specified by ghost functions; the coin
  update is a function.
- `World` is the `State` class and the collision pass. The class has the
  level, the actor objects, the mutable list `actors` and the mutable
  `status`. The list holds handles (indices) into the objects. This keeps
  the object identity that `Coin.collide` filters on (`actor != this`).
- `WorldFacts` holds what the collision pass and a whole step do, stated
  against reference definitions, plus properties of runs of many steps.

Coordinates and speeds are exact `real`s. `Math.floor` is `r.Floor` and
`Math.ceil` is `-((-r).Floor)`. Two things are parameters:

- `Math.sin`, as `sin: real -> real`, about which nothing is assumed;
- the random initial coin phase, as a function `wobble(x, y)` of the
  coin's cell.

The arrow keys are a record of three booleans.

## Model

| member | source | states |
|---|---|---|
| Actors.Actor.Size | code/game.js:22 | each actor class has a box of positive width and height: player 0.8 x 1.5, coin 0.6 x 0.6, lava 1 x 1 (lines 22, 73, 105) |
| Vectors.Vec.Plus | code/game.js:6-8 | defines `Vec.plus`: the component-wise sum |
| Vectors.Vec.Times | code/game.js:10-12 | defines `Vec.times`: both components scaled by the factor |
| Actors.PlayerCreate | code/game.js:25-27 | a player spawns 1.5 above its marker position, at rest |
| Actors.CoinCreate | code/game.js:87-89 | a coin spawns at its base position with the given phase |
| Actors.LavaCreate | code/game.js:126-136 | `=` moves at (2,0) with no reset, `\|` at (0,2) with no reset, any other character at (0,3) with reset at its spawn position |
| Actors.HasPlayer | code/game.js:191 | defines when `find(actor => actor.type == "player")` finds something: some actor is a player |
| Levels.LevelChars | code/game.js:143-147 | defines `levelChars`: `.` empty, `#` wall, `+` lava cells; `@` the player, `o` a coin, `=`, `v`, `\|` lava actors |
| Levels.IsSpace | code/game.js:152 | defines the white space `trim` removes: the ECMAScript WhiteSpace and LineTerminator code points |
| Levels.Trim | code/game.js:152 | defines `trim()`: leading white space dropped, then trailing white space dropped |
| Levels.Create | code/game.js:157 | defines `type.create(new Vec(x, y), ch)`, dispatched on the legend's actor class |
| Levels.CellFor | code/game.js:155-158 | defines the cell a legend character leaves: its kind for a cell character, `empty` for an actor character |
| Levels.SpawnAt | code/game.js:155-157 | defines what one character pushes: nothing for a cell character, its created actor for an actor character |
| Levels.RowSpawns | code/game.js:154-159 | defines the actors the first n characters of a row push, in column order |
| Levels.Spawns | code/game.js:153-160 | defines the actors the first n rows push, in row-major order |
| Levels.Level.Height | code/game.js:161 | defines `height`: the number of rows |
| Levels.Level.Width | code/game.js:162 | defines `width`: the length of row 0 |
| Levels.IsMarker | code/game.js:155-157 | defines an actor character: a legend entry that is a class, not a cell kind |
| Levels.Describes | code/game.js:149-163 | defines a level built from the given lines: height, width of row 0, every row's legend cells, and the row-major spawns |
| Levels.FirstUnknown | code/game.js:155-157 | defines the character whose `type.create` throws first: not in the legend, with every character before it in row-major order in the legend |
| Levels.TrimStart | code/game.js:152 | the result is a suffix of the input, everything dropped is white space, and it does not start with white space |
| Levels.TrimEnd | code/game.js:152 | the result is a prefix of the input, everything dropped is white space, and it does not end with white space |
| Levels.TrimIsInfix | code/game.js:152 | `trim` returns the infix between leading and trailing white space, with no white space at either end |
| Levels.Split | code/game.js:152 | `split("\n")` yields at least one piece, and no piece contains a newline |
| Levels.JoinSplit | code/game.js:152 | joining the pieces of `split("\n")` with newlines gives back the text |
| Levels.SplitPiece | code/game.js:152 | splitting a newline-free piece, a newline and the rest gives that piece followed by the pieces of the rest |
| Levels.SplitLast | code/game.js:152 | text without a newline splits into itself alone |
| Levels.SplitJoin | code/game.js:152 | splitting newline-free pieces joined with newlines gives back the pieces |
| Levels.Lines | code/game.js:152 | a trimmed, split level text has at least one row |
| Levels.CellsOf | code/game.js:154-159 | a row of legend characters becomes a row of the same length whose cells are what the legend gives each character |
| Levels.ParseRow | code/game.js:154-159 | a row parses exactly when every character is in the legend; it then yields its cells and appends its spawns in column order; otherwise it fails at an unknown character of that row |
| Levels.Grid | code/game.js:153-160 | the grid of the first n rows has n rows |
| Levels.GridRows | code/game.js:153-160 | row y of the grid holds the legend cells of line y |
| Levels.ParseRows | code/game.js:153-160 | the rows parse exactly when every character is in the legend; the result is the grid and the row-major spawns; otherwise the error names the first unknown character in row-major order |
| Levels.ParseLevel | code/game.js:149-163 | the constructor succeeds exactly when every character of the trimmed text is in the legend; height is the row count, width the length of row 0, every row holds its characters' cells, and the actors are the row-major spawns; otherwise the first unknown character is reported |
| Levels.MarkersSnoc | code/game.js:157 | the count of actor characters grows by one exactly for an actor character |
| Levels.RowSpawnsCount | code/game.js:154-159 | a row pushes exactly one actor per actor character |
| Levels.SpawnsCount | code/game.js:153-160 | the level's actor list has exactly one actor per actor character of the text |
| Levels.RowSpawnsPlayer | code/game.js:157 | an `@` at column x of a row spawns a player at (x, y - 1.5) at rest |
| Levels.SpawnsPlayer | code/game.js:153-160 | an `@` at (x, y) puts `Player.create((x, y))` into the actor list, so the list has a player |
| Levels.ParsedCells | code/game.js:155-158 | an actor character's cell is `empty`, and any other character's cell is its legend cell kind |
| Collision.Floor | code/game.js:197-198 | defines `Math.floor` on exact reals |
| Collision.Ceil | code/game.js:197-198 | defines `Math.ceil` on exact reals, as the negated floor of the negation |
| Collision.Block | code/game.js:201-202 | defines the value `touches` compares: wall outside `[0, width) x [0, height)`, else `rows[y][x]`, undefined past the end of a short row |
| Collision.InFootprint | code/game.js:197-200 | defines the cells the loops scan: `floor(pos.y) <= y < ceil(pos.y + size.y)` and `floor(pos.x) <= x < ceil(pos.x + size.x)` |
| Collision.CellMatches | code/game.js:203 | defines the test `block == type` at a scanned cell |
| Collision.Touching | code/game.js:194-207 | defines what `touches` decides: some cell of the floor/ceil footprint has the given kind |
| Collision.BoxesOverlap | code/game.js:242-243 | defines the comparison of `overlap`: strict inequalities on both axes |
| Collision.Overlap | code/game.js:240-244 | defines `overlap` on two actors, through their positions and sizes |
| Collision.Touches | code/game.js:194-207 | the nested scan returns true exactly when some cell of the floor/ceil footprint holds the cell kind, counting cells outside the grid as wall |
| Collision.OverlapSymmetric | code/game.js:240-244 | `overlap(a, b) == overlap(b, a)` |
| Collision.EdgeContactIsNoOverlap | code/game.js:240-244 | boxes that only share an edge do not overlap, in either order |
| Collision.FloorCeil | code/game.js:197-198 | `Math.floor` and `Math.ceil` bracket their argument |
| Collision.FootprintAxis | code/game.js:197-200 | on one axis, a cell is in the scanned range exactly when its open unit interval meets the box's |
| Collision.TouchingIsCellOverlap | code/game.js:194-207 | `touches` holds exactly when a grid cell whose unit square strictly overlaps the box holds the kind |
| Collision.OutsideTouchesWall | code/game.js:201-203 | a box of positive size reaching outside the grid on any side touches wall |
| Collision.NegativeCoordinateTouchesWall | code/game.js:201-203 | an actor with a negative coordinate touches wall |
| Behaviour.WalkSpeed | code/game.js:34-40 | the key-chosen speed is -7, 0 or 7; it is 0 exactly when Left and Right agree, and negative exactly when only Left is held |
| Behaviour.PlayerXSpeed | code/game.js:30 | defines `playerXSpeed`: 7 |
| Behaviour.Gravity | code/game.js:31 | defines `gravity`: 30 |
| Behaviour.JumpSpeed | code/game.js:32 | defines `jumpSpeed`: 17 |
| Behaviour.WobbleSpeed | code/game.js:81 | defines `wobbleSpeed`: 8 |
| Behaviour.WobbleDist | code/game.js:81 | defines `wobbleDist`: 0.07 |
| Behaviour.KeySpeed | code/game.js:34-40 | the two key tests compute the key-chosen speed |
| Behaviour.HorizontalSpeed | code/game.js:34-44 | the horizontal speed is the key-chosen one, or 0 when the horizontally moved candidate touches wall |
| Behaviour.VerticalSpeed | code/game.js:47-55 | the vertical speed is the old one plus gravity, or -17 / 0 on a wall touch of the vertically moved candidate |
| Behaviour.CandidateX | code/game.js:41 | defines the horizontal candidate position: the old position moved by the key speed times the step |
| Behaviour.CandidateY | code/game.js:47-48 | defines the vertical candidate position: the OLD position moved by the speed after gravity times the step |
| Behaviour.NextXSpeed | code/game.js:34-44 | defines the resolved horizontal speed: 0 on a wall touch at the candidate, else the key speed |
| Behaviour.NextYSpeed | code/game.js:47-55 | defines the resolved vertical speed: the speed after gravity, or on a wall touch -17 when Up is held while falling and 0 otherwise |
| Behaviour.Moved | code/game.js:45-58 | defines the player after the two moves of lines 45 and 56, carrying the resolved speeds |
| Behaviour.PlayerNext | code/game.js:29-59 | defines the player `Player.update` returns, as the reference of `PlayerUpdate` |
| Behaviour.PlayerUpdate | code/game.js:29-59 | `Player.update` returns the player moved by both resolved speeds, with those speeds |
| Behaviour.PlayerHorizontal | code/game.js:34-45 | the new x speed is in {-7, 0, 7}; it is 0 when both or neither of Left and Right are held, and 0 on a wall touch at the x candidate position |
| Behaviour.PlayerVertical | code/game.js:47-55 | the vertical candidate moves from the old position; the new y speed is `speed.y + 30t` with no wall touch, -17 on a touch with Up held while falling, and 0 on any other touch |
| Behaviour.PlayerMoves | code/game.js:45-56 | the new position is the old one plus the new speed times the time step, on both axes |
| Behaviour.PlayerLandsOnWall | code/game.js:47-56 | a player at rest or falling whose feet are exactly on the top edge of a wall cell (`pos.y + 1.5` is that row), under a positive time step short enough not to pass through the cell (`(speed.y + 30t)·t < 2.5`), gets vertical speed 0, or -17 with Up held, and moves by it |
| Behaviour.CoinUpdate | code/game.js:80-85 | the coin keeps its base, advances its phase by 8t, and sits at base + (0, sin(phase) * 0.07) |
| Behaviour.CoinKeepsBase | code/game.js:80-85 | through any number of updates a coin keeps its base and its phase grows by 8 times the total time |
| Behaviour.LavaUpdate | code/game.js:112-124 | `Lava.update` follows the three rules of the reference lava step |
| Behaviour.LavaNext | code/game.js:112-124 | defines the lava `Lava.update` returns: moved, or on a wall touch reset for a drip and bounced in place otherwise |
| Behaviour.LavaRules | code/game.js:112-124 | with no wall touch lava moves by speed times the time step; on a touch a drip jumps to its reset with unchanged speed; any other lava stays put and reverses; reset is kept |
| Behaviour.DripKeepsReset | code/game.js:112-124 | through any number of updates a drip keeps its reset and speed |
| Behaviour.DripReturnsToSpawn | code/game.js:112-136 | a `v` drip that touches a wall returns exactly to its spawn position, however many updates came before |
| Behaviour.ActorNext | code/game.js:173 | an update keeps the actor's class, a coin's base and a lava's reset |
| Behaviour.UpdateActor | code/game.js:173 | the dispatch on the actor's class computes the reference update |
| World.Deref | code/game.js:169 | the list of actors has one entry per handle, each the object the handle names |
| World.Range | code/game.js:169 | the handles of a fresh list are 0 ... n-1, in order |
| World.Without | code/game.js:92 | filtering removes exactly the given handle, keeps the others, and never lengthens the list |
| World.WithoutRefs | code/game.js:92 | filtering keeps every handle valid |
| World.FindPlayer | code/game.js:190-192 | `find` returns the first player's index, and none exactly when there is no player |
| World.HasCoin | code/game.js:93 | defines the negation of `actors.every(actor => actor.type != "coin")`: some actor is a coin |
| World.CoinCollided | code/game.js:91-96 | a coin collision filters out that coin and sets `win` when no coin is left |
| World.Collided | code/game.js:183 | the collision dispatch keeps every handle valid |
| World.Collisions | code/game.js:181-185 | the collision loop keeps every handle valid |
| World.Frame | code/game.js:173 | `actors.map(update)` has the same length and updates each actor in place of the list, and keeps whether there is a player |
| World.State.constructor | code/game.js:167-171 | a new state holds the given level, actors (in order) and status |
| World.State.Player | code/game.js:190-192 | the getter finds a player exactly when the list has one, and the one it finds is the first player of the list: no actor before it is a player |
| World.State.View | code/game.js:167-170 | defines the state as a value: its level, the actors its list refers to in order, and its status |
| World.State.Update | code/game.js:172-188 | `State.update` returns a fresh, well-formed state whose value is the reference world step |
| World.Next | code/game.js:172-188 | defines the value `State.update` returns: updated actors; a finished state keeps its status; lava under the player loses; otherwise the ordered collisions |
| World.UpdateAll | code/game.js:173 | the loop builds the mapped actor list |
| World.CollideAll | code/game.js:181-185 | the collision loop over the pre-collision array leaves the state the collision pass prescribes |
| World.CollideAt | code/game.js:182-184 | one turn of the loop: a non-player actor collides exactly when it overlaps the player |
| World.CoinCollide | code/game.js:91-96 | `Coin.collide` filters that coin out of the list and sets `win` when no coin is left |
| World.LavaCollide | code/game.js:138-140 | `Lava.collide` sets `lost` and leaves the list alone |
| World.Collide | code/game.js:183 | the dispatch of `collide` on the object's class |
| WorldFacts.CoinHits | code/game.js:182 | the coins that overlap the player, index by index |
| WorldFacts.CoinHit | code/game.js:182 | defines a collision that `Coin.collide` handles: the actor is a coin overlapping the player |
| WorldFacts.LavaHit | code/game.js:182 | defines a collision that `Lava.collide` handles: the actor is lava overlapping the player |
| WorldFacts.LastCoinTaken | code/game.js:93-94 | defines when the pass ends in `win`: no coin is left, and some overlapping coin was visited with no overlapping lava after it |
| WorldFacts.Spared | code/game.js:92 | the surviving handles are handles of the list |
| WorldFacts.SparedMembers | code/game.js:92 | a handle survives exactly when it is not an overlapping coin already visited |
| WorldFacts.WithoutSnoc | code/game.js:92 | filtering a list with one more handle at its end |
| WorldFacts.SparedNone | code/game.js:174 | before the first visit the list holds every handle |
| WorldFacts.SparedSkip | code/game.js:181-185 | visiting an actor that is not an overlapping coin removes nothing |
| WorldFacts.SparedHit | code/game.js:181-185 | visiting an overlapping coin filters out its handle |
| WorldFacts.CollisionsRefs | code/game.js:181-185 | after n visits the list is all handles except the overlapping coins among the first n |
| WorldFacts.CollisionsRefsStep | code/game.js:181-185 | one visit changes the list only by removing an overlapping coin |
| WorldFacts.RemainingCoins | code/game.js:93 | after n visits the list has a coin exactly when some coin was not removed |
| WorldFacts.CoinsLeftStep | code/game.js:181-185 | one more visit can only remove coins, and removes none unless it is an overlapping coin |
| WorldFacts.LavaHitInStep | code/game.js:181-185 | a range of lava hits extended by one visit |
| WorldFacts.LastCoinTakenSkip | code/game.js:181-185 | visiting a non-colliding actor does not change whether the last coin was taken |
| WorldFacts.LastCoinTakenLava | code/game.js:138-140 | an overlapping lava cancels an earlier taking of the last coin |
| WorldFacts.LastCoinTakenCoin | code/game.js:91-96 | an overlapping coin takes the last coin exactly when no coin is left after it |
| WorldFacts.CollisionsStatus | code/game.js:181-185 | the status after the pass is `win` exactly when an overlapping coin took the last coin with no overlapping lava after it, `lost` exactly when otherwise some overlapping lava was visited, and `playing` otherwise |
| WorldFacts.Survivors | code/game.js:92 | the reference list without overlapping coins is never longer |
| WorldFacts.SparedSurvivors | code/game.js:181-185 | the surviving handles name exactly the updated actors without the overlapping coins, in order |
| WorldFacts.SurvivorsKeepPlayers | code/game.js:182 | removing overlapping coins keeps every player |
| WorldFacts.UpdatedPlayer | code/game.js:176 | the player of the new state is a player |
| WorldFacts.NextWhenOver | code/game.js:173-175 | a state that is not playing keeps its level and status, and its actors are the old ones updated one for one |
| WorldFacts.NextOnLava | code/game.js:176-179 | a playing state whose updated player touches a lava cell is lost, with the updated actors and no collision applied |
| WorldFacts.NextCollides | code/game.js:181-186 | otherwise the new list is the updated actors without the overlapping coins, and the status follows the collisions in list order |
| WorldFacts.NextNeverGrows | code/game.js:172-188 | a step never adds actors |
| WorldFacts.NextKeepsPlayer | code/game.js:172-188 | a step never removes the player |
| WorldFacts.WonLeavesNoCoins | code/game.js:93-94 | a step that wins leaves no coin |
| WorldFacts.LostNeedsLava | code/game.js:177-178 | a step that loses had the player on a lava cell or overlapping a lava actor |
| WorldFacts.CollisionOrderMatters | code/game.js:181-185 | with one lava and the only coin overlapping the player, lava then coin ends `win`, and coin then lava ends `lost` |
| WorldFacts.Run | code/game.js:316 | repeated updates keep a player in the list |
| WorldFacts.RunEndIsFinal | code/game.js:173-175 | once won or lost, further updates keep the status and the number of actors |
| WorldFacts.RunNeverGrows | code/game.js:172-188 | no sequence of updates adds actors |

## Left out

- DOM rendering is not modelled: `elt`, `drawGrid`, `drawActors`, `DOMDisplay` and `scrollPlayerIntoView` (code/game.js:211-284), and the pixel `scale` (code/game.js:15). They are browser output, not simulation.
- Keyboard capture is not modelled: `trackKeys` and `arrowKeys` (code/game.js:286-298) are event plumbing. Updates take a `Keys` record of three booleans.
- Level sequencing and the animation driver are not modelled: `runGame`, `runLevel` and `runAnimation` (code/game.js:300-347). This covers the one-second ending countdown and the 100 ms clamp on the time step. They are scheduling around `State.update`. `WorldFacts.Run` models only the repeated updates.
- `Math.random` in `Coin.create` (code/game.js:88) is replaced by a caller-supplied phase, `wobble(x, y)` when parsing.
- `Math.sin` (code/game.js:83) is an uninterpreted parameter, so nothing numeric is proved about the wobble offset.
- IEEE double rounding is not modelled: all arithmetic is exact over `real`.
- Behaviour.PlayerUpdate: does not model that the new player shares the old player's speed object (code/game.js:33, 57-58). The model returns a fresh speed. The old player's speed is never read again, since the old state is discarded.
- `State.touches` is a method of `State` that reads only `this.level`. It is modelled as `Collision.Touches`, taking the level directly. The actor updates likewise receive only the level.
- World.State.Update: requires a player while the state is playing. `State.player` is `undefined` without one, and `touches` then fails on `undefined.pos` (code/game.js:176-177). The code has no earlier check for a level without `@`. `Levels.SpawnsPlayer` shows when a parsed level has a player.
- The `Level` constructor does not check that rows have equal length. The width comes from row 0 alone (code/game.js:162). So the model accepts ragged rows, and `touches` reads a missing cell past the end of a short row as `undefined`, matching no kind (`Collision.Block`). This follows the code: a stricter rule requiring equal row lengths is not enforced by it.
- An unknown character makes `type.create` throw (code/game.js:157). It is modelled as an `UnknownCharacter` error naming the first such character in row-major order.
- The `type` getters (code/game.js:63-65, 76-78, 108-110) are the datatype's constructor tests, such as `Player?`.
