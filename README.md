# RoboRally rules engine, message codec and GIF decoder in Dafny

This project models the rules core of a RoboRally-style board game written
in Java, and proves properties of that model. It also models two codecs the
game ships with.

- **Boards.** Two revisions of the board are covered.
  - The older board (`Board.java`): the wall rule `canGo` and its four
    wall classifiers, one-cell moves, recursive all-or-nothing push chains,
    the off-board and hole test, and the scan that places the robots on
    their start tiles.
  - The newer board (`board/Board.java`):
    - moves that may back up;
    - respawn at a backup cell or at an alternative one;
    - the 3×3 neighbourhood and the start-position scan;
    - the laser overlay's vertical / horizontal / crossed state machine.
- **Robots** (`objects/player/Player.java`):
  - damage and life tokens, and the card quota `9 - damage`;
  - flags collected in order;
  - backup positions and power-down toggles;
  - the robot's laser.
- **Board lasers** (`objects/Laser.java`): a beam that stops at walls and
  robots.
- **Turn phases** (`RallyGame.java`):
  - card execution;
  - the belt phase: intents, then cancelling colliding intents, then
    moving;
  - the belt-corner turn table;
  - the two laser phases;
  - elimination and respawn between the two robot lists;
  - the order of the phases within a register.
- **Tile ids** (`enums/TileID.java`): the constants the wall, start, laser
  and robot lookups depend on, and `getRobotId`.
- **Network messages** (`lan/Converter.java`): the card serialiser and
  parser, and the session messages.
- **The host's move bookkeeping** (`LAN/GameServer.java`): the per-player
  card lists and the client list.
- **GIF decoding** (`screens/gifscreen/GifDecoder.java`), following the
  GIF89a specification:
  - the logical screen descriptor (section 18);
  - the colour tables (sections 19 and 21);
  - the image descriptor (section 20);
  - the graphic control extension (section 23);
  - interlaced row order (appendix E);
  - variable-length-code LZW (appendix F);
  - frame disposal;
  - the frame list.

## How the model is built

Each Java class whose fields change becomes a Dafny `class` with the same
fields, `modifies` clauses and loops with their invariants: `Player`, both
`Board`s, `Laser`, `RallyGame` (here `Game`), `GameServer` and
`GifDecoder`. Positions, cards, flags and tiles are values. Where a method
computes something a function can state (a push, a move, a scan, a decoded
field), it is proved against that function, and the function's properties
are proved as lemmas. Other methods, such as `NewFrame`,
`Player.DecrementDamageTokens` and `GameServer.Remove`, state their new
state field by field, together with the invariants they keep. The pure parts of the Java code are written
as Dafny functions:

- the wall rule;
- the push chain on a list of cells;
- the beam;
- the belt turn table;
- the tokeniser;
- the card and message formats;
- the interlace order;
- the bit arithmetic of the GIF fields.

Java semantics are written out where they matter:

- `int` wrap-around (`Int32`);
- the remainder operator (`Rem`);
- `1 << n` with its shift distance taken modulo 32 (`ShiftOne`);
- `>>`, `&` and `|`;
- a byte read as `-1` at the end of the stream;
- `null` as `Option`;
- exceptions as an `Outcome` (`Pass` or `Thrown(name)`) or a `Result`.

Modules and files:

| module | file | Java |
|---|---|---|
| `Wrappers` | wrappers.dfy | `Option`, `Result` |
| `Geometry` | geometry.dfy | cells, directions, rotations |
| `TileIds` | tile_ids.dfy | `TileID` |
| `Text` | text.dfy | `String.valueOf(int)`, `Integer.parseInt`, `contains` |
| `Cards` | cards.dfy | `ProgramCard` |
| `Walls` | walls.dfy | the wall rule of `Board.java` |
| `Pushing` | pushing.dfy | the push chain of `Board.java` |
| `LegacyBoard` | legacy_board.dfy | `Board.java` |
| `Terrain` | terrain.dfy | `board/Board.java` layers, start scan, neighbourhood, overlay |
| `Robots` | robots.dfy | `Player`, `board/Board`, `Laser` |
| `RallyGame` | rally_game.dfy | `RallyGame` |
| `Converter` | converter.dfy | `Converter` |
| `Server` | game_server.dfy | `GameServer` |
| `GifFormat` | gif_format.dfy | GIF field arithmetic |
| `Interlace` | interlace.dfy | interlaced row order |
| `GifFrames` | gif_frames.dfy | `setPixels`, `DixieMap.getPixels` |
| `GifDecoding` | gif_decoder.dfy | `GifDecoder` |

`Player` and the new `Board` refer to each other, so they share the module
`Robots`, and `Laser` joins them.

## Model

Source paths are relative to the repository root.

| member | source | states |
|---|---|---|
| Geometry.Neighbour | src/main/java/inf112/skeleton/app/Board.java:324-343 | One step in direction `d`: one further along `d`, the other coordinate unchanged; the result is a new value, so the argument is never changed. |
| Geometry.Shift | src/main/java/inf112/skeleton/app/RallyGame.java:269-275 | `n` single steps in `d` land `n` further along `d` on the same line. |
| Geometry.NeighbourThenBack | src/main/java/inf112/skeleton/app/board/Board.java:157-159 | A step in `d` followed by a step in the turned-around direction returns to the start cell, so backing up undoes a forward step. |
| Geometry.TurnsCompose | src/main/java/inf112/skeleton/app/RallyGame.java:258-267 | Four right turns, four left turns and two half turns are the identity; a left turn undoes a right turn; two right turns are a half turn. |
| Geometry.ShiftFront | src/main/java/inf112/skeleton/app/RallyGame.java:268-276 | Stepping once and then `n` more times lands where `n + 1` steps from the start land. |
| Walls.WallIds | src/main/java/inf112/skeleton/app/Board.java:201-255 | Each `hasXWall` holds exactly for the plain wall, the two corner walls and the laser wall on that side, and is false for an empty cell. |
| Walls.NoOppositeWalls | src/main/java/inf112/skeleton/app/Board.java:201-255 | No tile counts as walled on two opposite sides. |
| Walls.CanGoSpec | src/main/java/inf112/skeleton/app/Board.java:163-195 | `canGo` fails exactly when the robot's cell is walled on side `d` or the neighbouring cell is walled on the opposite side. |
| Walls.CanGoSymmetric | src/main/java/inf112/skeleton/app/Board.java:163-195 | An edge can be crossed forwards exactly when it can be crossed back. |
| Walls.OtherWallsIgnored | src/main/java/inf112/skeleton/app/Board.java:163-195 | A wall on any other side of the robot's cell does not stop a move. |
| Pushing.FirstAt | src/main/java/inf112/skeleton/app/Board.java:360-367 | The robot `getPlayer` finds: it stands at `p` and no robot earlier in the list does. |
| Pushing.CanPushAtRunEnd | src/main/java/inf112/skeleton/app/Board.java:384-389 | `canPush` holds exactly when the last robot of the unbroken line starting at `p` can go in `d`. |
| Pushing.RunOccupied | src/main/java/inf112/skeleton/app/Board.java:384-389 | Every cell of that line holds a robot. |
| Pushing.RunEndsBeforeFreeCell | src/main/java/inf112/skeleton/app/Board.java:384-389 | The cell just past the end of the line is free. |
| Pushing.RunIndicesAhead | src/main/java/inf112/skeleton/app/Board.java:400-422 | Every robot a push moves stands at or ahead of the pushed robot along `d`. |
| Pushing.PushMovesRun | src/main/java/inf112/skeleton/app/Board.java:400-422 | `pushPlayer` moves exactly the robots of the line one cell in `d`; every other robot stays where it is. |
| Pushing.RunIndicesCount | src/main/java/inf112/skeleton/app/Board.java:400-422 | A push moves as many robots as the line is long, none of them twice. |
| Pushing.MoveSpec | src/main/java/inf112/skeleton/app/Board.java:275-317 | `movePlayer` is all or nothing: with the mover's edge walled or the line ahead blocked nobody moves; otherwise the mover and the line each move exactly one cell in `d`. |
| Pushing.CanPushAllSpec | src/main/java/inf112/skeleton/app/Board.java:384-389 | The checked line rule holds exactly when every robot of the line can cross its own forward edge. |
| Pushing.CanPushAllRun | src/main/java/inf112/skeleton/app/Board.java:400-422 | Under the checked rule every robot the push moves can cross its forward edge. |
| Pushing.MoveAllRespectsWalls | src/main/java/inf112/skeleton/app/Board.java:275-317 | Under the checked rule no robot is carried across a walled edge, and a move that leaves the mover in place moves nobody. |
| Pushing.PushThroughWall | src/main/java/inf112/skeleton/app/Board.java:384-422 | The code's rule pushes a robot in the middle of a line through the wall on its forward side; the checked rule moves nobody. |
| LegacyBoard.Board.HasPlayer | src/main/java/inf112/skeleton/app/Board.java:345-352 | True exactly when some robot stands at `p`. |
| LegacyBoard.Board.GetPlayer | src/main/java/inf112/skeleton/app/Board.java:360-367 | Found exactly when `hasPlayer` holds; the result stands at `p` and is the first such robot in the list. |
| LegacyBoard.Board.OnHole | src/main/java/inf112/skeleton/app/Board.java:113-121 | True exactly when the robot stands on one of the board's holes. |
| LegacyBoard.Board.OutsideBoard | src/main/java/inf112/skeleton/app/Board.java:128-134 | True exactly when the robot is off the board or on a hole; on any other board cell it is safe. |
| LegacyBoard.Board.AddPlayer | src/main/java/inf112/skeleton/app/Board.java:62-73 | The robot is listed afterwards, appended only if it was not listed before. |
| LegacyBoard.Board.AddPlayerAt | src/main/java/inf112/skeleton/app/Board.java:51-54 | A new robot with the given number at (x, y), facing east, is always appended: it is a new object, which the list cannot hold yet. |
| LegacyBoard.Board.AddPlayersToStartPositions | src/main/java/inf112/skeleton/app/Board.java:81-106 | Without error every cell of the board has ground and the robots of `ScanRobots` are appended in scan order; otherwise a `NullPointerException` at the first cell without ground, after the robots of the cells scanned before it. |
| LegacyBoard.Board.AddColumn | src/main/java/inf112/skeleton/app/Board.java:83-105 | One column of the scan: the robots of `ColumnRobots` are appended, up to the first cell without ground, which throws. |
| LegacyBoard.PlacedBy | src/main/java/inf112/skeleton/app/Board.java:85-103 | A tile places player `k` only when it is `k`'s start tile and `k` is 1 or at most the number of players; a start tile of a player who does not take part places nobody. |
| LegacyBoard.ColumnRobotsPlaced | src/main/java/inf112/skeleton/app/Board.java:83-105 | A robot is placed in a column below row `y` exactly when it faces east on its own start tile there and its number takes part. |
| LegacyBoard.ScanRobotsPlaced | src/main/java/inf112/skeleton/app/Board.java:81-106 | The set-up places a robot exactly on each start tile of the board whose player takes part (player 1 always), facing east. |
| LegacyBoard.Board.PushPlayer | src/main/java/inf112/skeleton/app/Board.java:400-422 | The robots' cells become those of the recursive push; numbers and facings are unchanged. |
| LegacyBoard.Board.MovePlayer | src/main/java/inf112/skeleton/app/Board.java:275-317 | The robots' cells become those of `Move` (the all-or-nothing step of `MoveSpec`); numbers and facings are unchanged. |
| LegacyBoard.Board.constructor | src/main/java/inf112/skeleton/app/Board.java:18-21 | A board with the map's size, walls, holes and ground and no robots yet; `AddPlayersToStartPositions` is the constructor's last step. |
| LegacyBoard.FirstAtIsFirst | src/main/java/inf112/skeleton/app/Board.java:360-367 | The first robot found at `p` from the front of the list is the one `FirstAt` names. |
| Terrain.StartIds | src/main/java/inf112/skeleton/app/board/Board.java:75-100 | Start tiles exist for players 1 to 8 only, and player `n`'s is START_POS`n`. |
| Terrain.StartIdsDistinct | src/main/java/inf112/skeleton/app/enums/TileID.java:51-58 | No two players share a start tile. |
| Terrain.AddBeamTable | src/main/java/inf112/skeleton/app/board/Board.java:108-128 | The overlay state machine: an empty cell takes the vertical or horizontal beam of `d`'s orientation, the other orientation becomes crossed, and a cell already showing the beam or crossed keeps it. |
| Terrain.AddBeamShows | src/main/java/inf112/skeleton/app/board/Board.java:108-128 | After a beam passes, an empty or beam cell shows it, and a beam already shown stays shown. |
| Terrain.AddBeamOrderFree | src/main/java/inf112/skeleton/app/board/Board.java:108-128 | A second beam of the same orientation changes nothing, and two beams leave the same cell in either order. |
| Terrain.OverlayMarks | src/main/java/inf112/skeleton/app/objects/Laser.java:20-27 | Drawing a beam over a list of cells changes exactly the board cells of the list, each of which then shows the beam. |
| Terrain.NeighbourhoodSpec | src/main/java/inf112/skeleton/app/board/Board.java:212-224 | `getNeighbourhood` returns exactly the board cells of the 3×3 block around `p`, the centre included, each once, so at most nine. |
| Terrain.BeltTurnFollowsBelt | src/main/java/inf112/skeleton/app/RallyGame.java:377-405 | A belt turns the robot right exactly when it runs a right turn from the previous push, left exactly when it runs a left turn from it, never around, and not at all on a first push. |
| Robots.PickUpAllInOrder | src/main/java/inf112/skeleton/app/objects/player/Player.java:293-306 | However flags are offered, the collected list stays numbered 1, 2, 3, …, only grows at its end, and only by offered flags, at most one per offer. |
| Robots.AlternativeAsWrittenDiverges | src/main/java/inf112/skeleton/app/objects/player/Player.java:241-256 | With the start cell taken and no valid pair around the backup cell or the start cell, the code as written never returns, whatever the stack depth. |
| Robots.AlternativeAsWrittenSettles | src/main/java/inf112/skeleton/app/objects/player/Player.java:241-256 | In every other case the code as written settles within two calls, on the pick around the backup cell, else the pick around the start cell, else the start cell facing east. |
| Robots.Player.constructor | src/main/java/inf112/skeleton/app/objects/player/Player.java:48-69 | A new robot faces east with no damage, three lives, a quota of nine cards, no flags and no belt intent; its backup is its start cell facing east. |
| Robots.Player.UpdateProgramCardsDealt | src/main/java/inf112/skeleton/app/objects/player/Player.java:92-94 | The quota is nine cards less one per damage token. |
| Robots.Player.DrawCards | src/main/java/inf112/skeleton/app/objects/player/Player.java:121-126 | The hand keeps its cards and is topped up from the front of the deck until it reaches the quota; nothing is drawn when it already has enough. |
| Robots.Player.ResetDamageTokens | src/main/java/inf112/skeleton/app/objects/player/Player.java:164-166 | Damage becomes zero. |
| Robots.Player.DecrementDamageTokens | src/main/java/inf112/skeleton/app/objects/player/Player.java:168-170 | Damage falls by one. |
| Robots.Player.DecrementLifeTokens | src/main/java/inf112/skeleton/app/objects/player/Player.java:176-178 | Lives fall by one. |
| Robots.Player.HandleDamage | src/main/java/inf112/skeleton/app/objects/player/Player.java:184-186 | Damage rises by one. |
| Robots.Player.SetBackup | src/main/java/inf112/skeleton/app/objects/player/Player.java:194-201 | The backup cell and facing are the arguments, stored as values that later changes to the argument cannot reach. |
| Robots.Player.SetAlternativeBackup | src/main/java/inf112/skeleton/app/objects/player/Player.java:217-224 | The alternative backup cell and facing are the arguments. |
| Robots.Player.PickUpFlag | src/main/java/inf112/skeleton/app/objects/player/Player.java:297-300 | The flag is appended to the collected flags. |
| Robots.Player.TryToPickUpFlag | src/main/java/inf112/skeleton/app/objects/player/Player.java:293-306 | The flag is taken exactly when it is the next one due (`shouldPickUpFlag`), so a list numbered 1, 2, 3, … stays so. |
| Robots.Player.TogglePowerDownOrUpNextRound | src/main/java/inf112/skeleton/app/objects/player/Player.java:391-397 | A powered-down robot flips its power-up request and any other robot its power-down request; the other request is unchanged. |
| Robots.Player.ChooseAlternativeBackupPosition | src/main/java/inf112/skeleton/app/objects/player/Player.java:241-256 | With some valid pair around `p`, one of them is chosen, in the block around `p`; otherwise the start-cell fallback, retried at most once around the start cell. |
| Robots.Player.Fire | src/main/java/inf112/skeleton/app/objects/player/Player.java:308-312 | When the robot can fire ahead, its beam is drawn from the next cell on and the robot it reaches takes one damage; no robot moves. |
| Robots.Player.FireFrom | src/main/java/inf112/skeleton/app/objects/player/Player.java:314-322 | The beam from `p` is drawn on the overlay, and only the robot on its last cell, if any, takes one damage. |
| Robots.Board.BeamCells | src/main/java/inf112/skeleton/app/objects/player/Player.java:314-322 | A beam's cells run straight along `d`, one step apart, from its first cell, all on the board. |
| Robots.Board.BeamStops | src/main/java/inf112/skeleton/app/objects/player/Player.java:314-322 | A beam passes only free cells it can fire out of, and ends on a robot or before a wall or the board's edge. |
| Robots.Board.BeamStep | src/main/java/inf112/skeleton/app/objects/player/Player.java:314-322 | One step of the beam: it stops on a robot (which it hits) or where it cannot go on, and otherwise carries on from the next cell. |
| Robots.Board.HitBy | src/main/java/inf112/skeleton/app/objects/player/Player.java:316-318 | The robot hit is the first one on the beam's last cell; no robot is hit when that cell is free. |
| Robots.Board.HasPlayer | src/main/java/inf112/skeleton/app/board/Board.java:252-259 | True exactly when some robot stands at `p`. |
| Robots.Board.GetPlayer | src/main/java/inf112/skeleton/app/board/Board.java:267-274 | Found exactly when `hasPlayer` holds; the result stands at `p` and is the first such robot in the list. |
| Robots.Board.GetStartPosition | src/main/java/inf112/skeleton/app/board/Board.java:75-100 | A found cell is the first start tile of player `n` in the column-by-column scan, and every cell before it has ground. None means every cell has ground and there is no such tile. A `NullPointerException` means the scan met a cell without ground before any such tile. With ground everywhere, a cell is found exactly when a start tile exists. |
| Robots.Board.GetNeighbourhood | src/main/java/inf112/skeleton/app/board/Board.java:212-224 | The result is `Neighbourhood(p)`, whose meaning `NeighbourhoodSpec` states. |
| Robots.Board.PickValidAround | src/main/java/inf112/skeleton/app/objects/player/Player.java:242-251 | A valid (cell, facing) pair around `p` is found exactly when one exists, and the pair found is valid and in the block around `p`. |
| Robots.Board.AddLaser | src/main/java/inf112/skeleton/app/board/Board.java:108-128 | The overlay takes the beam in cell `p` by the state machine of `AddBeamTable`; every other cell is unchanged. |
| Robots.Board.AddPlayer | src/main/java/inf112/skeleton/app/board/Board.java:53-60 | The robot is appended unless it is listed already, so a list without repeats stays so. |
| Robots.Board.UpdateBoard | src/main/java/inf112/skeleton/app/board/Board.java:200-204 | Re-adding every listed robot leaves the list as it is. |
| Robots.Board.DamagePlayer | src/main/java/inf112/skeleton/app/objects/player/Player.java:318 | The robot at index `k` takes one damage token and no other robot does. |
| Robots.Board.PushPlayer | src/main/java/inf112/skeleton/app/Board.java:400-422 | The robots' cells become those of the recursive push. |
| Robots.Board.ClearWay | src/main/java/inf112/skeleton/app/board/Board.java:161-174 | The step goes exactly when the checked rule allows it, and the line ahead has then been pushed; the mover itself has not moved yet. |
| Robots.Board.MovePlayer | src/main/java/inf112/skeleton/app/board/Board.java:157-198 | The robot steps along its facing, or against it when backing up, exactly when the checked rule allows, pushing the line ahead; otherwise nobody moves. Its facing is unchanged, a completed step clears its belt direction, and it ends up listed. |
| Robots.Board.Respawn | src/main/java/inf112/skeleton/app/board/Board.java:135-146 | With the backup cell free the robot stands on it with the backup facing; otherwise it takes the alternative pair, valid and in the block around the backup cell when one exists; either way it is listed. |
| Robots.Laser.Fire | src/main/java/inf112/skeleton/app/objects/Laser.java:16-18 | The beam starts on the laser's own cell and is drawn over the cells of `Beam`; no robot's damage changes. |
| Robots.Laser.FireFrom | src/main/java/inf112/skeleton/app/objects/Laser.java:20-27 | The beam from `p` is drawn over the cells of `Beam`: it stops on a robot, at a walled edge or at the board's edge. |
| Robots.Hit | src/main/java/inf112/skeleton/app/objects/player/Player.java:318 | One more damage token for the robot hit, if any, and none for any other robot. |
| Robots.Board.constructor | src/main/java/inf112/skeleton/app/board/Board.java:25-29 | A board with the layers of its map, an empty laser overlay and no robots. |
| Robots.Board.Place | src/main/java/inf112/skeleton/app/board/Board.java:166-198 | Robot `j` is put on cell `q` and, with no robot listed twice, no other robot moves. |
| Robots.Board.NeighbourRow | src/main/java/inf112/skeleton/app/board/Board.java:212-224 | One row of the scan appends the board cells of row `p.y + dy`, from the west, after those of the rows below. |
| Robots.Laser.constructor | src/main/java/inf112/skeleton/app/objects/Laser.java:11-14 | A laser on its cell, firing in its direction. |
| RallyGame.LostFlags | src/main/java/inf112/skeleton/app/RallyGame.java:219 | A robot in play is flagged exactly when it has ten or more damage tokens or is off the board or on a hole. |
| RallyGame.WithoutSelected | src/main/java/inf112/skeleton/app/RallyGame.java:227 | Removing the lost robots from a list without repeats leaves exactly the others, in their order. |
| RallyGame.KeptAndRemoved | src/main/java/inf112/skeleton/app/RallyGame.java:227-228 | After an elimination the robots in play and those waiting are each without repeats and share no robot. |
| RallyGame.MoveStepsBounded | src/main/java/inf112/skeleton/app/RallyGame.java:268-276 | A move card of distance `n` carries every robot at most `n` cells, straight along the mover's facing. |
| RallyGame.LoneRobotSteps | src/main/java/inf112/skeleton/app/RallyGame.java:268-276 | On an open floor a lone robot playing a move card of distance `n` ends exactly `n` cells ahead. |
| RallyGame.CarryOneBelt | src/main/java/inf112/skeleton/app/RallyGame.java:337-343 | A robot on no belt keeps its intent; a robot on exactly one belt gets that belt's push and turn. |
| RallyGame.ValidatedApart | src/main/java/inf112/skeleton/app/RallyGame.java:354-363 | After validation no two robots with different numbers mean to go to the same cell, and an intent is cancelled exactly when another robot shared it. |
| RallyGame.ValidatedIdempotent | src/main/java/inf112/skeleton/app/RallyGame.java:354-363 | Validating twice is validating once. |
| RallyGame.ValidateAsWrittenFails | src/main/java/inf112/skeleton/app/RallyGame.java:354-363 | The code as written fails on a robot with no intent: two robots with the first on no belt, or three robots meaning to go to one cell. |
| RallyGame.NoSelfHit | src/main/java/inf112/skeleton/app/objects/player/Player.java:308-312 | A robot never hits itself: its beam starts on the cell ahead and only moves further on. |
| RallyGame.VolleyTotal | src/main/java/inf112/skeleton/app/RallyGame.java:296-303 | When the robots fire, their damage in total grows by exactly the number of shots that hit. |
| RallyGame.VolleyGrows | src/main/java/inf112/skeleton/app/RallyGame.java:296-303 | No robot's damage falls while the robots fire. |
| RallyGame.Game.Eliminate | src/main/java/inf112/skeleton/app/RallyGame.java:220-221 | The robot loses one life and its damage is repaired; no other robot's tokens change. |
| RallyGame.Game.EliminateLost | src/main/java/inf112/skeleton/app/RallyGame.java:218-226 | Exactly the lost robots lose one life and have their damage repaired, and they are returned in list order. |
| RallyGame.Game.Retire | src/main/java/inf112/skeleton/app/RallyGame.java:227-228 | The removed robots leave play and join the end of the waiting list. |
| RallyGame.Game.DecreaseLives | src/main/java/inf112/skeleton/app/RallyGame.java:216-229 | The robots in play become those not lost, in order, and the lost ones join the waiting list having lost one life with their damage repaired; afterwards no robot in play is lost. |
| RallyGame.Game.RespawnPlayers | src/main/java/inf112/skeleton/app/RallyGame.java:231-239 | The living waiting robots rejoin play in order, each standing on its backup pair or on the alternative pair it recorded; the dead ones stay out; nobody waits afterwards. |
| RallyGame.Game.PlayCard | src/main/java/inf112/skeleton/app/RallyGame.java:255-282 | A turn card only turns the robot, by the card's rotation; a move card runs `distance` single-cell moves; the robot ends up listed and the card is discarded. |
| RallyGame.Game.MoveCard | src/main/java/inf112/skeleton/app/RallyGame.java:268-276 | A listed robot's `distance` moves give the cells of `MoveSteps`. |
| RallyGame.Game.SetPlayerDirectionAfterBeltPush | src/main/java/inf112/skeleton/app/RallyGame.java:399-405 | A right turn when the belt runs in `turnRight`, a left turn when it runs in `leftTurn`, otherwise no turn. |
| RallyGame.Game.BeltPush | src/main/java/inf112/skeleton/app/RallyGame.java:374-397 | The robot's belt direction and intended cell come from the belt, its facing turns per the belt-turn table, and it does not move. |
| RallyGame.Game.CarryPlayer | src/main/java/inf112/skeleton/app/RallyGame.java:338-342 | Every belt on the robot's cell pushes it, in list order. |
| RallyGame.Game.CarryAll | src/main/java/inf112/skeleton/app/RallyGame.java:337-343 | Every robot in play is pushed by the belts under it; no robot moves yet. |
| RallyGame.Game.ValidateBeltPushPos | src/main/java/inf112/skeleton/app/RallyGame.java:354-363 | The intents become those of `Validated`, so no two robots with different numbers keep the same target. |
| RallyGame.Game.UpdatePositionsAfterBeltPush | src/main/java/inf112/skeleton/app/RallyGame.java:365-372 | Every robot with an intent moves to that cell and drops the intent; the others stay. |
| RallyGame.Game.ActivateBelts | src/main/java/inf112/skeleton/app/RallyGame.java:335-352 | Express belts only, or all belts; each robot ends where its validated intent says, and two robots with different numbers that the belts move never end on one cell. |
| RallyGame.Game.FirePlayerLasers | src/main/java/inf112/skeleton/app/RallyGame.java:296-303 | Every robot fires once, in list order, over the cells the robots stood on; the overlay and the damage are those of `Lit` and `Volley`. |
| RallyGame.Game.FireLasers | src/main/java/inf112/skeleton/app/RallyGame.java:305-312 | Every board laser fires once, in list order; no robot's damage changes. |
| RallyGame.Game.RemoveLasers | src/main/java/inf112/skeleton/app/RallyGame.java:288-294 | Every board cell of the overlay is cleared; entries off the board are untouched. |
| RallyGame.Game.PlayCards | src/main/java/inf112/skeleton/app/RallyGame.java:241-253 | The cards of a register in the given order, an elimination check after each; the two robot lists stay apart and afterwards no robot in play is lost. |
| RallyGame.Game.PlayEliminated | src/main/java/inf112/skeleton/app/RallyGame.java:241-253 | A robot already waiting to respawn that plays its card is listed in play while still waiting, so the two lists are no longer apart. |
| RallyGame.Game.RunRegister | src/main/java/inf112/skeleton/app/RallyGame.java:137-176 | One register in the code's phase order; afterwards no robot in play is lost, no beam is left on the board, and every robot in play was in play before. |
| RallyGame.Game.BeltPhases | src/main/java/inf112/skeleton/app/RallyGame.java:145-153 | Express belts, an elimination check, then all belts. |
| RallyGame.Game.LaserPhases | src/main/java/inf112/skeleton/app/RallyGame.java:159-175 | The robots' lasers, a check, and the board lasers and a check when there are any; the overlay is cleared after each. |
| RallyGame.AliveFlags | src/main/java/inf112/skeleton/app/RallyGame.java:233-236 | A waiting robot is flagged exactly when it is still alive. |
| RallyGame.Game.constructor | src/main/java/inf112/skeleton/app/RallyGame.java:48-53 | The game plays on the board's own robot list, with nobody waiting and an empty discard pile. |
| RallyGame.Game.Rejoin | src/main/java/inf112/skeleton/app/RallyGame.java:233-236 | A living waiting robot is listed again after the others, with no robot listed twice. It is listed before the respawn's occupancy test, so its backup pair is taken exactly when no other robot stands on the backup cell and the robot itself does not; otherwise it stands on the alternative pair it recorded. |
| RallyGame.Game.Step | src/main/java/inf112/skeleton/app/RallyGame.java:268-276 | One single-cell move of a move card: the robots' cells become those of one more step of `MoveSteps`. |
| RallyGame.Game.MoveListed | src/main/java/inf112/skeleton/app/RallyGame.java:268-276 | `n` moves of a listed robot along its facing give the cells of `MoveSteps`; nobody is listed or dropped. |
| RallyGame.Game.CancelIntent | src/main/java/inf112/skeleton/app/RallyGame.java:358-359 | The robot's intended cell is cancelled; no other robot changes. |
| RallyGame.Game.Clashes | src/main/java/inf112/skeleton/app/RallyGame.java:357 | True exactly when another robot with a different number means to go to the same cell. |
| RallyGame.Game.FindClashes | src/main/java/inf112/skeleton/app/RallyGame.java:355-357 | The robots that clash, found before any intent is cancelled. |
| RallyGame.Game.CancelClashes | src/main/java/inf112/skeleton/app/RallyGame.java:358-359 | Exactly the clashing robots lose their intents; the others keep theirs. |
| RallyGame.Game.PlaceAt | src/main/java/inf112/skeleton/app/RallyGame.java:367-369 | The robot is moved to its intended cell; no other robot moves. |
| RallyGame.Game.FireOne | src/main/java/inf112/skeleton/app/RallyGame.java:298-301 | One robot fires: the overlay and the damage tokens take one more shot of `Lit` and `Volley`. |
| RallyGame.Game.FireLaser | src/main/java/inf112/skeleton/app/RallyGame.java:306-311 | One board laser fires: the overlay takes one more beam of `LasersLit`. |
| RallyGame.Game.RobotLaserPhase | src/main/java/inf112/skeleton/app/RallyGame.java:159-165 | The robots fire, the lost ones are eliminated and the overlay is cleared: no robot in play is lost and no beam is left on the board. |
| RallyGame.Game.BoardLaserPhase | src/main/java/inf112/skeleton/app/RallyGame.java:167-175 | The board lasers fire, the lost robots are eliminated and the overlay is cleared, with the same guarantees. |
| TileIds.RobotTiles | src/main/java/inf112/skeleton/app/enums/TileID.java:6-49 | The first 36 constants are the robot tiles, in declaration order. |
| TileIds.GetRobotId | src/main/java/inf112/skeleton/app/enums/TileID.java:177-191 | For players 1 to 8 the four robot ids by facing; for any other number an empty map. |
| TileIds.RobotIdsTable | src/main/java/inf112/skeleton/app/enums/TileID.java:177-191 | The scan finds ids `133+4n` to `136+4n` (south, north, east, west) for players 1 to 8 and nothing for any other number. |
| TileIds.RobotTileId | src/main/java/inf112/skeleton/app/enums/TileID.java:6-44 | Player `k`'s robot tile facing `d` has id `133 + 4k` plus the facing's place. |
| TileIds.UnnumberedTiles | src/main/java/inf112/skeleton/app/enums/TileID.java:46-49 | The four robot tiles without a number have names too short to match a numbered name. |
| TileIds.RobotNameInjective | src/main/java/inf112/skeleton/app/enums/TileID.java:180-187 | A robot name splits uniquely into number and facing. |
| TileIds.StartPosIds | src/main/java/inf112/skeleton/app/enums/TileID.java:51-58 | START_POS1 to 8 are 121 to 124 and 129 to 132. |
| TileIds.NorthWallIds | src/main/java/inf112/skeleton/app/enums/TileID.java:60-73 | The north-side wall ids are 31, 24, 16 and 45. |
| TileIds.SouthWallIds | src/main/java/inf112/skeleton/app/enums/TileID.java:60-73 | The south-side wall ids are 29, 32, 8 and 37. |
| TileIds.EastWallIds | src/main/java/inf112/skeleton/app/enums/TileID.java:60-73 | The east-side wall ids are 23, 16, 8 and 46. |
| TileIds.WestWallIds | src/main/java/inf112/skeleton/app/enums/TileID.java:60-73 | The west-side wall ids are 30, 24, 32 and 38. |
| TileIds.LaserIds | src/main/java/inf112/skeleton/app/enums/TileID.java:75-77 | The vertical, horizontal and crossed beam ids are 47, 39 and 40. |
| Text.ParseRendered | src/main/java/inf112/skeleton/app/lan/Converter.java:67-68 | Rendering a 32-bit integer and parsing it gives it back. |
| Text.ParseInt | src/main/java/inf112/skeleton/app/lan/Converter.java:67-68 | `Integer.parseInt` accepts an optional sign and at least one digit, within the 32-bit range. |
| Text.DigitsOfNat | src/main/java/inf112/skeleton/app/lan/Converter.java:67-68 | The decimal digits of `n` read back give `n`. |
| Text.SingleCharRendering | src/main/java/inf112/skeleton/app/lan/Converter.java:173-178 | A number's rendering is one character exactly for 0 to 9, and then it is that digit. |
| Converter.ConvertToString | src/main/java/inf112/skeleton/app/lan/Converter.java:45-56 | Priority, distance, rotation and name, one space apart. |
| Converter.ConvertToStringFor | src/main/java/inf112/skeleton/app/lan/Converter.java:21-38 | "no card" exactly for a missing card; otherwise the player's number in front of the card's rendering. |
| Converter.SplitBySpace | src/main/java/inf112/skeleton/app/lan/Converter.java:87-103 | The loop gives the tokens of `Split`. |
| Converter.SplitJoin | src/main/java/inf112/skeleton/app/lan/Converter.java:87-103 | No token holds a space, and for input not ending in a space, joining the tokens with single spaces gives it back. |
| Converter.GetRotation | src/main/java/inf112/skeleton/app/lan/Converter.java:140-154 | The rotation found occurs in the string; none is found only when no rotation name occurs. |
| Converter.CardRoundTrip | src/main/java/inf112/skeleton/app/lan/Converter.java:64-79 | Converting a card with one of the nine names to a string and back gives the card. |
| Converter.ConvertToCard | src/main/java/inf112/skeleton/app/lan/Converter.java:64-79 | A card is returned only for a string that is exactly that card's rendering; every string the code as written refuses is refused with the same exception. |
| Converter.ConvertToCardAsWritten | src/main/java/inf112/skeleton/app/lan/Converter.java:64-79 | As written: what is accepted is exactly the rendering of the fields returned, and a NumberFormatException never escapes: it becomes NotProgramCardException. |
| Converter.NullRotationAccepted | src/main/java/inf112/skeleton/app/lan/Converter.java:64-79 | As written, a rendering whose rotation reads "null" is accepted as a card with no rotation; the corrected conversion refuses it. |
| Converter.IsMessageFromAnotherPlayer | src/main/java/inf112/skeleton/app/lan/Converter.java:161-163 | Fails exactly on the empty message, whose first character does not exist. |
| Converter.GetPlayerNumberFromMessage | src/main/java/inf112/skeleton/app/lan/Converter.java:173-178 | The leading digit's value for a player's message, -1 otherwise; the empty message fails. |
| Converter.GetMessageFromPlayer | src/main/java/inf112/skeleton/app/lan/Converter.java:185-190 | A player's message yields everything after its first two characters, any other nothing; an empty or one-digit message fails. |
| Converter.PlayerMessageRoundTrip | src/main/java/inf112/skeleton/app/lan/Converter.java:185-200 | For players 0 to 9, the number and the message are read back from `createMessageFromPlayer`. |
| Converter.PlayerNumberOneDigit | src/main/java/inf112/skeleton/app/lan/Converter.java:173-178 | For players numbered 10 or more only the first digit is read back. |
| Converter.HostMessageNotFromPlayer | src/main/java/inf112/skeleton/app/lan/Converter.java:161-190 | The host's messages are never taken for a player's. |
| Converter.MapPathRoundTrip | src/main/java/inf112/skeleton/app/lan/Converter.java:206-212 | The map path is read back from its message. |
| Converter.PlayersRoundTrip | src/main/java/inf112/skeleton/app/lan/Converter.java:214-220 | The number of players is read back from its message. |
| Converter.PlayerNumberRoundTrip | src/main/java/inf112/skeleton/app/lan/Converter.java:222-228 | The player number is read back from its message. |
| Converter.CardMessageRoundTrip | src/main/java/inf112/skeleton/app/lan/Converter.java:21-79 | A card relayed for player 0 to 9 arrives whole: the number, then a rendering that converts back to the card. |
| Converter.OwnNameFirst | src/main/java/inf112/skeleton/app/lan/Converter.java:110-132 | `getName` finds each of the nine card names in itself: no name it tries earlier occurs in it. |
| Converter.CreateQuitMessage | src/main/java/inf112/skeleton/app/lan/Converter.java:202-204 | The quit message is the player message QUIT under the player's own number. |
| Converter.GetMapPath | src/main/java/inf112/skeleton/app/lan/Converter.java:206-208 | Fails exactly when the message is shorter than HERE_IS_MAP; otherwise the rest after that many characters, whether or not the message starts with it. |
| Converter.GetNumbersOfPlayers | src/main/java/inf112/skeleton/app/lan/Converter.java:218-220 | What it reads is a 32-bit integer; a message too short or not ending in a number fails. |
| Converter.GetMyPlayerNumber | src/main/java/inf112/skeleton/app/lan/Converter.java:226-228 | What it reads is a 32-bit integer; a message too short or not ending in a number fails. |
| Converter.NumberAfterRoundTrip | src/main/java/inf112/skeleton/app/lan/Converter.java:214-228 | A 32-bit number written after a message name is read back. |
| Converter.RelayedRoundTrip | src/main/java/inf112/skeleton/app/lan/Converter.java:173-190 | For players 0 to 9, whatever follows the number and its space is read back, and so is the number. |
| Server.GameServer.PutMove | src/main/java/inf112/skeleton/app/LAN/GameServer.java:125-133 | The card goes at the end of the player's list, which is created when missing; no other list changes. |
| Server.GameServer.NumberOfPlayers | src/main/java/inf112/skeleton/app/LAN/GameServer.java:143-145 | The connected clients plus the host. |
| Server.GameServer.DoAllMoves | src/main/java/inf112/skeleton/app/LAN/GameServer.java:147-158 | Every player with a list plays its first card exactly once and the move is announced; the map ends empty; when all moves were in, every player moves. |
| Server.GameServer.Remove | src/main/java/inf112/skeleton/app/LAN/GameServer.java:100-108 | The last client thread of the player leaves the list; with none, the list is unchanged. |
| Server.PlayFirstCards | src/main/java/inf112/skeleton/app/LAN/GameServer.java:148-156 | One move per player of the map, with that player's first card, and one announcement per move. |
| Server.OncePerPlayer | src/main/java/inf112/skeleton/app/LAN/GameServer.java:148-156 | As many movers as moves means no player moved twice. |
| Server.RemoveLastCount | src/main/java/inf112/skeleton/app/LAN/GameServer.java:100-108 | Removing takes away exactly one occurrence when there is one and changes nothing otherwise. |
| Server.GameServer.constructor | src/main/java/inf112/skeleton/app/LAN/GameServer.java:25-30 | No client threads and no moves yet. |
| Server.Announcements | src/main/java/inf112/skeleton/app/LAN/GameServer.java:154 | One message per played move: the player's number and the card's rendering. |
| Server.AnnounceSnoc | src/main/java/inf112/skeleton/app/LAN/GameServer.java:148-156 | Announcing one more move appends exactly that move's message and leaves the earlier ones as they were. |
| Server.LastIndex | src/main/java/inf112/skeleton/app/LAN/GameServer.java:100-108 | The last place holding `n`, or -1 when none does. |
| GifFormat.ShortOfBytes | src/main/java/inf112/skeleton/app/screens/gifscreen/GifDecoder.java:693-696 | Two bytes make the short they encode, least significant first, and `lo \| (hi << 8)` computes it. |
| GifFormat.ShortRoundTrip | src/main/java/inf112/skeleton/app/screens/gifscreen/GifDecoder.java:693-696 | Every value in 0..65535 is read back from its two bytes. |
| GifFormat.ShortBounds | src/main/java/inf112/skeleton/app/screens/gifscreen/GifDecoder.java:693-696 | Whatever the stream holds, a short read is at least -256 and below 65536. |
| GifFormat.GctSizeBitwise | src/main/java/inf112/skeleton/app/screens/gifscreen/GifDecoder.java:670 | `2 << (packed & 7)` is a power of two from 2 to 256. |
| GifFormat.LctSizeIsGctSize | src/main/java/inf112/skeleton/app/screens/gifscreen/GifDecoder.java:574 | The local table size computed with `Math.pow` equals the global one for the same bits. |
| GifFormat.DisposalMethodBitwise | src/main/java/inf112/skeleton/app/screens/gifscreen/GifDecoder.java:554-557 | `(packed & 0x1c) >> 2` with 0 replaced by 1 is the disposal method, from 1 to 7. |
| GifFormat.TableFlagBitwise | src/main/java/inf112/skeleton/app/screens/gifscreen/GifDecoder.java:667 | The colour table flag is the top bit of the packed fields. |
| GifFormat.InterlaceFlagBitwise | src/main/java/inf112/skeleton/app/screens/gifscreen/GifDecoder.java:578 | The interlace flag is bit 6 of the packed fields. |
| GifFormat.TransparencyFlagBitwise | src/main/java/inf112/skeleton/app/screens/gifscreen/GifDecoder.java:558 | The transparency flag is bit 0 of the packed fields. |
| GifFormat.ArgbChannels | src/main/java/inf112/skeleton/app/screens/gifscreen/GifDecoder.java:496-499 | A table entry is opaque, negative as an `int`, and holds the red, green and blue bytes in its three low bytes. |
| GifFormat.ColorTable | src/main/java/inf112/skeleton/app/screens/gifscreen/GifDecoder.java:479-503 | 256 entries: entry `i` below the colour count is the opaque colour of bytes `3i` to `3i+2`, the rest are 0. |
| GifFormat.ShiftOneFits | src/main/java/inf112/skeleton/app/screens/gifscreen/GifDecoder.java:261-271 | The table of `1 << dataSize` roots fits in the 4096 codes unless the shift distance, modulo 32, is 13 to 30. |
| GifFormat.Rem | src/main/java/inf112/skeleton/app/screens/gifscreen/GifDecoder.java:83 | Java's remainder: that of the dividend's sign, a multiple of the divisor away from it. |
| GifFormat.ArgbBitwise | src/main/java/inf112/skeleton/app/screens/gifscreen/GifDecoder.java:496-499 | The shifts and ors of the table entry make the opaque colour, negative as an `int`, whose unsigned value is `0xff000000 + r·65536 + g·256 + b`. |
| GifFormat.NetscapeSpelling | src/main/java/inf112/skeleton/app/screens/gifscreen/GifDecoder.java:418 | The application identifier compared is the 11 characters "NETSCAPE2.0". |
| Interlace.InterlacedRowsPermutation | src/main/java/inf112/skeleton/app/screens/gifscreen/GifDecoder.java:174-200 | The interlaced row order is a permutation of the lines `0 .. h-1`: each arrives exactly once. |
| Interlace.RunMembers | src/main/java/inf112/skeleton/app/screens/gifscreen/GifDecoder.java:174-200 | A pass holds exactly the rows from its start, below `h`, a whole number of steps on. |
| Interlace.PassesMembers | src/main/java/inf112/skeleton/app/screens/gifscreen/GifDecoder.java:174-200 | Passes `pass` to 4 carry exactly the rows whose pass is at least `pass`. |
| Interlace.InterlaceAsWrittenMisplaces | src/main/java/inf112/skeleton/app/screens/gifscreen/GifDecoder.java:180-199 | With two, three or four rows the code as written puts the second row on line 4, outside the image, and leaves a line of the image unwritten. |
| GifFrames.RgbaRoundTrip | src/main/java/inf112/skeleton/app/screens/gifscreen/GifDecoder.java:621-651 | A pixel stored in a pixmap and read back is the pixel drawn. |
| GifFrames.PixmapRoundTrip | src/main/java/inf112/skeleton/app/screens/gifscreen/GifDecoder.java:621-651 | The pixmap of a composed frame gives all its pixels back. |
| GifFrames.CopyPixels | src/main/java/inf112/skeleton/app/screens/gifscreen/GifDecoder.java:638-656 | The previous frame's pixels are copied back in; a pixmap smaller than the frame throws. |
| GifFrames.FillRect | src/main/java/inf112/skeleton/app/screens/gifscreen/GifDecoder.java:157-170 | The previous image's rectangle is set to the fill colour row by row; a row outside the frame throws. |
| GifFrames.FilledRectAt | src/main/java/inf112/skeleton/app/screens/gifscreen/GifDecoder.java:163-169 | After clearing, a pixel of the rectangle holds the fill colour and every other pixel is unchanged. |
| GifFrames.DrawRow | src/main/java/inf112/skeleton/app/screens/gifscreen/GifDecoder.java:202-218 | The row's pixels take the colours of the source pixels, each one that is not transparent; a pixel outside the frame throws. |
| GifFrames.NextInterlacedLine | src/main/java/inf112/skeleton/app/screens/gifscreen/GifDecoder.java:174-200 | Row `i` of an interlaced image goes on line `rows[i]` of the interlaced order, and the pass state is ready for row `i + 1`. |
| GifFrames.DrawRows | src/main/java/inf112/skeleton/app/screens/gifscreen/GifDecoder.java:177-220 | The image's rows are drawn on the frame in the interlaced or straight order, as `Compose` says; the first row that throws ends it. |
| GifFrames.ComposePainted | src/main/java/inf112/skeleton/app/screens/gifscreen/GifDecoder.java:177-220 | A pixel the drawing changes holds the colour of a non-transparent source pixel of a row that maps to it. |
| GifFrames.StartFrame | src/main/java/inf112/skeleton/app/screens/gifscreen/GifDecoder.java:142-172 | A new `width * height` array holding the background the last disposal method asks for. |
| GifFrames.KeepRestoresPrevious | src/main/java/inf112/skeleton/app/screens/gifscreen/GifDecoder.java:154-155 | Disposal method 1 keeps the previous frame: its pixels read back are the ones composed. |
| GifFrames.PixmapOf | src/main/java/inf112/skeleton/app/screens/gifscreen/GifDecoder.java:621-651 | The pixmap keeps its size and holds each pixel converted to RGBA. |
| GifFrames.Restored | src/main/java/inf112/skeleton/app/screens/gifscreen/GifDecoder.java:638-656 | Every pixel becomes the previous pixmap's, converted back to ARGB; an empty frame copies nothing. |
| GifFrames.RowOrder | src/main/java/inf112/skeleton/app/screens/gifscreen/GifDecoder.java:174-200 | The lines of the image's rows in the order they arrive, each a line of the image. |
| GifFrames.CopyRow | src/main/java/inf112/skeleton/app/screens/gifscreen/GifDecoder.java:643-653 | One row of `width` pixels is copied back from `offset`, every other pixel unchanged; a pixel past the end of the pixmap throws. |
| GifFrames.FillSpan | src/main/java/inf112/skeleton/app/screens/gifscreen/GifDecoder.java:163-169 | Pixels `n1 .. n2 - 1` take the fill colour; a span outside the frame throws. |
| GifFrames.DrawImageRow | src/main/java/inf112/skeleton/app/screens/gifscreen/GifDecoder.java:177-219 | Drawing row `i` extends the composition by one row, moving the interlace state on; a row that throws makes the composition throw. |
| GifFrames.RowLine | src/main/java/inf112/skeleton/app/screens/gifscreen/GifDecoder.java:177-201 | Row `i`'s line is that of `LineOf`, and the interlace state is ready for the next row. |
| GifDecoding.ByteStream.Read | src/main/java/inf112/skeleton/app/screens/gifscreen/GifDecoder.java:444-452 | The byte at the cursor, or -1 past the end; the cursor moves on by one. |
| GifDecoding.ByteStream.ReadInto | src/main/java/inf112/skeleton/app/screens/gifscreen/GifDecoder.java:371 | As many bytes as requested or as the stream still holds, -1 at the end; the cursor moves on by the count. |
| GifDecoding.Restore | src/main/java/inf112/skeleton/app/screens/gifscreen/GifDecoder.java:610-612 | The transparent colour's entry is put back and every other entry is unchanged. |
| GifDecoding.GifDecoder.constructor | src/main/java/inf112/skeleton/app/screens/gifscreen/GifDecoder.java:33-73 | Java's field defaults: status OK, loop count 1, no tables, no frames. |
| GifDecoding.GifDecoder.ReadShort | src/main/java/inf112/skeleton/app/screens/gifscreen/GifDecoder.java:693-696 | The next two bytes as a short, least significant first. |
| GifDecoding.GifDecoder.ReadLSD | src/main/java/inf112/skeleton/app/screens/gifscreen/GifDecoder.java:661-673 | The screen fields are the logical screen descriptor's seven bytes, section 18 of the GIF89a specification. |
| GifDecoding.GifDecoder.ReadColorTable | src/main/java/inf112/skeleton/app/screens/gifscreen/GifDecoder.java:479-503 | With `3n` bytes left, a fresh 256-entry table per `ColorTable`; otherwise no table and a format error. |
| GifDecoding.GifDecoder.ReadHeader | src/main/java/inf112/skeleton/app/screens/gifscreen/GifDecoder.java:457-471 | A signature not starting "GIF" is a format error; otherwise the screen fields and, when flagged, the global table and background colour are read, a missing table throwing on the lookup. |
| GifDecoding.GifDecoder.ReadGraphicControlExt | src/main/java/inf112/skeleton/app/screens/gifscreen/GifDecoder.java:551-562 | Six bytes: the disposal method with 0 taken as 1, the transparency flag, ten times the delay short, and the transparent index. |
| GifDecoding.GifDecoder.ReadBlock | src/main/java/inf112/skeleton/app/screens/gifscreen/GifDecoder.java:364-385 | The block's bytes are stored; a block the stream ends inside is a format error; the rest of the buffer is unchanged. |
| GifDecoding.GifDecoder.Skip | src/main/java/inf112/skeleton/app/screens/gifscreen/GifDecoder.java:718-722 | Sub-blocks are skipped up to and including the terminator, or until an error. |
| GifDecoding.GifDecoder.ReadNetscapeExt | src/main/java/inf112/skeleton/app/screens/gifscreen/GifDecoder.java:678-688 | The sub-blocks are read up to the terminator; the loop count, if changed, is a short from 0 to 65535. |
| GifDecoding.GifDecoder.AllocateBuffers | src/main/java/inf112/skeleton/app/screens/gifscreen/GifDecoder.java:248-259 | The pixel array is reused when large enough and otherwise new and zeroed; a negative size throws; the code table and stack are allocated on first use. |
| GifDecoding.GifDecoder.InitTable | src/main/java/inf112/skeleton/app/screens/gifscreen/GifDecoder.java:261-271 | The roots `c < clear` get prefix 0 and suffix `c`; a table of roots past 4096 codes throws. |
| GifDecoding.GifDecoder.DecodeData | src/main/java/inf112/skeleton/app/screens/gifscreen/GifDecoder.java:260-345 | A data size whose roots exceed 4096 codes throws. Otherwise the decoded pixels are followed by zeros up to `npix`, the pixels from `npix` on are untouched, and a size of 31 decodes nothing. |
| GifDecoding.GifDecoder.DecodeBitmapData | src/main/java/inf112/skeleton/app/screens/gifscreen/GifDecoder.java:228-346 | A negative pixel count throws when no array exists. Otherwise every pixel of the image the data does not reach is cleared, and in a reused array the pixels past the image are untouched. |
| GifDecoding.GifDecoder.DecodePixels | src/main/java/inf112/skeleton/app/screens/gifscreen/GifDecoder.java:273-342 | The decoding loop writes at most `npix` pixels and none from `decoded` on, and only moves the stream forward; a data size of -1 reads nothing. |
| GifDecoding.GifDecoder.ClearMissing | src/main/java/inf112/skeleton/app/screens/gifscreen/GifDecoder.java:343-345 | The pixels from `from` up to `npix` are cleared and every other pixel is unchanged. |
| GifDecoding.GifDecoder.GetFrame | src/main/java/inf112/skeleton/app/screens/gifscreen/GifDecoder.java:80-85 | None before any frame; otherwise frame `n mod frameCount`, a negative `n` giving the first frame or throwing. |
| GifDecoding.GifDecoder.GetFrameCycles | src/main/java/inf112/skeleton/app/screens/gifscreen/GifDecoder.java:80-85 | The frames repeat with period `frameCount`. |
| GifDecoding.GifDecoder.GetFrameCount | src/main/java/inf112/skeleton/app/screens/gifscreen/GifDecoder.java:133-135 | The number of frames kept. |
| GifDecoding.GifDecoder.GetDelay | src/main/java/inf112/skeleton/app/screens/gifscreen/GifDecoder.java:120-126 | Frame `n`'s delay, or -1 when there is no frame `n`. |
| GifDecoding.GifDecoder.SetPixels | src/main/java/inf112/skeleton/app/screens/gifscreen/GifDecoder.java:140-223 | A negative frame size throws; otherwise the image becomes the pixmap of `ComposeFrame`, the current image drawn over the background of the last disposal method. |
| GifDecoding.GifDecoder.TakePreviousPixmap | src/main/java/inf112/skeleton/app/screens/gifscreen/GifDecoder.java:145-153 | With disposal method 3 the frame before the last one becomes the previous pixmap. |
| GifDecoding.GifDecoder.ResetFrame | src/main/java/inf112/skeleton/app/screens/gifscreen/GifDecoder.java:701-713 | The frame's settings become the "last" ones and the control extension's settings and local table are dropped. |
| GifDecoding.GifDecoder.ReadImageRect | src/main/java/inf112/skeleton/app/screens/gifscreen/GifDecoder.java:568-571 | The image rectangle is the descriptor's four shorts. |
| GifDecoding.GifDecoder.SelectTable | src/main/java/inf112/skeleton/app/screens/gifscreen/GifDecoder.java:572-587 | The flags and local table size come from the packed byte; the local table is active when flagged, else the global one with the background cleared when its index is the transparent one. |
| GifDecoding.GifDecoder.ClearTransparent | src/main/java/inf112/skeleton/app/screens/gifscreen/GifDecoder.java:588-592 | With transparency the transparent entry is saved and cleared; a missing table or an index outside it throws. |
| GifDecoding.GifDecoder.ReadBitmap | src/main/java/inf112/skeleton/app/screens/gifscreen/GifDecoder.java:567-614 | An error leaves the frames as they were; otherwise exactly one frame with the current delay is added and the global table is left as it was found. |
| GifDecoding.GifDecoder.KeepFrame | src/main/java/inf112/skeleton/app/screens/gifscreen/GifDecoder.java:608-613 | The frame is appended with its delay, the transparent entry restored and the frame state reset. |
| GifDecoding.GifDecoder.ReadExtension | src/main/java/inf112/skeleton/app/screens/gifscreen/GifDecoder.java:406-428 | A graphic control extension sets the frame settings; an application extension may set the loop count; every other extension is skipped and changes neither. |
| GifDecoding.GifDecoder.ContentStep | src/main/java/inf112/skeleton/app/screens/gifscreen/GifDecoder.java:401-437 | One block by its first byte: the trailer ends the loop, a 0 byte is passed over, an unknown byte is a format error, and only an image adds frames. |
| GifDecoding.GifDecoder.ReadContents | src/main/java/inf112/skeleton/app/screens/gifscreen/GifDecoder.java:397-439 | Blocks are read until the trailer or an error; frames are only added, and a run ending without error has just read the trailer. |
| GifDecoding.GifDecoder.Init | src/main/java/inf112/skeleton/app/screens/gifscreen/GifDecoder.java:351-357 | Status OK, no frames, no colour tables. |
| GifDecoding.GifDecoder.Read | src/main/java/inf112/skeleton/app/screens/gifscreen/GifDecoder.java:92-111 | No stream is an open error; a bad signature a format error with no frames; a read that ends OK stopped on the trailer. |
| GifDecoding.GifDecoder.ReadStream | src/main/java/inf112/skeleton/app/screens/gifscreen/GifDecoder.java:95-102 | A bad signature is a format error with the frames unchanged; a read that ends OK stopped on the trailer. |
| GifDecoding.GifDecoder.ReadSignature | src/main/java/inf112/skeleton/app/screens/gifscreen/GifDecoder.java:458-465 | Six bytes are consumed, and the result holds exactly when they start with "GIF". |
| GifDecoding.GifDecoder.ReadGlobalTable | src/main/java/inf112/skeleton/app/screens/gifscreen/GifDecoder.java:467-470 | With enough bytes a fresh 256-entry table per `ColorTable` and the background colour its entry; otherwise no table, a format error and the lookup's NullPointerException. |
| GifDecoding.GifDecoder.LoadByte | src/main/java/inf112/skeleton/app/screens/gifscreen/GifDecoder.java:276-290 | When a byte is loaded eight more bits are held and one byte of input is used up; no other decoding state changes. |
| GifDecoding.GifDecoder.NextString | src/main/java/inf112/skeleton/app/screens/gifscreen/GifDecoder.java:292-313 | One code is taken from the bits held: the LZW state stays consistent and a decoding that goes on has used bits; an out-of-range index throws and stops. |
| GifDecoding.GifDecoder.Expand | src/main/java/inf112/skeleton/app/screens/gifscreen/GifDecoder.java:314-336 | A code's string goes onto the stack with at least one pixel on it, the state stays consistent; an out-of-range code or stack index throws and stops. |
| GifDecoding.GifDecoder.Refill | src/main/java/inf112/skeleton/app/screens/gifscreen/GifDecoder.java:275-313 | Bytes are loaded and codes read until a pixel is on the stack or decoding stops; a round that goes on without a pixel has used input or bits. |
| GifDecoding.GifDecoder.DecodeStep | src/main/java/inf112/skeleton/app/screens/gifscreen/GifDecoder.java:273-342 | One round of the loop writes at most the next pixel and leaves later pixels unchanged; a round writing nothing has used input or bits. |
| GifDecoding.GifDecoder.ReadImageDescriptor | src/main/java/inf112/skeleton/app/screens/gifscreen/GifDecoder.java:568-587 | The rectangle and the packed byte are read; the active table is the global one, a fresh local one, or none. |
| GifDecoding.GifDecoder.ReadImage | src/main/java/inf112/skeleton/app/screens/gifscreen/GifDecoder.java:588-614 | Without error one frame with the current delay is added and the active table is as found; an error leaves the frames as they were. |
| GifDecoding.GifDecoder.ReadFrameData | src/main/java/inf112/skeleton/app/screens/gifscreen/GifDecoder.java:593-614 | Without error one frame is added and the transparent entry is restored; an error leaves the frames as they were. |
| GifDecoding.GifDecoder.ReadImageData | src/main/java/inf112/skeleton/app/screens/gifscreen/GifDecoder.java:599-600 | The LZW data is decoded and the rest of its sub-blocks skipped; the active table is unchanged. |
| GifDecoding.GifDecoder.AddFrame | src/main/java/inf112/skeleton/app/screens/gifscreen/GifDecoder.java:604-613 | When `ComposedImage` (the image's pixels through the active table, drawn over the backdrop the disposal leaves) succeeds, that image is appended as the frame with the current delay and the transparent entry is restored. When it fails, its exception is thrown and the frames are unchanged. |
| GifDecoding.GifDecoder.NewFrame | src/main/java/inf112/skeleton/app/screens/gifscreen/GifDecoder.java:604-607 | The frame count rises by one. Without exception, the image is the `width × height` pixmap `ComposedImage` gives for the counted frame. Otherwise the exception is the one `ComposedImage` names. |
| GifDecoding.GifDecoder.ReadScreen | src/main/java/inf112/skeleton/app/screens/gifscreen/GifDecoder.java:457-471 | `readHeader` keeps the decoder valid: a bad signature is a format error, and a global table it allocates has 256 entries. |

## Left out

- Rendering, UI, audio, threads and networking are not modelled:
  - screens and actors, tile sprites, the player sprite layer (`removePlayerFromBoard`/`removePlayersFromBoard` only touch that layer);
  - sounds and the global volume;
  - the `waitForCards` semaphore and `Thread.sleep` pacing in `doTurn`;
  - sockets and client threads.
- `GameServer.doAllMoves` and sending: the messages it sends and the moves it plays are returned as outputs, because the sockets and the game are not part of this model.
- Classes not part of this model, with the stand-ins used for them:
  - `Direction`: the four directions with `turnLeft`/`turnRight`/`turnAround`;
  - `BoardLogic`: `canGo` is the older board's wall rule, the push is the checked line rule (see Findings), and `outsideBoard` is the older board's test;
  - `Board.canFire`: `canGo` with the next cell on the board;
  - `Board.validRespawnPosition`: a board cell that is not a hole and is free;
  - `BoardLayers`: the layers are maps and sequences given to the constructor;
  - `Messages`: its `toString` is assumed to be the constant's name.
- `RotatePad`, `Deck`, `Registers` and `PlayerSorter` are not part of this model:
  - the rotate-pad phase, flag pickup at the end of a register, and the end-of-round discard and deal are not modelled;
  - the priority sort of `allPlayersPlayCard` is taken as a given order of cards and robots.
- `Collections.shuffle` and `Direction.getDirectionRandomOrder`: the alternative backup is "some valid (cell, facing) pair in the block", not a particular one.
- `Vector2`: positions are integer pairs, so `setPosition` and the copies made by `setBackup` are plain value assignments.
- Version skew:
  - `board/Board.java:138` calls a three-argument `chooseAlternativeBackupPosition`; the two-argument one of `Player.java` is modelled.
  - The older board's respawn and flag pickup call methods its own `Player` record lacks, so they are not modelled.
  - `RallyGame` calls the new board's `movePlayer` with one argument; it is modelled as `backUp = false`.
  - The `Player` constructor (`objects/player/Player.java:64`) passes its `String` colour to `TileID.getRobotId(int)` (`enums/TileID.java:177`). The robot's sprite ids, its `tiles` field, are left out, and `TileIds.GetRobotId` is modelled on a player number, as declared.
- LegacyBoard.Board.AddPlayer: `players.contains` compares `Player` objects by identity (the class has no `equals`); the model's robots are values, so an equal robot already listed counts as contained. The branch that respawns a robot outside the board or on a hole is left out, since `respawn` calls `getBackupPosition`, which this revision's `Player` lacks. The robot is listed wherever it stands.
- LegacyBoard.Board.AddPlayersToStartPositions: a start tile on a hole would send its robot through `addPlayer`'s respawn branch, which is left out as above.
- LegacyBoard.Board.constructor: ends before `addPlayersToStartPositions(numberOfPlayers)`. That call can throw, which a Dafny constructor cannot report, so `AddPlayersToStartPositions` models it as the next step. Hiding the laser layer is drawing and is not modelled.
- Robots.Laser.FireFrom: the Java beam has no board-bound check and would walk off the board; the model stops it at the board's edge.
- Robots.Player.ChooseAlternativeBackupPosition: requires a valid pair around the cell, or else ground on every cell and a start tile. Without ground everywhere the start-cell scan can throw, and that exception is not carried through the respawn. It tries the start cell's block at most once (see Findings).
- Robots.Player.DrawCards: the `Deck` stand-in is a finite list of cards, drawn from the front, and the method requires it to hold at least the hand's shortfall. A deck that runs out while the hand is short is excluded, because what `Deck.drawCard` does when empty is not part of this model.
- RallyGame.Game.RespawnPlayers: states that each living robot ends on its backup pair or its recorded alternative, not which of the two. `Rejoin` states which one for a single robot.
- RallyGame.Game.RespawnPlayers and RallyGame.Game.Rejoin: require ground on every cell and a start tile for every waiting robot, the conditions under which `ChooseAlternativeBackupPosition` is modelled, even for a robot whose backup cell is free.
- The new board's unfinished methods after line 286 of `board/Board.java` are not modelled.
- TileIds: `getId` returning the constructor argument is the definition of `Id`; that no two constants share an id is not proved as a lemma. Only the ids the lookups use are stated.
- GifDecoding.GifDecoder.ReadNetscapeExt: the new loop count is stated only as a value from 0 to 65535, not as the exact bytes it came from.
- GifDecoding.GifDecoder.ReadContents: the screen fields and global table are not restated (only `ReadHeader` states them); frames are stated as only growing.
- GifDecoding.GifDecoder.ContentStep: does not state the image's frame contents. Only `AddFrame` and `NewFrame` do, for the state once the image data is read.
- GifDecoding.GifDecoder.ReadBitmap: states that the new frame is the kept `lastPixmap` with the current delay, not its contents. Carrying `AddFrame`'s composed image through this method costs more proof effort than it can be given.
- GifDecoding.GifDecoder.ReadImage: like `ReadBitmap`, states the new frame as the kept `lastPixmap`, not its composed contents.
- GifDecoding.GifDecoder.ReadFrameData: like `ReadBitmap`, states the new frame as the kept `lastPixmap`, not its composed contents.
- GifDecoding.GifDecoder.Read: the decoded frames are not stated as one function of the input bytes. Each frame's contents are stated by `AddFrame`, and `ReadBitmap` and `ReadContents` state how the frame list grows.
- GifDecoding.GifDecoder.DecodePixels: the pixels are not stated as a function of the LZW data; the contract states the bounds and what stays untouched.
  - Every array access the decoder makes is checked, so an index outside a table is Java's exception, not an unproved write.
  - The table's 4096-code bound is not stated as a postcondition.
- `GifDecoder.read`: the check `frameCount < 0` is unreachable in the model, because `frameCount` counts frames without wrapping, so it is not modelled.
- Stream I/O: the `InputStream` becomes a byte sequence with a cursor. Partial reads of `read(buffer)` are as many bytes as are left. `close` and its swallowed exception are not modelled.
- `getAnimation`, `loadGIFAnimation`, the float `frameDuration`, and libGDX's `Pixmap`/`Texture`/`Animation` are not modelled. A pixmap is a value holding RGBA integers. `DixieMap.getPixels` overflowing `4 * index` is not modelled.
- Text.IsDigit, Text.DigitValue and Text.ParseInt: only the ASCII digits 0 to 9 are digits. `Character.isDigit`, `Character.getNumericValue` and `Integer.parseInt` also accept the other Unicode decimal digits (Arabic-Indic, Devanagari, fullwidth and so on), so `IsMessageFromAnotherPlayer`, `GetPlayerNumberFromMessage`, `ConvertToCard`, `GetNumbersOfPlayers` and `GetMyPlayerNumber` reject messages whose numbers use those digits, which Java reads.
- Converter.IsMessageFromAnotherPlayer: states only when it fails; the digit test is its definition. `PlayerMessageRoundTrip` and `HostMessageNotFromPlayer` state what it answers.
- Converter.GetNumbersOfPlayers and Converter.GetMyPlayerNumber: their own contracts state only the range; `PlayersRoundTrip` and `PlayerNumberRoundTrip` state what they read.

## Findings

| source | as written | input that shows it | evidently intended | confidence | as-written member | corrected member |
|---|---|---|---|---|---|---|
| src/main/java/inf112/skeleton/app/screens/gifscreen/GifDecoder.java:180-199 | When a pass runs out, the pass switch moves on by one pass only, even when that pass is empty too. | An interlaced image 2, 3 or 4 rows high. The second row goes to line 4, outside the image, and line 1 (line 3 when 4 high) is never written. | Each row lands on its line of the interlace order, a permutation of the image's lines (appendix E of GIF89a). | not executed | Interlace.InterlaceAsWrittenMisplaces | GifFrames.NextInterlacedLine, Interlace.InterlacedRowsPermutation |
| src/main/java/inf112/skeleton/app/RallyGame.java:354-363 | `player.getBeltPushPos().equals(...)` is called on robots whose intent is `null`. | Two robots where the first is on no belt, or three robots meaning to go to one cell: a `NullPointerException` is thrown. | Every intent that another robot shares is cancelled; robots without an intent are skipped. | not executed | RallyGame.ValidateAsWrittenFails | RallyGame.ValidatedApart, RallyGame.Game.ValidateBeltPushPos |
| src/main/java/inf112/skeleton/app/objects/player/Player.java:241-256 | With no valid pair around the cell, the method moves to the start cell and, when that is taken, calls itself on the start cell again. | The start cell is taken and no valid pair is in its block: the recursion never ends (a `StackOverflowError`). | Fall back to the start cell once and stop. | not executed | Robots.AlternativeAsWrittenDiverges | Robots.Player.ChooseAlternativeBackupPosition |
| src/main/java/inf112/skeleton/app/RallyGame.java:241-253 | The loop plays the cards of every robot in a copy of the list, including robots eliminated earlier in the same register. | A robot pushed into a hole by an earlier card of the register. It still plays its card, and `addPlayer` lists it in play while it waits to respawn. | A robot no longer in play does not play its card, and the two lists stay apart. | not executed | RallyGame.Game.PlayEliminated | RallyGame.Game.PlayCards |
| src/main/java/inf112/skeleton/app/lan/Converter.java:69-75 | `assert rotation != null` is skipped unless the JVM enables assertions. | `"10 1 null Move 1"` is accepted as a card with a `null` rotation. | A string without a rotation is not a program card. | not executed | Converter.NullRotationAccepted | Converter.ConvertToCard, Converter.CardRoundTrip |
| src/main/java/inf112/skeleton/app/Board.java:384-389 | `canPush` checks only the edge in front of the last robot of the line. | An east wall on (1,0) and robots on (0,0), (1,0) and (2,0), the first moving east. All three move, and the robot on (1,0) is pushed through its wall. | Every robot of the line must be able to cross its own forward edge. | not executed | Pushing.PushThroughWall | Pushing.MoveAllRespectsWalls, Robots.Board.MovePlayer |
