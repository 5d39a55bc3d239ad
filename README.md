# Roguelike map and entity core, modelled in Dafny

This project models the core of a small tutorial roguelike written in Rust:

- the 80 by 50 tile map (`TileMap`, in `tilemap.dfy`): walls and floors in one flat row-major vector, the
  coordinate-to-index mapping, carving rooms into a map of walls, the unused scatter-wall generator, and
  the projection of a map into draw commands with a cursor that wraps every 80 cells;
- the entity store and the frame (`Game`, in `game.dfy`): the component storages (position, renderable,
  player marker) keyed by entity number, the movement system that clamps the player to the map, the key
  dispatch, the frame order (clear, input, commit, map, entities), and the start-up world.

Drawing is modelled as the sequence of commands sent to the console (`Cls`, then `Set(x, y, fg, bg, glyph)`),
with colours as an enumeration (`Grey`, `Green`, `Yellow`, `Black`) standing for the RGB values. The map is
built in place in an `array`; the world keeps it as a sequence, read-only after start-up. The world is a
class whose storages are maps from entity number to component, and the joins run over entity numbers in
increasing order, as the store's bit-set joins do.

The model follows the code:

- The player starts at the literal cell (40, 25) (src/main.rs:118), not at the centre of the first room.
- The two rooms are parameters of `NewMapRoomsAndCorridors`: the rectangle constructor is not part of this
  model, so the rooms are given by their corners `x1, y1, x2, y2`, and nothing is assumed about what
  `Rect::new(20, 15, 10, 15)` builds. A room carves exactly the cells with `x1 < x <= x2` and `y1 < y <= y2`.
- In the scatter-wall generator the first loop leaves rows 0 and 49 as they were: row 0 stays Floor for
  1 <= x <= 78, and row 49 is Wall only at its ends and where a roll lands (see Findings).

## Model

| member | source | states |
|---|---|---|
| TileMap.XyIdx | src/map.rs:13-15 | for a cell on the 80x50 map the index is below 4000, and its remainder and quotient by 80 give back x and y |
| TileMap.XyIdxInjective | src/map.rs:13-15 | two cells share an index iff they are the same cell |
| TileMap.XyIdxOnto | src/map.rs:13-15 | every index below 4000 is the index of the cell (i % 80, i / 80) |
| TileMap.CarveAt | src/map.rs:63-69 | after carving, a cell is Floor iff it is in the room's half-open interior or was Floor; cells outside the room keep their tile |
| TileMap.ApplyRoomToMap | src/map.rs:63-69 | the nested loops set exactly the cells with x1 < x <= x2 and y1 < y <= y2 to Floor and leave every other cell unchanged, for a room whose cells lie on the map |
| TileMap.RoomsLayoutFloorIff | src/map.rs:51-61 | the generated map has 4000 cells, and a cell is Floor iff it is in the interior of room1 or room2; every other cell is Wall |
| TileMap.NewMapRoomsAndCorridors | src/map.rs:51-61 | returns a fresh 4000-cell map equal to all Wall with room1 and then room2 carved |
| TileMap.TileCommandGlyph | src/map.rs:84-91 | a Floor tile is drawn as '.' and a Wall as '#', on black, at the cell asked for |
| TileMap.MapCommandsAt | src/map.rs:80-98 | on a full map the tile at (x, y) is drawn at (x, y): the cursor agrees with XyIdx |
| TileMap.DrawMap | src/map.rs:76-100 | emits exactly one command per tile, the i-th at (i % 80, i / 80) with that tile's glyph and colours |
| TileMap.HitByInterior | src/map.rs:36-45 | no roll walls the start cell (40, 25), which the guard at map.rs:42 skips, and no roll lands on row 0 or column 0 |
| TileMap.WallColumnsAndScatter | src/map.rs:27-45 | walls columns 0 and 79 and every rolled cell except (40, 25), leaving the rest as it was |
| TileMap.NewMapTest | src/map.rs:19-48 | as written: columns 0 and 79 and the rolled cells other than (40, 25) are Wall, all else (rows 0 and 49 included) stays Floor |
| TileMap.ScatterTopRowOpen | src/map.rs:23-26 | as written, every cell (x, 0) with 1 <= x <= 78 stays Floor whatever the rolls |
| TileMap.NewMapTestWalled | src/map.rs:17-48 | corrected: rows 0 and 49 are walled as well |
| TileMap.ScatterBoundary | src/map.rs:17-45 | corrected, every boundary cell is Wall; as written, columns 0 and 79 are; in both the start cell (40, 25) stays Floor |
| Game.World.constructor | src/main.rs:108-110 | a new world has no entities, no components and no map |
| Game.World.CreateEntity | src/main.rs:116-125 | the builder gives the next entity number and adds exactly the components given to it, touching no other entity |
| Game.World.InsertTiles | src/main.rs:128 | the map becomes the world's resource |
| Game.Clamp | src/main.rs:80-81 | the result lies in [lo, hi], equals v when v is in range, and is the nearer bound otherwise |
| Game.ClampedMove | src/main.rs:80-81 | the moved position is on the map, and is exactly (x + dx, y + dy) when that is on the map |
| Game.MovePlayers | src/main.rs:75-83 | the storage keeps the same entities, every player ends on the map, and every non-player keeps its position |
| Game.TryMovePlayer | src/main.rs:75-83 | the join loop moves each entity with Player and Position by the clamped step and changes nothing else in the world |
| Game.KeyDelta | src/main.rs:87-96 | an arrow gives a unit step along one axis (Left is -x, Right +x, Up -y, Down +y); no key or any other key gives none |
| Game.PlayerInput | src/main.rs:85-97 | the positions after input are the clamped move for the key's step, or unchanged when there is none |
| Game.AfterInputFrame | src/main.rs:85-97 | no key or a non-arrow key leaves every position unchanged; any key keeps the entity set and every non-player's position |
| Game.AfterInputPlayer | src/main.rs:79-81 | a player's position after the frame is its position with one key press applied, on the map for an arrow |
| Game.RepeatedLeft | src/main.rs:80-90 | n Left presses from a cell on the map give x = max(0, x - n), reaching 0 and never below, y unchanged |
| Game.RepeatedRight | src/main.rs:80-91 | n Right presses give x = min(79, x + n), y unchanged |
| Game.RepeatedUp | src/main.rs:80-92 | n Up presses give y = max(0, y - n), x unchanged |
| Game.RepeatedDown | src/main.rs:80-93 | n Down presses give y = min(49, y + n), x unchanged |
| Game.PressNInBounds | src/main.rs:79-81 | from any start, at least one arrow press leaves the position on the map |
| Game.RightFromStart | src/main.rs:118 | from the start cell (40, 25), 100 Right presses end at (79, 25) |
| Game.EntityDrawn | src/main.rs:43-45 | every entity with both Position and Renderable is drawn at its position with its glyph and colours |
| Game.EntityCommandsJoined | src/main.rs:43-45 | every entity command comes from an entity holding both Position and Renderable |
| Game.EntityCommandsLength | src/main.rs:43-45 | the render join emits exactly as many commands as there are entities holding both Position and Renderable, so no entity is drawn twice |
| Game.RenderEntities | src/main.rs:39-45 | the render join emits, in entity order, one command per entity with both components, and every such entity of the world is drawn |
| Game.Tick | src/main.rs:28-47 | a frame is Cls, then the map's commands, then the entities' commands at their positions after the key's move; only positions change |
| Game.PlayerDrawnAfterMove | src/main.rs:29-45 | in a frame the map comes first and a drawable player is drawn after it at its moved position |
| Game.NewGame | src/main.rs:103-131 | the start-up world holds exactly one entity, a player at (40, 25) drawn as a yellow '@' on black, and the two-room map |
| Game.FirstFrameEntities | src/main.rs:116-125 | in the first frame the only entity drawn is the '@', at (40, 25) moved by the first key |

## Left out

- Window and context creation, `main_loop`, and the console calls themselves: drawing is a returned command sequence.
- Colour values are floats in the source (`RGB::from_f32`, `RGB::named`); they are an enumeration here.
- Glyphs are code-page-437 codes (`rltk::to_cp437`) in the source and `char` here; for '.', '#' and '@' the two codes coincide.
- Storage registration, the `fetch` panic when the map resource is missing, and `maintain`: nothing is ever queued, so the commit step is the identity and `Tick` has no step for it.
- The random number generator of `new_map_test`: its 400 rolls are an input sequence with 1 <= x <= 79 and 1 <= y <= 49.
- The first loop of `new_map_test` (src/map.rs:23-26) only compares tiles and discards the results, so it has no effect and is not written as a loop.
- src/rect.rs is not part of this model: rooms are given by their corners, with no constructor and no centre.
- `Viewshed` and `Monster` (src/components.rs) are declarations that no code uses.
- Negative or off-map arguments to `xy_idx`, which go through a cast to `usize` and alias or panic: `XyIdx` requires a cell on the map, and `ApplyRoomToMap` requires the room's cells to be on the map.
- 32-bit overflow of `i32` coordinates: integers are unbounded here.
- Game.TryMovePlayer: the order in which the join visits players is fixed to increasing entity number; the result does not depend on it.

## Findings

| source | as written | input that shows it | evidently intended | confidence | as-written member | corrected member |
|---|---|---|---|---|---|---|
| src/map.rs:23-26 | `let _ = map[xy_idx(x, 0)] == TileType::Wall;` compares instead of assigning, so the first loop leaves rows 0 and 49 as they were: row 0 stays Floor for 1 <= x <= 78, and row 49 is Wall only at its ends and where a roll lands | any 400 rolls: cell (1, 0) stays Floor (no roll has y = 0) | rows 0 and 49 assigned Wall, giving the solid boundary the doc comment and the loop's comment promise | high, not executed | TileMap.ScatterTopRowOpen | TileMap.NewMapTestWalled |
