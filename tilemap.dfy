/** The tile map of the roguelike: an 80 by 50 grid of tiles stored row by
    row in one flat vector, the generators that fill it and the projection
    that turns it into draw commands. */
module TileMap {

  const Width: int := 80
  const Height: int := 50
  const MapSize: int := 4000

  datatype TileType = Wall | Floor

  /** Colours the core uses, standing for the renderer's RGB values. */
  datatype Colour = Grey | Green | Yellow | Black

  /** What the core asks of the output surface: clear the console, or put
      one glyph at a cell with a foreground and a background colour. */
  datatype Command = Cls | Set(x: int, y: int, fg: Colour, bg: Colour, glyph: char)

  predicate InBounds(x: int, y: int) {
    0 <= x < Width && 0 <= y < Height
  }

  /** Row-major index of cell (x, y); the cell is recovered from the index
      by its remainder and quotient by the width. */
  function XyIdx(x: int, y: int): (idx: int)
    requires InBounds(x, y)
    ensures 0 <= idx < MapSize
    ensures idx % Width == x && idx / Width == y
  {
    y * Width + x
  }

  /** Two distinct cells never share an index. */
  lemma XyIdxInjective(x1: int, y1: int, x2: int, y2: int)
    requires InBounds(x1, y1) && InBounds(x2, y2)
    ensures XyIdx(x1, y1) == XyIdx(x2, y2) <==> x1 == x2 && y1 == y2
  {
  }

  /** Every index of the map is the index of exactly the cell given by its
      remainder and quotient. */
  lemma XyIdxOnto(i: int)
    requires 0 <= i < MapSize
    ensures InBounds(i % Width, i / Width) && XyIdx(i % Width, i / Width) == i
  {
  }

  // ---------------------------------------------------------------------
  // Rooms

  /** A rectangle given by its corners; how a rectangle is built from an
      origin and a size is not part of this model. */
  datatype Rect = Rect(x1: int, y1: int, x2: int, y2: int)

  /** The cells a room carves: x1 < x <= x2 and y1 < y <= y2. */
  predicate InRoom(room: Rect, x: int, y: int) {
    room.x1 < x <= room.x2 && room.y1 < y <= room.y2
  }

  /** The carved cells of the room all lie on the map (trivially so when
      there are none). */
  predicate RoomFits(room: Rect) {
    room.x2 <= room.x1 || room.y2 <= room.y1 ||
    (-1 <= room.x1 && room.x2 < Width && -1 <= room.y1 && room.y2 < Height)
  }

  /** The map after carving a room: its cells become Floor, the others keep
      their tile. */
  function Carve(tiles: seq<TileType>, room: Rect): (r: seq<TileType>)
  {
    seq(|tiles|, i requires 0 <= i < |tiles| =>
      if InRoom(room, i % Width, i / Width) then Floor else tiles[i])
  }

  /** Carving a room into a map: a cell is Floor afterwards iff it is in the
      room or was Floor before. */
  lemma CarveAt(tiles: seq<TileType>, room: Rect, x: int, y: int)
    requires |tiles| == MapSize && InBounds(x, y)
    ensures |Carve(tiles, room)| == MapSize
    ensures Carve(tiles, room)[XyIdx(x, y)] == Floor <==> InRoom(room, x, y) || tiles[XyIdx(x, y)] == Floor
    ensures !InRoom(room, x, y) ==> Carve(tiles, room)[XyIdx(x, y)] == tiles[XyIdx(x, y)]
  {
  }

  method ApplyRoomToMap(room: Rect, tiles: array<TileType>)
    requires tiles.Length == MapSize
    requires RoomFits(room)
    modifies tiles
    ensures tiles[..] == Carve(old(tiles[..]), room)
  {
    var y := room.y1 + 1;
    while y <= room.y2
      invariant y == room.y1 + 1 || room.y1 + 1 <= y <= room.y2 + 1
      invariant forall i :: 0 <= i < MapSize ==>
        tiles[i] == if InRoom(room, i % Width, i / Width) && i / Width < y then Floor else old(tiles[i])
    {
      var x := room.x1 + 1;
      while x <= room.x2
        invariant x == room.x1 + 1 || room.x1 + 1 <= x <= room.x2 + 1
        invariant forall i :: 0 <= i < MapSize ==>
          tiles[i] == if InRoom(room, i % Width, i / Width) && (i / Width < y || (i / Width == y && i % Width < x))
                      then Floor else old(tiles[i])
      {
        tiles[XyIdx(x, y)] := Floor;
        x := x + 1;
      }
      y := y + 1;
    }
    assert forall i :: 0 <= i < MapSize ==> tiles[..][i] == Carve(old(tiles[..]), room)[i];
  }

  function AllWalls(): seq<TileType> {
    seq(MapSize, _ => Wall)
  }

  /** The map of two rooms: all Wall, then room1 and room2 carved. */
  function RoomsLayout(room1: Rect, room2: Rect): seq<TileType> {
    Carve(Carve(AllWalls(), room1), room2)
  }

  /** After generation, a cell is Floor exactly when it lies in the carved
      part of one of the two rooms; every other cell is Wall. */
  lemma RoomsLayoutFloorIff(room1: Rect, room2: Rect, x: int, y: int)
    requires InBounds(x, y)
    ensures |RoomsLayout(room1, room2)| == MapSize
    ensures RoomsLayout(room1, room2)[XyIdx(x, y)] == Floor <==> InRoom(room1, x, y) || InRoom(room2, x, y)
  {
    CarveAt(AllWalls(), room1, x, y);
    CarveAt(Carve(AllWalls(), room1), room2, x, y);
  }

  method NewMapRoomsAndCorridors(room1: Rect, room2: Rect) returns (tiles: array<TileType>)
    requires RoomFits(room1) && RoomFits(room2)
    ensures fresh(tiles)
    ensures tiles[..] == RoomsLayout(room1, room2)
  {
    tiles := new TileType[MapSize](_ => Wall);
    assert tiles[..] == AllWalls();
    ApplyRoomToMap(room1, tiles);
    ApplyRoomToMap(room2, tiles);
  }

  // ---------------------------------------------------------------------
  // Drawing

  /** The command that draws one tile at (x, y). */
  function TileCommand(t: TileType, x: int, y: int): Command {
    match t
    case Floor => Set(x, y, Grey, Black, '.')
    case Wall => Set(x, y, Green, Black, '#')
  }

  /** A floor tile is drawn as '.' in grey and a wall as '#' in green, both
      on black, at the cell asked for. */
  lemma TileCommandGlyph(t: TileType, x: int, y: int)
    ensures TileCommand(t, x, y).Set? && TileCommand(t, x, y).x == x && TileCommand(t, x, y).y == y
    ensures TileCommand(t, x, y).bg == Black
    ensures TileCommand(t, x, y).glyph == '.' <==> t == Floor
    ensures TileCommand(t, x, y).glyph == '#' <==> t == Wall
  {
  }

  /** The commands of a map: the i-th tile drawn at (i % 80, i / 80). */
  function MapCommands(tiles: seq<TileType>): seq<Command> {
    seq(|tiles|, i requires 0 <= i < |tiles| => TileCommand(tiles[i], i % Width, i / Width))
  }

  /** On a full map the tile at (x, y) is drawn at (x, y): the drawing cursor
      agrees with XyIdx. */
  lemma MapCommandsAt(tiles: seq<TileType>, x: int, y: int)
    requires |tiles| == MapSize && InBounds(x, y)
    ensures |MapCommands(tiles)| == MapSize
    ensures MapCommands(tiles)[XyIdx(x, y)] == TileCommand(tiles[XyIdx(x, y)], x, y)
  {
  }

  /** Walks the map with a cursor that wraps every 80 cells, one command per
      tile. */
  method DrawMap(tiles: seq<TileType>) returns (cmds: seq<Command>)
    ensures |cmds| == |tiles|
    ensures forall i :: 0 <= i < |tiles| ==> cmds[i] == TileCommand(tiles[i], i % Width, i / Width)
    ensures cmds == MapCommands(tiles)
  {
    var x, y := 0, 0;
    cmds := [];
    for i := 0 to |tiles|
      invariant |cmds| == i
      invariant x == i % Width && y == i / Width
      invariant forall j :: 0 <= j < i ==> cmds[j] == TileCommand(tiles[j], j % Width, j / Width)
    {
      cmds := cmds + [TileCommand(tiles[i], x, y)];
      x := x + 1;
      if x > 79 {
        x := 0;
        y := y + 1;
      }
    }
  }

  // ---------------------------------------------------------------------
  // The scatter-wall test generator (not called by the game)

  /** A dice roll as the generator draws it: x in 1..79, y in 1..49. */
  predicate ValidRoll(roll: (int, int)) {
    1 <= roll.0 <= 79 && 1 <= roll.1 <= 49
  }

  /** The cell where the player starts, which the scatter loop keeps open. */
  function StartIdx(): int {
    XyIdx(40, 25)
  }

  /** Some roll of rs walls cell i: it lands there and i is not the start
      cell, which the guard skips. */
  predicate HitBy(rs: seq<(int, int)>, i: int)
    requires forall k :: 0 <= k < |rs| ==> ValidRoll(rs[k])
  {
    |rs| > 0 &&
    var last := rs[|rs| - 1];
    assert ValidRoll(last);
    HitBy(rs[..|rs| - 1], i) || (XyIdx(last.0, last.1) == i && i != StartIdx())
  }

  /** No roll walls the start cell, which the guard skips even when a roll
      lands on it, and no roll lands on row 0 or column 0. */
  lemma {:induction false} HitByInterior(rs: seq<(int, int)>, i: int)
    requires forall k :: 0 <= k < |rs| ==> ValidRoll(rs[k])
    requires HitBy(rs, i)
    ensures i != StartIdx()
    ensures Width <= i < MapSize && i % Width != 0
  {
    if !HitBy(rs[..|rs| - 1], i) {
      var r := rs[|rs| - 1];
      assert ValidRoll(r);
    } else {
      HitByInterior(rs[..|rs| - 1], i);
    }
  }

  /** The generator's map: Wall on columns 0 and 79, on rows 0 and 49 when
      rowsWalled, and wherever a roll landed; Floor elsewhere. */
  function ScatterLayout(rolls: seq<(int, int)>, rowsWalled: bool): seq<TileType>
    requires forall k :: 0 <= k < |rolls| ==> ValidRoll(rolls[k])
  {
    seq(MapSize, i requires 0 <= i < MapSize =>
      if i % Width == 0 || i % Width == 79 || (rowsWalled && (i / Width == 0 || i / Width == 49)) || HitBy(rolls, i)
      then Wall else Floor)
  }

  /** The column loop and the scatter loop, shared by both variants of the
      generator. */
  method WallColumnsAndScatter(rolls: seq<(int, int)>, tiles: array<TileType>, ghost rowsWalled: bool)
    requires forall k :: 0 <= k < |rolls| ==> ValidRoll(rolls[k])
    requires tiles.Length == MapSize
    requires forall i :: 0 <= i < MapSize ==>
      tiles[i] == if rowsWalled && (i / Width == 0 || i / Width == 49) then Wall else Floor
    modifies tiles
    ensures tiles[..] == ScatterLayout(rolls, rowsWalled)
  {
    for y := 0 to 50
      invariant forall i :: 0 <= i < MapSize ==>
        tiles[i] == if ((i % Width == 0 || i % Width == 79) && i / Width < y) || (rowsWalled && (i / Width == 0 || i / Width == 49))
                    then Wall else Floor
    {
      tiles[XyIdx(0, y)] := Wall;
      tiles[XyIdx(79, y)] := Wall;
    }
    for k := 0 to |rolls|
      invariant forall i :: 0 <= i < MapSize ==>
        tiles[i] == if i % Width == 0 || i % Width == 79 || (rowsWalled && (i / Width == 0 || i / Width == 49)) || HitBy(rolls[..k], i)
                    then Wall else Floor
    {
      var x, y := rolls[k].0, rolls[k].1;
      var idx := XyIdx(x, y);
      assert rolls[..k + 1][..k] == rolls[..k];
      if idx != XyIdx(40, 25) {
        tiles[idx] := Wall;
      }
    }
    assert rolls[..|rolls|] == rolls;
    assert forall i :: 0 <= i < MapSize ==> tiles[..][i] == ScatterLayout(rolls, rowsWalled)[i];
  }

  /** The generator as written: its first loop compares the tiles of rows 0
      and 49 with Wall and discards the result, so those rows are left as
      they are; that loop has no effect and is not modelled. */
  method NewMapTest(rolls: seq<(int, int)>) returns (tiles: array<TileType>)
    requires |rolls| == 400
    requires forall k :: 0 <= k < |rolls| ==> ValidRoll(rolls[k])
    ensures fresh(tiles)
    ensures tiles[..] == ScatterLayout(rolls, false)
  {
    tiles := new TileType[MapSize](_ => Floor);
    WallColumnsAndScatter(rolls, tiles, false);
  }

  /** The generator with its first loop assigning Wall to rows 0 and 49, as
      its comment and its doc comment (a solid boundary) intend. */
  method NewMapTestWalled(rolls: seq<(int, int)>) returns (tiles: array<TileType>)
    requires |rolls| == 400
    requires forall k :: 0 <= k < |rolls| ==> ValidRoll(rolls[k])
    ensures fresh(tiles)
    ensures tiles[..] == ScatterLayout(rolls, true)
  {
    tiles := new TileType[MapSize](_ => Floor);
    for x := 0 to 80
      invariant forall i :: 0 <= i < MapSize ==>
        tiles[i] == if (i / Width == 0 || i / Width == 49) && i % Width < x then Wall else Floor
    {
      tiles[XyIdx(x, 0)] := Wall;
      tiles[XyIdx(x, 49)] := Wall;
    }
    WallColumnsAndScatter(rolls, tiles, true);
  }

  /** As written, the top row is open: cell (1, 0) stays Floor whatever the
      rolls, although the generator promises a solid boundary. */
  lemma {:induction false} ScatterTopRowOpen(rolls: seq<(int, int)>, x: int)
    requires forall k :: 0 <= k < |rolls| ==> ValidRoll(rolls[k])
    requires 1 <= x <= 78
    ensures ScatterLayout(rolls, false)[XyIdx(x, 0)] == Floor
  {
    if HitBy(rolls, XyIdx(x, 0)) {
      HitByInterior(rolls, XyIdx(x, 0));
    }
  }

  /** With the rows walled, every boundary cell is Wall, and in both
      variants the start cell (40, 25) stays Floor. */
  lemma {:induction false} ScatterBoundary(rolls: seq<(int, int)>, x: int, y: int)
    requires forall k :: 0 <= k < |rolls| ==> ValidRoll(rolls[k])
    requires InBounds(x, y)
    ensures (x == 0 || x == 79 || y == 0 || y == 49) ==> ScatterLayout(rolls, true)[XyIdx(x, y)] == Wall
    ensures (x == 0 || x == 79) ==> ScatterLayout(rolls, false)[XyIdx(x, y)] == Wall
    ensures ScatterLayout(rolls, true)[StartIdx()] == Floor && ScatterLayout(rolls, false)[StartIdx()] == Floor
  {
    if HitBy(rolls, StartIdx()) {
      HitByInterior(rolls, StartIdx());
    }
  }
}
