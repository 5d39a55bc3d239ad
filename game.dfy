/** The entity store and the per-frame systems of the roguelike: components
    kept per entity, the movement system driven by the arrow keys, and the
    frame that clears the console, moves the player, draws the map and then
    every drawable entity. */
module Game {
  import opened TileMap

  datatype Option<T> = None | Some(value: T)

  /** Entities are numbered in creation order, as the store allocates them. */
  type Entity = nat

  datatype Position = Position(x: int, y: int)

  datatype Renderable = Renderable(glyph: char, fg: Colour, bg: Colour)

  /** The keys the input collaborator can report; every key other than the
      four arrows is one of the Other keys. */
  datatype Key = Left | Right | Up | Down | Other(code: nat)

  /** The world: one storage per component kind, keyed by entity, and the
      map resource. */
  class World {
    var nextId: nat
    var positions: map<Entity, Position>
    var renderables: map<Entity, Renderable>
    var players: set<Entity>
    var tiles: seq<TileType>

    /** Every stored component belongs to an entity already created. */
    ghost predicate Valid()
      reads this
    {
      (forall e :: e in positions ==> e < nextId) &&
      (forall e :: e in renderables ==> e < nextId) &&
      (forall e :: e in players ==> e < nextId)
    }

    constructor ()
      ensures Valid()
      ensures nextId == 0 && positions == map[] && renderables == map[] && players == {} && tiles == []
    {
      nextId := 0;
      positions := map[];
      renderables := map[];
      players := {};
      tiles := [];
    }

    /** Builds a new entity with the components given. */
    method CreateEntity(pos: Option<Position>, render: Option<Renderable>, isPlayer: bool) returns (e: Entity)
      requires Valid()
      modifies this`nextId, this`positions, this`renderables, this`players
      ensures Valid()
      ensures e == old(nextId) && nextId == e + 1
      ensures e !in old(positions) && e !in old(renderables) && e !in old(players)
      ensures positions == if pos.Some? then old(positions)[e := pos.value] else old(positions)
      ensures renderables == if render.Some? then old(renderables)[e := render.value] else old(renderables)
      ensures players == if isPlayer then old(players) + {e} else old(players)
    {
      e := nextId;
      nextId := nextId + 1;
      if pos.Some? {
        positions := positions[e := pos.value];
      }
      if render.Some? {
        renderables := renderables[e := render.value];
      }
      if isPlayer {
        players := players + {e};
      }
    }

    /** Stores the map as the world's resource. */
    method InsertTiles(t: seq<TileType>)
      requires Valid()
      modifies this`tiles
      ensures Valid()
      ensures tiles == t
    {
      tiles := t;
    }
  }

  // ---------------------------------------------------------------------
  // Movement

  /** v brought into [lo, hi]. */
  function Clamp(v: int, lo: int, hi: int): (r: int)
    requires lo <= hi
    ensures lo <= r <= hi
    ensures lo <= v <= hi ==> r == v
    ensures v < lo ==> r == lo
    ensures v > hi ==> r == hi
  {
    var atLeastLo := if v < lo then lo else v;
    if hi < atLeastLo then hi else atLeastLo
  }

  /** A position moved by (dx, dy), each coordinate clamped to the map. */
  function ClampedMove(p: Position, dx: int, dy: int): (q: Position)
    ensures InBounds(q.x, q.y)
    ensures InBounds(p.x + dx, p.y + dy) ==> q == Position(p.x + dx, p.y + dy)
  {
    Position(Clamp(p.x + dx, 0, 79), Clamp(p.y + dy, 0, 49))
  }

  /** The position storage after moving every entity that is a player. */
  function MovePlayers(positions: map<Entity, Position>, players: set<Entity>, dx: int, dy: int): (r: map<Entity, Position>)
    ensures r.Keys == positions.Keys
    ensures forall e :: e in positions && e in players ==> InBounds(r[e].x, r[e].y)
    ensures forall e :: e in positions && e !in players ==> r[e] == positions[e]
  {
    map e | e in positions :: if e in players then ClampedMove(positions[e], dx, dy) else positions[e]
  }

  /** Moves every entity that has both a Player and a Position. */
  method TryMovePlayer(dx: int, dy: int, ecs: World)
    requires ecs.Valid()
    modifies ecs`positions
    ensures ecs.Valid()
    ensures ecs.positions == MovePlayers(old(ecs.positions), old(ecs.players), dx, dy)
  {
    for e := 0 to ecs.nextId
      invariant ecs.positions.Keys == old(ecs.positions).Keys
      invariant forall k :: k in ecs.positions ==>
        ecs.positions[k] == if k in ecs.players && k < e then ClampedMove(old(ecs.positions)[k], dx, dy) else old(ecs.positions)[k]
    {
      if e in ecs.players && e in ecs.positions {
        var pos := ecs.positions[e];
        pos := pos.(x := Clamp(pos.x + dx, 0, 79));
        pos := pos.(y := Clamp(pos.y + dy, 0, 49));
        ecs.positions := ecs.positions[e := pos];
      }
    }
  }

  /** The step a key asks for: the arrows move one cell, with y growing
      downwards; no key or any other key asks for nothing. */
  function KeyDelta(key: Option<Key>): (d: Option<(int, int)>)
    ensures d.Some? <==> key.Some? && !key.value.Other?
    ensures d.Some? ==> (d.value.0 == 0) != (d.value.1 == 0)
    ensures d.Some? ==> -1 <= d.value.0 <= 1 && -1 <= d.value.1 <= 1
    ensures d.Some? ==> (d.value.0 < 0 <==> key.value == Left) && (d.value.0 > 0 <==> key.value == Right)
    ensures d.Some? ==> (d.value.1 < 0 <==> key.value == Up) && (d.value.1 > 0 <==> key.value == Down)
  {
    match key
    case None => None
    case Some(k) =>
      match k
      case Left => Some((-1, 0))
      case Right => Some((1, 0))
      case Up => Some((0, -1))
      case Down => Some((0, 1))
      case Other(_) => None
  }

  /** The position storage after the input of one frame. */
  function AfterInput(positions: map<Entity, Position>, players: set<Entity>, key: Option<Key>): map<Entity, Position> {
    match KeyDelta(key)
    case None => positions
    case Some(d) => MovePlayers(positions, players, d.0, d.1)
  }

  method PlayerInput(gs: World, key: Option<Key>)
    requires gs.Valid()
    modifies gs`positions
    ensures gs.Valid()
    ensures gs.positions == AfterInput(old(gs.positions), old(gs.players), key)
  {
    match KeyDelta(key) {
      case None =>
      case Some(d) => TryMovePlayer(d.0, d.1, gs);
    }
  }

  /** No key, or a key that is not an arrow, leaves every position as it was;
      an arrow changes nothing but the positions of players. */
  lemma AfterInputFrame(positions: map<Entity, Position>, players: set<Entity>, key: Option<Key>)
    ensures key.None? || key.value.Other? ==> AfterInput(positions, players, key) == positions
    ensures AfterInput(positions, players, key).Keys == positions.Keys
    ensures forall e :: e in positions && e !in players ==> AfterInput(positions, players, key)[e] == positions[e]
  {
  }

  /** One press of a key on a lone position. */
  function Press(p: Position, key: Key): Position {
    match KeyDelta(Some(key))
    case None => p
    case Some(d) => ClampedMove(p, d.0, d.1)
  }

  /** Every player's position after a frame is its position pressed once. */
  lemma AfterInputPlayer(positions: map<Entity, Position>, players: set<Entity>, key: Key, e: Entity)
    requires e in positions && e in players
    ensures e in AfterInput(positions, players, Some(key))
    ensures AfterInput(positions, players, Some(key))[e] == Press(positions[e], key)
    ensures InBounds(Press(positions[e], key).x, Press(positions[e], key).y) || key.Other?
  {
  }

  /** A key pressed n times. */
  function PressN(p: Position, key: Key, n: nat): Position {
    if n == 0 then p else Press(PressN(p, key, n - 1), key)
  }

  /** From any cell, pressing Left n times leaves x at max(0, x - n): it
      reaches 0 once n >= x and never goes below; y does not change. */
  lemma {:induction false} RepeatedLeft(p: Position, n: nat)
    requires InBounds(p.x, p.y)
    ensures PressN(p, Left, n) == Position(if p.x - n < 0 then 0 else p.x - n, p.y)
    ensures n >= p.x ==> PressN(p, Left, n).x == 0
  {
    if n > 0 {
      RepeatedLeft(p, n - 1);
    }
  }

  /** Pressing Right n times leaves x at min(79, x + n). */
  lemma {:induction false} RepeatedRight(p: Position, n: nat)
    requires InBounds(p.x, p.y)
    ensures PressN(p, Right, n) == Position(if p.x + n > 79 then 79 else p.x + n, p.y)
    ensures n >= 79 - p.x ==> PressN(p, Right, n).x == 79
  {
    if n > 0 {
      RepeatedRight(p, n - 1);
    }
  }

  /** Pressing Up n times leaves y at max(0, y - n). */
  lemma {:induction false} RepeatedUp(p: Position, n: nat)
    requires InBounds(p.x, p.y)
    ensures PressN(p, Up, n) == Position(p.x, if p.y - n < 0 then 0 else p.y - n)
    ensures n >= p.y ==> PressN(p, Up, n).y == 0
  {
    if n > 0 {
      RepeatedUp(p, n - 1);
    }
  }

  /** Pressing Down n times leaves y at min(49, y + n). */
  lemma {:induction false} RepeatedDown(p: Position, n: nat)
    requires InBounds(p.x, p.y)
    ensures PressN(p, Down, n) == Position(p.x, if p.y + n > 49 then 49 else p.y + n)
    ensures n >= 49 - p.y ==> PressN(p, Down, n).y == 49
  {
    if n > 0 {
      RepeatedDown(p, n - 1);
    }
  }

  /** Whatever the start, after at least one arrow press the position is on
      the map, and it stays there. */
  lemma PressNInBounds(p: Position, key: Key, n: nat)
    requires n > 0 && !key.Other?
    ensures InBounds(PressN(p, key, n).x, PressN(p, key, n).y)
  {
  }

  /** From the start cell (40, 25), a hundred Right presses end at (79, 25). */
  lemma RightFromStart()
    ensures PressN(Position(40, 25), Right, 100) == Position(79, 25)
  {
    RepeatedRight(Position(40, 25), 100);
  }

  // ---------------------------------------------------------------------
  // Rendering and the frame

  /** The command that draws an entity. */
  function EntityCommand(p: Position, r: Renderable): Command {
    Set(p.x, p.y, r.fg, r.bg, r.glyph)
  }

  /** The commands for entities 0 .. n - 1 that have both a Position and a
      Renderable, in the order of their numbers. */
  function EntityCommands(positions: map<Entity, Position>, renderables: map<Entity, Renderable>, n: nat): seq<Command> {
    if n == 0 then []
    else
      EntityCommands(positions, renderables, n - 1) +
      (if n - 1 in positions && n - 1 in renderables then [EntityCommand(positions[n - 1], renderables[n - 1])] else [])
  }

  /** Every entity with both components is drawn at its position with its
      glyph and colours. */
  lemma {:induction false} EntityDrawn(positions: map<Entity, Position>, renderables: map<Entity, Renderable>, n: nat, e: Entity)
    requires e < n && e in positions && e in renderables
    ensures EntityCommand(positions[e], renderables[e]) in EntityCommands(positions, renderables, n)
  {
    if e < n - 1 {
      EntityDrawn(positions, renderables, n - 1, e);
    }
  }

  /** Nothing else is drawn: each entity command belongs to an entity with
      both components (EntityCommandsLength gives one per such entity). */
  lemma {:induction false} EntityCommandsJoined(positions: map<Entity, Position>, renderables: map<Entity, Renderable>, n: nat, c: Command)
    requires c in EntityCommands(positions, renderables, n)
    ensures exists e :: 0 <= e < n && e in positions && e in renderables && c == EntityCommand(positions[e], renderables[e])
  {
    if c !in EntityCommands(positions, renderables, n - 1) {
      assert c == EntityCommand(positions[n - 1], renderables[n - 1]);
    } else {
      EntityCommandsJoined(positions, renderables, n - 1, c);
    }
  }

  /** Exactly one command per entity that has both a Position and a
      Renderable. */
  lemma {:induction false} EntityCommandsLength(positions: map<Entity, Position>, renderables: map<Entity, Renderable>, n: nat)
    ensures |EntityCommands(positions, renderables, n)| == |set e: Entity | 0 <= e < n && e in positions && e in renderables|
  {
    var joined := set e: Entity | 0 <= e < n && e in positions && e in renderables;
    if n == 0 {
      assert joined == {};
    } else {
      EntityCommandsLength(positions, renderables, n - 1);
      var before := set e: Entity | 0 <= e < n - 1 && e in positions && e in renderables;
      if n - 1 in positions && n - 1 in renderables {
        assert joined == before + {n - 1};
      } else {
        assert joined == before;
      }
    }
  }

  /** The render join: entities in number order, drawn if they have both a
      Position and a Renderable. */
  method RenderEntities(gs: World) returns (cmds: seq<Command>)
    requires gs.Valid()
    ensures cmds == EntityCommands(gs.positions, gs.renderables, gs.nextId)
    ensures forall e :: e in gs.positions && e in gs.renderables ==>
      EntityCommand(gs.positions[e], gs.renderables[e]) in cmds
  {
    cmds := [];
    for e := 0 to gs.nextId
      invariant cmds == EntityCommands(gs.positions, gs.renderables, e)
    {
      if e in gs.positions && e in gs.renderables {
        cmds := cmds + [EntityCommand(gs.positions[e], gs.renderables[e])];
      }
    }
    forall e | e in gs.positions && e in gs.renderables
      ensures EntityCommand(gs.positions[e], gs.renderables[e]) in cmds
    {
      EntityDrawn(gs.positions, gs.renderables, gs.nextId, e);
    }
  }

  /** One frame: clear, apply the key, commit the store (nothing is ever
      queued, so this changes nothing), draw the map, then the entities on
      top, at their positions after the move. */
  method Tick(gs: World, key: Option<Key>) returns (frame: seq<Command>)
    requires gs.Valid()
    modifies gs`positions
    ensures gs.Valid()
    ensures gs.positions == AfterInput(old(gs.positions), old(gs.players), key)
    ensures frame == [Cls] + MapCommands(gs.tiles) + EntityCommands(gs.positions, gs.renderables, gs.nextId)
  {
    frame := [Cls];
    PlayerInput(gs, key);
    var mapCmds := DrawMap(gs.tiles);
    frame := frame + mapCmds;
    var entityCmds := RenderEntities(gs);
    frame := frame + entityCmds;
  }

  /** A drawable player is drawn where its key press took it, after the map. */
  lemma PlayerDrawnAfterMove(positions: map<Entity, Position>, renderables: map<Entity, Renderable>, players: set<Entity>,
                             tiles: seq<TileType>, n: nat, key: Key, e: Entity)
    requires e < n && e in positions && e in renderables && e in players
    ensures var frame := [Cls] + MapCommands(tiles) + EntityCommands(AfterInput(positions, players, Some(key)), renderables, n);
            frame[0] == Cls && frame[1..1 + |tiles|] == MapCommands(tiles) &&
            EntityCommand(Press(positions[e], key), renderables[e]) in frame[1 + |tiles|..]
  {
    var moved := AfterInput(positions, players, Some(key));
    AfterInputPlayer(positions, players, key, e);
    EntityDrawn(moved, renderables, n, e);
    var frame := [Cls] + MapCommands(tiles) + EntityCommands(moved, renderables, n);
    assert frame[1..1 + |tiles|] == MapCommands(tiles);
    assert frame[1 + |tiles|..] == EntityCommands(moved, renderables, n);
  }

  // ---------------------------------------------------------------------
  // Start-up

  /** The game as started: one player entity at (40, 25) drawn as a yellow
      '@' on black, then the two-room map stored as the world's resource. */
  method NewGame(room1: Rect, room2: Rect) returns (gs: World)
    requires RoomFits(room1) && RoomFits(room2)
    ensures fresh(gs) && gs.Valid()
    ensures gs.nextId == 1 && gs.players == {0}
    ensures gs.positions == map[0 := Position(40, 25)]
    ensures gs.renderables == map[0 := Renderable('@', Yellow, Black)]
    ensures gs.tiles == RoomsLayout(room1, room2)
  {
    gs := new World();
    var player := gs.CreateEntity(Some(Position(40, 25)), Some(Renderable('@', Yellow, Black)), true);
    var tiles := NewMapRoomsAndCorridors(room1, room2);
    gs.InsertTiles(tiles[..]);
  }

  /** In the first world the only entity is the player, which is drawn as
      one yellow '@' at (40, 25) whatever key is pressed first, moved by it. */
  lemma FirstFrameEntities(key: Option<Key>)
    ensures var moved := AfterInput(map[0 := Position(40, 25)], {0}, key);
            EntityCommands(moved, map[0 := Renderable('@', Yellow, Black)], 1) ==
              [Set(moved[0].x, moved[0].y, Yellow, Black, '@')]
    ensures key.None? ==> AfterInput(map[0 := Position(40, 25)], {0}, key)[0] == Position(40, 25)
  {
  }
}
