/** The rooms architect's result: the player starts in the first room, and
    every other room's center becomes a spawn location.

    The carving helpers (fill, random rooms, corridors, the most-distant
    search), `Map::new` and `Rect::center` are not part of this model; they
    are passed in as functions. Random draws they make are folded into
    those functions. The helpers are taken to touch only the map and the
    room list. */
module Rooms {
  import opened Prelude
  import opened Themes

  /** A room rectangle (bracket-lib `Rect`). */
  datatype Rect = Rect(x1: Int32, y1: Int32, x2: Int32, y2: Int32)

  /** A spawn point with an optional hint of which entity to place there. */
  datatype SpawnLocation = SpawnLocation(point: Point, preferredEntity: Option<string>)

  datatype MapBuilder = MapBuilder(
    grid: GameMap,
    rooms: seq<Rect>,
    spawnLocations: seq<SpawnLocation>,
    playerStart: Point,
    amuletStart: Point,
    theme: Theme)

  /** The helpers the architect calls, as uninterpreted functions. */
  datatype Carving = Carving(
    newMap: GameMap,
    fill: (GameMap, TileType) -> GameMap,
    buildRandomRooms: GameMap -> (GameMap, seq<Rect>),
    buildCorridors: (GameMap, seq<Rect>) -> GameMap,
    findMostDistant: (GameMap, Point) -> Point,
    center: Rect -> Point)

  /** Indexing the first room of an empty room list panics. */
  datatype ArchitectError = NoRooms

  /** The map and rooms after filling with Wall and placing random rooms. */
  function RoomStage(c: Carving): (GameMap, seq<Rect>) {
    c.buildRandomRooms(c.fill(c.newMap, Wall))
  }

  /** The centers of a list of rooms, in order. */
  function Centers(center: Rect -> Point, rooms: seq<Rect>): (r: seq<Point>)
    ensures |r| == |rooms|
    ensures forall i :: 0 <= i < |rooms| ==> r[i] == center(rooms[i])
  {
    if rooms == [] then [] else [center(rooms[0])] + Centers(center, rooms[1..])
  }

  /** The points of a list of spawn locations, in order. */
  function SpawnPoints(locations: seq<SpawnLocation>): (r: seq<Point>)
    ensures |r| == |locations|
    ensures forall i :: 0 <= i < |locations| ==> r[i] == locations[i].point
  {
    if locations == [] then [] else [locations[0].point] + SpawnPoints(locations[1..])
  }

  /** `RoomsArchitect::create_map_builder`. */
  method CreateMapBuilder(c: Carving) returns (r: Result<MapBuilder, ArchitectError>)
    ensures r.Err? <==> RoomStage(c).1 == []
    ensures r.Ok? ==> r.value.rooms == RoomStage(c).1
    ensures r.Ok? ==> r.value.theme == DungeonTheme
    ensures r.Ok? ==> r.value.grid == c.buildCorridors(RoomStage(c).0, RoomStage(c).1)
    ensures r.Ok? ==> r.value.playerStart == c.center(r.value.rooms[0])
    ensures r.Ok? ==> r.value.amuletStart == c.findMostDistant(r.value.grid, r.value.playerStart)
    ensures r.Ok? ==> |r.value.spawnLocations| == |r.value.rooms| - 1
    ensures r.Ok? ==> forall i :: 0 <= i < |r.value.spawnLocations| ==>
      r.value.spawnLocations[i] == SpawnLocation(c.center(r.value.rooms[i + 1]), None)
    ensures r.Ok? ==>
      [r.value.playerStart] + SpawnPoints(r.value.spawnLocations) == Centers(c.center, r.value.rooms)
  {
    var mb := MapBuilder(c.newMap, [], [], Point(0, 0), Point(0, 0), DungeonTheme);
    mb := mb.(grid := c.fill(mb.grid, Wall));
    var built := c.buildRandomRooms(mb.grid);
    mb := mb.(grid := built.0, rooms := mb.rooms + built.1);
    mb := mb.(grid := c.buildCorridors(mb.grid, mb.rooms));
    if |mb.rooms| == 0 {
      return Err(NoRooms);
    }
    mb := mb.(playerStart := c.center(mb.rooms[0]));
    mb := mb.(amuletStart := c.findMostDistant(mb.grid, mb.playerStart));
    var i := 1;
    while i < |mb.rooms|
      invariant 1 <= i <= |mb.rooms|
      invariant |mb.spawnLocations| == i - 1
      invariant forall j :: 0 <= j < i - 1 ==>
        mb.spawnLocations[j] == SpawnLocation(c.center(mb.rooms[j + 1]), None)
      invariant mb.rooms == built.1 && mb.theme == DungeonTheme
      invariant mb.grid == c.buildCorridors(built.0, built.1)
      invariant mb.playerStart == c.center(mb.rooms[0])
      invariant mb.amuletStart == c.findMostDistant(mb.grid, mb.playerStart)
    {
      mb := mb.(spawnLocations := mb.spawnLocations + [SpawnLocation(c.center(mb.rooms[i]), None)]);
      i := i + 1;
    }
    assert [mb.playerStart] + SpawnPoints(mb.spawnLocations) == Centers(c.center, mb.rooms);
    r := Ok(mb);
  }
}
