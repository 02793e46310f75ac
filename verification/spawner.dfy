/** Level population and the two fixed entities: the player and the
    Amulet of Yala. Each `push` becomes one entity appended to the world. */
module Spawner {
  import opened Prelude
  import opened Components
  import Templates

  /** Every entity of the world respects the one-component-per-type rule. */
  predicate WellFormedWorld(world: Templates.World) {
    forall i :: 0 <= i < |world| ==> OnePerType(world[i])
  }

  /** Spawns the level's entities from the catalog; the catalog is an input
      here rather than loaded from a file. */
  function SpawnLevel(catalog: seq<Templates.Template>, world: Templates.World, level: nat,
                      points: seq<Point>, draws: seq<nat>): (r: Result<Templates.World, Templates.SpawnError>)
    requires Templates.ValidDraws(Templates.Pool(catalog, level), points, draws)
    ensures r == Templates.SpawnEntities(catalog, world, level, points, draws)
    ensures r.Ok? ==> r.value[..|world|] == world
    ensures r.Ok? && Templates.Pool(catalog, level) != [] ==>
      forall i :: 0 <= i < |points| ==> Position(points[i]) in r.value[|world| + i]
    ensures r.Ok? && WellFormedWorld(world) ==> WellFormedWorld(r.value)
  {
    var r := Templates.SpawnEntities(catalog, world, level, points, draws);
    assert r.Ok? && Templates.Pool(catalog, level) != [] ==> forall i :: 0 <= i < |points| ==>
      Templates.Materializes(points[i], Templates.Pool(catalog, level)[draws[i]], r.value[|world| + i]);
    r
  }

  /** The player: level 0, at `pos`, drawn as '@', 10 of 10 health, sight
      radius 8, damage 1; it has no name and is neither item nor enemy. */
  function SpawnPlayer(world: Templates.World, pos: Point): (r: Templates.World)
    ensures |r| == |world| + 1 && r[..|world|] == world
    ensures var e := r[|world|];
      && Player(0) in e && Position(pos) in e && Render('@') in e
      && Health(10, 10) in e && FieldOfView(8) in e && Damage(1) in e
      && |e| == 6
    ensures forall c :: c in r[|world|] ==> !c.Name? && !c.Item? && !c.Enemy?
    ensures WellFormedWorld(world) ==> WellFormedWorld(r)
  {
    world + [{Player(0), Position(pos), Render('@'), Health(10, 10), FieldOfView(8), Damage(1)}]
  }

  /** The amulet: an item marked as the Amulet of Yala, at `position`, drawn
      as '|', named "Amulet of Yala"; it has no health and deals no damage. */
  function SpawnAmuletOfYala(world: Templates.World, position: Point): (r: Templates.World)
    ensures |r| == |world| + 1 && r[..|world|] == world
    ensures var e := r[|world|];
      && Item in e && AmuletOfYala in e && Position(position) in e
      && Render('|') in e && Name("Amulet of Yala") in e
      && |e| == 5
    ensures forall c :: c in r[|world|] ==> !c.Health? && !c.Damage? && !c.Player?
    ensures WellFormedWorld(world) ==> WellFormedWorld(r)
  {
    world + [{Item, AmuletOfYala, Position(position), Render('|'), Name("Amulet of Yala")}]
  }
}
